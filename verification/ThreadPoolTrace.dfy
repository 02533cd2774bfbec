/**
  What the pool does, told from the labels of a run alone: which entries the insertions
  made, which tickets are still queued, what a worker holds, in which order entries leave
  the queue, and how many pills each Pause inserts.
*/
module ThreadPoolTrace {
  import opened Counting
  import opened ThreadPool
  import opened ThreadPoolInvariant

  // ------------------------------------------------------------- insertions

  /** The entries inserted by the labels, in order; the k-th has ticket k. */
  function EntriesOf(ls: seq<Label>): seq<Entry>
    decreases |ls|
  {
    if ls == [] then []
    else
      var n := |ls| - 1;
      EntriesOf(ls[..n]) +
      match ls[n]
      case Add(name, priority) => [Entry(priority, User(name))]
      case PushPill => [Entry(CRITICAL, Pill)]
      case PushApple => [Entry(CRITICAL, Apple)]
      case _ => []
  }

  /** Ticket k has been taken from the queue. */
  predicate Taken(ls: seq<Label>, k: int) {
    exists i :: 0 <= i < |ls| && TakesTicket(ls[i], k)
  }

  predicate TakesTicket(l: Label, k: int) { l.Pop? && l.k == k }

  /** The ticket worker w took last, or -1. */
  function LastTaken(ls: seq<Label>, w: Tid): int
    decreases |ls|
  {
    if ls == [] then -1
    else
      var n := |ls| - 1;
      if ls[n].Pop? && ls[n].w == w then ls[n].k else LastTaken(ls[..n], w)
  }

  /** The tickets whose execution began, in order. */
  function Starts(ls: seq<Label>): seq<int>
    decreases |ls|
  {
    if ls == [] then []
    else
      var n := |ls| - 1;
      Starts(ls[..n]) + if ls[n].Begin? then [LastTaken(ls[..n], ls[n].w)] else []
  }

  lemma TakenSnoc(ls: seq<Label>, l: Label, k: int)
    ensures Taken(ls + [l], k) <==> Taken(ls, k) || TakesTicket(l, k)
  {
    var all := ls + [l];
    hide TakesTicket;
    if i :| 0 <= i < |ls| && TakesTicket(ls[i], k) { assert all[i] == ls[i]; }
    assert all[|ls|] == l;
  }

  /** The last step of a run. */
  lemma {:induction false} LastStep(s: State, ls: seq<Label>)
    requires ls != [] && Runs(s, ls)
    ensures var n := |ls| - 1;
            && Runs(s, ls[..n]) && Enabled(Exec(s, ls[..n]), ls[n])
            && Exec(s, ls) == Apply(Exec(s, ls[..n]), ls[n])
    decreases |ls|
  {
    hide Enabled, Apply;
    var n := |ls| - 1;
    if n == 0 {
      assert ls[..n] == [] && ls[1..] == [];
    } else {
      LastStep(Apply(s, ls[0]), ls[1..]);
      assert ls[1..][..n - 1] == ls[..n][1..] && ls[..n][0] == ls[0] && ls[1..][n - 1] == ls[n];
    }
  }

  lemma {:induction false} SplitRun(s: State, ls: seq<Label>, i: nat)
    requires Runs(s, ls) && i <= |ls|
    ensures Runs(s, ls[..i]) && Runs(Exec(s, ls[..i]), ls[i..])
    ensures Exec(s, ls) == Exec(Exec(s, ls[..i]), ls[i..])
    decreases |ls|
  {
    hide Enabled, Apply;
    if i == 0 {
      assert ls[..0] == [] && ls[0..] == ls;
    } else {
      SplitRun(Apply(s, ls[0]), ls[1..], i - 1);
      Parts(ls, i);
      SplitCons(s, ls, i);
    }
  }

  lemma Parts(ls: seq<Label>, i: nat)
    requires 0 < i <= |ls|
    ensures ls[..i][0] == ls[0] && ls[..i][1..] == ls[1..][..i - 1] && ls[1..][i - 1..] == ls[i..]
  {
  }

  lemma {:induction false} SplitCons(s: State, ls: seq<Label>, i: nat)
    requires 0 < i <= |ls| && Runs(s, ls)
    requires ls[..i][0] == ls[0] && ls[..i][1..] == ls[1..][..i - 1] && ls[1..][i - 1..] == ls[i..]
    requires Runs(Apply(s, ls[0]), ls[1..][..i - 1])
    requires Runs(Exec(Apply(s, ls[0]), ls[1..][..i - 1]), ls[i..])
    ensures Runs(s, ls[..i]) && Exec(s, ls[..i]) == Exec(Apply(s, ls[0]), ls[1..][..i - 1])
  {
    hide Enabled, Apply;
  }

  // ------------------------------------------------------- state and labels

  /** The queue holds exactly the tickets issued and not taken. */
  ghost predicate Queued(s: State, ls: seq<Label>) {
    && (forall k: nat :: k in s.tasks <==> k < |s.added| && !Taken(ls, k))
    && (forall k | Taken(ls, k) :: k < |s.added|)
  }

  /** The state agrees with the labels that led to it. */
  ghost predicate Told(s: State, ls: seq<Label>) {
    && s.added == EntriesOf(ls)
    && Queued(s, ls)
    && (forall w | At(s, w) && Hand(PcOf(s, w)) != -1 :: Hand(PcOf(s, w)) == LastTaken(ls, w))
    && |s.started| == |Starts(ls)| && (forall i | 0 <= i < |s.started| :: s.started[i] == Starts(ls)[i])
  }

  lemma ToldStep(s: State, ls: seq<Label>, l: Label)
    requires Inv(s) && Told(s, ls) && Enabled(s, l)
    ensures Told(Apply(s, l), ls + [l])
  {
    var s' := Apply(s, l);
    assert (ls + [l])[..|ls|] == ls;
    ToldAdded(s, ls, l);
    ToldTasks(s, ls, l);
    ToldHands(s, ls, l);
    ToldStarts(s, ls, l);
  }

  lemma ToldAdded(s: State, ls: seq<Label>, l: Label)
    requires s.added == EntriesOf(ls) && Enabled(s, l)
    ensures Apply(s, l).added == EntriesOf(ls + [l])
  {
    assert (ls + [l])[..|ls|] == ls;
  }

  lemma ToldTasks(s: State, ls: seq<Label>, l: Label)
    requires Queued(s, ls) && Enabled(s, l)
    ensures Queued(Apply(s, l), ls + [l])
  {
    var s' := Apply(s, l);
    forall k: int ensures Taken(ls + [l], k) <==> Taken(ls, k) || TakesTicket(l, k) {
      TakenSnoc(ls, l, k);
    }
    QueueShape(s, l);
    hide Apply, Enabled, Taken;
  }

  /** How one step changes the queue. */
  lemma QueueShape(s: State, l: Label)
    requires Enabled(s, l)
    ensures var s' := Apply(s, l);
            if l.Pop? then l.k in s.tasks && s'.tasks.Keys == s.tasks.Keys - {l.k} && s'.added == s.added
            else if l.Add? || l.PushPill? || l.PushApple?
            then s'.tasks.Keys == s.tasks.Keys + {|s.added|} && |s'.added| == |s.added| + 1
            else s'.tasks == s.tasks && s'.added == s.added
  {
  }

  lemma ToldHands(s: State, ls: seq<Label>, l: Label)
    requires Told(s, ls) && Enabled(s, l)
    ensures var s' := Apply(s, l);
            forall w | At(s', w) && Hand(PcOf(s', w)) != -1 :: Hand(PcOf(s', w)) == LastTaken(ls + [l], w)
  {
    assert (ls + [l])[..|ls|] == ls;
    HandShape(s, l);
    hide Apply, Enabled;
  }

  /** A step changes what a worker holds only by taking a ticket or letting go of it. */
  lemma HandShape(s: State, l: Label)
    requires Enabled(s, l)
    ensures var s' := Apply(s, l);
            forall w | At(s', w) && Hand(PcOf(s', w)) != -1 ::
              if l.Pop? && l.w == w then Hand(PcOf(s', w)) == l.k
              else At(s, w) && Hand(PcOf(s', w)) == Hand(PcOf(s, w))
  {
    if WorkerLabel(l) { WorkerFrame(s, l); }
  }

  lemma ToldStarts(s: State, ls: seq<Label>, l: Label)
    requires Told(s, ls) && Enabled(s, l)
    ensures var s' := Apply(s, l);
            && |s'.started| == |Starts(ls + [l])|
            && (forall i | 0 <= i < |s'.started| :: s'.started[i] == Starts(ls + [l])[i])
  {
    assert (ls + [l])[..|ls|] == ls;
  }

  lemma InitTold(n: nat)
    ensures Told(Init(n), [])
  {
  }

  lemma {:induction false} ToldRun(n: nat, ls: seq<Label>)
    requires Runs(Init(n), ls)
    ensures var s := Exec(Init(n), ls); Inv(s) && Told(s, ls)
    decreases |ls|
  {
    hide Inv, Told, Enabled, Apply;
    if ls == [] {
      InitInv(n);
      InitTold(n);
    } else {
      var m := |ls| - 1;
      LastStep(Init(n), ls);
      ToldRun(n, ls[..m]);
      hide Runs, Exec;
      KeepsInv(Exec(Init(n), ls[..m]), ls[m]);
      ToldStep(Exec(Init(n), ls[..m]), ls[..m], ls[m]);
      assert ls[..m] + [ls[m]] == ls;
    }
  }

  // ------------------------------------------------------------------ order

  /** Ticket k is queued, and no queued ticket was inserted with a higher priority. */
  predicate Highest(ls: seq<Label>, k: int) {
    var es := EntriesOf(ls);
    && 0 <= k < |es| && !Taken(ls, k)
    && forall j | 0 <= j < |es| && !Taken(ls, j) :: es[j].priority <= es[k].priority
  }

  /**
    After every run, a ticket can be taken by an idle worker if and only if it was inserted,
    not yet taken, and no other such ticket was inserted with a higher priority.
  */
  lemma TakesTheHighestIff(n: nat, ls: seq<Label>, w: Tid, k: Ticket)
    requires Runs(Init(n), ls)
    ensures var s := Exec(Init(n), ls);
            Enabled(s, Pop(w, k)) <==> At(s, w) && PcOf(s, w).Idle? && Highest(ls, k)
  {
    ToldRun(n, ls);
    var s := Exec(Init(n), ls);
    hide Runs, Exec;
    FrontIsHighest(s, ls, k);
  }

  lemma FrontIsHighest(s: State, ls: seq<Label>, k: Ticket)
    requires Inv(s) && Told(s, ls)
    ensures Front(s.tasks, k) <==> Highest(ls, k)
  {
    assert forall j | j in s.tasks :: s.tasks[j] == EntriesOf(ls)[j];
    hide EntriesOf, Taken;
    if Front(s.tasks, k) {
      forall j | 0 <= j < |EntriesOf(ls)| && !Taken(ls, j) ensures EntriesOf(ls)[j].priority <= EntriesOf(ls)[k].priority {
        assert j in s.tasks;
      }
    }
    if Highest(ls, k) {
      forall j | j in s.tasks ensures s.tasks[j].priority <= s.tasks[k].priority {
        assert 0 <= j < |EntriesOf(ls)| && !Taken(ls, j);
      }
    }
  }

  /** In every run, what is taken is the highest of what is queued at that moment. */
  lemma EveryPopIsHighest(n: nat, ls: seq<Label>, i: nat)
    requires Runs(Init(n), ls) && i < |ls| && ls[i].Pop?
    ensures Highest(ls[..i], ls[i].k)
  {
    SplitRun(Init(n), ls, i);
    assert ls[i..][0] == ls[i];
    TakesTheHighestIff(n, ls[..i], ls[i].w, ls[i].k);
  }

  predicate NoInserts(ls: seq<Label>) {
    forall i | 0 <= i < |ls| :: !ls[i].Add? && !ls[i].PushPill? && !ls[i].PushApple?
  }

  /** Without insertions, the queue only shrinks, and what is taken was in it. */
  lemma {:induction false} Shrinks(s: State, ls: seq<Label>)
    requires Runs(s, ls) && NoInserts(ls)
    ensures Exec(s, ls).added == s.added && Exec(s, ls).tasks.Keys <= s.tasks.Keys
    ensures forall i | 0 <= i < |ls| && ls[i].Pop? :: ls[i].k in s.tasks
    decreases |ls|
  {
    if ls != [] {
      QueueShape(s, ls[0]);
      hide Enabled, Apply;
      Shrinks(Apply(s, ls[0]), ls[1..]);
      assert forall i | 0 < i < |ls| :: ls[i] == ls[1..][i - 1];
    }
  }

  /**
    While nothing is inserted, entries leave the queue in non-increasing priority, and
    nothing that stays outranks one that left.
  */
  lemma LeavesInOrder(s: State, ls: seq<Label>, i: nat, j: nat)
    requires Inv(s) && Runs(s, ls) && NoInserts(ls) && i < |ls| && ls[i].Pop?
    ensures ls[i].k < |s.added|
    ensures i < j < |ls| && ls[j].Pop? ==>
              ls[j].k < |s.added| && s.added[ls[i].k].priority >= s.added[ls[j].k].priority
    ensures forall k | k in Exec(s, ls).tasks :: k < |s.added| && s.added[ls[i].k].priority >= s.added[k].priority
  {
    hide Inv, Enabled, Apply;
    SplitRun(s, ls, i);
    var t, rest := Exec(s, ls[..i]), ls[i..];
    RunKeepsInv(s, ls[..i]);
    Shrinks(s, ls[..i]);
    Shrinks(t, rest);
    assert rest[0] == ls[i] && (i < j < |ls| ==> rest[j - i] == ls[j]);
    hide Runs, Exec;
    FrontDominates(t, ls[i].w, ls[i].k);
  }

  lemma FrontDominates(s: State, w: Tid, k: Ticket)
    requires Inv(s) && Enabled(s, Pop(w, k))
    ensures k < |s.added|
    ensures forall j | j in s.tasks :: j < |s.added| && s.added[j].priority <= s.added[k].priority
  {
    hide Registered, Burials, OncePerEntry, Reserved;
    assert forall j | j in s.tasks :: j < |s.added| && s.tasks[j] == s.added[j];
  }

  /** A worker inside a user task took its ticket last, and that ticket was inserted by Add of that task. */
  lemma ExecutesWhatWasAdded(n: nat, ls: seq<Label>, w: Tid)
    requires Runs(Init(n), ls)
    ensures var s := Exec(Init(n), ls);
            At(s, w) && PcOf(s, w).Running? ==>
              var k := LastTaken(ls, w);
              0 <= k < |EntriesOf(ls)| && EntriesOf(ls)[k].task == User(PcOf(s, w).name)
  {
    ToldRun(n, ls);
    hide Runs, Exec, EntriesOf, LastTaken;
  }

  /** Nothing is executed twice: the tickets that workers begin to execute are distinct. */
  lemma NothingStartsTwice(n: nat, ls: seq<Label>)
    requires Runs(Init(n), ls)
    ensures NoDuplicates(Starts(ls))
  {
    ToldRun(n, ls);
    var s := Exec(Init(n), ls);
    hide Runs, Exec, Starts;
    assert forall i, j | 0 <= i < j < |s.started| :: s.started[i] != s.started[j];
  }

  // ------------------------------------------------------------------ pills

  function PillsPushed(ls: seq<Label>): nat
    decreases |ls|
  {
    if ls == [] then 0 else PillsPushed(ls[..|ls| - 1]) + Bit(ls[|ls| - 1].PushPill?)
  }

  /** The sizes of the thread map at the moments when Pause read it, added up. */
  function SizesRead(n: nat, ls: seq<Label>): nat
    requires Runs(Init(n), ls)
    decreases |ls|
  {
    if ls == [] then 0
    else
      var m := |ls| - 1;
      LastStep(Init(n), ls);
      SizesRead(n, ls[..m]) + if ls[m].ReadSize? then |Exec(Init(n), ls[..m]).threads| else 0
  }

  function PillsLeft(c: Ctl): nat { if c.Pills? then c.pills else 0 }

  /**
    Pills are counted: the constructor inserts n, and each Pause one for every thread in
    the map when it reads the size, neither more nor fewer.
  */
  lemma {:induction false} PillsAreCounted(n: nat, ls: seq<Label>)
    requires Runs(Init(n), ls)
    ensures PillsPushed(ls) + PillsLeft(Exec(Init(n), ls).ctl) == n + SizesRead(n, ls)
    decreases |ls|
  {
    if ls != [] {
      var m := |ls| - 1;
      LastStep(Init(n), ls);
      PillsAreCounted(n, ls[..m]);
      hide Runs, Exec;
      PillStep(Exec(Init(n), ls[..m]), ls[m]);
    }
  }

  lemma PillStep(s: State, l: Label)
    requires Enabled(s, l)
    ensures Bit(l.PushPill?) + PillsLeft(Apply(s, l).ctl) ==
            PillsLeft(s.ctl) + if l.ReadSize? then |s.threads| else 0
  {
  }

  // --------------------------------------------------------------- burials

  /** The workers that reported to the angel, in order. */
  function Reported(ls: seq<Label>): seq<Tid>
    decreases |ls|
  {
    if ls == [] then []
    else Reported(ls[..|ls| - 1]) + if ls[|ls| - 1].Report? then [ls[|ls| - 1].w] else []
  }

  /** The workers erased from the map by the angel's last step of each burial, in order. */
  function Buried(n: nat, ls: seq<Label>): seq<Tid>
    requires Runs(Init(n), ls)
    decreases |ls|
  {
    if ls == [] then []
    else
      var m := |ls| - 1;
      LastStep(Init(n), ls);
      Buried(n, ls[..m]) + if ls[m].AngelErase? then Gone(Exec(Init(n), ls[..m]), Exec(Init(n), ls)) else []
  }

  /** The worker that is in the map before and not after. */
  function Gone(s: State, s': State): seq<Tid> {
    if !s.angel.Watching? && s.angel.id in s.threads && s.angel.id !in s'.threads then [s.angel.id] else []
  }

  function InHand(s: State): seq<Tid> { if s.angel.Watching? then [] else [s.angel.id] }

  /** Workers are buried in the order in which they reported, none left out. */
  lemma {:induction false} BuriedInOrder(n: nat, ls: seq<Label>)
    requires Runs(Init(n), ls)
    ensures var s := Exec(Init(n), ls); Reported(ls) == Buried(n, ls) + InHand(s) + s.readyToDie
    decreases |ls|
  {
    if ls != [] {
      var m := |ls| - 1;
      LastStep(Init(n), ls);
      BuriedInOrder(n, ls[..m]);
      ToldRun(n, ls[..m]);
      hide Runs, Exec, Told;
      BurialStep(Exec(Init(n), ls[..m]), ls[m], Reported(ls[..m]), Buried(n, ls[..m]));
    }
  }

  lemma BurialStep(s: State, l: Label, reported: seq<Tid>, buried: seq<Tid>)
    requires Inv(s) && Enabled(s, l) && reported == buried + InHand(s) + s.readyToDie
    ensures var s' := Apply(s, l);
            reported + (if l.Report? then [l.w] else []) ==
            buried + (if l.AngelErase? then Gone(s, s') else []) + InHand(s') + s'.readyToDie
  {
    hide Registered, Conserved, OncePerEntry, Reserved, Burials;
    if l.AngelErase? {
      assert s.angel.id in s.threads by { ErasesRegistered(s); }
    } else {
      BurialFrame(s, l);
      hide Apply, Enabled;
    }
  }

  lemma ErasesRegistered(s: State)
    requires Burials(s) && s.angel.Joined?
    ensures s.angel.id in s.threads
  {
  }

  /** What the steps before the last do to the angel's hand and its queue. */
  lemma BurialFrame(s: State, l: Label)
    requires Enabled(s, l) && !l.AngelErase?
    ensures var s' := Apply(s, l);
            InHand(s') + s'.readyToDie == InHand(s) + s.readyToDie + (if l.Report? then [l.w] else [])
  {
  }
}
