/**
  The waitable queue as a monitor with a wait set. Each label is one critical section
  of Push, Pop or the timed Pop, or one event of the condition variable. Any number of
  producers and consumers take part; consumers may barge in ahead of a woken waiter.
*/
module WaitableQueue {
  import opened Counting

  type Tid = nat

  /** The container behind m_queue: std::queue, or the priority wrapper ordered by `rank`. */
  datatype Container<!T> = Fifo | ByRank(rank: T -> int)

  datatype Consumer =
    | Outside
    | Waiting(timed: bool)   // in the wait set
    | Woken(timed: bool)     // left the wait set, has not got the mutex back
    | Expired                // left the wait set on timeout, will return false

  datatype State<T> = State(
    queue: seq<T>,
    consumers: map<Tid, Consumer>,
    // history
    pushed: seq<T>,
    popped: seq<T>,
    abandoned: nat)

  datatype Label<T> =
    | Push(x: T, notified: Tid)      // notify_one wakes `notified` if the wait set is not empty
    | Take(c: Tid, i: nat)           // finds the queue not empty and takes the front, index i
    | Block(c: Tid, timed: bool)     // finds it empty and waits
    | Spurious(c: Tid)
    | Retake(c: Tid, i: nat)         // woken, finds the queue not empty
    | Reblock(c: Tid)                // woken, finds it empty and waits again
    | Timeout(c: Tid)                // a timed waiter reaches its deadline
    | GiveUp(c: Tid)                 // the timed Pop returns false
    | InterruptWaiter(c: Tid)        // interrupted before it was woken
    | Abandon(c: Tid)                // woken, but interrupted instead of taking the mutex

  function Init<T>(): State<T> { State([], map[], [], [], 0) }

  function StatusOf<T>(s: State<T>, c: Tid): Consumer {
    if c in s.consumers then s.consumers[c] else Outside
  }

  predicate IsWaiting(c: Consumer) { c.Waiting? }
  predicate IsWoken(c: Consumer) { c.Woken? }

  /** The element front() returns: the oldest, or one of maximal rank. */
  predicate Front<T>(k: Container<T>, q: seq<T>, i: nat) {
    && i < |q|
    && (k.Fifo? ==> i == 0)
    && (k.ByRank? ==> forall j | 0 <= j < |q| :: k.rank(q[j]) <= k.rank(q[i]))
  }

  ghost predicate SomeWaiting<T>(s: State<T>) {
    exists c :: c in s.consumers && IsWaiting(s.consumers[c])
  }

  ghost predicate Enabled<T>(k: Container<T>, s: State<T>, l: Label<T>) {
    match l
    case Push(_, c) => SomeWaiting(s) ==> StatusOf(s, c).Waiting?
    case Take(c, i) => StatusOf(s, c).Outside? && Front(k, s.queue, i)
    case Block(c, _) => StatusOf(s, c).Outside? && s.queue == []
    case Spurious(c) => StatusOf(s, c).Waiting?
    case Retake(c, i) => StatusOf(s, c).Woken? && Front(k, s.queue, i)
    case Reblock(c) => StatusOf(s, c).Woken? && s.queue == []
    case Timeout(c) => StatusOf(s, c).Waiting? && StatusOf(s, c).timed
    case GiveUp(c) => StatusOf(s, c).Expired?
    case InterruptWaiter(c) => StatusOf(s, c).Waiting?
    case Abandon(c) => StatusOf(s, c).Woken?
  }

  function Become<T>(s: State<T>, c: Tid, status: Consumer): State<T> {
    s.(consumers := s.consumers[c := status])
  }

  function Without<T>(q: seq<T>, i: nat): seq<T>
    requires i < |q|
  {
    q[..i] + q[i + 1..]
  }

  function Remove<T>(s: State<T>, i: nat): State<T>
    requires i < |s.queue|
  {
    s.(queue := Without(s.queue, i), popped := s.popped + [s.queue[i]])
  }

  ghost function Apply<T>(k: Container<T>, s: State<T>, l: Label<T>): State<T>
    requires Enabled(k, s, l)
  {
    match l
    case Push(x, c) =>
      var s' := s.(queue := s.queue + [x], pushed := s.pushed + [x]);
      if SomeWaiting(s) then Become(s', c, Woken(StatusOf(s, c).timed)) else s'
    case Take(c, i) => Remove(s, i)
    case Block(c, timed) => Become(s, c, Waiting(timed))
    case Spurious(c) => Become(s, c, Woken(StatusOf(s, c).timed))
    case Retake(c, i) => Become(Remove(s, i), c, Outside)
    case Reblock(c) => Become(s, c, Waiting(StatusOf(s, c).timed))
    case Timeout(c) => Become(s, c, Expired)
    case GiveUp(c) => Become(s, c, Outside)
    case InterruptWaiter(c) => Become(s, c, Outside)
    case Abandon(c) => Become(s, c, Outside).(abandoned := s.abandoned + 1)
  }

  ghost predicate Runs<T>(k: Container<T>, s: State<T>, ls: seq<Label<T>>)
    decreases |ls|
  {
    ls == [] || (Enabled(k, s, ls[0]) && Runs(k, Apply(k, s, ls[0]), ls[1..]))
  }

  ghost function Exec<T>(k: Container<T>, s: State<T>, ls: seq<Label<T>>): State<T>
    requires Runs(k, s, ls)
    decreases |ls|
  {
    if ls == [] then s else Exec(k, Apply(k, s, ls[0]), ls[1..])
  }

  // ------------------------------------------------------- no lost wake-up

  ghost function WokenCount<T>(s: State<T>): nat { Count(s.consumers, IsWoken) }

  /**
    If anyone waits, every element of the queue has a woken consumer coming for it,
    up to the wake-ups that interrupted consumers dropped.
  */
  ghost predicate Attended<T>(s: State<T>) {
    SomeWaiting(s) ==> |s.queue| <= WokenCount(s) + s.abandoned
  }

  /** How one label changes the number of woken consumers. */
  lemma WokenStep<T>(k: Container<T>, s: State<T>, l: Label<T>)
    requires Enabled(k, s, l)
    ensures WokenCount(Apply(k, s, l)) == WokenCount(s)
              + Bit(l.Spurious? || (l.Push? && SomeWaiting(s)))
              - Bit(l.Retake? || l.Reblock? || l.Abandon?)
  {
    if !l.Take? && !(l.Push? && !SomeWaiting(s)) {
      var c: Tid := if l.Push? then l.notified else l.c;
      CountUpdate(s.consumers, c, Apply(k, s, l).consumers[c], IsWoken);
    }
  }

  lemma AttendedStep<T>(k: Container<T>, s: State<T>, l: Label<T>)
    requires Attended(s) && Enabled(k, s, l)
    ensures Attended(Apply(k, s, l))
  {
    WokenStep(k, s, l);
    var s' := Apply(k, s, l);
    if SomeWaiting(s') && s'.queue != [] {
      var c :| c in s'.consumers && IsWaiting(s'.consumers[c]);
      assert c in s.consumers && IsWaiting(s.consumers[c]);
    }
  }

  lemma {:induction false} AttendedRun<T>(k: Container<T>, s: State<T>, ls: seq<Label<T>>)
    requires Attended(s) && Runs(k, s, ls)
    ensures Attended(Exec(k, s, ls))
    decreases |ls|
  {
    if ls != [] {
      AttendedStep(k, s, ls[0]);
      AttendedRun(k, Apply(k, s, ls[0]), ls[1..]);
    }
  }

  predicate NoAbandon<T>(ls: seq<Label<T>>) {
    forall i | 0 <= i < |ls| :: !ls[i].Abandon?
  }

  lemma {:induction false} AbandonedRun<T>(k: Container<T>, s: State<T>, ls: seq<Label<T>>)
    requires Runs(k, s, ls) && NoAbandon(ls)
    ensures Exec(k, s, ls).abandoned == s.abandoned
    decreases |ls|
  {
    if ls != [] {
      AbandonedRun(k, Apply(k, s, ls[0]), ls[1..]);
    }
  }

  /**
    No lost wake-up: in every run without an interrupted woken consumer, while anyone is
    in the wait set the queue is no longer than the number of woken consumers; so a queue
    that is not empty beside a waiter always has a consumer that can take its front.
  */
  lemma NoLostWakeup<T>(k: Container<T>, ls: seq<Label<T>>)
    requires Runs(k, Init(), ls) && NoAbandon(ls)
    ensures var s := Exec(k, Init(), ls);
            SomeWaiting(s) ==>
              && |s.queue| <= WokenCount(s)
              && (s.queue != [] ==> exists c, i :: Enabled(k, s, Retake(c, i)))
  {
    AttendedRun(k, Init(), ls);
    AbandonedRun(k, Init(), ls);
    var s := Exec(k, Init(), ls);
    if SomeWaiting(s) && s.queue != [] {
      CountWitness(s.consumers, IsWoken);
      var c :| c in s.consumers && IsWoken(s.consumers[c]);
      var i := FrontExists(k, s.queue);
      assert Enabled(k, s, Retake(c, i));
    }
  }

  /** While anyone waits, every element has a woken consumer coming for it. */
  ghost predicate Strict<T>(s: State<T>) {
    SomeWaiting(s) ==> |s.queue| <= WokenCount(s)
  }

  /**
    Exactly when an interruption loses a wake-up: of all steps only the abandonment by a
    woken consumer, while another waits and no more consumers are woken than elements queued.
  */
  lemma LosesWakeupIff<T>(k: Container<T>, s: State<T>, l: Label<T>)
    requires Strict(s) && Enabled(k, s, l)
    ensures !Strict(Apply(k, s, l)) <==> l.Abandon? && SomeWaiting(s) && |s.queue| == WokenCount(s)
  {
    WokenStep(k, s, l);
    var s' := Apply(k, s, l);
    if SomeWaiting(s') && s'.queue != [] {
      var c :| c in s'.consumers && IsWaiting(s'.consumers[c]);
      assert c in s.consumers && IsWaiting(s.consumers[c]);
    }
    if l.Abandon? && SomeWaiting(s) {
      var c :| c in s.consumers && IsWaiting(s.consumers[c]);
      assert c in s'.consumers && IsWaiting(s'.consumers[c]);
    }
  }

  lemma {:induction false} FrontExists<T>(k: Container<T>, q: seq<T>) returns (i: nat)
    requires q != []
    ensures Front(k, q, i)
    decreases |q|
  {
    i := 0;
    if k.ByRank? && |q| > 1 {
      var n := |q| - 1;
      i := FrontExists(k, q[..n]);
      assert forall j | 0 <= j < n :: k.rank(q[..n][j]) == k.rank(q[j]);
      if k.rank(q[n]) > k.rank(q[i]) { i := n; }
    }
  }

  /**
    The exclusion is needed: one woken consumer interrupted before it takes the mutex
    leaves an element queued, a consumer waiting, and nobody coming.
  */
  lemma AbandonLosesWakeup<T>(k: Container<T>, x: T)
    ensures var ls := [Block(0, false), Block(1, false), Push(x, 0), Abandon(0)];
            && Runs(k, Init(), ls)
            && var s := Exec(k, Init(), ls);
               s.queue == [x] && StatusOf(s, 1).Waiting? && WokenCount(s) == 0
  {
    var ls := [Block(0, false), Block(1, false), Push(x, 0), Abandon(0)];
    var s0: State<T> := Init();
    var s1 := Apply(k, s0, ls[0]);
    var s2 := Apply(k, s1, ls[1]);
    assert 0 in s2.consumers && IsWaiting(s2.consumers[0]);
    var s3 := Apply(k, s2, ls[2]);
    var s4 := Apply(k, s3, ls[3]);
    assert Keys(s4.consumers, IsWoken) == {};
    assert ls[3..] == [ls[3]] && Runs(k, s3, ls[3..]) && Exec(k, s3, ls[3..]) == s4;
    assert ls[2..][1..] == ls[3..] && Runs(k, s2, ls[2..]) && Exec(k, s2, ls[2..]) == s4;
    assert ls[1..][1..] == ls[2..] && Runs(k, s1, ls[1..]) && Exec(k, s1, ls[1..]) == s4;
  }

  // ---------------------------------------------------------------- history

  ghost predicate Accounted<T>(k: Container<T>, s: State<T>) {
    && multiset(s.pushed) == multiset(s.popped) + multiset(s.queue)
    && (k.Fifo? ==> s.pushed == s.popped + s.queue)
  }

  lemma AccountedStep<T>(k: Container<T>, s: State<T>, l: Label<T>)
    requires Accounted(k, s) && Enabled(k, s, l)
    ensures Accounted(k, Apply(k, s, l))
  {
    if l.Take? || l.Retake? {
      AccountedRemove(k, s, l.i);
    } else if l.Push? {
      assert s.popped + (s.queue + [l.x]) == (s.popped + s.queue) + [l.x];
    }
  }

  lemma AccountedRemove<T>(k: Container<T>, s: State<T>, i: nat)
    requires Accounted(k, s) && Front(k, s.queue, i)
    ensures Accounted(k, Remove(s, i))
  {
    BagMove(s.popped, s.queue, i);
    if k.Fifo? { FifoMove(s.popped, s.queue); }
    hide Without;
  }

  lemma FifoMove<T>(popped: seq<T>, queue: seq<T>)
    requires queue != []
    ensures popped + queue == (popped + [queue[0]]) + Without(queue, 0)
  {
  }

  lemma BagMove<T>(popped: seq<T>, queue: seq<T>, i: nat)
    requires i < |queue|
    ensures multiset(popped) + multiset(queue) == multiset(popped + [queue[i]]) + multiset(Without(queue, i))
  {
    assert queue == queue[..i] + [queue[i]] + queue[i + 1..];
  }

  /**
    Queue history: with the FIFO container the pushed sequence is the popped sequence
    followed by the queue; with either container pushed is popped plus queued.
  */
  lemma {:induction false} QueueHistory<T>(k: Container<T>, s: State<T>, ls: seq<Label<T>>)
    requires Accounted(k, s) && Runs(k, s, ls)
    ensures Accounted(k, Exec(k, s, ls))
    decreases |ls|
  {
    if ls != [] {
      AccountedStep(k, s, ls[0]);
      QueueHistory(k, Apply(k, s, ls[0]), ls[1..]);
    }
  }

  predicate NoPush<T>(ls: seq<Label<T>>) {
    forall i | 0 <= i < |ls| :: !ls[i].Push?
  }

  /** From position `from` on, ranks do not rise, and nothing left in the queue outranks them. */
  predicate Descending<T>(rank: T -> int, popped: seq<T>, from: nat, queue: seq<T>) {
    && (forall i, j | from <= i < j < |popped| :: rank(popped[i]) >= rank(popped[j]))
    && (forall i, j | from <= i < |popped| && 0 <= j < |queue| :: rank(popped[i]) >= rank(queue[j]))
  }

  lemma DescendingStep<T>(k: Container<T>, s: State<T>, l: Label<T>, from: nat)
    requires k.ByRank? && Enabled(k, s, l) && !l.Push?
    requires from <= |s.popped| && Descending(k.rank, s.popped, from, s.queue)
    ensures var s' := Apply(k, s, l);
            from <= |s'.popped| && Descending(k.rank, s'.popped, from, s'.queue)
  {
    if l.Take? || l.Retake? {
      var s' := Apply(k, s, l);
      assert forall j | 0 <= j < |s'.queue| :: s'.queue[j] == s.queue[if j < l.i then j else j + 1];
    }
  }

  /** With the priority container, what is popped while nobody pushes comes out in rank order. */
  lemma {:induction false} DrainsInRankOrder<T>(k: Container<T>, s: State<T>, ls: seq<Label<T>>, from: nat)
    requires k.ByRank? && Runs(k, s, ls) && NoPush(ls)
    requires from <= |s.popped| && Descending(k.rank, s.popped, from, s.queue)
    ensures var t := Exec(k, s, ls); from <= |t.popped| && Descending(k.rank, t.popped, from, t.queue)
    decreases |ls|
  {
    if ls != [] {
      DescendingStep(k, s, ls[0], from);
      DrainsInRankOrder(k, Apply(k, s, ls[0]), ls[1..], from);
    }
  }

  // --------------------------------------------- the calls, told from labels

  /** The last step of a run. */
  lemma {:induction false} LastStep<T>(k: Container<T>, s: State<T>, ls: seq<Label<T>>)
    requires ls != [] && Runs(k, s, ls)
    ensures var n := |ls| - 1;
            && Runs(k, s, ls[..n]) && Enabled(k, Exec(k, s, ls[..n]), ls[n])
            && Exec(k, s, ls) == Apply(k, Exec(k, s, ls[..n]), ls[n])
    decreases |ls|
  {
    hide Enabled, Apply;
    var n := |ls| - 1;
    if n == 0 {
      assert ls[..n] == [] && ls[1..] == [];
    } else {
      LastStep(k, Apply(k, s, ls[0]), ls[1..]);
      assert ls[1..][..n - 1] == ls[..n][1..] && ls[..n][0] == ls[0] && ls[1..][n - 1] == ls[n];
    }
  }

  lemma {:induction false} PrefixRuns<T>(k: Container<T>, s: State<T>, ls: seq<Label<T>>, i: nat)
    requires Runs(k, s, ls) && i < |ls|
    ensures Runs(k, s, ls[..i]) && Enabled(k, Exec(k, s, ls[..i]), ls[i])
    decreases |ls|
  {
    LastStep(k, s, ls);
    if i < |ls| - 1 {
      PrefixRuns(k, s, ls[..|ls| - 1], i);
      assert ls[..|ls| - 1][..i] == ls[..i];
    }
  }

  /** Whether the call in which c waited last was the timed Pop. */
  function LastTimed<T>(ls: seq<Label<T>>, c: Tid): bool
    decreases |ls|
  {
    if ls == [] then false
    else
      var n := |ls| - 1;
      if ls[n].Block? && ls[n].c == c then ls[n].timed else LastTimed(ls[..n], c)
  }

  /** How often c began to wait. */
  function Waits<T>(ls: seq<Label<T>>, c: Tid): nat
    decreases |ls|
  {
    if ls == [] then 0
    else Waits(ls[..|ls| - 1], c) + Bit(ls[|ls| - 1].Block? && ls[|ls| - 1].c == c)
  }

  predicate Ends<T>(l: Label<T>, c: Tid) {
    (l.Retake? || l.GiveUp? || l.InterruptWaiter? || l.Abandon?) && l.c == c
  }

  /** How often a call of c that had waited ended. */
  function Ended<T>(ls: seq<Label<T>>, c: Tid): nat
    decreases |ls|
  {
    if ls == [] then 0 else Ended(ls[..|ls| - 1], c) + Bit(Ends(ls[|ls| - 1], c))
  }

  /** The elements pushed, in order, and the number taken. */
  function Pushes<T>(ls: seq<Label<T>>): seq<T>
    decreases |ls|
  {
    if ls == [] then []
    else Pushes(ls[..|ls| - 1]) + if ls[|ls| - 1].Push? then [ls[|ls| - 1].x] else []
  }

  function Takes<T>(ls: seq<Label<T>>): nat
    decreases |ls|
  {
    if ls == [] then 0
    else Takes(ls[..|ls| - 1]) + Bit(ls[|ls| - 1].Take? || ls[|ls| - 1].Retake?)
  }

  /** What the labels say of consumer c and of the queue agrees with the state. */
  predicate Told<T(==)>(s: State<T>, ls: seq<Label<T>>, c: Tid) {
    var status := StatusOf(s, c);
    && (status.Waiting? || status.Woken? ==> status.timed == LastTimed(ls, c))
    && (status.Expired? ==> LastTimed(ls, c))
    && Waits(ls, c) == Ended(ls, c) + Bit(!status.Outside?)
    && s.pushed == Pushes(ls) && |s.popped| == Takes(ls)
  }

  lemma ToldStep<T>(k: Container<T>, s: State<T>, ls: seq<Label<T>>, l: Label<T>, c: Tid)
    requires Told(s, ls, c) && Enabled(k, s, l)
    ensures Told(Apply(k, s, l), ls + [l], c)
  {
    assert (ls + [l])[..|ls|] == ls && (ls + [l])[|ls|] == l;
  }

  lemma {:induction false} ToldRun<T>(k: Container<T>, ls: seq<Label<T>>, c: Tid)
    requires Runs(k, Init(), ls)
    ensures Told(Exec(k, Init(), ls), ls, c)
    decreases |ls|
  {
    if ls != [] {
      var n := |ls| - 1;
      LastStep(k, Init(), ls);
      ToldRun(k, ls[..n], c);
      hide Runs, Exec, Told, Enabled, Apply;
      ToldStep(k, Exec(k, Init(), ls[..n]), ls[..n], ls[n], c);
      assert ls[..n] + [ls[n]] == ls;
    }
  }

  /**
    In every run only the timed Pop gives up: a timeout, and a return without an element,
    happens only to a consumer whose last wait was timed.
  */
  lemma OnlyTheTimedGiveUp<T>(k: Container<T>, ls: seq<Label<T>>, i: nat)
    requires Runs(k, Init(), ls) && i < |ls| && (ls[i].Timeout? || ls[i].GiveUp?)
    ensures LastTimed(ls[..i], ls[i].c)
  {
    PrefixRuns(k, Init(), ls, i);
    ToldRun(k, ls[..i], ls[i].c);
  }

  /**
    And the timed Pop always can: a waiting consumer may time out if and only if its last
    wait was timed, and one that has timed out may return at once.
  */
  lemma TimesOutIff<T>(k: Container<T>, ls: seq<Label<T>>, c: Tid)
    requires Runs(k, Init(), ls)
    ensures var s := Exec(k, Init(), ls);
            && (StatusOf(s, c).Waiting? ==> (Enabled(k, s, Timeout(c)) <==> LastTimed(ls, c)))
            && (Enabled(k, s, Timeout(c)) ==> Enabled(k, Apply(k, s, Timeout(c)), GiveUp(c)))
  {
    ToldRun(k, ls, c);
    hide Runs, Exec, LastTimed;
  }

  /**
    Calls do not overlap: a consumer takes at the door or begins to wait only when every
    wait it began before has ended, in an element, a timeout or an interruption.
  */
  lemma CallsDoNotOverlap<T>(k: Container<T>, ls: seq<Label<T>>, i: nat)
    requires Runs(k, Init(), ls) && i < |ls| && (ls[i].Take? || ls[i].Block?)
    ensures Waits(ls[..i], ls[i].c) == Ended(ls[..i], ls[i].c)
  {
    PrefixRuns(k, Init(), ls, i);
    ToldRun(k, ls[..i], ls[i].c);
  }

  /**
    The history from the labels: with the FIFO container what is queued is what was pushed
    less as many from the front as were taken; with either container pushed is popped plus
    queued.
  */
  lemma QueueFromLabels<T>(k: Container<T>, ls: seq<Label<T>>)
    requires Runs(k, Init(), ls)
    ensures var s := Exec(k, Init(), ls);
            && Takes(ls) <= |Pushes(ls)| && |s.popped| == Takes(ls)
            && multiset(Pushes(ls)) == multiset(s.popped) + multiset(s.queue)
            && (k.Fifo? ==> s.queue == Pushes(ls)[Takes(ls)..] && s.popped == Pushes(ls)[..Takes(ls)])
  {
    ToldRun(k, ls, 0);
    QueueHistory(k, Init(), ls);
    var s := Exec(k, Init(), ls);
    hide Runs, Exec, Pushes, Takes;
    BagSize(s.pushed, s.popped, s.queue);
  }

  lemma BagSize<T>(a: seq<T>, b: seq<T>, c: seq<T>)
    requires multiset(a) == multiset(b) + multiset(c)
    ensures |a| == |b| + |c|
  {
    assert |multiset(a)| == |a| && |multiset(b)| == |b| && |multiset(c)| == |c|;
  }

  /** A producer is never blocked. */
  lemma PushIsNeverBlocked<T>(k: Container<T>, s: State<T>, x: T) returns (c: Tid)
    ensures Enabled(k, s, Push(x, c))
  {
    c := 0;
    if SomeWaiting(s) {
      c :| c in s.consumers && IsWaiting(s.consumers[c]);
    }
  }

  /** Nobody is stuck but by waiting: a consumer that does not wait has a step to take. */
  lemma NobodyIsStuck<T>(k: Container<T>, s: State<T>, c: Tid)
    ensures match StatusOf(s, c)
            case Outside => (exists i :: Enabled(k, s, Take(c, i))) || (forall timed :: Enabled(k, s, Block(c, timed)))
            case Waiting(_) => Enabled(k, s, Spurious(c)) && Enabled(k, s, InterruptWaiter(c))
            case Woken(_) => (exists i :: Enabled(k, s, Retake(c, i))) || Enabled(k, s, Reblock(c))
            case Expired => Enabled(k, s, GiveUp(c))
  {
    if s.queue != [] {
      var i := FrontExists(k, s.queue);
      assert StatusOf(s, c).Outside? ==> Enabled(k, s, Take(c, i));
      assert StatusOf(s, c).Woken? ==> Enabled(k, s, Retake(c, i));
    }
  }
}
