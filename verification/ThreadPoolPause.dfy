/**
  Pausing. A pill or an apple is a binding entry: while the flag is PAUSE, a worker
  that takes one does not come back to the queue. `Cover` compares the binding
  entries still queued with the workers that are free to take another task. Every
  step of a worker or of the angel keeps it, which makes Pause safe and says
  exactly when it is not.
*/
module ThreadPoolPause {
  import opened Counting
  import opened ThreadPool
  import opened ThreadPoolInvariant

  predicate Binding(e: Entry) { !e.task.User? }

  /** Free workers will pop again without the flag changing. */
  predicate Free(w: Worker) {
    w.pc.Idle? || w.pc.Running? || (w.pc.Got? && w.pc.entry.task.User?)
  }

  ghost function Cover(s: State): int {
    Count(s.tasks, Binding) - Count(s.workers, Free)
  }

  function Gain(l: Label): int {
    if l.PushPill? || l.PushApple? then 1 else if l.SpawnThread? then -1 else 0
  }

  // -------------------------------------------- what each step does to Cover

  /** While paused, the cover moves only with a pill or apple inserted and a thread spawned. */
  lemma CoverStep(s: State, l: Label)
    requires Inv(s) && s.flag.PAUSE? && !l.CallRun? && Enabled(s, l)
    ensures Cover(Apply(s, l)) == Cover(s) + Gain(l)
  {
    hide Registered, Conserved, OncePerEntry, Reserved;
    if WorkerLabel(l) {
      CoverWorker(s, l);
    } else if AngelLabel(l) {
      CoverAngel(s, l);
    } else {
      CoverController(s, l);
    }
  }

  lemma CoverWorker(s: State, l: Label)
    requires Burials(s) && s.flag.PAUSE? && WorkerLabel(l) && Enabled(s, l)
    ensures Cover(Apply(s, l)) == Cover(s)
  {
    WorkerFrame(s, l);
    var s' := Apply(s, l);
    CountUpdate(s.workers, l.w, s'.workers[l.w], Free);
    if l.Pop? {
      CountRemove(s.tasks, l.k, Binding);
    } else if l.Die? {
      BurialsDie(s, l.w);
    }
  }

  lemma CoverAngel(s: State, l: Label)
    requires Burials(s) && AngelLabel(l) && Enabled(s, l)
    ensures Cover(Apply(s, l)) == Cover(s)
  {
    if l.AngelErase? {
      CountRemove(s.workers, s.angel.id, Free);
    } else if l.AngelInterrupt? {
      CountUpdate(s.workers, s.angel.id, Apply(s, l).workers[s.angel.id], Free);
    }
  }

  lemma CoverController(s: State, l: Label)
    requires Conserved(s) && !WorkerLabel(l) && !AngelLabel(l) && Enabled(s, l)
    ensures Cover(Apply(s, l)) == Cover(s) + Gain(l)
  {
    var s' := Apply(s, l);
    if l.Add? || l.PushPill? || l.PushApple? {
      var k: Ticket := |s.added|;
      assert k !in s.tasks;
      CountUpdate(s.tasks, k, s'.tasks[k], Binding);
    } else if l.SpawnThread? {
      CountUpdate(s.workers, l.id, Worker(Idle, false), Free);
    } else if l.NotifyAll? {
      CountSame(s.workers, s'.workers, Free);
    }
  }

  // ----------------------------------------------- pills meet their promise

  /** What the controller still owes, and that it will have covered every worker. */
  ghost predicate Promised(s: State) {
    match s.ctl
    case PauseSize => s.flag.PAUSE?
    case Pills(k, n) => s.flag.PAUSE? && Cover(s) + k >= n && (n > 0 ==> k <= n)
    case Spawn(k, true) => s.flag.PAUSE? && Cover(s) >= k
    case Insert(k, true, _) => s.flag.PAUSE? && Cover(s) >= k - 1
    case _ => true
  }

  lemma KeepsPromised(s: State, l: Label)
    requires Inv(s) && Promised(s) && Enabled(s, l)
    ensures Promised(Apply(s, l))
  {
    hide Registered, Burials, Conserved, OncePerEntry, Reserved, Apply, Enabled, Cover, Promised;
    if s.flag.PAUSE? && !l.CallRun? { CoverStep(s, l); }
    if WorkerLabel(l) || AngelLabel(l) {
      PromisedByCrew(s, l);
    } else {
      if l.ReadSize? { SizeRead(s); }
      PromisedByController(s, l);
    }
  }

  lemma PromisedByCrew(s: State, l: Label)
    requires Promised(s) && (WorkerLabel(l) || AngelLabel(l)) && Enabled(s, l)
    requires s.flag.PAUSE? ==> Cover(Apply(s, l)) == Cover(s) + Gain(l)
    ensures Promised(Apply(s, l))
  {
    CrewFrame(s, l);
    hide Enabled, Apply, Cover;
  }

  lemma PromisedByController(s: State, l: Label)
    requires Promised(s) && !WorkerLabel(l) && !AngelLabel(l) && Enabled(s, l)
    requires s.flag.PAUSE? && !l.CallRun? ==> Cover(Apply(s, l)) == Cover(s) + Gain(l)
    requires l.ReadSize? ==> Count(s.workers, Free) <= |s.threads|
    ensures Promised(Apply(s, l))
  {
  }

  /** The size Pause reads counts every free worker. */
  lemma SizeCovers(s: State)
    requires Registered(s) && !s.ctl.Insert?
    ensures Count(s.workers, Free) <= |s.threads|
  {
    assert s.workers.Keys == s.threads;
    CountBounded(s.workers, Free);
  }

  lemma SizeRead(s: State)
    requires Registered(s) && Enabled(s, ReadSize)
    ensures Count(s.workers, Free) <= |s.threads|
  {
    SizeCovers(s);
  }

  lemma InitPromised(n: nat)
    ensures Promised(Init(n))
  {
    assert Keys(Init(n).tasks, Binding) == {};
    assert Keys(Init(n).workers, Free) == {};
  }

  lemma {:induction false} RunKeepsPromised(s: State, ls: seq<Label>)
    requires Inv(s) && Promised(s) && Runs(s, ls)
    ensures Inv(Exec(s, ls)) && Promised(Exec(s, ls))
    decreases |ls|
  {
    if ls != [] {
      KeepsInv(s, ls[0]);
      KeepsPromised(s, ls[0]);
      RunKeepsPromised(Apply(s, ls[0]), ls[1..]);
    }
  }

  lemma ReachablePromised(s: State)
    requires Reachable(s)
    ensures Inv(s) && Promised(s)
  {
    var n: nat, ls :| Runs(Init(n), ls) && s == Exec(Init(n), ls);
    InitInv(n);
    InitPromised(n);
    RunKeepsPromised(Init(n), ls);
  }

  // ----------------------------------------------------------------- safety

  /** User entries stay below the reserved priority. */
  ghost predicate Polite(s: State) {
    forall k: nat | k < |s.added| && s.added[k].task.User? :: s.added[k].priority <= HIGH
  }

  /** Threads the constructor will still spawn beyond those its coming pills will cover. */
  function CtorLeft(s: State): int {
    match s.ctl
    case Pills(k, n) => if n > 0 then n - k else 0
    case Spawn(k, true) => k
    case Insert(k, true, _) => k - 1
    case _ => 0
  }

  /** The pool is paused and can take `slack` more threads without uncovering a worker. */
  ghost predicate Shielded(s: State, slack: nat) {
    && s.flag.PAUSE?
    && Polite(s)
    && Cover(s) >= CtorLeft(s) + slack
  }

  /** A thread spawned by Resize, as opposed to by the constructor. */
  predicate Grows(s: State, l: Label) {
    l.SpawnThread? && s.ctl.Spawn? && !s.ctl.ctor
  }

  predicate Hushed(s: State, l: Label, slack: nat) {
    && !l.CallRun?
    && (l.Add? ==> l.priority <= HIGH)
    && (Grows(s, l) ==> slack > 0)
  }

  /**
    No Run, user priorities at most HIGH, and at most `slack` threads spawned by Resize.
  */
  predicate Quiet(s: State, ls: seq<Label>, slack: nat)
    requires Runs(s, ls)
    decreases |ls|
  {
    ls == [] ||
    (&& Hushed(s, ls[0], slack)
     && Quiet(Apply(s, ls[0]), ls[1..], if Grows(s, ls[0]) then slack - 1 else slack))
  }

  lemma ShieldedStep(s: State, l: Label, slack: nat)
    requires Inv(s) && Promised(s) && Shielded(s, slack) && Enabled(s, l)
    requires Hushed(s, l, slack)
    ensures Shielded(Apply(s, l), if Grows(s, l) then slack - 1 else slack)
  {
    hide Inv, Front, Cover;
    CoverStep(s, l);
    PoliteStep(s, l);
  }

  lemma PoliteStep(s: State, l: Label)
    requires Polite(s) && Enabled(s, l) && (l.Add? ==> l.priority <= HIGH)
    ensures Polite(Apply(s, l))
  {
  }

  /** With no gap, a free worker finds a binding entry ahead of every user task below CRITICAL. */
  lemma GapPop(s: State, w: Tid, k: Ticket)
    requires Inv(s) && Cover(s) >= 0 && Enabled(s, Pop(w, k))
    ensures Binding(s.tasks[k]) || s.tasks[k].priority >= CRITICAL
  {
    assert Free(s.workers[w]);
    CountWitness(s.workers, Free);
    CountWitness(s.tasks, Binding);
    var j :| j in s.tasks && Binding(s.tasks[j]);
    assert s.tasks[j].priority == CRITICAL;
  }

  lemma {:induction false} QuietRunIsSafe(s: State, ls: seq<Label>, slack: nat, w: Tid, k: Ticket)
    requires Inv(s) && Promised(s) && Shielded(s, slack)
    requires Runs(s, ls) && Quiet(s, ls, slack) && Enabled(Exec(s, ls), Pop(w, k))
    ensures Binding(Exec(s, ls).tasks[k])
    decreases |ls|
  {
    if ls == [] {
      GapPop(s, w, k);
    } else {
      KeepsInv(s, ls[0]);
      KeepsPromised(s, ls[0]);
      ShieldedStep(s, ls[0], slack);
      QuietRunIsSafe(Apply(s, ls[0]), ls[1..], if Grows(s, ls[0]) then slack - 1 else slack, w, k);
    }
  }

  /**
    From the return of Pause until Run, whatever the interleaving, no worker takes a
    user task, as long as Resize spawns no more threads than the cover allows
    (in particular if it spawns none).
  */
  lemma PauseIsSafe(s: State, slack: nat, ls: seq<Label>, w: Tid, k: Ticket)
    requires Reachable(s) && Polite(s) && s.ctl == Pills(0, 0)
    requires slack == 0 || slack <= Cover(s)
    requires Runs(Apply(s, Return), ls) && Quiet(Apply(s, Return), ls, slack)
    requires Enabled(Exec(Apply(s, Return), ls), Pop(w, k))
    ensures Binding(Exec(Apply(s, Return), ls).tasks[k])
  {
    ReachablePromised(s);
    KeepsInv(s, Return);
    KeepsPromised(s, Return);
    CoverStep(s, Return);
    QuietRunIsSafe(Apply(s, Return), ls, slack, w, k);
  }

  /** A new pool is paused: no worker takes a user task before the first Run. */
  lemma NewPoolIsPaused(n: nat, ls: seq<Label>, w: Tid, k: Ticket)
    requires Runs(Init(n), ls) && Quiet(Init(n), ls, 0) && Enabled(Exec(Init(n), ls), Pop(w, k))
    ensures Binding(Exec(Init(n), ls).tasks[k])
  {
    InitInv(n);
    InitPromised(n);
    QuietRunIsSafe(Init(n), ls, 0, w, k);
  }

  // -------------------------------------------------------------- exactness

  predicate CrewOnly(ls: seq<Label>) {
    forall i | 0 <= i < |ls| :: WorkerLabel(ls[i]) || AngelLabel(ls[i])
  }

  predicate TakesUser(s: State, ls: seq<Label>, w: Tid, k: Ticket) {
    && CrewOnly(ls) && Runs(s, ls)
    && Enabled(Exec(s, ls), Pop(w, k))
    && !Binding(Exec(s, ls).tasks[k])
  }

  /** Some schedule of the workers and the angel lets a worker take a user task. */
  ghost predicate Leaks(s: State) {
    exists ls, w, k :: TakesUser(s, ls, w, k)
  }

  predicate UserQueued(s: State) {
    exists k :: k in s.tasks && !Binding(s.tasks[k])
  }

  /** A user entry that no pill or apple outranks. */
  predicate Reserving(e: Entry) { e.task.User? && e.priority >= CRITICAL }

  predicate ReservedQueued(s: State) {
    exists k :: k in s.tasks && Reserving(s.tasks[k])
  }

  /** A free worker, a user task, and too few binding entries or one that does not yield to them. */
  ghost predicate Exposed(s: State) {
    UserQueued(s) && Count(s.workers, Free) > 0 && (Cover(s) < 0 || ReservedQueued(s))
  }

  /**
    A paused pool left to its workers takes a user task under some schedule if and only
    if one is queued, some worker is free, and either there are fewer binding entries than
    free workers or a user entry is queued with the priority of binding entries or above.
  */
  lemma PauseLeaksIff(s: State)
    requires Reachable(s) && s.flag.PAUSE?
    ensures Leaks(s) <==> UserQueued(s) && Count(s.workers, Free) > 0 && (Cover(s) < 0 || ReservedQueued(s))
  {
    ReachablePromised(s);
    if ls, w, k :| TakesUser(s, ls, w, k) {
      LeakNeedsGap(s, ls, w, k);
    }
    if Exposed(s) {
      GapLeaks(s);
    }
  }

  lemma {:induction false} LeakNeedsGap(s: State, ls: seq<Label>, w: Tid, k: Ticket)
    requires Inv(s) && s.flag.PAUSE? && TakesUser(s, ls, w, k)
    ensures k in s.tasks && !Binding(s.tasks[k]) && Count(s.workers, Free) > 0
    ensures Cover(s) < 0 || Reserving(s.tasks[k])
    decreases |ls|
  {
    if ls == [] {
      assert Free(s.workers[w]);
      CountWitness(s.workers, Free);
      if Cover(s) >= 0 {
        GapPop(s, w, k);
      }
    } else {
      hide Inv, Enabled, Apply, Front;
      var l := ls[0];
      assert (WorkerLabel(l) || AngelLabel(l)) && TakesUser(Apply(s, l), ls[1..], w, k);
      CrewCover(s, l);
      LeakNeedsGap(Apply(s, l), ls[1..], w, k);
    }
  }

  lemma CrewCover(s: State, l: Label)
    requires Inv(s) && s.flag.PAUSE? && (WorkerLabel(l) || AngelLabel(l)) && Enabled(s, l)
    ensures var s' := Apply(s, l);
            && Inv(s') && s'.flag.PAUSE? && Cover(s') == Cover(s)
            && (Count(s'.workers, Free) > 0 ==> Count(s.workers, Free) > 0)
            && (forall k | k in s'.tasks :: k in s.tasks && s'.tasks[k] == s.tasks[k])
  {
    hide Inv, Enabled, Apply, Front, Cover;
    KeepsInv(s, l);
    CoverStep(s, l);
    CrewFrame(s, l);
    CrewFrees(s, l);
  }

  /** While paused, nobody becomes free. */
  lemma CrewFrees(s: State, l: Label)
    requires s.flag.PAUSE? && (WorkerLabel(l) || AngelLabel(l)) && Enabled(s, l)
    ensures Count(Apply(s, l).workers, Free) > 0 ==> Count(s.workers, Free) > 0
  {
    var s' := Apply(s, l);
    CountWitness(s'.workers, Free);
    CountWitness(s.workers, Free);
    if w :| w in s'.workers && Free(s'.workers[w]) {
      if WorkerLabel(l) { WorkerFrame(s, l); }
      assert w in s.workers && Free(s.workers[w]);
    }
  }

  /** The crew adds no task and touches neither the flag nor the controller. */
  lemma CrewFrame(s: State, l: Label)
    requires (WorkerLabel(l) || AngelLabel(l)) && Enabled(s, l)
    ensures var s' := Apply(s, l);
            && s'.flag == s.flag && s'.added == s.added && s'.ctl == s.ctl
            && (forall k | k in s'.tasks :: k in s.tasks && s'.tasks[k] == s.tasks[k])
            && (forall k | k in s.tasks && !l.Pop? :: k in s'.tasks)
            && (forall k | k in s.tasks && l.Pop? && k != l.k :: k in s'.tasks)
  {
  }

  predicate IsGot(w: Worker) { w.pc.Got? }
  predicate IsRunning(w: Worker) { w.pc.Running? }

  lemma Prepend(s: State, l: Label)
    requires (WorkerLabel(l) || AngelLabel(l)) && Enabled(s, l) && Leaks(Apply(s, l))
    ensures Leaks(s)
  {
    var ls, w, k :| TakesUser(Apply(s, l), ls, w, k);
    var all := [l] + ls;
    assert all[0] == l && all[1..] == ls;
    assert TakesUser(s, all, w, k);
  }

  /**
    In an exposed pool there is a schedule: bring a free worker back to the queue; it takes
    a user task if one may come first; while only binding entries may, it takes one of
    them, and another worker is free.
  */
  lemma GapLeaks(s: State)
    requires Inv(s) && s.flag.PAUSE? && Exposed(s)
    ensures Leaks(s)
    decreases Count(s.tasks, Binding), Count(s.workers, IsGot), Count(s.workers, IsRunning)
  {
    CountWitness(s.workers, Free);
    var w :| w in s.workers && Free(s.workers[w]);
    if !PcOf(s, w).Idle? {
      var l := if PcOf(s, w).Running? then Finish(w) else Begin(w);
      FreeIsNotInterrupted(s, w);
      GapAdvances(s, w, l);
      GapLeaks(Apply(s, l));
      Prepend(s, l);
    } else if ReservedQueued(s) {
      ReservedLeaks(s, w);
    } else {
      GapPops(s, w);
    }
  }

  lemma FreeIsNotInterrupted(s: State, w: Tid)
    requires Inv(s) && At(s, w) && Free(s.workers[w])
    ensures !s.workers[w].interrupted
  {
  }

  /** One step of a busy free worker keeps the pool exposed and comes closer to the queue. */
  lemma GapAdvances(s: State, w: Tid, l: Label)
    requires Inv(s) && s.flag.PAUSE? && Exposed(s)
    requires At(s, w) && Free(s.workers[w]) && Enabled(s, l)
    requires l == Finish(w) || l == Begin(w)
    ensures var t := Apply(s, l);
            && Inv(t) && t.flag.PAUSE? && Exposed(t) && t.tasks == s.tasks
            && (l.Begin? ==> Count(t.workers, IsGot) < Count(s.workers, IsGot))
            && (l.Finish? ==> Count(t.workers, IsGot) == Count(s.workers, IsGot)
                              && Count(t.workers, IsRunning) < Count(s.workers, IsRunning))
  {
    hide Inv, Front;
    var t := Apply(s, l);
    KeepsInv(s, l);
    CoverStep(s, l);
    CountUpdate(s.workers, w, t.workers[w], IsGot);
    CountUpdate(s.workers, w, t.workers[w], IsRunning);
    assert t.tasks == s.tasks;
    hide Cover, Binding;
    assert w in t.workers && Free(t.workers[w]);
    CountWitness(t.workers, Free);
  }

  /** A queued user entry of reserved priority may be taken first, whatever else is queued. */
  lemma ReservedLeaks(s: State, w: Tid)
    requires Inv(s) && At(s, w) && PcOf(s, w).Idle? && ReservedQueued(s)
    ensures Leaks(s)
  {
    var k := FrontOf(s.tasks);
    if Binding(s.tasks[k]) {
      k :| k in s.tasks && Reserving(s.tasks[k]);
    }
    assert TakesUser(s, [], w, k);
  }

  /** An idle worker pops the front: a binding entry while one is queued, else a user task. */
  lemma GapPops(s: State, w: Tid)
    requires Inv(s) && s.flag.PAUSE? && UserQueued(s) && Cover(s) < 0
    requires At(s, w) && PcOf(s, w).Idle?
    ensures Leaks(s)
    decreases Count(s.tasks, Binding), Count(s.workers, IsGot), 0, 0
  {
    var k := FrontOf(s.tasks);
    if !Binding(s.tasks[k]) {
      assert TakesUser(s, [], w, k);
    } else {
      var l := Pop(w, k);
      assert Enabled(s, l);
      hide Inv, Front;
      CountRemove(s.tasks, k, Binding);
      GapNarrows(s, w, k);
      GapLeaks(Apply(s, l));
      Prepend(s, l);
    }
  }

  lemma GapHasFree(s: State)
    ensures Cover(s) < 0 ==> Count(s.workers, Free) > 0
  {
  }

  lemma PopShape(s: State, w: Tid, k: Ticket)
    requires Enabled(s, Pop(w, k))
    ensures var t := Apply(s, Pop(w, k)); t.tasks == s.tasks - {k} && t.flag == s.flag
  {
  }

  /** After the pop of a binding entry there is still a gap. */
  lemma GapNarrows(s: State, w: Tid, k: Ticket)
    requires Inv(s) && s.flag.PAUSE? && UserQueued(s) && Cover(s) < 0
    requires Enabled(s, Pop(w, k)) && k in s.tasks && Binding(s.tasks[k])
    ensures var t := Apply(s, Pop(w, k)); Inv(t) && t.flag.PAUSE? && Exposed(t) && t.tasks == s.tasks - {k}
  {
    hide Inv, Apply, Enabled, Cover;
    var t := Apply(s, Pop(w, k));
    PopShape(s, w, k);
    KeepsInv(s, Pop(w, k));
    CoverStep(s, Pop(w, k));
    GapHasFree(t);
    var j :| j in s.tasks && !Binding(s.tasks[j]);
    assert j in t.tasks && t.tasks[j] == s.tasks[j];
  }

  /** A nonempty queue has a front. */
  lemma {:induction false} FrontOf(tasks: map<Ticket, Entry>) returns (k: Ticket)
    requires tasks != map[]
    ensures Front(tasks, k)
    decreases |tasks.Keys|
  {
    k :| k in tasks;
    var rest := tasks - {k};
    assert rest.Keys == tasks.Keys - {k};
    if rest != map[] {
      var j := FrontOf(rest);
      if tasks[j].priority > tasks[k].priority {
        forall i | i in tasks ensures tasks[i].priority <= tasks[j].priority {
          assert i == k || i in rest;
        }
        k := j;
      } else {
        forall i | i in tasks ensures tasks[i].priority <= tasks[k].priority {
          assert i == k || i in rest;
        }
      }
    } else {
      forall i | i in tasks ensures i == k { assert i !in rest; }
    }
  }
}
