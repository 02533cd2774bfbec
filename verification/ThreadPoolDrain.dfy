/**
  Progress. The angel is never stuck, what Run wakes and what it misses, and a pool whose
  flag is RUN can always settle unless more apples are outstanding than there are threads:
  some schedule of the workers and the angel alone consumes every one of them. A worker
  left asleep by a missed notification leaves its pill only by a spurious wake-up.
*/
module ThreadPoolDrain {
  import opened Counting
  import opened ThreadPool
  import opened ThreadPoolInvariant
  import opened ThreadPoolResize
  import Pause = ThreadPoolPause

  // ------------------------------------------------------------- the angel

  /** What the angel waits for: itself, the worker it joins, or the thread inserting a worker. */
  function Awaited(s: State): Label
    requires !s.angel.Watching?
  {
    match s.angel
    case Holding(_) => if s.ctl.Insert? then InsertThread else AngelFind
    case Found(_) => AngelInterrupt
    case NotFound(_) => AngelFind
    case Joining(id) => if At(s, id) && PcOf(s, id).Dead? then AngelJoin else Die(id)
    case Joined(_) => if s.ctl.Insert? then InsertThread else AngelErase
  }

  /** In every reachable state an angel with an id in hand has its awaited step enabled. */
  lemma AngelIsNeverStuck(s: State)
    requires Reachable(s) && !s.angel.Watching?
    ensures Enabled(s, Awaited(s))
  {
    ReachableInv(s);
    AwaitedEnabled(s);
  }

  lemma AwaitedEnabled(s: State)
    requires Inv(s) && !s.angel.Watching?
    ensures Enabled(s, Awaited(s))
  {
    hide Registered, Burials, Conserved, OncePerEntry, Reserved;
    AwaitedJoin(s);
    assert s.ctl.Insert? ==> s.ctl.threads > 0 by { InsertingSome(s); }
  }

  /** A worker being joined is interrupted, and parked or already dead. */
  lemma AwaitedJoin(s: State)
    requires Burials(s)
    ensures !s.angel.NotFound? && (!s.angel.Watching? ==> At(s, s.angel.id))
    ensures s.angel.Joining? ==>
              && s.workers[s.angel.id].interrupted
              && (PcOf(s, s.angel.id).Parked? || PcOf(s, s.angel.id).Dead?)
  {
    assert s.angel.Joining? ==> s.angel.id in AngelHas(s);
  }

  /** The controller is never stuck: between calls it can make any, and within one it can go on. */
  lemma ControllerIsNeverStuck(s: State)
    requires Reachable(s)
    ensures s.ctl.Ready? ==> Enabled(s, CallRun) && Enabled(s, CallPause) && forall n: nat :: Enabled(s, CallResize(n))
    ensures !s.ctl.Ready? ==> exists l :: ControllerLabel(l) && Enabled(s, l)
  {
    hide Inv, Enabled;
    ReachableInv(s);
    hide Reachable;
    InsertingOf(s);
    var id := UnusedId(s.workers.Keys);
    ControllerSteps(s, id);
  }

  lemma InsertingOf(s: State)
    requires Inv(s)
    ensures s.ctl.Insert? ==> s.ctl.threads > 0
  {
    InsertingSome(s);
  }

  lemma ControllerSteps(s: State, id: Tid)
    requires id !in s.workers && (s.ctl.Insert? ==> s.ctl.threads > 0)
    ensures s.ctl.Ready? ==> Enabled(s, CallRun) && Enabled(s, CallPause) && forall n: nat :: Enabled(s, CallResize(n))
    ensures !s.ctl.Ready? ==> exists l :: ControllerLabel(l) && Enabled(s, l)
  {
    var l := ControllerNext(s, id);
    assert !s.ctl.Ready? ==> ControllerLabel(l) && Enabled(s, l);
  }

  function ControllerNext(s: State, id: Tid): Label {
    match s.ctl
    case Notifying => NotifyAll
    case PauseSize => ReadSize
    case Pills(k, _) => if k > 0 then PushPill else Return
    case Apples(k) => if k > 0 then PushApple else Return
    case Spawn(k, _) => if k > 0 then SpawnThread(id) else Return
    case Insert(_, _, _) => InsertThread
    case Ready => CallRun
  }

  predicate ControllerLabel(l: Label) {
    !WorkerLabel(l) && !AngelLabel(l) && !l.Add?
  }

  lemma {:induction false} UnusedId(ids: set<Tid>) returns (id: Tid)
    ensures id !in ids && forall i | i in ids :: i < id
  {
    if ids == {} {
      id := 0;
    } else {
      var i :| i in ids;
      id := UnusedId(ids - {i});
      if id <= i { id := i + 1; }
      assert forall j | j in ids :: j == i || j in ids - {i};
    }
  }

  lemma InsertingSome(s: State)
    requires Registered(s)
    ensures s.ctl.Insert? ==> s.ctl.threads > 0
  {
  }

  // ------------------------------------------------------------------- Run

  /** Workers that have read PAUSE and not yet tested the flag again. */
  predicate Committed(s: State, w: Tid) {
    At(s, w) && (PcOf(s, w).PillLock? || PcOf(s, w).Asleep?)
  }

  predicate NoPause(ls: seq<Label>) {
    forall i | 0 <= i < |ls| :: !ls[i].CallPause?
  }

  lemma CommittedStep(s: State, l: Label, w: Tid)
    requires Enabled(s, l) && s.flag.RUN? && !l.CallPause?
    ensures Apply(s, l).flag.RUN?
    ensures Committed(Apply(s, l), w) ==> Committed(s, w)
  {
    if WorkerLabel(l) {
      CommittedWorker(s, l, w);
    }
  }

  lemma CommittedWorker(s: State, l: Label, w: Tid)
    requires WorkerLabel(l) && Enabled(s, l) && s.flag.RUN?
    ensures Apply(s, l).flag.RUN?
    ensures Committed(Apply(s, l), w) ==> Committed(s, w)
  {
    WorkerFrame(s, l);
    if w != l.w { hide Apply, Enabled; }
  }

  /** While the flag is RUN nobody newly commits to sleep: it takes having read PAUSE. */
  lemma {:induction false} RunMissesOnlyTheCommitted(s: State, ls: seq<Label>, w: Tid)
    requires s.flag.RUN? && Runs(s, ls) && NoPause(ls)
    ensures Committed(Exec(s, ls), w) ==> Committed(s, w)
    decreases |ls|
  {
    if ls != [] {
      CommittedStep(s, ls[0], w);
      RunMissesOnlyTheCommitted(Apply(s, ls[0]), ls[1..], w);
    }
  }

  predicate LeavesAsleep(s: State, ls: seq<Label>, w: Tid) {
    NoPause(ls) && Runs(s, ls) && At(Exec(s, ls), w) && PcOf(Exec(s, ls), w).Asleep?
  }

  /**
    The notification wakes every sleeper; from then on, until the next Pause, a worker can
    be found asleep if and only if it was between reading PAUSE and waiting when the
    notification was sent.
  */
  lemma NotificationMissesIff(s: State, w: Tid)
    requires s.flag.RUN? && Enabled(s, NotifyAll)
    ensures var t := Apply(s, NotifyAll);
            && (At(t, w) ==> !PcOf(t, w).Asleep?)
            && ((exists ls :: LeavesAsleep(t, ls, w)) <==> At(s, w) && PcOf(s, w).PillLock?)
  {
    var t := Apply(s, NotifyAll);
    if ls :| LeavesAsleep(t, ls, w) {
      RunMissesOnlyTheCommitted(t, ls, w);
      assert Committed(t, w);
    }
    if At(s, w) && PcOf(s, w).PillLock? {
      assert PcOf(t, w).PillLock?;
      SleepsNow(t, w);
    }
  }

  lemma SleepsNow(t: State, w: Tid)
    requires At(t, w) && PcOf(t, w).PillLock?
    ensures LeavesAsleep(t, [Sleep(w)], w)
  {
    var ls := [Sleep(w)];
    assert ls[1..] == [] && Runs(Apply(t, Sleep(w)), ls[1..]);
    assert Exec(t, ls) == Exec(Apply(t, Sleep(w)), ls[1..]);
  }

  // ----------------------------------------------------------------- drain

  /** Steps a worker still has to take inside its task when the flag is RUN, at most. */
  function Rank(pc: Pc): nat {
    match pc
    case Idle => 0
    case Got(_, _) => 4
    case Running(_, _) => 1
    case PillTest(_) => 1
    case PillLock(_) => 3
    case Asleep(_) => 2
    case Eating(_) => 2
    case Parked(_) => 1
    case Dead => 0
  }

  predicate Above0(w: Worker) { Rank(w.pc) > 0 }
  predicate Above1(w: Worker) { Rank(w.pc) > 1 }
  predicate Above2(w: Worker) { Rank(w.pc) > 2 }
  predicate Above3(w: Worker) { Rank(w.pc) > 3 }

  /** The sum of all ranks. */
  ghost function Work(workers: map<Tid, Worker>): nat {
    Count(workers, Above0) + Count(workers, Above1) + Count(workers, Above2) + Count(workers, Above3)
  }

  lemma WorkUpdate(m: map<Tid, Worker>, w: Tid, v: Worker)
    requires w in m
    ensures Work(m[w := v]) == Work(m) - Rank(m[w].pc) + Rank(v.pc)
  {
    CountUpdate(m, w, v, Above0);
    CountUpdate(m, w, v, Above1);
    CountUpdate(m, w, v, Above2);
    CountUpdate(m, w, v, Above3);
    hide Count;
  }

  function AngelLeft(a: Angel): nat {
    match a
    case Watching => 5
    case Holding(_) => 4
    case Found(_) => 3
    case NotFound(_) => 3
    case Joining(_) => 2
    case Joined(_) => 1
  }

  /** Progress of one step: fewer tasks, or fewer workers, or less work, or a nearer angel. */
  ghost predicate Progress(s: State, t: State) {
    || |t.tasks.Keys| < |s.tasks.Keys|
    || (t.tasks == s.tasks && |t.workers.Keys| < |s.workers.Keys|)
    || (t.tasks == s.tasks && t.workers.Keys == s.workers.Keys && Work(t.workers) < Work(s.workers))
    || (&& t.tasks == s.tasks && t.workers.Keys == s.workers.Keys
        && Work(t.workers) == Work(s.workers) && AngelLeft(t.angel) < AngelLeft(s.angel))
  }

  /** The step of a worker that is not idle, parked or dead, when the flag is RUN. */
  function InTask(s: State, w: Tid): Label
    requires At(s, w)
  {
    match PcOf(s, w)
    case Got(_, _) => Begin(w)
    case Running(_, _) => Finish(w)
    case PillTest(_) => Test(w)
    case PillLock(_) => Sleep(w)
    case Asleep(_) => Wake(w)
    case _ => Report(w)
  }

  predicate Busy(pc: Pc) { !pc.Idle? && !pc.Parked? && !pc.Dead? }

  lemma InTaskShape(s: State, w: Tid)
    requires s.flag.RUN? && At(s, w) && Busy(PcOf(s, w)) && !s.workers[w].interrupted
    ensures Enabled(s, InTask(s, w))
    ensures var t := Apply(s, InTask(s, w));
            && t.tasks == s.tasks && At(t, w) && t.workers == s.workers[w := t.workers[w]]
            && Rank(PcOf(t, w)) < Rank(PcOf(s, w))
  {
  }

  lemma BusyIsNotInterrupted(s: State, w: Tid)
    requires Burials(s) && At(s, w) && Busy(PcOf(s, w))
    ensures !s.workers[w].interrupted
  {
  }

  lemma InTaskProgress(s: State, w: Tid)
    requires Inv(s) && s.flag.RUN? && At(s, w) && Busy(PcOf(s, w))
    ensures Enabled(s, InTask(s, w)) && Progress(s, Apply(s, InTask(s, w)))
  {
    hide Registered, Burials, Conserved, OncePerEntry, Reserved, Enabled, Apply, Work, Rank;
    BusyIsNotInterrupted(s, w);
    InTaskShape(s, w);
    WorkUpdate(s.workers, w, Apply(s, InTask(s, w)).workers[w]);
  }

  lemma AngelProgress(s: State)
    requires Inv(s) && !s.ctl.Insert? && (!s.angel.Watching? || s.readyToDie != [])
    ensures var l := if s.angel.Watching? then AngelPop else Awaited(s);
            (WorkerLabel(l) || AngelLabel(l)) && Enabled(s, l) && Progress(s, Apply(s, l))
  {
    hide Registered, Burials, Conserved, OncePerEntry, Reserved, Work;
    if s.angel.Watching? {
      assert Apply(s, AngelPop).workers == s.workers;
    } else {
      AwaitedEnabled(s);
      AwaitedProgress(s);
    }
  }

  lemma AwaitedProgress(s: State)
    requires Inv(s) && !s.ctl.Insert? && !s.angel.Watching? && Enabled(s, Awaited(s))
    ensures Progress(s, Apply(s, Awaited(s)))
  {
    hide Registered, Conserved, OncePerEntry, Reserved, Work, Rank;
    assert At(s, s.angel.id);
    hide Burials;
    if Awaited(s).Die? {
      DieProgress(s, s.angel.id);
    } else {
      AngelStepProgress(s, Awaited(s));
    }
  }

  lemma DieProgress(s: State, w: Tid)
    requires Burials(s) && Enabled(s, Die(w))
    ensures Progress(s, Apply(s, Die(w)))
  {
    hide Work;
    OnlyTheParkedDie(s, w);
    hide Burials;
    WorkerFrame(s, Die(w));
    WorkUpdate(s.workers, w, Apply(s, Die(w)).workers[w]);
  }

  lemma OnlyTheParkedDie(s: State, w: Tid)
    requires Burials(s) && Enabled(s, Die(w))
    ensures PcOf(s, w).Parked? && PcOf(Apply(s, Die(w)), w).Dead? && Apply(s, Die(w)).tasks == s.tasks
  {
    BurialsDie(s, w);
    hide Burials;
  }

  lemma AngelStepProgress(s: State, l: Label)
    requires l.AngelFind? || l.AngelInterrupt? || l.AngelJoin? || l.AngelErase?
    requires Enabled(s, l) && (l.AngelErase? ==> At(s, s.angel.id))
    ensures Progress(s, Apply(s, l))
  {
    hide Work;
    if l.AngelErase? {
      EraseProgress(s);
    } else if l.AngelInterrupt? {
      WorkUpdate(s.workers, s.angel.id, Apply(s, l).workers[s.angel.id]);
    }
  }

  lemma EraseProgress(s: State)
    requires Enabled(s, AngelErase) && At(s, s.angel.id)
    ensures Progress(s, Apply(s, AngelErase))
  {
    hide Work, AngelLeft;
    assert Apply(s, AngelErase).workers.Keys == s.workers.Keys - {s.angel.id};
  }

  /**
    While an apple is outstanding, the controller is idle, the flag is RUN and there are
    enough threads, some worker or the angel can make progress.
  */
  lemma DrainStep(s: State) returns (l: Label)
    requires Inv(s) && s.ctl.Ready? && s.flag.RUN? && Target(s) >= 0 && Outstanding(s) > 0
    ensures (WorkerLabel(l) || AngelLabel(l)) && Enabled(s, l) && Progress(s, Apply(s, l))
  {
    hide Conserved, OncePerEntry, Reserved, Burials, Registered, Outstanding, Work;
    if !s.angel.Watching? || s.readyToDie != [] {
      AngelProgress(s);
      l := if s.angel.Watching? then AngelPop else Awaited(s);
    } else {
      NobodyIsParked(s);
      var w := SomeWorker(s);
      if PcOf(s, w).Idle? {
        var k := AppleQueued(s);
        l := Pop(w, k);
        assert Apply(s, l).tasks.Keys == s.tasks.Keys - {k};
      } else {
        l := InTask(s, w);
        InTaskProgress(s, w);
      }
    }
  }

  lemma NobodyIsParked(s: State)
    requires Inv(s) && s.angel.Watching? && s.readyToDie == []
    ensures forall w | At(s, w) :: !PcOf(s, w).Parked? && !PcOf(s, w).Dead?
  {
  }

  /** A worker to move: one inside a task if there is any, otherwise an idle one. */
  lemma SomeWorker(s: State) returns (w: Tid)
    requires Inv(s) && s.ctl.Ready? && Target(s) >= 0 && Outstanding(s) > 0
    ensures At(s, w) && (PcOf(s, w).Idle? ==> forall v | At(s, v) :: PcOf(s, v).Idle?)
  {
    if v: Tid :| At(s, v) && !PcOf(s, v).Idle? {
      w := v;
    } else {
      assert s.workers.Keys == s.threads && |s.threads| > 0;
      w :| w in s.threads;
    }
  }

  /** If every worker is idle, the outstanding apples are queued, and the queue has a front. */
  lemma AppleQueued(s: State) returns (k: Ticket)
    requires Outstanding(s) > 0 && forall v | At(s, v) :: PcOf(s, v).Idle?
    ensures Front(s.tasks, k)
  {
    if Count(s.workers, HasEaten) > 0 {
      CountWitness(s.workers, HasEaten);
      var v :| v in s.workers && HasEaten(s.workers[v]);
      assert At(s, v);
      assert false;
    }
    CountWitness(s.tasks, IsApple);
    k := Pause.FrontOf(s.tasks);
  }

  ghost predicate Drains(s: State) {
    exists ls :: Pause.CrewOnly(ls) && Runs(s, ls) && Outstanding(Exec(s, ls)) == 0
  }

  lemma DrainsBack(s: State, l: Label)
    requires (WorkerLabel(l) || AngelLabel(l)) && Enabled(s, l) && Drains(Apply(s, l))
    ensures Drains(s)
  {
    var ls :| Pause.CrewOnly(ls) && Runs(Apply(s, l), ls) && Outstanding(Exec(Apply(s, l), ls)) == 0;
    var all := [l] + ls;
    assert all[0] == l && all[1..] == ls;
    assert Pause.CrewOnly(all) && Runs(s, all) && Outstanding(Exec(s, all)) == 0;
  }

  /** A step of progress keeps everything a further step needs. */
  lemma DrainOn(s: State) returns (l: Label)
    requires Inv(s) && s.ctl.Ready? && s.flag.RUN? && Target(s) >= 0 && Outstanding(s) > 0
    ensures (WorkerLabel(l) || AngelLabel(l)) && Enabled(s, l) && Progress(s, Apply(s, l))
    ensures var t := Apply(s, l); Inv(t) && t.ctl.Ready? && t.flag.RUN? && Target(t) == Target(s)
  {
    hide Inv, Enabled, Apply, Target, Outstanding, Progress;
    l := DrainStep(s);
    KeepsInv(s, l);
    TargetStep(s, l);
    Pause.CrewFrame(s, l);
  }

  lemma DrainsAlready(s: State)
    requires Outstanding(s) == 0
    ensures Drains(s)
  {
    hide Outstanding;
    assert Pause.CrewOnly([]) && Runs(s, []) && Exec(s, []) == s;
  }

  lemma {:induction false} CanDrain(s: State)
    requires Inv(s) && s.ctl.Ready? && s.flag.RUN? && Target(s) >= 0
    ensures Drains(s)
    decreases |s.tasks.Keys|, |s.workers.Keys|, Work(s.workers), AngelLeft(s.angel)
  {
    hide Inv, Enabled, Apply, Target, Outstanding, Work, AngelLeft, Drains;
    if Outstanding(s) == 0 {
      DrainsAlready(s);
    } else {
      var l := DrainOn(s);
      CanDrain(Apply(s, l));
      DrainsBack(s, l);
    }
  }

  /**
    Whenever the flag is RUN and the controller is idle, some schedule of the workers and
    the angel alone consumes every outstanding apple if and only if there are not more
    apples outstanding than threads; and any such schedule leaves exactly the target size.
  */
  lemma PoolSettlesIff(s: State)
    requires Reachable(s) && s.ctl.Ready? && s.flag.RUN?
    ensures Drains(s) <==> Outstanding(s) <= |s.threads|
    ensures forall ls | Pause.CrewOnly(ls) && Runs(s, ls) && Outstanding(Exec(s, ls)) == 0 ::
              |Exec(s, ls).threads| == |s.threads| - Outstanding(s)
  {
    ReachableInv(s);
    hide Inv, Outstanding, Enabled;
    forall ls | Pause.CrewOnly(ls) && Runs(s, ls)
      ensures |Exec(s, ls).threads| - Outstanding(Exec(s, ls)) == |s.threads| - Outstanding(s)
    {
      TargetRun(s, ls);
      CrewLeavesController(s, ls);
    }
    if Outstanding(s) <= |s.threads| {
      CanDrain(s);
    }
  }

  lemma {:induction false} CrewLeavesController(s: State, ls: seq<Label>)
    requires Pause.CrewOnly(ls) && Runs(s, ls)
    ensures Exec(s, ls).ctl == s.ctl
    decreases |ls|
  {
    if ls != [] {
      Pause.CrewFrame(s, ls[0]);
      CrewLeavesController(Apply(s, ls[0]), ls[1..]);
    }
  }
}
