/**
  Resizing. An apple is outstanding from its insertion until the worker that ate it
  is erased from the map. `Target` is the size the pool settles at once the controller
  is back and no apple is outstanding; only a call of Resize changes it.
*/
module ThreadPoolResize {
  import opened Counting
  import opened ThreadPool
  import opened ThreadPoolInvariant

  predicate IsApple(e: Entry) { e.task.Apple? }

  predicate HasEaten(w: Worker) {
    (w.pc.Got? && w.pc.entry.task.Apple?) || w.pc.Eating? || w.pc.Parked? || w.pc.Dead?
  }

  /** Apples queued, or eaten by a worker not yet erased. */
  ghost function Outstanding(s: State): nat {
    Count(s.tasks, IsApple) + Count(s.workers, HasEaten)
  }

  /** Threads the controller has still to insert, less apples it has still to push. */
  function Owed(s: State): int {
    match s.ctl
    case Pills(_, n) => n
    case Apples(k) => -(k as int)
    case Spawn(k, _) => k
    case Insert(k, _, _) => k
    case _ => 0
  }

  ghost function Target(s: State): int {
    |s.threads| - Outstanding(s) + Owed(s)
  }

  lemma TargetWorker(s: State, l: Label)
    requires Burials(s) && WorkerLabel(l) && Enabled(s, l)
    ensures Target(Apply(s, l)) == Target(s)
  {
    WorkerFrame(s, l);
    var s' := Apply(s, l);
    CountUpdate(s.workers, l.w, s'.workers[l.w], HasEaten);
    if l.Pop? {
      CountRemove(s.tasks, l.k, IsApple);
    } else if l.Die? {
      BurialsDie(s, l.w);
    }
  }

  lemma TargetAngel(s: State, l: Label)
    requires Burials(s) && AngelLabel(l) && Enabled(s, l)
    ensures Target(Apply(s, l)) == Target(s)
  {
    if l.AngelErase? {
      CountRemove(s.workers, s.angel.id, HasEaten);
    } else if l.AngelInterrupt? {
      CountUpdate(s.workers, s.angel.id, Apply(s, l).workers[s.angel.id], HasEaten);
    }
  }

  lemma TargetQueued(s: State, l: Label)
    requires Conserved(s) && (l.Add? || l.PushPill? || l.PushApple?) && Enabled(s, l)
    ensures Target(Apply(s, l)) == Target(s)
  {
    var k: Ticket := |s.added|;
    assert k !in s.tasks;
    CountUpdate(s.tasks, k, Apply(s, l).tasks[k], IsApple);
  }

  lemma TargetController(s: State, l: Label)
    requires Registered(s) && !WorkerLabel(l) && !AngelLabel(l) && Enabled(s, l)
    requires !l.Add? && !l.PushPill? && !l.PushApple? && !l.SpawnThread? && !l.NotifyAll?
    ensures Target(Apply(s, l)) == if l.CallResize? then l.n - Outstanding(s) else Target(s)
  {
    assert Outstanding(Apply(s, l)) == Outstanding(s);
    hide Outstanding, Enabled;
  }

  lemma TargetCrew(s: State, l: Label)
    requires (l.SpawnThread? || l.NotifyAll?) && Enabled(s, l)
    ensures Target(Apply(s, l)) == Target(s)
  {
    if l.SpawnThread? {
      CountUpdate(s.workers, l.id, Worker(Idle, false), HasEaten);
    } else {
      CountSame(s.workers, Apply(s, l).workers, HasEaten);
    }
  }

  /** Only Resize changes the target, and Resize(n) sets it to n less the apples outstanding. */
  lemma TargetStep(s: State, l: Label)
    requires Inv(s) && Enabled(s, l)
    ensures Target(Apply(s, l)) == if l.CallResize? then l.n - Outstanding(s) else Target(s)
  {
    hide Registered, Burials, Conserved, OncePerEntry, Reserved, Apply, Enabled, Target;
    if WorkerLabel(l) {
      TargetWorker(s, l);
    } else if AngelLabel(l) {
      TargetAngel(s, l);
    } else if l.Add? || l.PushPill? || l.PushApple? {
      TargetQueued(s, l);
    } else if l.SpawnThread? || l.NotifyAll? {
      TargetCrew(s, l);
    } else {
      TargetController(s, l);
    }
  }

  predicate NoResize(ls: seq<Label>) {
    forall i | 0 <= i < |ls| :: !ls[i].CallResize?
  }

  lemma {:induction false} TargetRun(s: State, ls: seq<Label>)
    requires Inv(s) && Runs(s, ls) && NoResize(ls)
    ensures Target(Exec(s, ls)) == Target(s)
    decreases |ls|
  {
    if ls != [] {
      hide Inv, Enabled, Apply, Target;
      KeepsInv(s, ls[0]);
      TargetStep(s, ls[0]);
      TargetRun(Apply(s, ls[0]), ls[1..]);
    }
  }

  /**
    Once Resize(n) has returned and its apples have drained, in any interleaving and
    with any other calls but Resize in between, the pool has n threads less the apples
    that were outstanding at the call: exactly n if and only if there were none.
  */
  lemma ResizeSettles(s: State, n: nat, ls: seq<Label>)
    requires Reachable(s) && Enabled(s, CallResize(n))
    requires Runs(Apply(s, CallResize(n)), ls) && NoResize(ls)
    ensures var t := Exec(Apply(s, CallResize(n)), ls);
            t.ctl.Ready? && Outstanding(t) == 0 ==>
              && |t.threads| == n - Outstanding(s)
              && (|t.threads| == n <==> Outstanding(s) == 0)
  {
    ReachableInv(s);
    KeepsInv(s, CallResize(n));
    TargetStep(s, CallResize(n));
    TargetRun(Apply(s, CallResize(n)), ls);
  }

  /** No apple is queued, held or about to be pushed, and nobody has eaten one. */
  predicate NoApples(s: State) {
    && !s.ctl.Apples?
    && (forall k | k in s.tasks :: !IsApple(s.tasks[k]))
    && (forall w | w in s.workers :: !HasEaten(s.workers[w]))
  }

  lemma NoApplesStep(s: State, l: Label)
    requires Inv(s) && NoApples(s) && Enabled(s, l) && !l.CallResize?
    ensures NoApples(Apply(s, l))
  {
    hide Inv;
    if l.Die? {
      NobodyDies(s, l.w);
    } else if WorkerLabel(l) {
      NoApplesWorker(s, l);
    } else {
      NoApplesOther(s, l);
    }
  }

  lemma NoApplesWorker(s: State, l: Label)
    requires NoApples(s) && WorkerLabel(l) && Enabled(s, l) && !l.Die?
    ensures NoApples(Apply(s, l))
  {
    WorkerFrame(s, l);
    var s' := Apply(s, l);
    assert !HasEaten(s'.workers[l.w]);
    assert forall k | k in s'.tasks :: k in s.tasks && s'.tasks[k] == s.tasks[k];
    hide Apply, Enabled;
  }

  lemma NoApplesOther(s: State, l: Label)
    requires NoApples(s) && !WorkerLabel(l) && !l.CallResize? && Enabled(s, l)
    ensures NoApples(Apply(s, l))
  {
  }

  lemma NobodyDies(s: State, w: Tid)
    requires Inv(s) && NoApples(s)
    ensures !Enabled(s, Die(w))
  {
    if Enabled(s, Die(w)) {
      BurialsDie(s, w);
    }
  }

  lemma {:induction false} NoApplesRun(s: State, ls: seq<Label>)
    requires Inv(s) && NoApples(s) && Runs(s, ls) && NoResize(ls)
    ensures NoApples(Exec(s, ls))
    decreases |ls|
  {
    if ls != [] {
      hide Inv, NoApples, Enabled, Apply;
      KeepsInv(s, ls[0]);
      NoApplesStep(s, ls[0]);
      NoApplesRun(Apply(s, ls[0]), ls[1..]);
    }
  }

  /** A pool built with n threads and not resized has n whenever no call is in progress. */
  lemma ConstructorSettles(n: nat, ls: seq<Label>)
    requires Runs(Init(n), ls) && NoResize(ls)
    ensures var t := Exec(Init(n), ls); t.ctl.Ready? ==> |t.threads| == n
  {
    InitInv(n);
    var t := Exec(Init(n), ls);
    TargetRun(Init(n), ls);
    NoApplesRun(Init(n), ls);
    hide Apply, Enabled, Inv;
    assert Outstanding(Init(n)) == 0 by { NoneOutstanding(Init(n)); }
    NoneOutstanding(t);
  }

  lemma NoneOutstanding(s: State)
    requires NoApples(s)
    ensures Outstanding(s) == 0
  {
    CountWitness(s.tasks, IsApple);
    CountWitness(s.workers, HasEaten);
  }
}
