/** Runs in which the pool does not do what a caller would expect of it. */
module ThreadPoolDepartures {
  import opened Counting
  import opened ThreadPool
  import opened ThreadPoolInvariant
  import opened ThreadPoolPause
  import opened ThreadPoolResize
  import Drain = ThreadPoolDrain

  /** A paused pool of one thread that has not moved since the constructor returned. */
  predicate NewPoolOfOne(s: State, w: Tid) {
    && s.flag.PAUSE? && s.ctl.Ready? && s.threads == {w}
    && s.added == [Entry(CRITICAL, Pill)]
    && s.tasks == map[0 := Entry(CRITICAL, Pill)]
    && s.workers == map[w := Worker(Idle, false)]
  }

  lemma Chain(s: State, l: Label, ls: seq<Label>)
    requires Enabled(s, l) && Runs(Apply(s, l), ls)
    ensures Runs(s, [l] + ls) && Exec(s, [l] + ls) == Exec(Apply(s, l), ls)
  {
    assert ([l] + ls)[1..] == ls;
  }

  /** The constructor of a pool of one, after its pill and before its thread. */
  predicate OnePill(s: State) {
    && s == Init(1).(ctl := s.ctl, added := s.added, tasks := s.tasks)
    && s.added == [Entry(CRITICAL, Pill)] && s.tasks == map[0 := Entry(CRITICAL, Pill)]
  }

  lemma ConstructorPill(s: State) returns (t: State)
    requires s == Init(1) && Reachable(s)
    ensures Reachable(t) && OnePill(t) && t.ctl == Pills(0, 1)
  {
    t := Apply(s, PushPill);
    assert t.tasks == map[0 := Entry(CRITICAL, Pill)];
    ReachableStep(s, PushPill);
    hide Reachable;
  }

  lemma ConstructorThread(s: State, w: Tid) returns (t: State)
    requires Reachable(s) && OnePill(s) && s.ctl == Spawn(1, true)
    ensures Reachable(t) && NewPoolOfOne(t.(ctl := Ready), w) && t.ctl == Spawn(0, true)
  {
    hide Reachable;
    ReachableStep(s, SpawnThread(w));
    var s1 := Apply(s, SpawnThread(w));
    ReachableStep(s1, InsertThread);
    t := Apply(s1, InsertThread);
    assert t == s1.(threads := {w}, ctl := Spawn(0, true), inserted := t.inserted);
  }

  /** Such a pool exists: the constructor with one thread, run to its end. */
  lemma NewPoolOfOneIsReachable(w: Tid) returns (s: State)
    ensures Reachable(s) && NewPoolOfOne(s, w)
  {
    hide Reachable;
    ReachableInit(1);
    var s1 := ConstructorPill(Init(1));
    ReachableStep(s1, Return);
    var s2 := ConstructorThread(Apply(s1, Return), w);
    ReachableStep(s2, Return);
    s := Apply(s2, Return);
  }

  /** A user task added with the reserved priority can be taken while the pool is paused. */
  lemma ReservedPriorityEscapes(s: State, w: Tid, name: nat)
    requires NewPoolOfOne(s, w)
    ensures var t := Apply(s, Add(name, CRITICAL)); t.flag.PAUSE? && Cover(t) == 0 && Leaks(t)
  {
    var t := Apply(s, Add(name, CRITICAL));
    assert TakesUser(t, [], w, 1);
    assert Keys(t.tasks, Binding) == {0};
    assert Keys(t.workers, Free) == {w};
  }

  lemma GrowthSteps(s: State, w: Tid, v: Tid, name: nat) returns (s1: State, s2: State, s3: State)
    requires NewPoolOfOne(s, w) && v != w
    ensures s1 == Apply(s, Add(name, NORMAL))
    ensures Enabled(s1, CallResize(2)) && s2 == Apply(s1, CallResize(2))
    ensures Enabled(s2, SpawnThread(v)) && s3 == Apply(s2, SpawnThread(v))
    ensures s3.flag.PAUSE? && Enabled(s3, Pop(w, 0)) && TakesUser(s3, [Pop(w, 0)], v, 1)
  {
    s1 := Apply(s, Add(name, NORMAL));
    s2 := Apply(s1, CallResize(2));
    assert s2.ctl == Spawn(1, false);
    s3 := Apply(s2, SpawnThread(v));
    assert s3.workers == map[w := Worker(Idle, false), v := Worker(Idle, false)];
    GrowthTakes(s3, w, v, name);
  }

  lemma GrowthTakes(s: State, w: Tid, v: Tid, name: nat)
    requires v != w && s.workers == map[w := Worker(Idle, false), v := Worker(Idle, false)]
    requires s.tasks == map[0 := Entry(CRITICAL, Pill), 1 := Entry(NORMAL, User(name))]
    ensures Enabled(s, Pop(w, 0)) && TakesUser(s, [Pop(w, 0)], v, 1)
  {
    var t := Apply(s, Pop(w, 0));
    assert t.tasks == map[1 := Entry(NORMAL, User(name))] && PcOf(t, v).Idle?;
    assert Enabled(t, Pop(v, 1));
    Chain(s, Pop(w, 0), []);
    assert [Pop(w, 0)] + [] == [Pop(w, 0)];
  }

  /** Growing a paused pool from one thread to two lets one of them take a user task. */
  lemma GrowthEscapes(s: State, w: Tid, v: Tid, name: nat)
    requires NewPoolOfOne(s, w) && v != w
    ensures exists ls :: Runs(s, ls) && Exec(s, ls).flag.PAUSE? && Leaks(Exec(s, ls))
  {
    hide Apply, NewPoolOfOne, TakesUser;
    var s1, s2, s3 := GrowthSteps(s, w, v, name);
    Chain(s2, SpawnThread(v), []);
    Chain(s1, CallResize(2), [SpawnThread(v)]);
    Chain(s, Add(name, NORMAL), [CallResize(2)] + [SpawnThread(v)]);
  }

  /**
    Run can miss a sleeper: a worker that read PAUSE before Run stored the flag goes to
    sleep after the notification. The call is over, the flag is RUN, and the worker is
    asleep with nothing left to wake it but a spurious wake-up.
  */
  lemma RunCanMissASleeper(s: State, w: Tid)
    requires NewPoolOfOne(s, w)
    ensures exists ls :: Runs(s, ls) && Exec(s, ls).flag.RUN? && Exec(s, ls).ctl.Ready?
                         && At(Exec(s, ls), w) && PcOf(Exec(s, ls), w).Asleep?
  {
    var s1 := Apply(s, Pop(w, 0));
    var s2 := Apply(s1, Begin(w));
    var s3 := Apply(s2, Test(w));
    assert PcOf(s3, w) == PillLock(0);
    var s4 := Apply(s3, CallRun);
    var s5 := Apply(s4, NotifyAll);
    assert PcOf(s5, w) == PillLock(0);
    var s6 := Apply(s5, Sleep(w));
    assert s6.flag.RUN? && s6.ctl.Ready? && At(s6, w) && PcOf(s6, w).Asleep?;
    hide Apply, Enabled;
    Chain(s5, Sleep(w), []);
    Chain(s4, NotifyAll, [Sleep(w)]);
    Chain(s3, CallRun, [NotifyAll] + [Sleep(w)]);
    Chain(s2, Test(w), [CallRun] + ([NotifyAll] + [Sleep(w)]));
    Chain(s1, Begin(w), [Test(w)] + ([CallRun] + ([NotifyAll] + [Sleep(w)])));
    Chain(s, Pop(w, 0), [Begin(w)] + ([Test(w)] + ([CallRun] + ([NotifyAll] + [Sleep(w)]))));
  }

  // ------------------------------------------------------------- resizing

  /** A pool of one thread, running, with no call in progress. */
  predicate RunningOne(s: State, w: Tid) {
    s.flag.RUN? && s.ctl.Ready? && s.threads == {w}
  }

  lemma StartOne(s: State, w: Tid) returns (t: State)
    requires Reachable(s) && NewPoolOfOne(s, w)
    ensures Reachable(t) && RunningOne(t, w) && Outstanding(t) == 0
  {
    NewPoolHasNoApples(s, w);
    hide Reachable, Inv, Outstanding;
    Resized(s, CallRun);
    var s1 := Apply(s, CallRun);
    Resized(s1, NotifyAll);
    t := Apply(s1, NotifyAll);
  }

  lemma NewPoolHasNoApples(s: State, w: Tid)
    requires NewPoolOfOne(s, w)
    ensures Outstanding(s) == 0
  {
    NoneOutstanding(s);
    hide Outstanding;
  }

  /** Resize(0) of a pool of one, to its return: one more apple, still one thread. */
  lemma ShrinkToNone(s: State, w: Tid) returns (t: State)
    requires Reachable(s) && RunningOne(s, w)
    ensures Reachable(t) && RunningOne(t, w) && Outstanding(t) == Outstanding(s) + 1
  {
    hide Reachable, Inv, Outstanding;
    var s1 := Apply(s, CallResize(0));
    Resized(s, CallResize(0));
    var s2 := Apply(s1, PushApple);
    Resized(s1, PushApple);
    t := Apply(s2, Return);
    Resized(s2, Return);
  }

  lemma Resized(s: State, l: Label)
    requires Reachable(s) && Enabled(s, l)
    ensures Reachable(Apply(s, l))
    ensures Target(Apply(s, l)) == if l.CallResize? then l.n - Outstanding(s) else Target(s)
  {
    hide Apply, Enabled, Inv, Target, Outstanding;
    ReachableStep(s, l);
    ReachableInv(s);
    TargetStep(s, l);
    hide Reachable;
  }

  /** A run after Resize(n) has returned and every apple has drained, which ends with `size` threads. */
  predicate SettlesAt(s: State, ls: seq<Label>, size: nat)
    requires Runs(s, ls)
  {
    NoResize(ls) && Exec(s, ls).ctl.Ready? && |Exec(s, ls).threads| == size
  }

  /**
    Resize(1) can settle at no thread at all: called while the apple of an earlier
    Resize(0) is outstanding, it finds the size already right and adds nothing.
  */
  lemma ResizeCanUndershoot() returns (s: State, ls: seq<Label>)
    ensures Reachable(s) && Enabled(s, CallResize(1)) && Runs(Apply(s, CallResize(1)), ls)
    ensures SettlesAt(Apply(s, CallResize(1)), ls, 0) && Outstanding(Exec(Apply(s, CallResize(1)), ls)) == 0
  {
    hide Reachable, Outstanding, Inv, Enabled, Apply, NewPoolOfOne;
    s := NewPoolOfOneIsReachable(0);
    s := StartOne(s, 0);
    s := ShrinkToNone(s, 0);
    var s1, s2 := ResizeToSame(s, 0);
    Drain.PoolSettlesIff(s2);
    var rest :| Drain.Pause.CrewOnly(rest) && Runs(s2, rest) && Outstanding(Exec(s2, rest)) == 0;
    Chain(s1, Return, rest);
    Drain.CrewLeavesController(s2, rest);
    ls := [Return] + rest;
  }

  /** Resize(1) of a pool of one, to its return, whatever is outstanding. */
  lemma ResizeToSame(s: State, w: Tid) returns (s1: State, s2: State)
    requires Reachable(s) && RunningOne(s, w)
    ensures Enabled(s, CallResize(1)) && s1 == Apply(s, CallResize(1))
    ensures Enabled(s1, Return) && s2 == Apply(s1, Return)
    ensures Reachable(s2) && RunningOne(s2, w) && Outstanding(s2) == Outstanding(s)
  {
    hide Reachable, Inv, Outstanding;
    s1 := Apply(s, CallResize(1));
    Resized(s, CallResize(1));
    s2 := Apply(s1, Return);
    Resized(s1, Return);
  }

  /**
    Two calls of Resize(0) on a pool of one leave two apples for one thread, and no
    schedule of the workers and the angel consumes both.
  */
  lemma RepeatedShrinkNeverDrains() returns (s: State)
    ensures Reachable(s) && s.flag.RUN? && s.ctl.Ready?
    ensures |s.threads| == 1 && Outstanding(s) == 2 && !Drain.Drains(s)
  {
    hide Reachable, Outstanding, Inv, Enabled, Apply;
    s := NewPoolOfOneIsReachable(0);
    s := StartOne(s, 0);
    s := ShrinkToNone(s, 0);
    s := ShrinkToNone(s, 0);
    Drain.PoolSettlesIff(s);
  }
}
