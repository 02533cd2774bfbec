/**
  GetInstance by double-checked locking, for any number of threads. Allocation,
  construction and publication are separate steps; a constructor may throw, in which
  case the thread leaves and may call again.
*/
module Singleton {

  type Tid = nat
  type Obj = nat

  datatype Option<T> = None | Some(value: T)

  datatype Pc =
    | Start              // about to load m_instance
    | WantLock           // saw null
    | Locked             // about to load again under the lock
    | Constructing(obj: Obj)
    | Storing(obj: Obj)
    | Hooking            // published, about to call atexit
    | Unlocking
    | Returning          // about to load the value to return

  datatype State = State(
    instance: Option<Obj>,
    lock: Option<Tid>,
    threads: map<Tid, Pc>,
    objects: map<Obj, bool>,  // allocated objects; true once constructed
    hooks: nat,
    built: nat,               // constructions that succeeded
    returned: seq<Option<Obj>>)

  datatype Label =
    | FirstLoad(t: Tid) | Acquire(t: Tid) | SecondLoad(t: Tid, obj: Obj) | Construct(t: Tid)
    | Throw(t: Tid) | Store(t: Tid) | Hook(t: Tid) | Release(t: Tid) | Return(t: Tid)

  function Init(): State { State(None, None, map[], map[], 0, 0, []) }

  function PcOf(s: State, t: Tid): Pc { if t in s.threads then s.threads[t] else Start }

  predicate Enabled(s: State, l: Label) {
    match l
    case FirstLoad(t) => PcOf(s, t).Start?
    case Acquire(t) => PcOf(s, t).WantLock? && s.lock == None
    case SecondLoad(t, obj) => PcOf(s, t).Locked? && obj !in s.objects
    case Construct(t) => PcOf(s, t).Constructing?
    case Throw(t) => PcOf(s, t).Constructing?
    case Store(t) => PcOf(s, t).Storing?
    case Hook(t) => PcOf(s, t).Hooking?
    case Release(t) => PcOf(s, t).Unlocking?
    case Return(t) => PcOf(s, t).Returning?
  }

  function Go(s: State, t: Tid, pc: Pc): State { s.(threads := s.threads[t := pc]) }

  function Apply(s: State, l: Label): State
    requires Enabled(s, l)
  {
    match l
    case FirstLoad(t) => Go(s, t, if s.instance.None? then WantLock else Returning)
    case Acquire(t) => Go(s, t, Locked).(lock := Some(t))
    case SecondLoad(t, obj) =>
      if s.instance.None? then Go(s, t, Constructing(obj)).(objects := s.objects[obj := false])
      else Go(s, t, Unlocking)
    case Construct(t) =>
      var obj := PcOf(s, t).obj;
      Go(s, t, Storing(obj)).(objects := s.objects[obj := true], built := s.built + 1)
    case Throw(t) => Go(s, t, Start).(objects := s.objects - {PcOf(s, t).obj}, lock := None)
    case Store(t) => Go(s, t, Hooking).(instance := Some(PcOf(s, t).obj))
    case Hook(t) => Go(s, t, Unlocking).(hooks := s.hooks + 1)
    case Release(t) => Go(s, t, Returning).(lock := None)
    case Return(t) => Go(s, t, Start).(returned := s.returned + [s.instance])
  }

  predicate Runs(s: State, ls: seq<Label>)
    decreases |ls|
  {
    ls == [] || (Enabled(s, ls[0]) && Runs(Apply(s, ls[0]), ls[1..]))
  }

  function Exec(s: State, ls: seq<Label>): State
    requires Runs(s, ls)
    decreases |ls|
  {
    if ls == [] then s else Exec(Apply(s, ls[0]), ls[1..])
  }

  predicate InLock(pc: Pc) {
    pc.Locked? || pc.Constructing? || pc.Storing? || pc.Hooking? || pc.Unlocking?
  }

  /** Where the one lock holder stands decides what is built, published and hooked. */
  predicate Stage(s: State, pc: Pc) {
    match pc
    case Constructing(o) => s.instance.None? && s.built == 0 && s.hooks == 0 && s.objects == map[o := false]
    case Storing(o) => s.instance.None? && s.built == 1 && s.hooks == 0 && s.objects == map[o := true]
    case Hooking => Published(s) && s.hooks == 0
    case Unlocking => Published(s) && s.hooks == 1
    case _ => Settled(s)
  }

  predicate Published(s: State) {
    s.instance.Some? && s.built == 1 && s.objects == map[s.instance.value := true]
  }

  predicate Settled(s: State) {
    if s.instance.None? then s.built == 0 && s.hooks == 0 && s.objects == map[]
    else Published(s) && s.hooks == 1
  }

  /** Exactly the thread inside the critical section holds the lock. */
  ghost predicate Exclusive(s: State) {
    forall t: Tid :: InLock(PcOf(s, t)) <==> s.lock == Some(t)
  }

  ghost predicate Inv(s: State) {
    && Exclusive(s)
    && (if s.lock.None? then Settled(s) else Stage(s, PcOf(s, s.lock.value)))
    && (forall t: Tid | PcOf(s, t).Returning? :: s.instance.Some?)
    && (forall i | 0 <= i < |s.returned| :: s.returned[i].Some? && s.returned[i] == s.instance)
  }

  lemma KeepsInv(s: State, l: Label)
    requires Inv(s) && Enabled(s, l)
    ensures Inv(Apply(s, l))
  {
    var s' := Apply(s, l);
    forall t: Tid ensures PcOf(s', t) == if t == l.t then s'.threads[t] else PcOf(s, t) {}
    KeepsExclusive(s, l);
    assert InLock(PcOf(s, l.t)) <==> s.lock == Some(l.t);
    hide Exclusive;
  }

  lemma KeepsExclusive(s: State, l: Label)
    requires Exclusive(s) && Enabled(s, l)
    ensures Exclusive(Apply(s, l))
  {
    var s' := Apply(s, l);
    forall t: Tid ensures InLock(PcOf(s', t)) <==> s'.lock == Some(t) {
      assert InLock(PcOf(s, t)) <==> s.lock == Some(t);
      assert InLock(PcOf(s, l.t)) <==> s.lock == Some(l.t);
    }
  }

  /** The instance never changes once published. */
  lemma {:induction false} RunKeepsInv(s: State, ls: seq<Label>)
    requires Inv(s) && Runs(s, ls)
    ensures Inv(Exec(s, ls))
    ensures s.instance.Some? ==> Exec(s, ls).instance == s.instance
    decreases |ls|
  {
    if ls != [] {
      KeepsInv(s, ls[0]);
      RunKeepsInv(Apply(s, ls[0]), ls[1..]);
    }
  }

  /** The last step of a run. */
  lemma {:induction false} LastStep(s: State, ls: seq<Label>)
    requires ls != [] && Runs(s, ls)
    ensures var n := |ls| - 1;
            && Runs(s, ls[..n]) && Enabled(Exec(s, ls[..n]), ls[n])
            && Exec(s, ls) == Apply(Exec(s, ls[..n]), ls[n])
    decreases |ls|
  {
    hide Enabled, Apply;
    var n := |ls| - 1;
    if n == 0 {
      assert ls[..n] == [] && ls[1..] == [];
    } else {
      LastStep(Apply(s, ls[0]), ls[1..]);
      assert ls[1..][..n - 1] == ls[..n][1..] && ls[..n][0] == ls[0] && ls[1..][n - 1] == ls[n];
    }
  }

  function Constructs(ls: seq<Label>): nat
    decreases |ls|
  {
    if ls == [] then 0 else Constructs(ls[..|ls| - 1]) + if ls[|ls| - 1].Construct? then 1 else 0
  }

  function Hooks(ls: seq<Label>): nat
    decreases |ls|
  {
    if ls == [] then 0 else Hooks(ls[..|ls| - 1]) + if ls[|ls| - 1].Hook? then 1 else 0
  }

  function Returns(ls: seq<Label>): nat
    decreases |ls|
  {
    if ls == [] then 0 else Returns(ls[..|ls| - 1]) + if ls[|ls| - 1].Return? then 1 else 0
  }

  lemma {:induction false} ToldRun(ls: seq<Label>)
    requires Runs(Init(), ls)
    ensures var s := Exec(Init(), ls);
            s.built == Constructs(ls) && s.hooks == Hooks(ls) && |s.returned| == Returns(ls)
    decreases |ls|
  {
    if ls != [] {
      LastStep(Init(), ls);
      ToldRun(ls[..|ls| - 1]);
      hide Runs, Exec;
    }
  }

  /**
    In every interleaving of any number of threads, with constructors that may throw: at
    most one construction succeeds and at most one exit hook is registered, the hook is
    registered when nobody is inside the critical section of a published object, a
    published pointer refers to a constructed object, and every return is that same
    non-null object.
  */
  lemma OneInstance(ls: seq<Label>)
    requires Runs(Init(), ls)
    ensures var s := Exec(Init(), ls);
            && Constructs(ls) <= 1 && Hooks(ls) <= Constructs(ls)
            && (s.instance.Some? ==> s.instance.value in s.objects && s.objects[s.instance.value])
            && (s.instance.Some? && s.lock.None? ==> Hooks(ls) == 1)
            && |s.returned| == Returns(ls)
            && (forall i | 0 <= i < |s.returned| :: s.returned[i].Some? && s.returned[i] == s.instance)
            && (Returns(ls) > 0 ==> Constructs(ls) == 1)
  {
    RunKeepsInv(Init(), ls);
    ToldRun(ls);
    var s := Exec(Init(), ls);
    hide Runs, Exec, Constructs, Hooks, Returns;
    if s.returned != [] { assert s.returned[0] == s.instance; }
  }

  /** Once the pointer is published a caller returns it without the lock. */
  lemma PublishedNeedsNoLock(s: State, t: Tid)
    requires s.instance.Some? && Enabled(s, FirstLoad(t))
    ensures var s' := Apply(s, FirstLoad(t));
            && s'.lock == s.lock && Enabled(s', Return(t))
            && Apply(s', Return(t)).returned == s.returned + [s.instance]
  {
  }

  /**
    A constructor that throws leaves everything as if the call had not been made: no object,
    no pointer, no hook, the lock free, and the thread able to call again.
  */
  lemma ThrowLeavesNothing(ls: seq<Label>, t: Tid)
    requires Runs(Init(), ls) && PcOf(Exec(Init(), ls), t).Constructing?
    ensures var s := Exec(Init(), ls);
            && Enabled(s, Throw(t))
            && var s' := Apply(s, Throw(t));
               && s'.objects == map[] && s'.instance.None? && s'.hooks == 0 && s'.built == 0 && s'.lock.None?
               && Enabled(s', FirstLoad(t)) && Enabled(Apply(s', FirstLoad(t)), Acquire(t))
  {
    RunKeepsInv(Init(), ls);
    hide Runs, Exec;
    assert InLock(PcOf(Exec(Init(), ls), t));
  }

  ghost predicate CanStep(s: State, t: Tid) {
    exists l: Label :: l.t == t && Enabled(s, l)
  }

  /** Nobody is stuck: a thread can step, or waits for the lock and its holder can step. */
  lemma NobodyIsStuck(ls: seq<Label>, t: Tid)
    requires Runs(Init(), ls)
    ensures var s := Exec(Init(), ls);
            CanStep(s, t) || (PcOf(s, t).WantLock? && s.lock.Some? && CanStep(s, s.lock.value))
  {
    RunKeepsInv(Init(), ls);
    var s := Exec(Init(), ls);
    hide Runs, Exec;
    StepOf(s, t);
    if s.lock.Some? {
      assert InLock(PcOf(s, s.lock.value));
      StepOf(s, s.lock.value);
    }
  }

  /** The step a thread takes next. */
  lemma StepOf(s: State, t: Tid)
    requires Inv(s)
    ensures !PcOf(s, t).WantLock? || s.lock.None? ==> CanStep(s, t)
  {
    var unused := FreshObject(s.objects);
    var l := match PcOf(s, t)
      case Start => FirstLoad(t)
      case WantLock => Acquire(t)
      case Locked => SecondLoad(t, unused)
      case Constructing(_) => Construct(t)
      case Storing(_) => Store(t)
      case Hooking => Hook(t)
      case Unlocking => Release(t)
      case Returning => Return(t);
    hide Inv;
    assert l.t == t;
  }

  lemma {:induction false} FreshObject(objects: map<Obj, bool>) returns (o: Obj)
    ensures o !in objects
    ensures forall p | p in objects :: p < o
    decreases |objects.Keys|
  {
    if objects == map[] {
      o := 0;
    } else {
      var p :| p in objects;
      assert (objects - {p}).Keys == objects.Keys - {p};
      o := FreshObject(objects - {p});
      if o <= p { o := p + 1; }
      assert forall q | q in objects :: q == p || q in objects - {p};
    }
  }
}
