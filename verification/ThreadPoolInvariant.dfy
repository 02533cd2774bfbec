/** Every step of the pool keeps the invariant, so every reachable state has it. */
module ThreadPoolInvariant {
  import opened Counting
  import opened ThreadPool

  // ---------------------------------------------------------- registration

  predicate WorkerLabel(l: Label) {
    l.Pop? || l.Begin? || l.Finish? || l.Test? || l.Sleep? || l.Wake? || l.Report? || l.Die?
  }

  predicate AngelLabel(l: Label) {
    l.AngelPop? || l.AngelFind? || l.AngelInterrupt? || l.AngelJoin? || l.AngelErase?
  }

  /** A worker's step changes one program counter and no part of the pool that others own. */
  lemma WorkerFrame(s: State, l: Label)
    requires WorkerLabel(l) && Enabled(s, l)
    ensures var s' := Apply(s, l);
            && s' == s.(workers := s'.workers, tasks := s'.tasks, readyToDie := s'.readyToDie,
                        started := s'.started, finished := s'.finished, lost := s'.lost)
            && At(s, l.w) && At(s', l.w)
            && s'.workers == s.workers[l.w := s.workers[l.w].(pc := PcOf(s', l.w))]
  {
  }

  lemma KeepsRegistered(s: State, l: Label)
    requires Registered(s) && Burials(s) && Enabled(s, l)
    ensures Registered(Apply(s, l))
  {
    hide *;
    if WorkerLabel(l) {
      RegisteredByWorker(s, l);
    } else if AngelLabel(l) {
      RegisteredByAngel(s, l);
    } else {
      RegisteredByController(s, l);
    }
  }

  lemma RegisteredByWorker(s: State, l: Label)
    requires Registered(s) && Enabled(s, l) && WorkerLabel(l)
    ensures Registered(Apply(s, l))
  {
    WorkerFrame(s, l);
    assert Apply(s, l).workers.Keys == s.workers.Keys;
  }

  lemma RegisteredByAngel(s: State, l: Label)
    requires Registered(s) && Burials(s) && Enabled(s, l) && AngelLabel(l)
    ensures Registered(Apply(s, l))
  {
    if l.AngelErase? {
      RegisteredErase(s);
    } else {
      assert Apply(s, l).workers.Keys == s.workers.Keys;
      hide Burials;
    }
  }

  lemma RegisteredErase(s: State)
    requires Registered(s) && Burials(s) && Enabled(s, AngelErase)
    ensures Registered(Apply(s, AngelErase))
  {
    assert s.angel.id in s.threads;
    hide Burials;
    assert Apply(s, AngelErase).workers.Keys == s.workers.Keys - {s.angel.id};
  }

  lemma RegisteredByController(s: State, l: Label)
    requires Registered(s) && Enabled(s, l) && !WorkerLabel(l) && !AngelLabel(l)
    ensures Registered(Apply(s, l))
  {
  }

  // --------------------------------------------------------------- burials

  /** Workers keep their station with respect to the angel. */
  ghost predicate SameGraves(s: State, s': State) {
    && s'.workers.Keys == s.workers.Keys
    && forall w | At(s, w) ::
         && (PcOf(s, w).Parked? <==> PcOf(s', w).Parked?)
         && (PcOf(s, w).Dead? <==> PcOf(s', w).Dead?)
         && s.workers[w].interrupted == s'.workers[w].interrupted
  }

  lemma BurialsFrame(s: State, s': State)
    requires Burials(s) && SameGraves(s, s')
    requires s'.readyToDie == s.readyToDie && s'.angel == s.angel && s'.threads >= s.threads
    ensures Burials(s')
  {
  }

  lemma KeepsBurials(s: State, l: Label)
    requires Registered(s) && Burials(s) && Enabled(s, l)
    ensures Burials(Apply(s, l))
  {
    hide Registered, Burials, Apply, Enabled;
    if l.Report? {
      BurialsReport(s, l.w);
    } else if l.Die? {
      BurialsDie(s, l.w);
    } else if WorkerLabel(l) {
      BurialsByWorker(s, l);
    } else if AngelLabel(l) {
      BurialsByAngel(s, l);
    } else if l.SpawnThread? {
      BurialsSpawn(s, l);
    } else {
      BurialsByController(s, l);
    }
  }

  predicate ControllerLabel(l: Label) { !WorkerLabel(l) && !AngelLabel(l) && !l.SpawnThread? }

  lemma BurialsByController(s: State, l: Label)
    requires Burials(s) && ControllerLabel(l) && Enabled(s, l)
    ensures Burials(Apply(s, l))
  {
    ControllerFrame(s, l);
    BurialsFrame(s, Apply(s, l));
  }

  /** Apart from spawning, the controller and the adding threads move no worker except to wake it. */
  lemma ControllerFrame(s: State, l: Label)
    requires ControllerLabel(l) && Enabled(s, l)
    ensures var s' := Apply(s, l);
            && s'.readyToDie == s.readyToDie && s'.angel == s.angel && s'.threads >= s.threads
            && s'.finished == s.finished && s'.started == s.started && s'.lost == s.lost
            && s'.workers in {s.workers, WakeAll(s.workers)}
  {
  }

  lemma BurialsByWorker(s: State, l: Label)
    requires Burials(s) && WorkerLabel(l) && !l.Report? && !l.Die? && Enabled(s, l)
    ensures Burials(Apply(s, l))
  {
    WorkerFrame(s, l);
    BurialsFrame(s, Apply(s, l));
  }

  lemma BurialsReport(s: State, w: Tid)
    requires Burials(s) && Enabled(s, Report(w))
    ensures Burials(Apply(s, Report(w)))
  {
    assert w !in s.readyToDie && w !in AngelHas(s);
  }

  lemma BurialsDie(s: State, w: Tid)
    requires Burials(s) && Enabled(s, Die(w))
    ensures PcOf(s, w).Parked? && Burials(Apply(s, Die(w)))
  {
    assert w in AngelHas(s);
  }

  lemma BurialsByAngel(s: State, l: Label)
    requires Registered(s) && Burials(s) && AngelLabel(l) && Enabled(s, l)
    ensures Burials(Apply(s, l))
  {
    hide Burials, Apply, Enabled;
    match l
    case AngelPop => BurialsAngelPop(s);
    case AngelFind => BurialsAngelFind(s);
    case AngelErase => BurialsAngelErase(s);
    case _ => BurialsAngelJoin(s, l);
  }

  lemma BurialsAngelPop(s: State)
    requires Burials(s) && Enabled(s, AngelPop)
    ensures Burials(Apply(s, AngelPop))
  {
    var s' := Apply(s, AngelPop);
    var id := s.readyToDie[0];
    assert s.readyToDie == [id] + s'.readyToDie;
    assert forall w :: w in s.readyToDie <==> w == id || w in s'.readyToDie;
  }

  /** The lookup succeeds: with the map lock free, every worker is in the map. */
  lemma BurialsAngelFind(s: State)
    requires Registered(s) && Burials(s) && Enabled(s, AngelFind)
    ensures Apply(s, AngelFind).angel == Found(s.angel.id)
    ensures Burials(Apply(s, AngelFind))
  {
    assert s.angel.id in s.threads;
  }

  lemma BurialsAngelJoin(s: State, l: Label)
    requires Burials(s) && (l.AngelInterrupt? || l.AngelJoin?) && Enabled(s, l)
    ensures Burials(Apply(s, l))
  {
  }

  lemma BurialsAngelErase(s: State)
    requires Burials(s) && Enabled(s, AngelErase)
    ensures Burials(Apply(s, AngelErase))
  {
  }

  lemma BurialsSpawn(s: State, l: Label)
    requires Registered(s) && Burials(s) && l.SpawnThread? && Enabled(s, l)
    ensures Burials(Apply(s, l))
  {
    assert l.id !in s.readyToDie;
  }

  // ---------------------------------------------------------- conservation

  lemma ConservedFrame(s: State, s': State)
    requires Conserved(s)
    requires s'.tasks == s.tasks && s'.added == s.added && s'.finished == s.finished && s'.lost == s.lost
    requires s'.workers.Keys == s.workers.Keys
    requires forall w | At(s, w) :: Hand(PcOf(s', w)) == Hand(PcOf(s, w)) && Faithful(PcOf(s', w), s.added)
    ensures Conserved(s')
  {
    forall w, k ensures HeldBy(s', w, k) <==> HeldBy(s, w, k) {}
    forall k: nat | k < |s'.added| ensures Somewhere(s', k) {
      assert Somewhere(s, k);
    }
  }

  lemma ConservedEnqueue(s: State, s': State, e: Entry)
    requires Conserved(s)
    requires s'.tasks == s.tasks[|s.added| := e] && s'.added == s.added + [e]
    requires s'.workers == s.workers && s'.finished == s.finished && s'.lost == s.lost
    ensures Conserved(s')
  {
    forall w, k ensures HeldBy(s', w, k) <==> HeldBy(s, w, k) {}
    forall k: nat | k < |s'.added| ensures Somewhere(s', k) {
      if k < |s.added| { assert Somewhere(s, k); }
    }
    forall w | At(s', w) ensures Faithful(PcOf(s', w), s'.added) {
      assert At(s, w) && Faithful(PcOf(s, w), s.added);
    }
  }

  /** A worker gives its ticket to the finished set. */
  lemma ConservedFinish(s: State, s': State, w: Tid, k: Ticket)
    requires Conserved(s) && HeldBy(s, w, k)
    requires s'.tasks == s.tasks && s'.added == s.added && s'.lost == s.lost
    requires s'.finished == s.finished + {k}
    requires s'.workers.Keys == s.workers.Keys && Hand(PcOf(s', w)) == -1
    requires forall v | At(s, v) && v != w :: PcOf(s', v) == PcOf(s, v)
    ensures Conserved(s')
  {
    forall v, j ensures HeldBy(s', v, j) <==> HeldBy(s, v, j) && v != w {}
    forall j: nat | j < |s'.added| ensures Somewhere(s', j) {
      assert Somewhere(s, j);
      if j != k && j !in s.tasks && j !in s.finished {
        var v :| HeldBy(s, v, j);
        assert HeldBy(s', v, j);
      }
    }
  }

  lemma ConservedPop(s: State, w: Tid, k: Ticket)
    requires Conserved(s) && Enabled(s, Pop(w, k))
    ensures Conserved(Apply(s, Pop(w, k)))
  {
    var s' := Apply(s, Pop(w, k));
    forall v, j ensures HeldBy(s', v, j) <==> HeldBy(s, v, j) || (v == w && j == k) {}
    forall v | At(s', v) ensures Faithful(PcOf(s', v), s'.added) {
      assert At(s, v) && Faithful(PcOf(s, v), s.added);
    }
    forall j: nat | j < |s'.added| ensures Somewhere(s', j) {
      assert Somewhere(s, j);
      if j == k {
        assert HeldBy(s', w, k);
      } else if j !in s.tasks && j !in s.finished {
        var v :| HeldBy(s, v, j);
        assert HeldBy(s', v, j);
      }
    }
  }

  /** Adding or removing a worker that holds nothing moves no ticket. */
  lemma ConservedCrew(s: State, s': State)
    requires Conserved(s)
    requires s'.tasks == s.tasks && s'.added == s.added && s'.finished == s.finished && s'.lost == s.lost
    requires forall w, k :: HeldBy(s', w, k) <==> HeldBy(s, w, k)
    requires forall w | At(s', w) :: Faithful(PcOf(s', w), s.added)
    ensures Conserved(s')
  {
    forall k: nat | k < |s'.added| ensures Somewhere(s', k) {
      assert Somewhere(s, k);
    }
  }

  lemma KeepsConserved(s: State, l: Label)
    requires Registered(s) && Burials(s) && Conserved(s) && Enabled(s, l)
    ensures Conserved(Apply(s, l))
  {
    hide Registered, Burials, Conserved, Apply, Enabled;
    if WorkerLabel(l) {
      ConservedByWorker(s, l);
    } else if AngelLabel(l) || l.SpawnThread? {
      ConservedByCrew(s, l);
    } else {
      ConservedByController(s, l);
    }
  }

  lemma ConservedByCrew(s: State, l: Label)
    requires Burials(s) && Conserved(s) && (AngelLabel(l) || l.SpawnThread?) && Enabled(s, l)
    ensures Conserved(Apply(s, l))
  {
    ConservedCrew(s, Apply(s, l));
  }

  lemma ConservedByController(s: State, l: Label)
    requires Conserved(s) && ControllerLabel(l) && Enabled(s, l)
    ensures Conserved(Apply(s, l))
  {
    var s' := Apply(s, l);
    if l.Add? {
      ConservedEnqueue(s, s', Entry(l.priority, User(l.name)));
    } else if l.PushPill? {
      ConservedEnqueue(s, s', Entry(CRITICAL, Pill));
    } else if l.PushApple? {
      ConservedEnqueue(s, s', Entry(CRITICAL, Apple));
    } else {
      ControllerFrame(s, l);
      ConservedFrame(s, s');
    }
  }

  lemma ConservedByWorker(s: State, l: Label)
    requires Burials(s) && Conserved(s) && WorkerLabel(l) && Enabled(s, l)
    ensures Conserved(Apply(s, l))
  {
    hide Burials, Conserved;
    if l.Pop? {
      ConservedPop(s, l.w, l.k);
    } else if Completes(s, l) {
      FinishShape(s, l);
      ConservedFinish(s, Apply(s, l), l.w, PcOf(s, l.w).ticket);
    } else {
      ConservedHanded(s, l);
    }
  }

  /** Steps in which a worker completes what it holds. */
  predicate Completes(s: State, l: Label) {
    l.Finish? || (l.Test? && s.flag.RUN?) || l.Die?
  }

  lemma FinishShape(s: State, l: Label)
    requires Burials(s) && Completes(s, l) && Enabled(s, l)
    ensures var s' := Apply(s, l);
            && HeldBy(s, l.w, PcOf(s, l.w).ticket) && !PcOf(s, l.w).Got?
            && s' == s.(workers := s'.workers, finished := s.finished + {PcOf(s, l.w).ticket})
            && s'.workers.Keys == s.workers.Keys
            && Hand(PcOf(s', l.w)) == -1
            && (forall v | At(s, v) && v != l.w :: PcOf(s', v) == PcOf(s, v))
  {
    if l.Die? { BurialsDie(s, l.w); }
  }

  lemma ConservedHanded(s: State, l: Label)
    requires Conserved(s) && WorkerLabel(l) && !l.Pop? && !Completes(s, l) && Enabled(s, l)
    ensures Conserved(Apply(s, l))
  {
    ConservedFrame(s, Apply(s, l));
  }

  // ------------------------------------------------------------ executions

  /** Work in progress is unchanged. */
  ghost predicate SameBegun(s: State, s': State) {
    forall k: nat :: Begun(s', k) <==> Begun(s, k)
  }

  lemma BegunFrame(s: State, s': State)
    requires s'.finished == s.finished
    requires forall w, k :: InProgress(s', w, k) <==> InProgress(s, w, k)
    ensures SameBegun(s, s')
  {
    forall k: nat ensures Begun(s', k) <==> Begun(s, k) {
      if w :| InProgress(s, w, k) { assert InProgress(s', w, k); }
      if w :| InProgress(s', w, k) { assert InProgress(s, w, k); }
    }
  }

  lemma BegunFinish(s: State, s': State, w: Tid, k: Ticket)
    requires InProgress(s, w, k) && s'.finished == s.finished + {k}
    requires forall v, j :: InProgress(s', v, j) <==> InProgress(s, v, j) && v != w
    requires forall v, j | HeldBy(s, v, j) && HeldBy(s, w, j) :: v == w
    ensures SameBegun(s, s')
  {
    forall j: nat ensures Begun(s', j) <==> Begun(s, j) {
      if v :| InProgress(s, v, j) { assert v == w ==> j == k; assert v != w ==> InProgress(s', v, j); }
      if v :| InProgress(s', v, j) { assert InProgress(s, v, j); }
      if j == k { assert InProgress(s, w, j); }
    }
  }

  lemma OnceBegin(s: State, w: Tid)
    requires Conserved(s) && OncePerEntry(s) && Enabled(s, Begin(w))
    ensures OncePerEntry(Apply(s, Begin(w)))
  {
    var s' := Apply(s, Begin(w));
    var k := PcOf(s, w).ticket;
    assert HeldBy(s, w, k);
    assert !Begun(s, k);
    assert k !in s.started;
    forall j: nat ensures Begun(s', j) <==> Begun(s, j) || j == k {
      if v :| InProgress(s, v, j) { assert v != w; assert InProgress(s', v, j); }
      if v :| InProgress(s', v, j) { assert v != w ==> InProgress(s, v, j); }
      if j == k { assert InProgress(s', w, j); }
    }
  }

  lemma OnceByWorker(s: State, l: Label)
    requires Burials(s) && Conserved(s) && OncePerEntry(s) && Enabled(s, l)
    requires WorkerLabel(l) && !l.Begin?
    ensures OncePerEntry(Apply(s, l))
  {
    hide Burials;
    if Completes(s, l) {
      FinishShape(s, l);
      BegunFinish(s, Apply(s, l), l.w, PcOf(s, l.w).ticket);
    } else {
      WorkerFrame(s, l);
      BegunFrame(s, Apply(s, l));
    }
  }

  lemma KeepsOnce(s: State, l: Label)
    requires Burials(s) && Conserved(s) && OncePerEntry(s) && Enabled(s, l)
    ensures OncePerEntry(Apply(s, l))
  {
    if l.Begin? {
      OnceBegin(s, l.w);
    } else if WorkerLabel(l) {
      OnceByWorker(s, l);
    } else {
      OnceByOthers(s, l);
    }
  }

  lemma OnceByOthers(s: State, l: Label)
    requires Burials(s) && OncePerEntry(s) && Enabled(s, l) && !WorkerLabel(l)
    ensures OncePerEntry(Apply(s, l))
  {
    if ControllerLabel(l) { ControllerFrame(s, l); }
    BegunFrame(s, Apply(s, l));
  }

  lemma KeepsReserved(s: State, l: Label)
    requires Reserved(s) && Enabled(s, l)
    ensures Reserved(Apply(s, l))
  {
  }

  lemma KeepsInv(s: State, l: Label)
    requires Inv(s) && Enabled(s, l)
    ensures Inv(Apply(s, l))
  {
    KeepsRegistered(s, l);
    KeepsBurials(s, l);
    KeepsConserved(s, l);
    KeepsOnce(s, l);
    KeepsReserved(s, l);
  }

  /** The invariant holds along every run from every state that has it. */
  lemma {:induction false} RunKeepsInv(s: State, ls: seq<Label>)
    requires Inv(s) && Runs(s, ls)
    ensures Inv(Exec(s, ls))
    decreases |ls|
  {
    if ls != [] {
      KeepsInv(s, ls[0]);
      RunKeepsInv(Apply(s, ls[0]), ls[1..]);
    }
  }

  lemma ReachableInv(s: State)
    requires Reachable(s)
    ensures Inv(s)
  {
    var n: nat, ls :| Runs(Init(n), ls) && s == Exec(Init(n), ls);
    InitInv(n);
    RunKeepsInv(Init(n), ls);
  }

  lemma {:induction false} RunThenStep(s: State, ls: seq<Label>, l: Label)
    requires Runs(s, ls) && Enabled(Exec(s, ls), l)
    ensures Runs(s, ls + [l]) && Exec(s, ls + [l]) == Apply(Exec(s, ls), l)
    decreases |ls|
  {
    hide Enabled, Apply;
    var all := ls + [l];
    if ls == [] {
      assert all[0] == l && all[1..] == [];
      assert Runs(Apply(s, l), all[1..]) && Exec(Apply(s, l), all[1..]) == Apply(s, l);
    } else {
      RunThenStep(Apply(s, ls[0]), ls[1..], l);
      assert all[0] == ls[0] && all[1..] == ls[1..] + [l];
    }
  }

  lemma ReachableStep(s: State, l: Label)
    requires Reachable(s) && Enabled(s, l)
    ensures Reachable(Apply(s, l))
  {
    hide Enabled, Apply;
    var n: nat, ls :| Runs(Init(n), ls) && s == Exec(Init(n), ls);
    RunThenStep(Init(n), ls, l);
  }

  lemma ReachableInit(n: nat)
    ensures Reachable(Init(n))
  {
    assert Runs(Init(n), []) && Exec(Init(n), []) == Init(n);
  }

  // -------------------------------------------------------------- theorems

  function Holders(s: State, k: Ticket): set<Tid> {
    set w | w in s.workers && HeldBy(s, w, k)
  }

  /**
    Task conservation: in every reachable state each entry ever added is in exactly one
    place, the queue, the hands of exactly one worker, or the finished set; a worker does
    what was added; no execution was cut short, and no entry was started twice.
  */
  lemma TaskConservation(s: State, k: Ticket)
    requires Reachable(s) && k < |s.added|
    ensures Bit(k in s.tasks) + |Holders(s, k)| + Bit(k in s.finished) == 1
    ensures s.lost == {} && NoDuplicates(s.started)
    ensures k in s.tasks ==> s.tasks[k] == s.added[k] && k !in s.started
    ensures forall w | w in Holders(s, k) ::
              Faithful(PcOf(s, w), s.added) && (k in s.started <==> !PcOf(s, w).Got?)
    ensures k in s.finished ==> k in s.started
  {
    ReachableInv(s);
    assert Somewhere(s, k);
    if w: Tid :| HeldBy(s, w, k) {
      assert w in Holders(s, k);
      assert Holders(s, k) == {w};
      assert InProgress(s, w, k) <==> !PcOf(s, w).Got?;
    } else {
      assert Holders(s, k) == {};
    }
    assert Begun(s, k) <==> k in s.started;
  }

  /**
    The angel's lookup never fails, it interrupts only workers parked inside an apple,
    it joins and erases only a worker that is in the map, and every id waiting for it is
    waiting once.
  */
  lemma AngelBuriesOnlyTheParked(s: State, l: Label)
    requires Reachable(s) && Enabled(s, l)
    ensures NoDuplicates(s.readyToDie) && |s.threads| + s.erased == s.inserted
    ensures l.AngelFind? ==> Apply(s, l).angel == Found(s.angel.id)
    ensures l.AngelInterrupt? ==> PcOf(s, s.angel.id).Parked? && s.angel.id in s.threads
    ensures l.AngelErase? ==> s.angel.id in s.threads && At(s, s.angel.id) && PcOf(s, s.angel.id).Dead?
                              && |Apply(s, l).threads| == |s.threads| - 1
    ensures l.Die? ==> PcOf(s, l.w).Parked?
  {
    ReachableInv(s);
    if l.Die? { BurialsDie(s, l.w); }
    if l.AngelFind? { BurialsAngelFind(s); }
    if l.AngelErase? { BurialsAngelErase(s); }
  }
}
