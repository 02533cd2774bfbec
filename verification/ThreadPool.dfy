/**
  The thread pool as a step machine: any number of workers serving one priority
  queue, the controller thread that calls Run, Pause and Resize, any number of
  threads calling Add, and the "angel of death" thread that buries workers which
  ate a poison apple.

  Every label is one atomic action of the original: a critical section of a
  queue, a critical section under the map lock, one access to the atomic flag,
  or one call that changes another thread. Runs before Stop are modelled.
*/
module ThreadPool {
  import opened Counting

  type Tid = nat
  /** Identity of one queue insertion. */
  type Ticket = nat

  const LOW := 1
  const NORMAL := 2
  const HIGH := 3
  const CRITICAL := 4

  datatype Flag = PAUSE | RUN

  datatype Task = User(name: nat) | Pill | Apple

  datatype Entry = Entry(priority: int, task: Task)

  /** Where a worker stands in RunThread and in the Do of what it popped. */
  datatype Pc =
    | Idle                                // at the loop head or inside Pop
    | Got(ticket: Ticket, entry: Entry)   // popped, before the interruption point
    | Running(ticket: Ticket, name: nat)  // inside the Do of a user task
    | PillTest(ticket: Ticket)            // about to read the flag
    | PillLock(ticket: Ticket)            // read PAUSE, about to lock and wait
    | Asleep(ticket: Ticket)              // waiting on m_paused
    | Eating(ticket: Ticket)              // about to report its id
    | Parked(ticket: Ticket)              // reported, in the endless sleep
    | Dead                                // thread function left

  datatype Worker = Worker(pc: Pc, interrupted: bool)

  /** Where the controller stands. `spawns` is what the constructor spawns after its pills. */
  datatype Ctl =
    | Ready
    | Notifying
    | PauseSize
    | Pills(pills: nat, spawns: nat)
    | Apples(apples: nat)
    | Spawn(threads: nat, ctor: bool)
    | Insert(threads: nat, ctor: bool, id: Tid)  // holds the map lock

  datatype Angel =
    | Watching
    | Holding(id: Tid)   // popped an id from m_ready_to_die
    | Found(id: Tid)     // looked it up under the map lock
    | NotFound(id: Tid)  // the lookup returned end()
    | Joining(id: Tid)   // interrupted it
    | Joined(id: Tid)

  datatype State = State(
    tasks: map<Ticket, Entry>,
    threads: set<Tid>,
    readyToDie: seq<Tid>,
    flag: Flag,
    workers: map<Tid, Worker>,
    ctl: Ctl,
    angel: Angel,
    // history
    added: seq<Entry>,
    started: seq<Ticket>,
    finished: set<Ticket>,
    lost: set<Ticket>,
    inserted: nat,
    erased: nat)

  datatype Label =
    // workers
    | Pop(w: Tid, k: Ticket) | Begin(w: Tid) | Finish(w: Tid) | Test(w: Tid) | Sleep(w: Tid)
    | Wake(w: Tid) | Report(w: Tid) | Die(w: Tid)
    // the angel of death
    | AngelPop | AngelFind | AngelInterrupt | AngelJoin | AngelErase
    // any thread
    | Add(name: nat, priority: int)
    // the controller
    | CallRun | NotifyAll | CallPause | ReadSize | CallResize(n: nat)
    | PushPill | PushApple | SpawnThread(id: Tid) | InsertThread | Return

  /** The constructor has set the flag and is about to insert one pill for each thread. */
  function Init(n: nat): State {
    State(map[], {}, [], PAUSE, map[], Pills(n, n), Watching, [], [], {}, {}, 0, 0)
  }

  predicate At(s: State, w: Tid) { w in s.workers }

  function PcOf(s: State, w: Tid): Pc
    requires At(s, w)
  {
    s.workers[w].pc
  }

  /** std::less on pairs orders by priority first; ties fall to the address of a task. */
  predicate Front(tasks: map<Ticket, Entry>, k: Ticket) {
    k in tasks && forall j | j in tasks :: tasks[j].priority <= tasks[k].priority
  }

  /** Places where boost delivers an interruption. */
  predicate InterruptionPoint(pc: Pc) {
    pc.Idle? || pc.Got? || pc.Running? || pc.Asleep? || pc.Parked?
  }

  predicate Enabled(s: State, l: Label) {
    match l
    case Pop(w, k) => At(s, w) && PcOf(s, w).Idle? && Front(s.tasks, k)
    case Begin(w) => At(s, w) && PcOf(s, w).Got? && !s.workers[w].interrupted
    case Finish(w) => At(s, w) && PcOf(s, w).Running?
    case Test(w) => At(s, w) && PcOf(s, w).PillTest?
    case Sleep(w) => At(s, w) && PcOf(s, w).PillLock?
    case Wake(w) => At(s, w) && PcOf(s, w).Asleep?
    case Report(w) => At(s, w) && PcOf(s, w).Eating?
    case Die(w) => At(s, w) && s.workers[w].interrupted && InterruptionPoint(PcOf(s, w))
    case AngelPop => s.angel.Watching? && s.readyToDie != []
    case AngelFind => s.angel.Holding? && !s.ctl.Insert?
    case AngelInterrupt => s.angel.Found? && At(s, s.angel.id)
    case AngelJoin => s.angel.Joining? && At(s, s.angel.id) && PcOf(s, s.angel.id).Dead?
    case AngelErase => s.angel.Joined? && !s.ctl.Insert?
    case Add(_, _) => true
    case CallRun => s.ctl.Ready?
    case NotifyAll => s.ctl.Notifying?
    case CallPause => s.ctl.Ready?
    case ReadSize => s.ctl.PauseSize?
    case CallResize(_) => s.ctl.Ready?
    case PushPill => s.ctl.Pills? && s.ctl.pills > 0
    case PushApple => s.ctl.Apples? && s.ctl.apples > 0
    case SpawnThread(id) => s.ctl.Spawn? && s.ctl.threads > 0 && !At(s, id)
    case InsertThread => s.ctl.Insert? && s.ctl.threads > 0
    case Return =>
      || (s.ctl.Pills? && s.ctl.pills == 0)
      || (s.ctl.Apples? && s.ctl.apples == 0)
      || (s.ctl.Spawn? && s.ctl.threads == 0)
  }

  /** Worker `w` moves to `pc`; everything else stays. */
  function Move(s: State, w: Tid, pc: Pc): State
    requires At(s, w)
  {
    s.(workers := s.workers[w := s.workers[w].(pc := pc)])
  }

  function Enqueue(s: State, e: Entry): State {
    s.(tasks := s.tasks[|s.added| := e], added := s.added + [e])
  }

  function BeginPc(pc: Pc): Pc
    requires pc.Got?
  {
    match pc.entry.task
    case User(name) => Running(pc.ticket, name)
    case Pill => PillTest(pc.ticket)
    case Apple => Eating(pc.ticket)
  }

  function WakeAll(workers: map<Tid, Worker>): map<Tid, Worker> {
    map w | w in workers ::
      if workers[w].pc.Asleep? then workers[w].(pc := PillTest(workers[w].pc.ticket)) else workers[w]
  }

  /** An apple's Do ends with its thread; any other task cut short is lost. */
  function Bury(s: State, w: Tid): State
    requires At(s, w) && InterruptionPoint(PcOf(s, w))
  {
    var s' := Move(s, w, Dead);
    match PcOf(s, w)
    case Idle => s'
    case Parked(k) => s'.(finished := s.finished + {k})
    case pc => s'.(lost := s.lost + {pc.ticket})
  }

  function Apply(s: State, l: Label): State
    requires Enabled(s, l)
  {
    match l
    case Pop(w, k) => Move(s, w, Got(k, s.tasks[k])).(tasks := s.tasks - {k})
    case Begin(w) => Move(s, w, BeginPc(PcOf(s, w))).(started := s.started + [PcOf(s, w).ticket])
    case Finish(w) => Move(s, w, Idle).(finished := s.finished + {PcOf(s, w).ticket})
    case Test(w) =>
      if s.flag.PAUSE? then Move(s, w, PillLock(PcOf(s, w).ticket))
      else Move(s, w, Idle).(finished := s.finished + {PcOf(s, w).ticket})
    case Sleep(w) => Move(s, w, Asleep(PcOf(s, w).ticket))
    case Wake(w) => Move(s, w, PillTest(PcOf(s, w).ticket))
    case Report(w) => Move(s, w, Parked(PcOf(s, w).ticket)).(readyToDie := s.readyToDie + [w])
    case Die(w) => Bury(s, w)
    case AngelPop => s.(angel := Holding(s.readyToDie[0]), readyToDie := s.readyToDie[1..])
    case AngelFind =>
      s.(angel := if s.angel.id in s.threads then Found(s.angel.id) else NotFound(s.angel.id))
    case AngelInterrupt =>
      s.(angel := Joining(s.angel.id),
         workers := s.workers[s.angel.id := s.workers[s.angel.id].(interrupted := true)])
    case AngelJoin => s.(angel := Joined(s.angel.id))
    case AngelErase =>
      s.(angel := Watching, threads := s.threads - {s.angel.id},
         workers := s.workers - {s.angel.id}, erased := s.erased + 1)
    case Add(name, priority) => Enqueue(s, Entry(priority, User(name)))
    case CallRun => s.(flag := RUN, ctl := Notifying)
    case NotifyAll => s.(workers := WakeAll(s.workers), ctl := Ready)
    case CallPause => s.(flag := PAUSE, ctl := PauseSize)
    case ReadSize => s.(ctl := Pills(|s.threads|, 0))
    case CallResize(n) =>
      s.(ctl := if n < |s.threads| then Apples(|s.threads| - n) else Spawn(n - |s.threads|, false))
    case PushPill => Enqueue(s, Entry(CRITICAL, Pill)).(ctl := s.ctl.(pills := s.ctl.pills - 1))
    case PushApple => Enqueue(s, Entry(CRITICAL, Apple)).(ctl := Apples(s.ctl.apples - 1))
    case SpawnThread(id) =>
      s.(workers := s.workers[id := Worker(Idle, false)], ctl := Insert(s.ctl.threads, s.ctl.ctor, id))
    case InsertThread =>
      s.(threads := s.threads + {s.ctl.id}, ctl := Spawn(s.ctl.threads - 1, s.ctl.ctor), inserted := s.inserted + 1)
    case Return =>
      s.(ctl := if s.ctl.Pills? && s.ctl.spawns > 0 then Spawn(s.ctl.spawns, true) else Ready)
  }

  // ------------------------------------------------------------------ runs

  predicate Runs(s: State, ls: seq<Label>)
    decreases |ls|
  {
    ls == [] || (Enabled(s, ls[0]) && Runs(Apply(s, ls[0]), ls[1..]))
  }

  function Exec(s: State, ls: seq<Label>): State
    requires Runs(s, ls)
    decreases |ls|
  {
    if ls == [] then s else Exec(Apply(s, ls[0]), ls[1..])
  }

  ghost predicate Reachable(s: State) {
    exists n: nat, ls :: Runs(Init(n), ls) && s == Exec(Init(n), ls)
  }

  // ------------------------------------------------------------- invariants

  function AngelHas(s: State): set<Tid> {
    if s.angel.Watching? then {} else {s.angel.id}
  }

  predicate NoDuplicates<T(==)>(xs: seq<T>) {
    forall i, j | 0 <= i < j < |xs| :: xs[i] != xs[j]
  }

  /** The map holds every worker except one whose creator still holds the map lock. */
  predicate Registered(s: State) {
    && s.workers.Keys == s.threads + (if s.ctl.Insert? then {s.ctl.id} else {})
    && (s.ctl.Insert? ==> s.ctl.id !in s.threads && s.ctl.threads > 0)
    && |s.threads| + s.erased == s.inserted
  }

  /** Workers that reported their id are exactly those queued for, or held by, the angel. */
  ghost predicate Burials(s: State) {
    && !s.angel.NotFound?
    && NoDuplicates(s.readyToDie)
    && (forall w | w in s.readyToDie :: w !in AngelHas(s))
    && (forall w | At(s, w) ::
          PcOf(s, w).Parked? || PcOf(s, w).Dead? <==> w in s.readyToDie || w in AngelHas(s))
    && (forall w | w in s.readyToDie :: At(s, w))
    && (!s.angel.Watching? ==> At(s, s.angel.id))
    && (s.angel.Found? || s.angel.Joining? || s.angel.Joined? ==> s.angel.id in s.threads)
    && (s.angel.Joined? ==> PcOf(s, s.angel.id).Dead?)
    && (forall w | At(s, w) && PcOf(s, w).Dead? :: s.workers[w].interrupted)
    && (forall w | At(s, w) :: s.workers[w].interrupted <==> s.angel in {Joining(w), Joined(w)})
  }

  /** The ticket a worker holds, or -1. */
  function Hand(pc: Pc): int {
    if pc.Idle? || pc.Dead? then -1 else pc.ticket
  }

  predicate HeldBy(s: State, w: Tid, k: Ticket) { At(s, w) && Hand(PcOf(s, w)) == k }

  /** The program counter agrees with the entry that was added under its ticket. */
  predicate Faithful(pc: Pc, added: seq<Entry>) {
    match pc
    case Idle => true
    case Dead => true
    case Got(k, e) => k < |added| && added[k] == e
    case Running(k, name) => k < |added| && added[k].task == User(name)
    case PillTest(k) => k < |added| && added[k].task == Pill
    case PillLock(k) => k < |added| && added[k].task == Pill
    case Asleep(k) => k < |added| && added[k].task == Pill
    case Eating(k) => k < |added| && added[k].task == Apple
    case Parked(k) => k < |added| && added[k].task == Apple
  }

  ghost predicate Somewhere(s: State, k: Ticket) {
    k in s.tasks || k in s.finished || exists w :: HeldBy(s, w, k)
  }

  /** Every ticket issued is in exactly one place: the queue, one worker, or the finished set. */
  ghost predicate Conserved(s: State) {
    && s.lost == {}
    && (forall k | k in s.tasks :: k < |s.added| && s.tasks[k] == s.added[k] && k !in s.finished)
    && (forall k | k in s.finished :: k < |s.added|)
    && (forall w | At(s, w) :: Faithful(PcOf(s, w), s.added))
    && (forall w, k | HeldBy(s, w, k) :: k !in s.tasks && k !in s.finished)
    && (forall w, v, k | HeldBy(s, w, k) && HeldBy(s, v, k) :: w == v)
    && (forall k: nat | k < |s.added| :: Somewhere(s, k))
  }

  /** A ticket has begun if it is finished or a worker holding it is past the interruption point. */
  ghost predicate Begun(s: State, k: Ticket) {
    k in s.finished || exists w :: InProgress(s, w, k)
  }

  predicate InProgress(s: State, w: Tid, k: Ticket) {
    HeldBy(s, w, k) && !PcOf(s, w).Got?
  }

  /** Executions: each started ticket is started once, and only after it was added. */
  ghost predicate OncePerEntry(s: State) {
    && NoDuplicates(s.started)
    && (forall k: nat :: k in s.started <==> Begun(s, k))
  }

  /** The entries the pool itself inserts carry the reserved priority. */
  predicate Reserved(s: State) {
    forall k: nat | k < |s.added| :: s.added[k].task.User? || s.added[k].priority == CRITICAL
  }

  ghost predicate Inv(s: State) {
    Registered(s) && Burials(s) && Conserved(s) && OncePerEntry(s) && Reserved(s)
  }

  lemma InitInv(n: nat)
    ensures Inv(Init(n))
  {
  }
}
