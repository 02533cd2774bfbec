/** Dispatchers and callbacks: two kinds of objects that point at each other. */
module Dispatching {
  import opened Broadcast

  class Callback {
    var dispatcher: Dispatcher?
    var alive: bool

    constructor ()
      ensures dispatcher == null && alive
    {
      dispatcher := null;
      alive := true;
    }

    /** The destructor: an attached callback takes itself off its dispatcher's list. */
    method Destroy(ghost ds: set<Dispatcher>, ghost cs: set<Callback>)
      requires Linked(ds, cs) && this in cs && alive
      modifies this`alive, (if dispatcher == null then {} else {dispatcher})`subscribers
      ensures Linked(ds, cs) && !alive
      ensures old(dispatcher) != null ==>
                old(dispatcher).subscribers == Without(old(dispatcher.subscribers), this)
    {
      if dispatcher != null {
        WithoutExact(dispatcher.subscribers, this);
        dispatcher.UnSubscribe(this);
      }
      alive := false;
    }
  }

  class Dispatcher {
    var subscribers: seq<Node<Callback>>
    var nextId: nat
    var alive: bool

    constructor ()
      ensures subscribers == [] && alive
    {
      subscribers := [];
      nextId := 0;
      alive := true;
    }

    predicate Numbered()
      reads this
    {
      Unique(subscribers) && forall i | 0 <= i < |subscribers| :: subscribers[i].id < nextId
    }

    function Now(): Board<Callback> reads this { Board(subscribers, nextId) }

    method PushFront(c: Callback)
      modifies this`subscribers, this`nextId
      ensures subscribers == [Node(old(nextId), c)] + old(subscribers) && nextId == old(nextId) + 1
      ensures old(Numbered()) ==> Numbered()
    {
      subscribers := [Node(nextId, c)] + subscribers;
      nextId := nextId + 1;
    }

    /**
      Subscribing keeps the links sound exactly when the callback is free or already
      attached to this dispatcher.
    */
    method Subscribe(c: Callback, ghost ds: set<Dispatcher>, ghost cs: set<Callback>)
      requires Linked(ds, cs) && this in ds && alive && c in cs && c.alive
      modifies this`subscribers, this`nextId, c`dispatcher
      ensures subscribers == [Node(old(nextId), c)] + old(subscribers)
      ensures c.dispatcher == this
      ensures Linked(ds, cs) <==> old(c.dispatcher) in {null, this}
    {
      ghost var before := c.dispatcher;
      PushFront(c);
      c.dispatcher := this;
      assert subscribers[0].callback == c;
      if before != null && before != this {
        var i :| 0 <= i < |before.subscribers| && before.subscribers[i].callback == c;
        assert !Linked(ds, cs);
      } else {
        forall d | d in cs && d.alive && d.dispatcher != null
          ensures d.dispatcher in ds && d.dispatcher.alive && Subscribed(d.dispatcher, d)
        {
          if d != c && d.dispatcher == this {
            var i :| 0 <= i < |old(subscribers)| && old(subscribers)[i].callback == d;
            assert subscribers[i + 1].callback == d;
          } else if d != c {
            assert old(Subscribed(d.dispatcher, d));
          }
        }
      }
    }

    method UnSubscribe(c: Callback)
      modifies this`subscribers
      ensures subscribers == Without(old(subscribers), c)
      ensures old(Numbered()) ==> Numbered()
    {
      WithoutExact(subscribers, c);
      if Numbered() { WithoutUnique(subscribers, c); }
      subscribers := Without(subscribers, c);
    }

    /** The destructor tells every subscription in list order and frees its callback. */
    method Destroy(ghost ds: set<Dispatcher>, ghost cs: set<Callback>) returns (told: seq<Callback>)
      requires Linked(ds, cs) && this in ds && alive
      modifies this`alive, (set i | 0 <= i < |subscribers| :: subscribers[i].callback)`dispatcher
      ensures Linked(ds, cs) && !alive
      ensures |told| == |subscribers| && forall i | 0 <= i < |told| :: told[i] == subscribers[i].callback
      ensures forall c | c in cs && c.alive ::
                c.dispatcher == if old(c.dispatcher) == this then null else old(c.dispatcher)
    {
      told := [];
      var i := 0;
      while i < |subscribers|
        invariant 0 <= i <= |subscribers| == |old(subscribers)| && subscribers == old(subscribers)
        invariant |told| == i && forall j | 0 <= j < i :: told[j] == subscribers[j].callback
        invariant forall c | c in cs ::
                    c.dispatcher == if c in told then null else old(c.dispatcher)
      {
        var c := subscribers[i].callback;
        told := told + [c];
        c.dispatcher := null;
        i := i + 1;
      }
      alive := false;
      forall c | c in cs && c.alive
        ensures c.dispatcher == if old(c.dispatcher) == this then null else old(c.dispatcher)
      {
        if old(c.dispatcher) == this {
          var j :| 0 <= j < |subscribers| && subscribers[j].callback == c;
          assert told[j] == c;
        }
      }
    }

    /**
      Notifies subscribers while handlers change the list. `valid` is false if a handler
      removed the node it was called for, which leaves the original with an invalid
      iterator; the loop stops there. Otherwise the list ends with the new subscriptions in front
      of the old ones, the latest first, less what a later operation removed.
    */
    method Broadcast(handler: Handler<Callback>) returns (notified: seq<Node<Callback>>, valid: bool)
      requires Numbered()
      modifies this`subscribers, this`nextId
      ensures Numbered() && Planned(old(subscribers), notified, valid, handler)
      ensures valid ==>
                var ops := AllOps(handler, |notified|);
                && subscribers == NewNodes(ops, old(nextId)) + Spared(old(subscribers), ops)
                && nextId == old(nextId) + Subs(ops)
    {
      hide *;
      ghost var initial := subscribers;
      ghost var todo, done: seq<nat> := Upto(|initial|), [];
      ghost var front: seq<Node<Callback>> := [];
      notified, valid := [], true;
      var it := First(subscribers);
      VisitBegin(initial, handler);
      CursorBegin();
      AfterNone(Now(), handler);
      while it.On?
        invariant Numbered() && Now() == After(old(Now()), |notified|, handler)
        invariant Visiting(initial, todo, done, notified, handler)
        invariant At(front, initial, todo, it)
        decreases |todo|
      {
        var n, ops := it.node, handler(|notified|);
        CursorIsFirst(front, initial, todo, it);
        ghost var todo', done', notified' := VisitStep(initial, todo, done, notified, handler);
        AfterStep(old(Now()), |notified|, handler);
        notified := notified + [n];
        if Drops(ops, n.callback) {
          valid := false;
          return;
        }
        front, it := Visit(ops, front, it, initial, todo);
        todo, done := todo', done';
      }
      CursorIsFirst(front, initial, todo, it);
      VisitEnd(initial, done, notified, handler);
      FinalList(old(Now()), |notified|, handler);
      NowIs();
    }

    /** The iterator is on the first of the initial nodes at `todo`, which end the list. */
    ghost predicate At(front: seq<Node<Callback>>, initial: seq<Node<Callback>>, todo: seq<nat>, it: Cursor<Callback>)
      reads this
    {
      && Within(initial, todo)
      && subscribers == front + Nodes(initial, todo) && it == First(Nodes(initial, todo))
    }

    twostate lemma NowIs()
      ensures Now() == Board(subscribers, nextId) && old(Now()) == Board(old(subscribers), old(nextId))
    {
    }

    lemma CursorBegin()
      ensures At([], subscribers, Upto(|subscribers|), First(subscribers))
    {
      assert Nodes(subscribers, Upto(|subscribers|)) == subscribers;
    }

    lemma CursorIsFirst(front: seq<Node<Callback>>, initial: seq<Node<Callback>>, todo: seq<nat>, it: Cursor<Callback>)
      requires At(front, initial, todo, it)
      ensures Within(initial, todo) && (it.On? <==> todo != []) && (it.On? ==> it.node == initial[todo[0]])
    {
    }

    /** Calls the handler of the node at the iterator, then moves to that node's successor. */
    method Visit(ops: seq<Op<Callback>>, ghost front: seq<Node<Callback>>, it: Cursor<Callback>,
                 ghost initial: seq<Node<Callback>>, ghost todo: seq<nat>)
      returns (ghost front': seq<Node<Callback>>, it': Cursor<Callback>)
      requires Numbered() && it.On? && todo != [] && !Drops(ops, it.node.callback)
      requires At(front, initial, todo, it)
      modifies this`subscribers, this`nextId
      ensures Numbered()
      ensures Now() == EditAll(old(Now()), ops)
      ensures At(front', initial, Keep(initial, todo[1..], ops), it')
    {
      NodesStep(initial, todo, []);
      front' := Handle(ops, front, it.node, initial, todo[1..]);
      it' := Successor(subscribers, it.node);
      ghost var after := Nodes(initial, Keep(initial, todo[1..], ops));
      UniqueMiddle(front', it.node, after);
      SuccessorAt(front', it.node, after);
      front' := front' + [it.node];
    }

    /** The handler's changes, one after the other; the visited node and the order stay. */
    method Handle(ops: seq<Op<Callback>>, ghost front: seq<Node<Callback>>, n: Node<Callback>,
                  ghost initial: seq<Node<Callback>>, ghost rest: seq<nat>)
      returns (ghost front': seq<Node<Callback>>)
      requires Numbered() && Within(initial, rest) && !Drops(ops, n.callback)
      requires subscribers == front + [n] + Nodes(initial, rest)
      modifies this`subscribers, this`nextId
      ensures Numbered()
      ensures Now() == EditAll(old(Now()), ops)
      ensures subscribers == front' + [n] + Nodes(initial, Keep(initial, rest, ops))
    {
      front' := front;
      KeepAll(initial, rest);
      hide Keep, Nodes, Without, Unique, Edit;
      for i := 0 to |ops|
        invariant Numbered()
        invariant Now() == EditAll(old(Now()), ops[..i])
        invariant subscribers == front' + [n] + Nodes(initial, Keep(initial, rest, ops[..i]))
      {
        assert ops[i] in ops && ops[..i + 1] == ops[..i] + [ops[i]];
        assert ops[..i + 1][..i] == ops[..i];
        KeepSnoc(initial, rest, ops[..i], ops[i]);
        front' := HandleOne(ops[i], front', n, Nodes(initial, Keep(initial, rest, ops[..i])));
      }
      assert ops[..|ops|] == ops;
    }

    method HandleOne(op: Op<Callback>, ghost front: seq<Node<Callback>>, n: Node<Callback>, ghost tail: seq<Node<Callback>>)
      returns (ghost front': seq<Node<Callback>>)
      requires Numbered() && op != Unsub(n.callback)
      requires subscribers == front + [n] + tail
      modifies this`subscribers, this`nextId
      ensures Numbered() && Now() == Edit(old(Now()), op)
      ensures subscribers == front' + [n] + (if op.Unsub? then Without(tail, op.callback) else tail)
    {
      hide Without, Unique;
      if op.Sub? {
        front' := [Node(nextId, op.callback)] + front;
        PushFront(op.callback);
        assert subscribers == front' + [n] + tail;
      } else {
        WithoutAround(front, n, tail, op.callback);
        front' := Without(front, op.callback);
        UnSubscribe(op.callback);
      }
    }
  }

  ghost predicate Subscribed(d: Dispatcher, c: Callback)
    reads d
  {
    exists i :: 0 <= i < |d.subscribers| && d.subscribers[i].callback == c
  }

  /**
    No list and no back pointer names a dead object, and a live callback is on a live
    dispatcher's list if and only if it points at that dispatcher.
  */
  ghost predicate Linked(ds: set<Dispatcher>, cs: set<Callback>)
    reads ds, cs
  {
    && (forall d, i | d in ds && d.alive && 0 <= i < |d.subscribers| ::
          && d.subscribers[i].callback in cs
          && d.subscribers[i].callback.alive
          && d.subscribers[i].callback.dispatcher == d)
    && (forall c | c in cs && c.alive && c.dispatcher != null ::
          && c.dispatcher in ds
          && c.dispatcher.alive
          && Subscribed(c.dispatcher, c))
  }

  // ----------------------------------------------------------- population

  datatype Action =
    | NewDispatcher
    | NewCallback
    | Attach(d: nat, c: nat)
    | KillCallback(c: nat)
    | KillDispatcher(d: nat)

  function DispatchersMade(trace: seq<Action>): nat
    decreases |trace|
  {
    if trace == [] then 0 else DispatchersMade(trace[..|trace| - 1]) + if trace[|trace| - 1].NewDispatcher? then 1 else 0
  }

  function CallbacksMade(trace: seq<Action>): nat
    decreases |trace|
  {
    if trace == [] then 0 else CallbacksMade(trace[..|trace| - 1]) + if trace[|trace| - 1].NewCallback? then 1 else 0
  }

  /** The callbacks attached to d and not destroyed later, the latest first. */
  function Members(trace: seq<Action>, d: nat): seq<nat>
    decreases |trace|
  {
    if trace == [] then []
    else
      var later := Members(trace[1..], d);
      if trace[0].Attach? && trace[0].d == d && KillCallback(trace[0].c) !in trace[1..] then later + [trace[0].c] else later
  }

  predicate DispatcherLives(trace: seq<Action>, d: nat) {
    d < DispatchersMade(trace) && KillDispatcher(d) !in trace
  }

  predicate CallbackLives(trace: seq<Action>, c: nat) {
    c < CallbacksMade(trace) && KillCallback(c) !in trace
  }

  /** Objects that exist and live; a callback to attach is on no live list but that one. */
  predicate Permitted(trace: seq<Action>, a: Action) {
    match a
    case NewDispatcher => true
    case NewCallback => true
    case Attach(d, c) =>
      && DispatcherLives(trace, d) && CallbackLives(trace, c)
      && forall e: nat | e < DispatchersMade(trace) && DispatcherLives(trace, e) && c in Members(trace, e) :: e == d
    case KillCallback(c) => CallbackLives(trace, c)
    case KillDispatcher(d) => DispatcherLives(trace, d)
  }

  /** The trace after a script whose forbidden actions are left out. */
  function Performing(trace: seq<Action>, script: seq<Action>): seq<Action>
    decreases |script|
  {
    if script == [] then trace
    else Performing(if Permitted(trace, script[0]) then trace + [script[0]] else trace, script[1..])
  }

  function Strip(members: seq<nat>, c: nat): seq<nat> {
    if members == [] then []
    else (if members[0] == c then [] else [members[0]]) + Strip(members[1..], c)
  }

  lemma {:induction false} StripSnoc(members: seq<nat>, x: nat, c: nat)
    ensures Strip(members + [x], c) == Strip(members, c) + if x == c then [] else [x]
  {
    if members == [] {
      assert [x][1..] == [];
    } else {
      StripSnoc(members[1..], x, c);
      assert (members + [x])[0] == members[0] && (members + [x])[1..] == members[1..] + [x];
    }
  }

  /** One more action: an attachment comes in front, a destruction takes its callback off every list. */
  lemma {:induction false} MembersSnoc(trace: seq<Action>, a: Action, d: nat)
    ensures Members(trace + [a], d) ==
            if a.Attach? && a.d == d then [a.c] + Members(trace, d)
            else if a.KillCallback? then Strip(Members(trace, d), a.c)
            else Members(trace, d)
    decreases |trace|
  {
    var all := trace + [a];
    if trace == [] {
      assert all[0] == a && all[1..] == [];
    } else {
      MembersSnoc(trace[1..], a, d);
      assert all[0] == trace[0] && all[1..] == trace[1..] + [a];
      if a.KillCallback? && trace[0].Attach? {
        StripSnoc(Members(trace[1..], d), trace[0].c, a.c);
      }
    }
  }

  lemma MadeSnoc(trace: seq<Action>, a: Action)
    ensures DispatchersMade(trace + [a]) == DispatchersMade(trace) + if a.NewDispatcher? then 1 else 0
    ensures CallbacksMade(trace + [a]) == CallbacksMade(trace) + if a.NewCallback? then 1 else 0
  {
    assert (trace + [a])[..|trace|] == trace;
  }

  /** The action is about dispatchers below m and callbacks below n. */
  predicate About(a: Action, m: nat, n: nat) {
    match a
    case NewDispatcher => true
    case NewCallback => true
    case Attach(d, c) => d < m && c < n
    case KillCallback(c) => c < n
    case KillDispatcher(d) => d < m
  }

  predicate AllAbout(trace: seq<Action>, m: nat, n: nat) {
    forall i | 0 <= i < |trace| :: About(trace[i], m, n)
  }

  lemma {:induction false} NoMembersYet(trace: seq<Action>, m: nat, n: nat)
    requires AllAbout(trace, m, n)
    ensures Members(trace, m) == []
    decreases |trace|
  {
    if trace != [] { NoMembersYet(trace[1..], m, n); }
  }

  /** The nodes are subscriptions of these callbacks, in this order. */
  predicate Holds(nodes: seq<Node<Callback>>, callbacks: seq<Callback>, members: seq<nat>) {
    && |nodes| == |members|
    && forall i | 0 <= i < |nodes| :: members[i] < |callbacks| && nodes[i].callback == callbacks[members[i]]
  }

  predicate AllDifferent<T(==)>(xs: seq<T>) {
    forall i, j | 0 <= i < j < |xs| :: xs[i] != xs[j]
  }

  lemma {:induction false} HoldsWithout(nodes: seq<Node<Callback>>, callbacks: seq<Callback>, members: seq<nat>, c: nat)
    requires Holds(nodes, callbacks, members) && AllDifferent(callbacks) && c < |callbacks|
    ensures Holds(Without(nodes, callbacks[c]), callbacks, Strip(members, c))
  {
    if nodes != [] {
      HoldsWithout(nodes[1..], callbacks, members[1..], c);
      assert nodes[0].callback == callbacks[c] <==> members[0] == c;
    }
  }

  /** The lists of the dispatchers, the callbacks, and which of them live. */
  datatype Picture = Picture(lists: seq<seq<Node<Callback>>>, living: seq<bool>, callbacks: seq<Callback>, alive: seq<bool>)

  ghost function PictureOf(ds: seq<Dispatcher>, cs: seq<Callback>): (p: Picture)
    reads ds, cs
    ensures |p.lists| == |p.living| == |ds| && p.callbacks == cs && |p.alive| == |cs|
    ensures forall d | 0 <= d < |ds| :: p.lists[d] == ds[d].subscribers && p.living[d] == ds[d].alive
    ensures forall c | 0 <= c < |cs| :: p.alive[c] == cs[c].alive
  {
    Picture(seq(|ds|, d requires 0 <= d < |ds| reads ds => ds[d].subscribers),
            seq(|ds|, d requires 0 <= d < |ds| reads ds => ds[d].alive),
            cs,
            seq(|cs|, c requires 0 <= c < |cs| reads cs => cs[c].alive))
  }

  /** The picture is what these operations make of an empty population. */
  predicate Told(p: Picture, trace: seq<Action>) {
    && |p.lists| == |p.living| == DispatchersMade(trace) && |p.callbacks| == |p.alive| == CallbacksMade(trace)
    && AllAbout(trace, |p.lists|, |p.callbacks|)
    && (forall d | 0 <= d < |p.living| :: p.living[d] <==> KillDispatcher(d) !in trace)
    && (forall c | 0 <= c < |p.alive| :: p.alive[c] <==> KillCallback(c) !in trace)
    && (forall d | 0 <= d < |p.living| && p.living[d] :: Holds(p.lists[d], p.callbacks, Members(trace, d)))
  }

  /** What one operation makes of a picture. */
  predicate Changes(p: Picture, p': Picture, a: Action)
    requires |p.lists| == |p.living| && |p.callbacks| == |p.alive|
  {
    match a
    case NewDispatcher => p' == p.(lists := p.lists + [[]], living := p.living + [true])
    case NewCallback =>
      |p'.callbacks| == |p.callbacks| + 1 && p' == p.(callbacks := p.callbacks + [p'.callbacks[|p.callbacks|]], alive := p.alive + [true])
    case Attach(d, c) =>
      && d < |p.lists| && c < |p.callbacks| && |p'.lists| == |p.lists| && |p'.lists[d]| > 0
      && p'.lists[d][0].callback == p.callbacks[c]
      && p' == p.(lists := p.lists[d := [p'.lists[d][0]] + p.lists[d]])
    case KillCallback(c) =>
      && c < |p.callbacks| && |p'.lists| == |p.lists|
      && p' == p.(lists := p'.lists, alive := p.alive[c := false])
      && forall d | 0 <= d < |p.lists| && p.living[d] :: p'.lists[d] == Without(p.lists[d], p.callbacks[c])
    case KillDispatcher(d) => d < |p.lists| && p' == p.(living := p.living[d := false])
  }

  lemma ToldStep(p: Picture, p': Picture, trace: seq<Action>, a: Action)
    requires Told(p, trace) && Changes(p, p', a) && AllDifferent(p.callbacks)
    ensures Told(p', trace + [a])
  {
    MadeSnoc(trace, a);
    hide DispatchersMade, CallbacksMade, Members, Holds;
    AboutStep(trace, a, |p.lists|, |p.callbacks|, |p'.lists|, |p'.callbacks|);
    hide AllAbout, AllDifferent, About;
    forall d | 0 <= d < |p'.living| && p'.living[d] ensures Holds(p'.lists[d], p'.callbacks, Members(trace + [a], d)) {
      ListStep(p, p', trace, a, d);
    }
    LifeStep(p, p', trace, a);
  }

  lemma LifeStep(p: Picture, p': Picture, trace: seq<Action>, a: Action)
    requires |p.lists| == |p.living| && |p.callbacks| == |p.alive| && Changes(p, p', a)
    requires AllAbout(trace, |p.lists|, |p.callbacks|)
    requires forall d | 0 <= d < |p.living| :: p.living[d] <==> KillDispatcher(d) !in trace
    requires forall c | 0 <= c < |p.alive| :: p.alive[c] <==> KillCallback(c) !in trace
    ensures forall d | 0 <= d < |p'.living| :: p'.living[d] <==> KillDispatcher(d) !in trace + [a]
    ensures forall c | 0 <= c < |p'.alive| :: p'.alive[c] <==> KillCallback(c) !in trace + [a]
  {
    assert KillDispatcher(|p.lists|) !in trace && KillCallback(|p.callbacks|) !in trace;
    hide AllAbout, Without;
  }

  lemma AboutStep(trace: seq<Action>, a: Action, m: nat, n: nat, m': nat, n': nat)
    requires AllAbout(trace, m, n) && m <= m' && n <= n' && About(a, m', n')
    ensures AllAbout(trace + [a], m', n')
  {
  }

  /** A live dispatcher's list after one more operation. */
  lemma ListStep(p: Picture, p': Picture, trace: seq<Action>, a: Action, d: nat)
    requires Told(p, trace) && Changes(p, p', a) && AllDifferent(p.callbacks)
    requires d < |p'.living| == |p'.lists| && p'.living[d]
    ensures Holds(p'.lists[d], p'.callbacks, Members(trace + [a], d))
  {
    hide Members, AllDifferent, Strip, Without, Holds, AllAbout;
    MembersSnoc(trace, a, d);
    if d == |p.lists| {
      NewListStep(p, p', trace, a);
    } else {
      assert Holds(p.lists[d], p.callbacks, Members(trace, d));
      OldListStep(p, p', Members(trace, d), a, d);
    }
  }

  lemma NewListStep(p: Picture, p': Picture, trace: seq<Action>, a: Action)
    requires |p.lists| == |p.living| && |p.callbacks| == |p.alive| && Changes(p, p', a)
    requires AllAbout(trace, |p.lists|, |p.callbacks|) && |p'.lists| > |p.lists|
    ensures a.NewDispatcher? && Holds(p'.lists[|p.lists|], p'.callbacks, Members(trace, |p.lists|))
  {
    NoMembersYet(trace, |p.lists|, |p.callbacks|);
    hide Members, AllAbout, Without;
  }

  lemma OldListStep(p: Picture, p': Picture, members: seq<nat>, a: Action, d: nat)
    requires |p.lists| == |p.living| && |p.callbacks| == |p.alive| && Changes(p, p', a) && AllDifferent(p.callbacks)
    requires d < |p.lists| && d < |p'.lists| && p.living[d] && Holds(p.lists[d], p.callbacks, members)
    ensures Holds(p'.lists[d], p'.callbacks,
                  if a.Attach? && a.d == d then [a.c] + members
                  else if a.KillCallback? then Strip(members, a.c)
                  else members)
  {
    hide AllDifferent, Strip, Without, Holds;
    if a.KillCallback? {
      HoldsWithout(p.lists[d], p.callbacks, members, a.c);
    } else if a.Attach? && a.d == d {
      HoldsFront(p'.lists[d][0], p.lists[d], p.callbacks, members, a.c);
    } else if a.NewCallback? {
      HoldsStill(p.lists[d], p.callbacks, members, p'.callbacks);
    }
  }

  lemma HoldsFront(n: Node<Callback>, nodes: seq<Node<Callback>>, callbacks: seq<Callback>, members: seq<nat>, c: nat)
    requires Holds(nodes, callbacks, members) && c < |callbacks| && n.callback == callbacks[c]
    ensures Holds([n] + nodes, callbacks, [c] + members)
  {
  }

  lemma HoldsStill(nodes: seq<Node<Callback>>, callbacks: seq<Callback>, members: seq<nat>, more: seq<Callback>)
    requires Holds(nodes, callbacks, members) && callbacks <= more
    ensures Holds(nodes, more, members)
  {
  }

  lemma {:induction false} WithoutNone<C>(nodes: seq<Node<C>>, c: C)
    requires forall i | 0 <= i < |nodes| :: nodes[i].callback != c
    ensures Without(nodes, c) == nodes
  {
    if nodes != [] { WithoutNone(nodes[1..], c); }
  }

  /** The same objects, callbacks and lives, element by element, but for dispatcher d and callback c. */
  predicate SameBut(p: Picture, q: Picture, d: int, c: int) {
    && |p.lists| == |p.living| == |q.lists| == |q.living| && |p.callbacks| == |p.alive| == |q.alive|
    && q.callbacks == p.callbacks
    && (forall e | 0 <= e < |p.living| && e != d :: q.living[e] == p.living[e])
    && (forall e | 0 <= e < |p.alive| && e != c :: q.alive[e] == p.alive[e])
  }

  lemma NewDispatcherPicture(p: Picture, q: Picture)
    requires |p.lists| == |p.living| && |q.lists| == |q.living| == |p.lists| + 1 && q.callbacks == p.callbacks
    requires |p.callbacks| == |p.alive| == |q.alive| && forall e | 0 <= e < |p.alive| :: q.alive[e] == p.alive[e]
    requires forall e | 0 <= e < |p.lists| :: q.lists[e] == p.lists[e] && q.living[e] == p.living[e]
    requires q.lists[|p.lists|] == [] && q.living[|p.lists|]
    ensures Changes(p, q, NewDispatcher)
  {
    assert q.lists == p.lists + [[]] && q.living == p.living + [true] && q.alive == p.alive;
  }

  lemma NewCallbackPicture(p: Picture, q: Picture)
    requires |p.lists| == |p.living| == |q.lists| == |q.living|
    requires |p.callbacks| == |p.alive| && |q.callbacks| == |q.alive| == |p.alive| + 1
    requires forall e | 0 <= e < |p.lists| :: q.lists[e] == p.lists[e] && q.living[e] == p.living[e]
    requires forall e | 0 <= e < |p.alive| :: q.alive[e] == p.alive[e] && q.callbacks[e] == p.callbacks[e]
    requires q.alive[|p.alive|]
    ensures Changes(p, q, NewCallback)
  {
    assert q.lists == p.lists && q.living == p.living && q.alive == p.alive + [true];
    assert q.callbacks == p.callbacks + [q.callbacks[|p.callbacks|]];
  }

  lemma AttachPicture(p: Picture, q: Picture, d: nat, c: nat)
    requires SameBut(p, q, -1, -1) && d < |p.lists| && c < |p.callbacks|
    requires forall e | 0 <= e < |p.lists| && e != d :: q.lists[e] == p.lists[e]
    requires |q.lists[d]| > 0 && q.lists[d][0].callback == p.callbacks[c] && q.lists[d] == [q.lists[d][0]] + p.lists[d]
    ensures Changes(p, q, Attach(d, c))
  {
    assert q.lists == p.lists[d := [q.lists[d][0]] + p.lists[d]] && q.living == p.living && q.alive == p.alive;
  }

  lemma KillCallbackPicture(p: Picture, q: Picture, c: nat)
    requires SameBut(p, q, -1, c) && c < |p.callbacks| && !q.alive[c]
    requires forall d | 0 <= d < |p.lists| && p.living[d] :: q.lists[d] == Without(p.lists[d], p.callbacks[c])
    ensures Changes(p, q, KillCallback(c))
  {
    hide Without;
    assert q.living == p.living && q.alive == p.alive[c := false];
  }

  lemma KillDispatcherPicture(p: Picture, q: Picture, d: nat)
    requires SameBut(p, q, d, -1) && d < |p.lists| && !q.living[d]
    requires forall e | 0 <= e < |p.lists| :: q.lists[e] == p.lists[e]
    ensures Changes(p, q, KillDispatcher(d))
  {
    assert q.lists == p.lists && q.living == p.living[d := false] && q.alive == p.alive;
  }

  /** Some dispatchers and callbacks, and any sequence of operations on them. */
  class Population {
    var dispatchers: seq<Dispatcher>
    var callbacks: seq<Callback>
    /** The operations performed so far. */
    ghost var trace: seq<Action>

    constructor ()
      ensures Valid() && trace == []
    {
      dispatchers, callbacks, trace := [], [], [];
    }

    ghost function Ds(): set<Dispatcher> reads this`dispatchers { set d | d in dispatchers }
    ghost function Cs(): set<Callback> reads this`callbacks { set c | c in callbacks }

    ghost function Now(): Picture
      reads this`dispatchers, this`callbacks, dispatchers, callbacks
    {
      PictureOf(dispatchers, callbacks)
    }

    /** No link dangles. */
    ghost predicate Sound()
      reads this`dispatchers, this`callbacks, dispatchers, callbacks
    {
      AllDifferent(dispatchers) && AllDifferent(callbacks) && Linked(Ds(), Cs())
    }

    ghost predicate Valid()
      reads this, dispatchers, callbacks
    {
      Sound() && Told(Now(), trace)
    }

    predicate Allowed(a: Action)
      reads this, dispatchers, callbacks
    {
      match a
      case NewDispatcher => true
      case NewCallback => true
      case Attach(d, c) =>
        && d < |dispatchers| && c < |callbacks| && dispatchers[d].alive && callbacks[c].alive
        && (callbacks[c].dispatcher == null || callbacks[c].dispatcher == dispatchers[d])
      case KillCallback(c) => c < |callbacks| && callbacks[c].alive
      case KillDispatcher(d) => d < |dispatchers| && dispatchers[d].alive
    }

    /** What is allowed can be told from what was performed. */
    lemma AllowedIff(a: Action)
      requires Valid()
      ensures Allowed(a) <==> Permitted(trace, a)
    {
      assert forall d: nat :: DispatcherLives(trace, d) <==> d < |dispatchers| && dispatchers[d].alive;
      assert forall c: nat :: CallbackLives(trace, c) <==> c < |callbacks| && callbacks[c].alive;
      if a.Attach? && DispatcherLives(trace, a.d) && CallbackLives(trace, a.c) {
        FreeIff(a.d, a.c);
      }
    }

    lemma FreeIff(d: nat, c: nat)
      requires Valid() && d < |dispatchers| && c < |callbacks| && dispatchers[d].alive && callbacks[c].alive
      ensures callbacks[c].dispatcher == null || callbacks[c].dispatcher == dispatchers[d] <==>
              forall e: nat | e < |dispatchers| && dispatchers[e].alive && c in Members(trace, e) :: e == d
    {
      forall e: nat | e < |dispatchers| && dispatchers[e].alive
        ensures c in Members(trace, e) <==> callbacks[c].dispatcher == dispatchers[e]
      {
        MemberIff(e, c);
      }
      if callbacks[c].dispatcher != null {
        OwnerIsOne(c);
        hide Members, Valid;
        var e: nat :| e < |dispatchers| && dispatchers[e] == callbacks[c].dispatcher;
        assert c in Members(trace, e);
      }
    }

    lemma OwnerIsOne(c: nat)
      requires Sound() && c < |callbacks| && callbacks[c].alive && callbacks[c].dispatcher != null
      ensures exists e: nat :: e < |dispatchers| && dispatchers[e] == callbacks[c].dispatcher && dispatchers[e].alive
    {
      assert callbacks[c] in Cs();
      assert callbacks[c].dispatcher in Ds();
      var e :| 0 <= e < |dispatchers| && dispatchers[e] == callbacks[c].dispatcher;
    }

    /** A live callback is on a live dispatcher's list, by the trace, exactly if it points there. */
    lemma MemberIff(e: nat, c: nat)
      requires Valid() && e < |dispatchers| && c < |callbacks| && dispatchers[e].alive && callbacks[c].alive
      ensures c in Members(trace, e) <==> callbacks[c].dispatcher == dispatchers[e]
    {
      var x, members := callbacks[c], Members(trace, e);
      assert Holds(Now().lists[e], callbacks, members);
      hide Members, Told;
      if c in members {
        var i :| 0 <= i < |members| && members[i] == c;
        assert dispatchers[e].subscribers[i].callback == x;
      }
      if x.dispatcher == dispatchers[e] {
        assert Subscribed(x.dispatcher, x);
        var i :| 0 <= i < |x.dispatcher.subscribers| && x.dispatcher.subscribers[i].callback == x;
        assert members[i] == c;
      }
    }

    method MakeDispatcher()
      requires Sound()
      modifies this`dispatchers
      ensures Sound() && Changes(old(Now()), Now(), NewDispatcher)
      ensures old(dispatchers) <= dispatchers && fresh(Ds() - old(Ds()))
    {
      var d := new Dispatcher();
      hide PictureOf, Changes;
      ghost var p, before := Now(), Ds();
      dispatchers := dispatchers + [d];
      assert Ds() == before + {d};
      StaysLinkedWith(d, before);
      hide Linked;
      NewDispatcherPicture(p, Now());
    }

    /** A new callback, attached to nothing, does not disturb the links. */
    lemma StaysLinked(c: Callback, before: set<Callback>)
      requires c.dispatcher == null && Cs() == before + {c} && Linked(Ds(), before)
      ensures Linked(Ds(), Cs())
    {
    }

    /** Nor does a new dispatcher with an empty list. */
    lemma StaysLinkedWith(d: Dispatcher, before: set<Dispatcher>)
      requires d.subscribers == [] && Ds() == before + {d} && Linked(before, Cs())
      ensures Linked(Ds(), Cs())
    {
    }

    method MakeCallback()
      requires Sound()
      modifies this`callbacks
      ensures Sound() && Changes(old(Now()), Now(), NewCallback)
      ensures old(callbacks) <= callbacks && fresh(Cs() - old(Cs()))
    {
      var c := new Callback();
      ghost var p := Now();
      hide PictureOf;
      ghost var before := Cs();
      callbacks := callbacks + [c];
      assert Cs() == before + {c};
      StaysLinked(c, before);
      hide Linked, Changes;
      NewCallbackPicture(p, Now());
    }

    method AttachOne(d: nat, c: nat)
      requires Sound() && Allowed(Attach(d, c))
      modifies dispatchers[d], callbacks[c]
      ensures Sound() && Changes(old(Now()), Now(), Attach(d, c))
    {
      ghost var p := Now();
      dispatchers[d].Subscribe(callbacks[c], Ds(), Cs());
      hide Linked, PictureOf, Changes;
      AttachPicture(p, Now(), d, c);
    }

    method DestroyCallback(c: nat)
      requires Sound() && Allowed(KillCallback(c))
      modifies callbacks[c], Ds()
      ensures Sound() && Changes(old(Now()), Now(), KillCallback(c))
    {
      hide PictureOf, Changes, Without;
      ghost var p := Now();
      ghost var x, owner := callbacks[c], callbacks[c].dispatcher;
      NotElsewhere(c);
      if owner != null { OwnerIsOne(c); }
      callbacks[c].Destroy(Ds(), Cs());
      hide Linked;
      forall d | 0 <= d < |dispatchers| && p.living[d] ensures Now().lists[d] == Without(p.lists[d], x) {
        if dispatchers[d] == owner {
          assert dispatchers[d].subscribers == Without(p.lists[d], x);
        } else {
          assert dispatchers[d].subscribers == p.lists[d];
        }
      }
      KillCallbackPicture(p, Now(), c);
    }

    /** No live dispatcher but its own has a live callback on its list. */
    lemma NotElsewhere(c: nat)
      requires Sound() && c < |callbacks|
      ensures forall d | 0 <= d < |dispatchers| && dispatchers[d].alive && dispatchers[d] != callbacks[c].dispatcher ::
                Without(dispatchers[d].subscribers, callbacks[c]) == dispatchers[d].subscribers
    {
      forall d | 0 <= d < |dispatchers| && dispatchers[d].alive && dispatchers[d] != callbacks[c].dispatcher
        ensures Without(dispatchers[d].subscribers, callbacks[c]) == dispatchers[d].subscribers
      {
        WithoutNone(dispatchers[d].subscribers, callbacks[c]);
      }
    }

    method DestroyDispatcher(d: nat)
      requires Sound() && Allowed(KillDispatcher(d))
      modifies dispatchers[d], Cs()
      ensures Sound() && Changes(old(Now()), Now(), KillDispatcher(d))
    {
      ghost var p := Now();
      var told := dispatchers[d].Destroy(Ds(), Cs());
      hide Linked, PictureOf, Changes;
      KillDispatcherPicture(p, Now(), d);
    }

    method Do(a: Action)
      requires Valid() && Allowed(a)
      modifies this, Ds(), Cs()
      ensures Valid() && trace == old(trace) + [a]
      ensures fresh(Ds() - old(Ds())) && fresh(Cs() - old(Cs()))
    {
      hide Told, Linked, Changes, PictureOf;
      ghost var p := Now();
      match a {
        case NewDispatcher => MakeDispatcher();
        case NewCallback => MakeCallback();
        case Attach(d, c) => AttachOne(d, c);
        case KillCallback(c) => DestroyCallback(c);
        case KillDispatcher(d) => DestroyDispatcher(d);
      }
      ToldStep(p, Now(), trace, a);
      trace := trace + [a];
    }

    /**
      Any script. What is performed is the script less the actions that are not permitted
      when their turn comes; after it no link dangles, and who lives and who is on which
      list, in which order, is what the operations performed say.
    */
    method Run(script: seq<Action>)
      requires Valid()
      modifies this, Ds(), Cs()
      ensures Sound() && Told(Now(), trace) && trace == Performing(old(trace), script)
    {
      ghost var start := trace;
      for i := 0 to |script|
        invariant Valid() && Performing(start, script) == Performing(trace, script[i..])
        invariant fresh(Ds() - old(Ds())) && fresh(Cs() - old(Cs()))
      {
        hide Told, Linked, Permitted;
        AllowedIff(script[i]);
        assert script[i..][0] == script[i] && script[i..][1..] == script[i + 1..];
        if Allowed(script[i]) {
          Do(script[i]);
        }
      }
    }
  }
}
