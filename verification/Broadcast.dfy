/**
  What a broadcast visits while the handlers it calls change the list under it.
  A subscription is a list node with its own identity, since one callback may be
  subscribed more than once and removing a callback removes all its nodes.
*/
module Broadcast {

  datatype Node<C> = Node(id: nat, callback: C)

  /** What a handler may do to the list: subscribe a callback, or have one unsubscribe. */
  datatype Op<C> = Sub(callback: C) | Unsub(callback: C)

  /** An adversary: what the handler called for the k-th notification does to the list. */
  type Handler<!C> = nat -> seq<Op<C>>

  // ------------------------------------------------------- list operations

  /** std::list::remove. */
  function Without<C(==)>(nodes: seq<Node<C>>, c: C): seq<Node<C>> {
    if nodes == [] then []
    else if nodes[0].callback == c then Without(nodes[1..], c)
    else [nodes[0]] + Without(nodes[1..], c)
  }

  /** What is left is exactly the nodes of other callbacks. */
  lemma {:induction false} WithoutExact<C>(nodes: seq<Node<C>>, c: C)
    ensures forall n | n in Without(nodes, c) :: n in nodes && n.callback != c
    ensures forall n | n in nodes && n.callback != c :: n in Without(nodes, c)
  {
    if nodes != [] { WithoutExact(nodes[1..], c); }
  }

  lemma {:induction false} WithoutConcat<C>(a: seq<Node<C>>, b: seq<Node<C>>, c: C)
    ensures Without(a + b, c) == Without(a, c) + Without(b, c)
  {
    if a == [] {
      assert a + b == b;
    } else {
      WithoutConcat(a[1..], b, c);
      assert (a + b)[0] == a[0] && (a + b)[1..] == a[1..] + b;
      var x, y := Without(a[1..], c), Without(b, c);
      assert [a[0]] + (x + y) == ([a[0]] + x) + y;
    }
  }

  lemma WithoutAround<C>(front: seq<Node<C>>, n: Node<C>, tail: seq<Node<C>>, c: C)
    requires n.callback != c
    ensures Without(front + [n] + tail, c) == Without(front, c) + [n] + Without(tail, c)
  {
    assert Without([n], c) == [n] + Without([n][1..], c) && [n][1..] == [];
    hide Without;
    WithoutConcat(front + [n], tail, c);
    WithoutConcat(front, [n], c);
  }

  /** The list and the identity its next node gets. */
  datatype Board<C> = Board(nodes: seq<Node<C>>, nextId: nat)

  function Edit<C(==)>(b: Board<C>, op: Op<C>): Board<C> {
    match op
    case Sub(c) => Board([Node(b.nextId, c)] + b.nodes, b.nextId + 1)
    case Unsub(c) => Board(Without(b.nodes, c), b.nextId)
  }

  function EditAll<C(==)>(b: Board<C>, ops: seq<Op<C>>): Board<C>
    decreases |ops|
  {
    if ops == [] then b else Edit(EditAll(b, ops[..|ops| - 1]), ops[|ops| - 1])
  }

  /** The list after the handlers of the first k notifications. */
  function After<C(==)>(b: Board<C>, k: nat, handler: Handler<C>): Board<C> {
    if k == 0 then b else EditAll(After(b, k - 1, handler), handler(k - 1))
  }

  lemma AfterNone<C>(b: Board<C>, handler: Handler<C>)
    ensures After(b, 0, handler) == b
  {
  }

  lemma AfterStep<C>(b: Board<C>, k: nat, handler: Handler<C>)
    ensures After(b, k + 1, handler) == EditAll(After(b, k, handler), handler(k))
  {
  }

  predicate Unique<C>(nodes: seq<Node<C>>) {
    forall i, j | 0 <= i < j < |nodes| :: nodes[i].id != nodes[j].id
  }

  lemma {:induction false} WithoutUnique<C>(nodes: seq<Node<C>>, c: C)
    requires Unique(nodes)
    ensures Unique(Without(nodes, c))
  {
    if nodes != [] {
      WithoutUnique(nodes[1..], c);
      WithoutExact(nodes[1..], c);
    }
  }

  lemma UniqueMiddle<C>(front: seq<Node<C>>, n: Node<C>, tail: seq<Node<C>>)
    requires Unique(front + [n] + tail)
    ensures n !in front
  {
    var all := front + [n] + tail;
    forall i | 0 <= i < |front| ensures front[i] != n {
      assert all[i] == front[i] && all[|front|] == n;
    }
  }

  datatype Cursor<C> = End | On(node: Node<C>)

  function First<C>(nodes: seq<Node<C>>): Cursor<C> {
    if nodes == [] then End else On(nodes[0])
  }

  /** Following the link of a node: its current successor in the list. */
  function Successor<C(==)>(nodes: seq<Node<C>>, n: Node<C>): Cursor<C> {
    if nodes == [] then End
    else if nodes[0] == n then First(nodes[1..])
    else Successor(nodes[1..], n)
  }

  lemma {:induction false} SuccessorAt<C>(front: seq<Node<C>>, n: Node<C>, rest: seq<Node<C>>)
    requires n !in front
    ensures Successor(front + [n] + rest, n) == First(rest)
  {
    var all := front + [n] + rest;
    if front == [] {
      assert all[1..] == rest;
    } else {
      assert all[1..] == front[1..] + [n] + rest;
      SuccessorAt(front[1..], n, rest);
    }
  }

  // ------------------------------------------------------ the visited nodes

  predicate Drops<C(==)>(ops: seq<Op<C>>, c: C) { Unsub(c) in ops }

  predicate Within<C>(initial: seq<Node<C>>, at: seq<nat>) {
    forall j | 0 <= j < |at| :: at[j] < |initial|
  }

  /** The positions of `todo` whose callback survives `ops`. */
  function Keep<C(==)>(initial: seq<Node<C>>, todo: seq<nat>, ops: seq<Op<C>>): (r: seq<nat>)
    requires Within(initial, todo)
    ensures |r| <= |todo| && Within(initial, r)
    ensures forall i: nat :: i in r <==> i in todo && i < |initial| && !Drops(ops, initial[i].callback)
  {
    if todo == [] then []
    else if Drops(ops, initial[todo[0]].callback) then Keep(initial, todo[1..], ops)
    else [todo[0]] + Keep(initial, todo[1..], ops)
  }

  function Nodes<C>(initial: seq<Node<C>>, at: seq<nat>): (r: seq<Node<C>>)
    requires Within(initial, at)
    ensures |r| == |at| && forall j | 0 <= j < |at| :: r[j] == initial[at[j]]
  {
    seq(|at|, j requires 0 <= j < |at| => initial[at[j]])
  }

  /**
    Positions in the initial list that are notified from the k-th notification on, given
    those at and after the cursor. A handler that removes the very node it was called for
    leaves the loop with an invalid iterator; the plan ends there.
  */
  function Plan<C(==)>(initial: seq<Node<C>>, todo: seq<nat>, k: nat, handler: Handler<C>): (r: seq<nat>)
    requires Within(initial, todo)
    ensures Within(initial, r)
    ensures forall i: nat | i in r :: i in todo
    decreases |todo|
  {
    if todo == [] then []
    else if Drops(handler(k), initial[todo[0]].callback) then [todo[0]]
    else [todo[0]] + Plan(initial, Keep(initial, todo[1..], handler(k)), k + 1, handler)
  }

  predicate Increasing(xs: seq<nat>) {
    forall i, j | 0 <= i < j < |xs| :: xs[i] < xs[j]
  }

  lemma {:induction false} KeepIncreasing<C>(initial: seq<Node<C>>, todo: seq<nat>, ops: seq<Op<C>>)
    requires Increasing(todo) && Within(initial, todo)
    ensures Increasing(Keep(initial, todo, ops))
  {
    if todo != [] {
      KeepIncreasing(initial, todo[1..], ops);
      AheadOf(todo);
      ConsIncreasing(todo[0], Keep(initial, todo[1..], ops), todo[1..]);
    }
  }

  lemma AheadOf(todo: seq<nat>)
    requires todo != [] && Increasing(todo)
    ensures forall i: nat | i in todo[1..] :: todo[0] < i
  {
  }

  lemma ConsIncreasing(h: nat, xs: seq<nat>, ys: seq<nat>)
    requires Increasing(xs) && (forall i: nat | i in xs :: i in ys) && (forall i: nat | i in ys :: h < i)
    ensures Increasing([h] + xs)
  {
    forall j | 0 <= j < |xs| ensures h < xs[j] {
      assert xs[j] in xs;
    }
  }

  /** No handler along the plan removes the node it was called for. */
  predicate Undisturbed<C(==)>(initial: seq<Node<C>>, plan: seq<nat>, k: nat, handler: Handler<C>)
    requires Within(initial, plan)
  {
    forall j | 0 <= j < |plan| :: !Drops(handler(k + j), initial[plan[j]].callback)
  }

  /** Position `i` is removed by a handler called before its turn. */
  predicate RemovedBefore<C(==)>(initial: seq<Node<C>>, plan: seq<nat>, k: nat, handler: Handler<C>, i: nat)
    requires i < |initial| && Within(initial, plan)
  {
    exists j | 0 <= j < |plan| :: plan[j] < i && Drops(handler(k + j), initial[i].callback)
  }

  /** The broadcast gets as far as position `i`: to the end, or to the node whose handler removed it. */
  predicate Reaches<C(==)>(initial: seq<Node<C>>, plan: seq<nat>, k: nat, handler: Handler<C>, i: nat)
    requires Within(initial, plan)
  {
    Undisturbed(initial, plan, k, handler) || (plan != [] && i <= plan[|plan| - 1])
  }

  /**
    The notified positions are in list order. A position is notified if and only if no
    handler called before its turn removed it and no earlier handler removed the very node
    it was called for; only the last handler called can have done that.
  */
  ghost predicate Exact<C>(initial: seq<Node<C>>, todo: seq<nat>, plan: seq<nat>, k: nat, handler: Handler<C>)
    requires Within(initial, plan)
  {
    && Increasing(plan)
    && (plan != [] ==> Undisturbed(initial, plan[..|plan| - 1], k, handler))
    && forall i: nat | i in todo && i < |initial| ::
         i in plan <==> Reaches(initial, plan, k, handler, i) && !RemovedBefore(initial, plan, k, handler, i)
  }

  lemma {:induction false} PlanExact<C>(initial: seq<Node<C>>, todo: seq<nat>, k: nat, handler: Handler<C>)
    requires Increasing(todo) && Within(initial, todo)
    ensures Exact(initial, todo, Plan(initial, todo, k, handler), k, handler)
    decreases |todo|
  {
    if todo != [] {
      AheadOf(todo);
      if Drops(handler(k), initial[todo[0]].callback) {
        PlanEnds(initial, todo, k, handler);
      } else {
        var todo' := Keep(initial, todo[1..], handler(k));
        KeepIncreasing(initial, todo[1..], handler(k));
        PlanExact(initial, todo', k + 1, handler);
        var tail := Plan(initial, todo', k + 1, handler);
        assert Plan(initial, todo, k, handler) == [todo[0]] + tail;
        hide Plan, Keep, Increasing, Exact;
        PlanExactStep(initial, todo, tail, k, handler);
      }
    }
  }

  /** The last handler removes the node it was called for. */
  lemma PlanEnds<C>(initial: seq<Node<C>>, todo: seq<nat>, k: nat, handler: Handler<C>)
    requires todo != [] && Within(initial, todo) && Drops(handler(k), initial[todo[0]].callback)
    requires forall i: nat | i in todo[1..] :: todo[0] < i
    ensures Plan(initial, todo, k, handler) == [todo[0]] && Exact(initial, todo, [todo[0]], k, handler)
  {
    assert todo == [todo[0]] + todo[1..];
    assert Drops(handler(k + 0), initial[[todo[0]][0]].callback);
  }

  lemma UndisturbedNone<C>(initial: seq<Node<C>>, k: nat, handler: Handler<C>)
    ensures Undisturbed(initial, [], k, handler)
  {
  }

  /** One more position in front of an exact plan for what survives its handler. */
  lemma PlanExactStep<C>(initial: seq<Node<C>>, todo: seq<nat>, tail: seq<nat>, k: nat, handler: Handler<C>)
    requires todo != [] && Within(initial, todo) && Within(initial, tail)
    requires !Drops(handler(k), initial[todo[0]].callback) && forall i: nat | i in todo[1..] :: todo[0] < i
    requires Exact(initial, Keep(initial, todo[1..], handler(k)), tail, k + 1, handler)
    requires forall i: nat | i in tail :: i in Keep(initial, todo[1..], handler(k))
    ensures Exact(initial, todo, [todo[0]] + tail, k, handler)
  {
    hide RemovedBefore, Increasing, Keep, Reaches, Undisturbed, Drops, Exact;
    var h := todo[0];
    var rest := Keep(initial, todo[1..], handler(k));
    ExactParts(initial, rest, tail, k + 1, handler);
    ConsIncreasing(h, tail, todo[1..]);
    UndisturbedStart(initial, h, tail, k, handler);
    NotBehind(initial, h, tail, k + 1, handler);
    forall i: nat | i in todo && i < |initial|
      ensures i in [h] + tail <==>
              Reaches(initial, [h] + tail, k, handler, i) && !RemovedBefore(initial, [h] + tail, k, handler, i)
    {
      assert i == h || i in todo[1..];
      PositionStep(initial, todo, tail, k, handler, i);
    }
    assert ([h] + tail)[..|[h] + tail| - 1] == ([h] + tail)[..|tail|];
    ExactWhole(initial, todo, [h] + tail, k, handler);
  }

  lemma ExactParts<C>(initial: seq<Node<C>>, todo: seq<nat>, plan: seq<nat>, k: nat, handler: Handler<C>)
    requires Within(initial, plan) && Exact(initial, todo, plan, k, handler)
    ensures Increasing(plan) && (plan != [] ==> Undisturbed(initial, plan[..|plan| - 1], k, handler))
    ensures forall i: nat | i in todo && i < |initial| ::
              i in plan <==> Reaches(initial, plan, k, handler, i) && !RemovedBefore(initial, plan, k, handler, i)
  {
    hide Undisturbed, Reaches, RemovedBefore;
  }

  lemma ExactWhole<C>(initial: seq<Node<C>>, todo: seq<nat>, plan: seq<nat>, k: nat, handler: Handler<C>)
    requires Within(initial, plan)
    requires Increasing(plan) && (plan != [] ==> Undisturbed(initial, plan[..|plan| - 1], k, handler))
    requires forall i: nat | i in todo && i < |initial| ::
               i in plan <==> Reaches(initial, plan, k, handler, i) && !RemovedBefore(initial, plan, k, handler, i)
    ensures Exact(initial, todo, plan, k, handler)
  {
    hide Undisturbed, Reaches, RemovedBefore;
  }

  /** The positions of the rest are notified as before; the first one is. */
  lemma PositionStep<C>(initial: seq<Node<C>>, todo: seq<nat>, tail: seq<nat>, k: nat, handler: Handler<C>, i: nat)
    requires todo != [] && Within(initial, todo) && Within(initial, tail) && i < |initial|
    requires Increasing([todo[0]] + tail) && !RemovedBefore(initial, tail, k + 1, handler, todo[0])
    requires Undisturbed(initial, [todo[0]] + tail, k, handler) <==> Undisturbed(initial, tail, k + 1, handler)
    requires i == todo[0] || (i in todo[1..] && todo[0] < i)
    requires i in tail ==> i in Keep(initial, todo[1..], handler(k))
    requires i in Keep(initial, todo[1..], handler(k)) ==>
               (i in tail <==> Reaches(initial, tail, k + 1, handler, i) && !RemovedBefore(initial, tail, k + 1, handler, i))
    ensures i in [todo[0]] + tail <==>
            Reaches(initial, [todo[0]] + tail, k, handler, i) && !RemovedBefore(initial, [todo[0]] + tail, k, handler, i)
  {
    RemovedCons(initial, todo[0], tail, k, handler, i);
    ReachesCons(initial, todo[0], tail, k, handler, i);
    hide RemovedBefore, Increasing, Keep, Reaches, Undisturbed, Drops, Within;
  }

  lemma UndisturbedStart<C>(initial: seq<Node<C>>, h: nat, tail: seq<nat>, k: nat, handler: Handler<C>)
    requires h < |initial| && Within(initial, tail) && !Drops(handler(k), initial[h].callback)
    requires tail != [] ==> Undisturbed(initial, tail[..|tail| - 1], k + 1, handler)
    ensures Undisturbed(initial, ([h] + tail)[..|tail|], k, handler)
    ensures Undisturbed(initial, [h] + tail, k, handler) <==> Undisturbed(initial, tail, k + 1, handler)
  {
    UndisturbedCons(initial, h, tail, k, handler);
    if tail != [] {
      var n := |tail| - 1;
      UndisturbedCons(initial, h, tail[..n], k, handler);
      assert ([h] + tail)[..n + 1] == [h] + tail[..n];
    }
  }

  lemma ReachesCons<C>(initial: seq<Node<C>>, h: nat, tail: seq<nat>, k: nat, handler: Handler<C>, i: nat)
    requires h < |initial| && Within(initial, tail) && Increasing([h] + tail)
    requires Undisturbed(initial, [h] + tail, k, handler) <==> Undisturbed(initial, tail, k + 1, handler)
    ensures h < i ==> (Reaches(initial, [h] + tail, k, handler, i) <==> Reaches(initial, tail, k + 1, handler, i))
    ensures Reaches(initial, [h] + tail, k, handler, h)
  {
    var plan := [h] + tail;
    assert tail != [] ==> plan[|plan| - 1] == tail[|tail| - 1] && plan[0] < plan[|plan| - 1];
    if tail == [] { UndisturbedNone(initial, k + 1, handler); }
  }

  lemma UndisturbedCons<C>(initial: seq<Node<C>>, h: nat, tail: seq<nat>, k: nat, handler: Handler<C>)
    requires h < |initial| && Within(initial, tail) && !Drops(handler(k), initial[h].callback)
    ensures Undisturbed(initial, [h] + tail, k, handler) <==> Undisturbed(initial, tail, k + 1, handler)
  {
    var plan := [h] + tail;
    if Undisturbed(initial, plan, k, handler) {
      forall j | 0 <= j < |tail| ensures !Drops(handler(k + 1 + j), initial[tail[j]].callback) {
        assert plan[j + 1] == tail[j] && k + (j + 1) == k + 1 + j;
      }
    }
    if Undisturbed(initial, tail, k + 1, handler) {
      forall j | 0 <= j < |plan| ensures !Drops(handler(k + j), initial[plan[j]].callback) {
        if j > 0 { assert plan[j] == tail[j - 1] && k + j == k + 1 + (j - 1); }
      }
    }
  }

  lemma NotBehind<C>(initial: seq<Node<C>>, h: nat, tail: seq<nat>, k: nat, handler: Handler<C>)
    requires h < |initial| && Within(initial, tail) && Increasing([h] + tail)
    ensures !RemovedBefore(initial, tail, k, handler, h)
  {
    forall j | 0 <= j < |tail| ensures tail[j] > h {
      assert ([h] + tail)[0] < ([h] + tail)[j + 1];
    }
  }

  lemma NodesHas<C>(initial: seq<Node<C>>, at: seq<nat>, i: nat)
    requires Unique(initial) && Within(initial, at) && i < |initial|
    ensures initial[i] in Nodes(initial, at) <==> i in at
  {
    if i in at {
      var j :| 0 <= j < |at| && at[j] == i;
      assert Nodes(initial, at)[j] == initial[i];
    }
    if initial[i] in Nodes(initial, at) {
      var j :| 0 <= j < |at| && Nodes(initial, at)[j] == initial[i];
      assert at[j] == i;
    }
  }

  function Upto(n: nat): seq<nat> { seq(n, i => i) }

  /**
    Over a whole list of distinct nodes: the notified nodes are a subsequence of the list
    as it was when the broadcast began, none twice. A node is notified if and only if no
    handler called for an earlier node had its callback unsubscribe, nor ended the broadcast
    by removing its own node.
  */
  lemma BroadcastExact<C>(initial: seq<Node<C>>, handler: Handler<C>)
    requires Unique(initial)
    ensures var plan := Plan(initial, Upto(|initial|), 0, handler);
            && Increasing(plan)
            && (plan != [] ==> Undisturbed(initial, plan[..|plan| - 1], 0, handler))
            && forall i | 0 <= i < |initial| ::
                 initial[i] in Nodes(initial, plan) <==>
                 Reaches(initial, plan, 0, handler, i) && !RemovedBefore(initial, plan, 0, handler, i)
  {
    var plan := Plan(initial, Upto(|initial|), 0, handler);
    PlanExact(initial, Upto(|initial|), 0, handler);
    hide Plan, Undisturbed, RemovedBefore, Increasing, Nodes, Unique, Reaches;
    forall i: nat | i < |initial| ensures initial[i] in Nodes(initial, plan) <==> i in plan {
      NodesHas(initial, plan, i);
    }
    forall i: nat | i < |initial| ensures i in Upto(|initial|) {
      assert Upto(|initial|)[i] == i;
    }
  }

  lemma RemovedCons<C>(initial: seq<Node<C>>, h: nat, tail: seq<nat>, k: nat, handler: Handler<C>, i: nat)
    requires h < |initial| && i < |initial| && Within(initial, tail)
    ensures RemovedBefore(initial, [h] + tail, k, handler, i) <==>
            || (h < i && Drops(handler(k), initial[i].callback))
            || RemovedBefore(initial, tail, k + 1, handler, i)
  {
    var plan := [h] + tail;
    if RemovedBefore(initial, plan, k, handler, i) {
      var j :| 0 <= j < |plan| && plan[j] < i && Drops(handler(k + j), initial[i].callback);
      if j > 0 { assert tail[j - 1] == plan[j] && Drops(handler(k + 1 + (j - 1)), initial[i].callback); }
    }
    if RemovedBefore(initial, tail, k + 1, handler, i) {
      var j :| 0 <= j < |tail| && tail[j] < i && Drops(handler(k + 1 + j), initial[i].callback);
      assert plan[j + 1] == tail[j] && Drops(handler(k + (j + 1)), initial[i].callback);
    }
    if h < i && Drops(handler(k), initial[i].callback) {
      assert plan[0] < i && Drops(handler(k + 0), initial[i].callback);
    }
  }

  // ------------------------------------- the list a handler leaves behind

  /** Removing one more callback from what survived so far. */
  lemma {:induction false} KeepSnoc<C>(initial: seq<Node<C>>, todo: seq<nat>, ops: seq<Op<C>>, op: Op<C>)
    requires Within(initial, todo)
    ensures Nodes(initial, Keep(initial, todo, ops + [op])) ==
            if op.Unsub? then Without(Nodes(initial, Keep(initial, todo, ops)), op.callback)
            else Nodes(initial, Keep(initial, todo, ops))
  {
    if todo != [] {
      KeepSnoc(initial, todo[1..], ops, op);
      var i := todo[0];
      var before, after := Keep(initial, todo[1..], ops), Keep(initial, todo[1..], ops + [op]);
      assert Drops(ops + [op], initial[i].callback) <==> Drops(ops, initial[i].callback) || op == Unsub(initial[i].callback);
      NodesCons(initial, i, before);
      NodesCons(initial, i, after);
      hide Nodes;
      assert ([initial[i]] + Nodes(initial, before))[1..] == Nodes(initial, before);
    }
  }

  lemma NodesCons<C>(initial: seq<Node<C>>, i: nat, at: seq<nat>)
    requires i < |initial| && Within(initial, at)
    ensures Nodes(initial, [i] + at) == [initial[i]] + Nodes(initial, at)
  {
  }

  lemma {:induction false} KeepAll<C>(initial: seq<Node<C>>, todo: seq<nat>)
    requires Within(initial, todo)
    ensures Keep(initial, todo, []) == todo
  {
    if todo != [] { KeepAll(initial, todo[1..]); }
  }

  /** One visit moves the head of `todo` to the end of the nodes visited. */
  lemma NodesStep<C>(initial: seq<Node<C>>, todo: seq<nat>, done: seq<nat>)
    requires todo != [] && Within(initial, todo) && Within(initial, done)
    ensures Within(initial, todo[1..]) && Within(initial, done + [todo[0]])
    ensures Nodes(initial, todo) == [initial[todo[0]]] + Nodes(initial, todo[1..])
    ensures Nodes(initial, done + [todo[0]]) == Nodes(initial, done) + [initial[todo[0]]]
  {
  }

  lemma UndisturbedStep<C>(initial: seq<Node<C>>, done: seq<nat>, h: nat, handler: Handler<C>)
    requires Within(initial, done) && h < |initial| && Undisturbed(initial, done, 0, handler)
    ensures Undisturbed(initial, done + [h], 0, handler) <==> !Drops(handler(|done|), initial[h].callback)
  {
    var visited := done + [h];
    assert visited[|done|] == h && 0 + |done| == |done|;
  }

  lemma PlanStep<C>(initial: seq<Node<C>>, todo: seq<nat>, done: seq<nat>, handler: Handler<C>)
    requires Within(initial, todo)
    ensures todo == [] ==> done + Plan(initial, todo, |done|, handler) == done
    ensures todo != [] ==>
              var h, k := todo[0], |done|;
              done + Plan(initial, todo, k, handler) ==
                if Drops(handler(k), initial[h].callback) then done + [h]
                else (done + [h]) + Plan(initial, Keep(initial, todo[1..], handler(k)), k + 1, handler)
  {
    hide Keep;
  }

  /** A broadcast in progress: `done` was visited and notified, `todo` is at and after the cursor. */
  predicate Visiting<C(==)>(initial: seq<Node<C>>, todo: seq<nat>, done: seq<nat>, notified: seq<Node<C>>, handler: Handler<C>) {
    && Within(initial, todo) && Within(initial, done)
    && notified == Nodes(initial, done)
    && Plan(initial, Upto(|initial|), 0, handler) == done + Plan(initial, todo, |done|, handler)
    && Undisturbed(initial, done, 0, handler)
  }

  /** What a broadcast over `initial` must return. */
  predicate Planned<C(==)>(initial: seq<Node<C>>, notified: seq<Node<C>>, valid: bool, handler: Handler<C>) {
    var plan := Plan(initial, Upto(|initial|), 0, handler);
    && notified == Nodes(initial, plan)
    && (valid <==> Undisturbed(initial, plan, 0, handler))
  }

  lemma VisitBegin<C>(initial: seq<Node<C>>, handler: Handler<C>)
    ensures Visiting(initial, Upto(|initial|), [], [], handler)
    ensures Nodes(initial, Upto(|initial|)) == initial
  {
    var plan := Plan(initial, Upto(|initial|), 0, handler);
    assert [] + plan == plan;
  }

  /** One notification: the broadcast ends here, or goes on with what the handler left. */
  lemma VisitStep<C>(initial: seq<Node<C>>, todo: seq<nat>, done: seq<nat>, notified: seq<Node<C>>, handler: Handler<C>)
    returns (todo': seq<nat>, done': seq<nat>, notified': seq<Node<C>>)
    requires Visiting(initial, todo, done, notified, handler) && todo != []
    ensures Within(initial, todo) && notified' == notified + [initial[todo[0]]]
    ensures todo' == Keep(initial, todo[1..], handler(|notified|)) && |todo'| < |todo|
    ensures if Drops(handler(|notified|), initial[todo[0]].callback) then Planned(initial, notified', false, handler)
            else Visiting(initial, todo', done', notified', handler)
  {
    var h, k := todo[0], |done|;
    PlanStep(initial, todo, done, handler);
    UndisturbedStep(initial, done, h, handler);
    NodesStep(initial, todo, done);
    hide Plan, Undisturbed, Upto, Nodes;
    todo', done', notified' := Keep(initial, todo[1..], handler(k)), done + [h], notified + [initial[h]];
  }

  lemma VisitEnd<C>(initial: seq<Node<C>>, done: seq<nat>, notified: seq<Node<C>>, handler: Handler<C>)
    requires Visiting(initial, [], done, notified, handler)
    ensures Planned(initial, notified, true, handler)
  {
    PlanStep(initial, [], done, handler);
  }

  // ----------------------------------------------- the list at the end

  /** What the handlers of the first k notifications did, one after the other. */
  function AllOps<C>(handler: Handler<C>, k: nat): seq<Op<C>> {
    if k == 0 then [] else AllOps(handler, k - 1) + handler(k - 1)
  }

  /** The nodes of subscriptions that no later operation removed, the latest first. */
  function NewNodes<C(==)>(ops: seq<Op<C>>, nextId: nat): seq<Node<C>>
    decreases |ops|
  {
    if ops == [] then []
    else if ops[0].Unsub? then NewNodes(ops[1..], nextId)
    else
      var later := NewNodes(ops[1..], nextId + 1);
      if Drops(ops[1..], ops[0].callback) then later else later + [Node(nextId, ops[0].callback)]
  }

  /** The nodes whose callback no operation removed. */
  function Spared<C(==)>(nodes: seq<Node<C>>, ops: seq<Op<C>>): seq<Node<C>>
    decreases |nodes|
  {
    if nodes == [] then []
    else (if Drops(ops, nodes[0].callback) then [] else [nodes[0]]) + Spared(nodes[1..], ops)
  }

  function Subs<C>(ops: seq<Op<C>>): nat
    decreases |ops|
  {
    if ops == [] then 0 else (if ops[0].Sub? then 1 else 0) + Subs(ops[1..])
  }

  /** The first operation, then the others. */
  lemma {:induction false} EditFirst<C>(b: Board<C>, op: Op<C>, ops: seq<Op<C>>)
    ensures EditAll(b, [op] + ops) == EditAll(Edit(b, op), ops)
    decreases |ops|
  {
    var all := [op] + ops;
    hide Edit;
    if ops == [] {
      assert all[..0] == [] && all[0] == op;
    } else {
      var n := |ops| - 1;
      EditFirst(b, op, ops[..n]);
      assert all[..n + 1] == [op] + ops[..n] && all[n + 1] == ops[n];
    }
  }

  lemma {:induction false} EditConcat<C>(b: Board<C>, a: seq<Op<C>>, ops: seq<Op<C>>)
    ensures EditAll(b, a + ops) == EditAll(EditAll(b, a), ops)
    decreases |ops|
  {
    var all := a + ops;
    hide Edit;
    if ops == [] {
      assert all == a;
    } else {
      var n := |ops| - 1;
      EditConcat(b, a, ops[..n]);
      assert all[..|a| + n] == a + ops[..n] && all[|a| + n] == ops[n];
    }
  }

  lemma {:induction false} AfterIsEditAll<C>(b: Board<C>, k: nat, handler: Handler<C>)
    ensures After(b, k, handler) == EditAll(b, AllOps(handler, k))
    decreases k
  {
    if k > 0 {
      AfterIsEditAll(b, k - 1, handler);
      EditConcat(b, AllOps(handler, k - 1), handler(k - 1));
    }
  }

  lemma {:induction false} SparedByNone<C>(nodes: seq<Node<C>>)
    ensures Spared(nodes, []) == nodes
  {
    if nodes != [] { SparedByNone(nodes[1..]); }
  }

  /** Removing one callback first, then the others. */
  lemma {:induction false} SparedFirst<C>(nodes: seq<Node<C>>, c: C, ops: seq<Op<C>>)
    ensures Spared(Without(nodes, c), ops) == Spared(nodes, [Unsub(c)] + ops)
    decreases |nodes|
  {
    if nodes != [] {
      SparedFirst(nodes[1..], c, ops);
      var all := [Unsub(c)] + ops;
      assert Drops(all, nodes[0].callback) <==> nodes[0].callback == c || Drops(ops, nodes[0].callback);
      var rest := Without(nodes[1..], c);
      assert ([nodes[0]] + rest)[1..] == rest;
    }
  }

  /** Subscribing removes nothing. */
  lemma {:induction false} SparedSub<C>(nodes: seq<Node<C>>, c: C, ops: seq<Op<C>>)
    ensures Spared(nodes, [Sub(c)] + ops) == Spared(nodes, ops)
    decreases |nodes|
  {
    if nodes != [] { SparedSub(nodes[1..], c, ops); }
  }

  /**
    Any sequence of operations leaves one new node for each subscription that no later one
    removed, the latest first, and behind them the old nodes that none removed, in order.
  */
  lemma {:induction false} EditAllExact<C>(b: Board<C>, ops: seq<Op<C>>)
    ensures EditAll(b, ops) == Board(NewNodes(ops, b.nextId) + Spared(b.nodes, ops), b.nextId + Subs(ops))
    decreases |ops|
  {
    if ops == [] {
      SparedByNone(b.nodes);
    } else {
      var op, rest := ops[0], ops[1..];
      assert ops == [op] + rest;
      EditFirst(b, op, rest);
      EditAllExact(Edit(b, op), rest);
      hide EditAll;
      if op.Unsub? {
        SparedFirst(b.nodes, op.callback, rest);
      } else {
        var n := Node(b.nextId, op.callback);
        SparedSub(b.nodes, op.callback, rest);
        assert ([n] + b.nodes)[0] == n && ([n] + b.nodes)[1..] == b.nodes;
        hide Spared;
        NewInFront(NewNodes(rest, b.nextId + 1), n, Spared(b.nodes, rest));
      }
    }
  }

  lemma NewInFront<C>(later: seq<Node<C>>, n: Node<C>, tail: seq<Node<C>>)
    ensures later + ([n] + tail) == (later + [n]) + tail && later + ([] + tail) == later + tail
  {
  }

  /** The list a broadcast leaves after k notifications. */
  lemma FinalList<C>(b: Board<C>, k: nat, handler: Handler<C>)
    ensures var ops := AllOps(handler, k);
            After(b, k, handler) == Board(NewNodes(ops, b.nextId) + Spared(b.nodes, ops), b.nextId + Subs(ops))
  {
    AfterIsEditAll(b, k, handler);
    EditAllExact(b, AllOps(handler, k));
  }
}
