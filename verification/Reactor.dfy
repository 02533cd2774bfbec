/**
  The reactor: a map from (descriptor, mode) to handlers, a listener that turns the
  result of select into a list of ready keys, and the loop that calls their handlers
  while those handlers change the map or stop the loop.
*/
module Reactor {

  datatype Mode = READ | WRITE | EXCEPTION

  datatype Key = Key(fd: int, mode: Mode)

  /** Registered keys and the handler of each. */
  type Registry = map<Key, nat>

  predicate Distinct<T(==)>(xs: seq<T>) {
    forall i, j | 0 <= i < j < |xs| :: xs[i] != xs[j]
  }

  function Elements<T>(xs: seq<T>): set<T> { set x | x in xs }

  // -------------------------------------------------------------- listener

  /** What select leaves: failure, or the bits still set and its return value. */
  datatype Outcome = Failed | Ready(bits: set<Key>, count: int)

  /** select keeps only requested bits of descriptors below nfds and returns their number. */
  predicate Honest(o: Outcome, request: set<Key>, nfds: int) {
    o.Ready? ==> o.bits <= request && (forall k | k in o.bits :: k.fd < nfds) && o.count == |o.bits|
  }

  lemma HonestReady(o: Outcome, request: set<Key>, nfds: int)
    requires Honest(o, request, nfds) && o.Ready?
    ensures o.bits <= request && o.bits * request == o.bits && o.count == |o.bits|
  {
  }

  class SelectListener {
    /** Bit fd of sets[mode] is set if and only if Key(fd, mode) is in `bits`. */
    var bits: set<Key>
    var maxFd: int

    constructor () {
      bits, maxFd := {}, 0;
    }

    /** Requests exactly the registered keys; maxFd is one above the largest descriptor, or 1. */
    method SetArgs(registry: Registry)
      modifies this
      ensures bits == registry.Keys
      ensures maxFd >= 1 && forall k | k in registry :: k.fd < maxFd
      ensures maxFd == 1 || exists k :: k in registry && maxFd == k.fd + 1
    {
      bits := {};
      var max := 0;
      var rest := registry.Keys;
      while rest != {}
        invariant bits == registry.Keys - rest && rest <= registry.Keys
        invariant max >= 0 && forall k | k in bits :: k.fd <= max
        invariant max == 0 || exists k :: k in bits && max == k.fd
        decreases rest
      {
        var k :| k in rest;
        rest := rest - {k};
        if k.fd > max { max := k.fd; }
        bits := bits + {k};
        assert k in bits;
      }
      maxFd := max + 1;
    }

    /**
      Walks the registry in any order until `count` ready keys were found. What it puts in
      front of the list is all the ready keys if and only if `count` is at least their
      number, and never a key twice.
    */
    method CreateList(count: int, registry: Registry, pending: seq<Key>) returns (pending': seq<Key>, found: seq<Key>)
      ensures pending' == found + pending && Distinct(found)
      ensures var ready, n := bits * registry.Keys, if count > 0 then count else 0;
              && Elements(found) <= ready
              && |found| == (if n < |ready| then n else |ready|)
              && (Elements(found) == ready <==> n >= |ready|)
    {
      var left := count;
      var rest := registry.Keys;
      found := [];
      while rest != {} && 0 < left
        invariant rest <= registry.Keys
        invariant Distinct(found) && Elements(found) == bits * (registry.Keys - rest)
        invariant left == count - |found| && (count >= 0 ==> left >= 0) && (count < 0 ==> found == [])
        decreases rest
      {
        var k :| k in rest;
        if k in bits {
          found := Extend(found, k, bits, registry.Keys, rest);
          left := left - 1;
        } else {
          assert bits * (registry.Keys - (rest - {k})) == bits * (registry.Keys - rest);
        }
        rest := rest - {k};
      }
      pending' := found + pending;
      DistinctSize(found);
      SubsetBySize(Elements(found), bits * registry.Keys);
      if rest == {} { assert registry.Keys - rest == registry.Keys; }
    }

    /**
      Fails with select, or leaves in front of the list exactly the keys reported ready.
      select is asked for exactly the registered keys, below a bound that covers them.
    */
    method Do(select: (set<Key>, int) -> Outcome, registry: Registry, pending: seq<Key>)
      returns (o: Outcome, pending': seq<Key>, found: seq<Key>)
      requires forall request, nfds :: Honest(select(request, nfds), request, nfds)
      modifies this
      ensures exists nfds: int :: o == select(registry.Keys, nfds) && forall k | k in registry :: k.fd < nfds
      ensures pending' == found + pending
      ensures o.Failed? ==> found == []
      ensures o.Ready? ==> Distinct(found) && Elements(found) == o.bits && o.bits <= registry.Keys
    {
      SetArgs(registry);
      hide Distinct, Elements, Honest;
      o := select(bits, maxFd);
      assert Honest(o, registry.Keys, maxFd);
      pending', found := pending, [];
      if o.Ready? {
        HonestReady(o, registry.Keys, maxFd);
        bits := o.bits;
        pending', found := CreateList(o.count, registry, pending);
      }
    }
  }

  /** Puts one more ready key in front of those found among the keys already walked. */
  method Extend(found: seq<Key>, k: Key, bits: set<Key>, ghost keys: set<Key>, ghost rest: set<Key>)
    returns (found': seq<Key>)
    requires Distinct(found) && Elements(found) == bits * (keys - rest) && k in rest && k in bits && k in keys
    ensures found' == [k] + found && Distinct(found') && Elements(found') == bits * (keys - (rest - {k}))
  {
    assert k !in Elements(found);
    assert forall i | 0 <= i < |found| :: found[i] in Elements(found);
    found' := [k] + found;
    assert Elements(found') == Elements(found) + {k};
    assert bits * (keys - (rest - {k})) == bits * (keys - rest) + {k};
  }

  lemma {:induction false} SubsetBySize<T>(a: set<T>, b: set<T>)
    requires a <= b
    ensures |a| <= |b| && (|a| == |b| ==> a == b)
  {
    if a != {} {
      var x :| x in a;
      SubsetBySize(a - {x}, b - {x});
      if |a| == |b| { assert a == (a - {x}) + {x} && b == (b - {x}) + {x}; }
    } else if |a| == |b| {
      assert b == {};
    }
  }

  lemma {:induction false} DistinctSize<T>(xs: seq<T>)
    requires Distinct(xs)
    ensures |Elements(xs)| == |xs|
  {
    if xs != [] {
      DistinctSize(xs[1..]);
      assert Elements(xs) == Elements(xs[1..]) + {xs[0]};
    }
  }

  // --------------------------------------------------------------- batches

  /** What a handler may do to the reactor that called it. */
  datatype Action = Register(key: Key, handler: nat) | Remove(key: Key) | Stop

  /** An adversary: what the j-th handler called since Run began does. */
  type Script = nat -> seq<Action>

  datatype Setting = Setting(registry: Registry, stopped: bool)

  /** The state after the actions; Remove of an absent key throws and ends them. */
  function Act(w: Setting, actions: seq<Action>): (r: (Setting, bool))
    ensures w.stopped ==> r.0.stopped
    ensures !w.stopped && r.0.stopped ==> Stop in actions
    decreases |actions|
  {
    if actions == [] then (w, false)
    else match actions[0]
      case Register(k, h) => Act(w.(registry := w.registry[k := h]), actions[1..])
      case Remove(k) => if k in w.registry then Act(w.(registry := w.registry - {k}), actions[1..]) else (w, true)
      case Stop => Act(w.(stopped := true), actions[1..])
  }

  /** A handler called for a key, the state in which it was called, and what it did. */
  datatype Call = Call(key: Key, handler: nat, before: Setting, actions: seq<Action>)

  datatype Outcomes = Outcomes(calls: seq<Call>, after: Setting, threw: bool)

  /** The calls made for the keys in `todo`, the first being the j-th of the run. */
  function Batch(w: Setting, todo: seq<Key>, j: nat, script: Script): Outcomes
    decreases |todo|
  {
    if todo == [] || w.stopped then Outcomes([], w, false)
    else if todo[0] !in w.registry then Batch(w, todo[1..], j, script)
    else
      var call := Call(todo[0], w.registry[todo[0]], w, script(j));
      var (w', threw) := Act(w, script(j));
      if threw then Outcomes([call], w', true)
      else
        var r := Batch(w', todo[1..], j + 1, script);
        Outcomes([call] + r.calls, r.after, r.threw)
  }

  /** The call is of a key registered, with that handler, in a reactor not stopped. */
  predicate WellCalled(c: Call) {
    !c.before.stopped && c.key in c.before.registry && c.before.registry[c.key] == c.handler
  }

  /** Each call finds the state the one before it left; only the last may have stopped or thrown. */
  predicate Chained(calls: seq<Call>)
    decreases |calls|
  {
    |calls| <= 1 ||
    (&& Act(calls[0].before, calls[0].actions) == (calls[1].before, false)
     && Stop !in calls[0].actions
     && Chained(calls[1..]))
  }

  predicate CallsWithin(calls: seq<Call>, todo: seq<Key>) {
    forall i | 0 <= i < |calls| :: calls[i].key in todo && WellCalled(calls[i])
  }

  predicate KeysDiffer(calls: seq<Call>) {
    forall i, k | 0 <= i < k < |calls| :: calls[i].key != calls[k].key
  }

  /**
    A batch calls keys of its list, each at most once if the list has no duplicates, and
    only while registered; the state of each call is what the previous one left; after a
    call that stopped the reactor or threw there is no other.
  */
  lemma {:induction false} BatchIsSound(w: Setting, todo: seq<Key>, j: nat, script: Script)
    ensures var calls := Batch(w, todo, j, script).calls;
            && CallsWithin(calls, todo)
            && (Distinct(todo) ==> KeysDiffer(calls))
            && (calls != [] ==> calls[0].before == w)
            && Chained(calls)
    decreases |todo|
  {
    if todo != [] && !w.stopped {
      if todo[0] !in w.registry {
        BatchIsSound(w, todo[1..], j, script);
      } else {
        var (w', threw) := Act(w, script(j));
        if !threw {
          BatchIsSound(w', todo[1..], j + 1, script);
          var rest := Batch(w', todo[1..], j + 1, script).calls;
          if rest != [] { StopIsSeen(w, script(j)); }
          var call := Call(todo[0], w.registry[todo[0]], w, script(j));
          assert Batch(w, todo, j, script).calls == [call] + rest;
          hide Batch, CallsWithin, KeysDiffer, Chained;
          ConsSound(call, rest, todo);
        }
      }
    }
  }

  lemma {:induction false} ConsSound(call: Call, rest: seq<Call>, todo: seq<Key>)
    requires todo != [] && call.key == todo[0] && WellCalled(call)
    requires CallsWithin(rest, todo[1..]) && (Distinct(todo[1..]) ==> KeysDiffer(rest)) && Chained(rest)
    requires rest != [] ==> Act(call.before, call.actions) == (rest[0].before, false) && Stop !in call.actions
    ensures var calls := [call] + rest;
            CallsWithin(calls, todo) && (Distinct(todo) ==> KeysDiffer(calls)) && Chained(calls)
  {
    var calls := [call] + rest;
    hide Act;
    assert calls[1..] == rest;
    assert forall i | 0 <= i < |rest| :: calls[i + 1] == rest[i] && rest[i].key in todo[1..];
    hide WellCalled;
  }

  /** Actions that contain Stop and do not throw leave the reactor stopped. */
  lemma {:induction false} StopIsSeen(w: Setting, actions: seq<Action>)
    ensures Stop in actions && !Act(w, actions).1 ==> Act(w, actions).0.stopped
    decreases |actions|
  {
    if actions != [] {
      match actions[0]
      case Register(k, h) => StopIsSeen(w.(registry := w.registry[k := h]), actions[1..]);
      case Remove(k) => StopIsSeen(w.(registry := w.registry - {k}), actions[1..]);
      case Stop =>
    }
  }

  predicate Untouched(calls: seq<Call>, key: Key) {
    forall i | 0 <= i < |calls| :: Remove(key) !in calls[i].actions
  }

  ghost predicate Called(calls: seq<Call>, key: Key) {
    exists i :: 0 <= i < |calls| && calls[i].key == key
  }

  /**
    Nothing is skipped: a key of the list that is registered when the batch begins, and
    that no handler of the batch removes, is called unless a handler stopped or threw.
  */
  lemma {:induction false} BatchIsComplete(w: Setting, todo: seq<Key>, j: nat, script: Script, key: Key)
    requires key in todo && key in w.registry && Untouched(Batch(w, todo, j, script).calls, key)
    ensures var r := Batch(w, todo, j, script); r.after.stopped || r.threw || Called(r.calls, key)
    decreases |todo|
  {
    if !w.stopped {
      var r := Batch(w, todo, j, script);
      if todo[0] !in w.registry {
        BatchIsComplete(w, todo[1..], j, script, key);
      } else if todo[0] == key {
        assert r.calls[0].key == key;
      } else {
        var (w', threw) := Act(w, script(j));
        if !threw {
          assert r.calls[0].actions == script(j);
          StaysRegistered(w, script(j), key);
          var rest := Batch(w', todo[1..], j + 1, script);
          assert forall i | 0 <= i < |rest.calls| :: rest.calls[i] == r.calls[i + 1];
          BatchIsComplete(w', todo[1..], j + 1, script, key);
        }
      }
    }
  }

  lemma {:induction false} StaysRegistered(w: Setting, actions: seq<Action>, key: Key)
    requires key in w.registry && Remove(key) !in actions
    ensures key in Act(w, actions).0.registry
    decreases |actions|
  {
    if actions != [] {
      match actions[0]
      case Register(k, h) => StaysRegistered(w.(registry := w.registry[k := h]), actions[1..], key);
      case Remove(k) =>
        if k in w.registry { StaysRegistered(w.(registry := w.registry - {k}), actions[1..], key); }
      case Stop => StaysRegistered(w.(stopped := true), actions[1..], key);
    }
  }

  datatype Status = Running | Stopped | SelectFailed | HandlerThrew

  /**
    One turn of Run: the state it finds, the number of calls made before it, what select
    reported, the list then, the calls made, and how they ended.
  */
  datatype Turn = Turn(before: Setting, first: nat, ready: set<Key>, list: seq<Key>, result: Outcomes)

  /** What select would answer in each round. */
  type Poll = (nat, set<Key>, int) -> Outcome

  ghost predicate HonestPoll(select: Poll) {
    forall r: nat, request, nfds :: Honest(select(r, request, nfds), request, nfds)
  }

  class Reactor {
    var registry: Registry
    var pending: seq<Key>
    var stopped: bool
    const listener: SelectListener

    constructor ()
      ensures registry == map[] && pending == [] && stopped && fresh(listener)
    {
      registry, pending, stopped := map[], [], true;
      listener := new SelectListener();
    }

    function Now(): Setting reads this { Setting(registry, stopped) }

    method Add(k: Key, h: nat)
      modifies this`registry
      ensures registry == old(registry)[k := h]
    {
      registry := registry[k := h];
    }

    /** Removing a key that is not registered throws and changes nothing. */
    method Drop(k: Key) returns (threw: bool)
      modifies this`registry
      ensures threw <==> k !in old(registry)
      ensures registry == old(registry) - {k}
    {
      threw := k !in registry;
      if !threw { registry := registry - {k}; } else { assert registry - {k} == registry; }
    }

    method Halt()
      modifies this`stopped
      ensures stopped
    {
      stopped := true;
    }

    /** The body of one handler. */
    method Perform(actions: seq<Action>) returns (threw: bool)
      modifies this`registry, this`stopped
      ensures (Now(), threw) == Act(old(Now()), actions)
    {
      threw := false;
      var rest := actions;
      while rest != []
        invariant !threw && Act(Now(), rest) == Act(old(Now()), actions)
        decreases |rest|
      {
        match rest[0] {
          case Register(k, h) => Add(k, h);
          case Remove(k) =>
            ghost var before := Now();
            threw := Drop(k);
            if threw {
              assert Now() == before by { assert registry == before.registry; }
              return;
            }
          case Stop => Halt();
        }
        rest := rest[1..];
      }
    }

    /** Calls the pending handlers; an exception leaves the pending list as it was. */
    method InvokeHandlers(j: nat, script: Script) returns (calls: seq<Call>, threw: bool)
      modifies this`registry, this`stopped, this`pending
      ensures Outcomes(calls, Now(), threw) == Batch(old(Now()), old(pending), j, script)
      ensures pending == if threw then old(pending) else []
    {
      calls, threw := [], false;
      ghost var all := Batch(Now(), pending, j, script);
      var i := 0;
      while i < |pending| && !stopped
        invariant 0 <= i <= |pending| && pending == old(pending) && !threw
        invariant var r := Batch(Now(), pending[i..], j + |calls|, script);
                  all == Outcomes(calls + r.calls, r.after, r.threw)
      {
        var k := pending[i];
        assert pending[i..][0] == k && pending[i..][1..] == pending[i + 1..];
        if k in registry {
          var actions := script(j + |calls|);
          calls := calls + [Call(k, registry[k], Now(), actions)];
          threw := Perform(actions);
          if threw {
            return;
          }
        }
        i := i + 1;
      }
      pending := [];
    }

    /** The body of the loop of Run; nothing is called if select fails. */
    method Round(round: nat, j: nat, select: Poll, script: Script) returns (o: Outcome, turn: Turn)
      requires HonestPoll(select)
      modifies this`registry, this`stopped, this`pending, listener
      ensures turn.before == old(Now()) && turn.first == j && turn.result.after == Now()
      ensures o.Failed? ==> Now() == old(Now()) && pending == old(pending)
                            && exists nfds :: select(round, registry.Keys, nfds).Failed?
      ensures o.Ready? ==> TurnOk(turn, round, old(pending), select, script)
                           && pending == if turn.result.threw then turn.list else []
    {
      var list, found;
      var before := Now();
      o, list, found := listener.Do((request, nfds) => select(round, request, nfds), registry, pending);
      turn := Turn(before, j, {}, [], Outcomes([], before, false));
      if o.Ready? {
        pending := list;
        var calls, threw := InvokeHandlers(j, script);
        turn := Turn(before, j, o.bits, list, Outcomes(calls, Now(), threw));
        ghost var nfds :| o == select(round, before.registry.Keys, nfds) && forall k | k in before.registry :: k.fd < nfds;
        assert Asked(turn, round, nfds, select);
        TurnIsOk(turn, round, found, old(pending), select, script);
      }
    }

    /**
      At most `rounds` turns of Run. Each turn asks select about the state it finds and makes
      exactly the calls of the batch that select reported, in front of what an exception left
      behind; from the second turn on nothing is left. The loop ends at the first turn that
      stops or throws.
    */
    method Run(rounds: nat, select: Poll, script: Script) returns (turns: seq<Turn>, status: Status)
      requires HonestPoll(select)
      modifies this`registry, this`stopped, this`pending, listener
      ensures |turns| <= rounds && Linked(turns, Setting(old(registry), false), old(pending), select, script)
      ensures Now() == Reached(turns, Setting(old(registry), false))
      ensures pending == if turns == [] then old(pending) else if status == HandlerThrew then turns[|turns| - 1].list else []
      ensures status == HandlerThrew <==> turns != [] && turns[|turns| - 1].result.threw
      ensures status == Stopped <==> stopped && status != HandlerThrew
      ensures status == Running ==> |turns| == rounds
      ensures status == SelectFailed ==> exists nfds :: select(|turns|, registry.Keys, nfds).Failed?
    {
      hide TurnOk, Linked, HonestPoll, Honest, Batch, Asked, Elements, Distinct, Act, Chained;
      stopped := false;
      turns, status := [], Running;
      var j: nat := 0;
      ghost var start, left := Now(), pending;
      LinkedEmpty(start, left, select, script);
      while |turns| < rounds && !stopped
        invariant |turns| <= rounds && status == Running && Linked(turns, start, left, select, script)
        invariant Now() == Reached(turns, start) && j == CallsIn(turns)
        invariant turns != [] ==> !turns[|turns| - 1].result.threw
        invariant pending == if turns == [] then left else []
        decreases rounds - |turns|
      {
        var o, turn := Round(|turns|, j, select, script);
        if o.Failed? {
          status := SelectFailed;
          break;
        }
        LinkedSnoc(turns, turn, start, left, select, script);
        turns := turns + [turn];
        j := j + |turn.result.calls|;
        if turn.result.threw {
          status := HandlerThrew;
          break;
        }
      }
      if stopped && status == Running { status := Stopped; }
    }
  }

  function CallsIn(turns: seq<Turn>): nat {
    if turns == [] then 0 else turns[|turns| - 1].first + |turns[|turns| - 1].result.calls|
  }

  function Reached(turns: seq<Turn>, start: Setting): Setting {
    if turns == [] then start else turns[|turns| - 1].result.after
  }

  /** A turn goes on from where the one before it ended, which neither stopped nor threw. */
  predicate Follows(turns: seq<Turn>, turn: Turn, start: Setting) {
    && turn.before == Reached(turns, start)
    && turn.first == CallsIn(turns)
    && !turn.before.stopped
    && (turns != [] ==> !turns[|turns| - 1].result.threw)
  }

  /** The turns of one Run, each following the one before; leftovers reach only the first. */
  ghost predicate Linked(turns: seq<Turn>, start: Setting, left: seq<Key>, select: Poll, script: Script)
    decreases |turns|
  {
    turns == [] ||
    (var k := |turns| - 1;
     && Linked(turns[..k], start, left, select, script)
     && Follows(turns[..k], turns[k], start)
     && TurnOk(turns[k], k, if k == 0 then left else [], select, script))
  }

  lemma LinkedEmpty(start: Setting, left: seq<Key>, select: Poll, script: Script)
    ensures Linked([], start, left, select, script)
  {
  }

  lemma {:induction false} LinkedSnoc(turns: seq<Turn>, turn: Turn, start: Setting, left: seq<Key>, select: Poll, script: Script)
    requires Linked(turns, start, left, select, script) && Follows(turns, turn, start)
    requires TurnOk(turn, |turns|, if turns == [] then left else [], select, script)
    ensures Linked(turns + [turn], start, left, select, script)
  {
    hide Follows, TurnOk, Batch, Asked, Reached, CallsIn;
    var all := turns + [turn];
    assert all[..|turns|] == turns && all[|turns|] == turn && |all| - 1 == |turns|;
  }

  /** Every turn of a Run is sound, and goes on from the state its predecessor left. */
  lemma {:induction false} EveryTurn(turns: seq<Turn>, start: Setting, left: seq<Key>, select: Poll, script: Script, t: nat)
    requires Linked(turns, start, left, select, script) && t < |turns|
    ensures TurnOk(turns[t], t, if t == 0 then left else [], select, script)
    ensures turns[t].before == (if t == 0 then start else turns[t - 1].result.after) && !turns[t].before.stopped
    ensures t > 0 ==> !turns[t - 1].result.threw
    decreases |turns|
  {
    var k := |turns| - 1;
    hide TurnOk;
    if t < k { EveryTurn(turns[..k], start, left, select, script, t); }
  }

  /**
    One turn: select was asked for the registered keys; the list is the keys it reported,
    each once, in front of the leftovers; the calls are those of that batch, well called,
    none after a handler that called Stop or threw; with no leftovers, each is of a key
    reported ready in this turn, and no key is called twice.
  */
  ghost predicate TurnOk(t: Turn, round: nat, left: seq<Key>, select: Poll, script: Script) {
    && (exists nfds :: Asked(t, round, nfds, select))
    && (exists found :: t.list == found + left && Distinct(found) && Elements(found) == t.ready)
    && t.result == Batch(t.before, t.list, t.first, script)
    && CallsWithin(t.result.calls, t.list)
    && Chained(t.result.calls)
    && (left == [] ==> KeysDiffer(t.result.calls)
                       && forall i | 0 <= i < |t.result.calls| :: t.result.calls[i].key in t.ready)
  }

  predicate Asked(t: Turn, round: nat, nfds: int, select: Poll) {
    && select(round, t.before.registry.Keys, nfds) == Ready(t.ready, |t.ready|)
    && t.ready <= t.before.registry.Keys
    && forall k | k in t.before.registry :: k.fd < nfds
  }

  lemma TurnIsOk(t: Turn, round: nat, found: seq<Key>, left: seq<Key>, select: Poll, script: Script)
    requires t.result == Batch(t.before, t.list, t.first, script) && (exists nfds :: Asked(t, round, nfds, select))
    requires t.list == found + left && Distinct(found) && Elements(found) == t.ready
    ensures TurnOk(t, round, left, select, script)
  {
    BatchIsSound(t.before, t.list, t.first, script);
    hide Batch;
    if left == [] {
      assert t.list == found;
      assert forall k | k in found :: k in Elements(found);
    }
  }

  // ------------------------------------------------------------- leftovers

  predicate OnlyReady(t: Turn) {
    forall i | 0 <= i < |t.result.calls| :: t.result.calls[i].key in t.ready
  }

  /** A turn that can be the first of a Run begun with these keys registered and pending. */
  ghost predicate FirstTurn(t: Turn, registry: Registry, left: seq<Key>, select: Poll, script: Script) {
    HonestPoll(select) && t.before == Setting(registry, false) && t.first == 0 && TurnOk(t, 0, left, select, script)
  }

  /**
    Whatever select and the handlers do, the first turn of a Run calls only keys reported
    ready, if and only if no key was left pending or no key is registered.
  */
  lemma OnlyReadyIff(registry: Registry, left: seq<Key>)
    ensures (forall t, select, script | FirstTurn(t, registry, left, select, script) :: OnlyReady(t))
            <==> left == [] || registry == map[]
  {
    if registry == map[] {
      forall t, select, script | FirstTurn(t, registry, left, select, script) ensures OnlyReady(t) {
        NothingRegistered(t.before, t.list, t.first, script);
      }
    } else if left != [] {
      var t, select, script := UnreadyCall(registry, left);
    }
  }

  lemma {:induction false} NothingRegistered(w: Setting, todo: seq<Key>, j: nat, script: Script)
    requires w.registry == map[]
    ensures Batch(w, todo, j, script).calls == []
    decreases |todo|
  {
    if todo != [] && !w.stopped { NothingRegistered(w, todo[1..], j, script); }
  }

  /** A select that reports `bits` when asked for `registered` below a bound that covers it. */
  function Reports(registered: set<Key>, bits: set<Key>): Poll {
    (r, request, nfds) =>
      if request == registered && forall k | k in registered :: k.fd < nfds then Ready(bits, |bits|) else Ready({}, 0)
  }

  lemma ReportsHonestly(registered: set<Key>, bits: set<Key>)
    requires bits <= registered
    ensures HonestPoll(Reports(registered, bits))
  {
  }

  /** A bound above every descriptor. */
  lemma {:induction false} SomeBound(keys: set<Key>) returns (nfds: int)
    ensures forall k | k in keys :: k.fd < nfds
  {
    if keys == {} {
      nfds := 0;
    } else {
      var x :| x in keys;
      nfds := SomeBound(keys - {x});
      if nfds <= x.fd { nfds := x.fd + 1; }
      assert forall k | k in keys :: k == x || k in keys - {x};
    }
  }

  /** The turn in which select reports `found`, and the first handler does `actions`. */
  lemma TurnOf(registry: Registry, found: seq<Key>, left: seq<Key>, actions: seq<Action>)
    returns (t: Turn, select: Poll, script: Script)
    requires Distinct(found) && Elements(found) <= registry.Keys
    ensures FirstTurn(t, registry, left, select, script) && t.ready == Elements(found) && t.list == found + left
    ensures t.result == Batch(Setting(registry, false), found + left, 0, script) && script(0) == actions
  {
    var w := Setting(registry, false);
    select, script := Reports(registry.Keys, Elements(found)), j => if j == 0 then actions else [];
    ReportsHonestly(registry.Keys, Elements(found));
    t := Turn(w, 0, Elements(found), found + left, Batch(w, found + left, 0, script));
    var nfds := SomeBound(registry.Keys);
    hide HonestPoll;
    assert Asked(t, 0, nfds, select);
    hide Batch, Asked;
    TurnIsOk(t, 0, found, left, select, script);
  }

  /** With a key pending and one registered, some first turn calls a key not reported ready. */
  lemma UnreadyCall(registry: Registry, left: seq<Key>) returns (t: Turn, select: Poll, script: Script)
    requires left != [] && registry != map[]
    ensures FirstTurn(t, registry, left, select, script) && !OnlyReady(t)
  {
    var k, w := left[0], Setting(registry, false);
    if k in registry {
      t, select, script := TurnOf(registry, [], left, []);
      assert [] + left == left;
      hide FirstTurn;
      assert t.result.calls[0].key == k;
    } else {
      var k0 :| k0 in registry;
      var add := Register(k, 0);
      t, select, script := TurnOf(registry, [k0], left, [add]);
      hide FirstTurn;
      var todo := [k0] + left;
      assert todo[1..] == left && [add][1..] == [];
      var w' := w.(registry := registry[k := 0]);
      assert Act(w, [add]) == Act(w', [add][1..]) == (w', false);
      assert Batch(w', left, 1, script).calls[0].key == k;
      assert t.result.calls[1].key == k;
    }
  }

  /** A Run of one turn in which select reports `bits`. */
  lemma OneTurn(turns: seq<Turn>, registry: Registry, left: seq<Key>, bits: set<Key>, script: Script)
    requires |turns| == 1 && Linked(turns, Setting(registry, false), left, Reports(registry.Keys, bits), script)
    ensures var t := turns[0];
            && t.ready == bits && t.result == Batch(Setting(registry, false), t.list, 0, script)
            && exists found :: t.list == found + left && Distinct(found) && Elements(found) == bits
  {
    var start, select, t := Setting(registry, false), Reports(registry.Keys, bits), turns[0];
    EveryTurn(turns, start, left, select, script, 0);
    assert turns[..0] == [] && Follows([], t, start);
    var nfds :| Asked(t, 0, nfds, select);
    assert select(0, registry.Keys, nfds) == Ready(bits, |bits|);
  }

  /** The only handler called throws if it removes a key that is not registered. */
  lemma ThrowingBatch(k: Key, h: nat, absent: Key, list: seq<Key>, script: Script)
    requires absent != k && script(0) == [Remove(absent)] && Distinct(list) && Elements(list) == {k}
    ensures list == [k]
    ensures Batch(Setting(map[k := h], false), list, 0, script).threw
    ensures Batch(Setting(map[k := h], false), list, 0, script).after == Setting(map[k := h], false)
  {
    DistinctSize(list);
    assert list[0] in Elements(list);
  }

  /**
    A pending list is left by a handler that throws. One Run in which select reports k and
    its handler removes a key that is not registered; then another in which select reports
    nothing: k is called all the same.
  */
  method LeftoverIsCalledUnready(k: Key, h: nat, absent: Key) returns (first: seq<Turn>, status: Status, second: seq<Turn>)
    requires absent != k
    ensures |first| == 1 && first[0].ready == {k} && status == HandlerThrew
    ensures |second| == 1 && second[0].ready == {} && |second[0].result.calls| > 0
    ensures second[0].result.calls[0].key == k && second[0].result.calls[0].handler == h
  {
    var r := new Reactor();
    r.Add(k, h);
    assert r.registry == map[k := h] && r.registry.Keys == {k};
    hide Linked, HonestPoll, Reports, Batch;
    ReportsHonestly({k}, {k});
    first, status := r.Run(1, Reports({k}, {k}), j => [Remove(absent)]);
    RanOnce(first, status, {k}, {k}, r);
    OneTurn(first, map[k := h], [], {k}, j => [Remove(absent)]);
    ThrowingBatch(k, h, absent, first[0].list, j => [Remove(absent)]);
    ReportsHonestly({k}, {});
    var status2;
    second, status2 := r.Run(1, Reports({k}, {}), j => []);
    RanOnce(second, status2, {k}, {}, r);
    OneTurn(second, map[k := h], [k], {}, j => []);
    QuietBatch(k, h, second[0].list, j => []);
  }

  /** A Run of at most one turn makes one if select does not fail. */
  lemma RanOnce(turns: seq<Turn>, status: Status, registered: set<Key>, bits: set<Key>, r: Reactor)
    requires |turns| <= 1 && (status == Running ==> |turns| == 1)
    requires status == SelectFailed ==> exists nfds :: Reports(registered, bits)(|turns|, r.registry.Keys, nfds).Failed?
    requires status in {HandlerThrew, Stopped} ==> turns != []
    ensures |turns| == 1
  {
    assert forall i: nat, request, nfds :: Reports(registered, bits)(i, request, nfds).Ready?;
  }

  /** A list with the one registered key makes one call. */
  lemma QuietBatch(k: Key, h: nat, list: seq<Key>, script: Script)
    requires list == [k]
    ensures var calls := Batch(Setting(map[k := h], false), list, 0, script).calls;
            |calls| > 0 && calls[0].key == k && calls[0].handler == h
  {
  }
}
