/**
  What handlers do to the reactor, told from their actions alone: which keys are registered
  after a sequence of actions, and which keys of a list a batch therefore calls.
*/
module ReactorTrace {
  import opened Reactor

  // --------------------------------------------------------------- actions

  /** The last action on a key: none, a registration of a handler, or a removal. */
  datatype Mark = Untouched | Present(handler: nat) | Absent

  function LastMark(actions: seq<Action>, k: Key): Mark
    decreases |actions|
  {
    if actions == [] then Untouched
    else
      var n := |actions| - 1;
      match actions[n]
      case Register(key, h) => if key == k then Present(h) else LastMark(actions[..n], k)
      case Remove(key) => if key == k then Absent else LastMark(actions[..n], k)
      case Stop => LastMark(actions[..n], k)
  }

  /** The key is registered after these actions. */
  predicate InAfter(registry: Registry, actions: seq<Action>, k: Key) {
    match LastMark(actions, k)
    case Untouched => k in registry
    case Present(_) => true
    case Absent => false
  }

  /** The handler it then has. */
  function HandlerAfter(registry: Registry, actions: seq<Action>, k: Key): nat
    requires InAfter(registry, actions, k)
  {
    match LastMark(actions, k)
    case Untouched => registry[k]
    case Present(h) => h
  }

  /** What is registered is what the last action on each key says. */
  ghost predicate Matches(registry': Registry, registry: Registry, actions: seq<Action>) {
    forall k ::
      && (k in registry' <==> InAfter(registry, actions, k))
      && (k in registry' ==> registry'[k] == HandlerAfter(registry, actions, k))
  }

  /** The i-th action removes a key that is not registered then. */
  predicate Fails(registry: Registry, actions: seq<Action>, i: nat)
    requires i < |actions|
  {
    actions[i].Remove? && !InAfter(registry, actions[..i], actions[i].key)
  }

  /** The state after the first n actions, all of which succeed. */
  ghost predicate Performed(w': Setting, w: Setting, actions: seq<Action>, n: nat)
    requires n <= |actions|
  {
    && Matches(w'.registry, w.registry, actions[..n])
    && (w'.stopped <==> w.stopped || Stop in actions[..n])
    && forall i: nat | i < n :: !Fails(w.registry, actions, i)
  }

  lemma {:induction false} ActConcat(w: Setting, a: seq<Action>, b: seq<Action>)
    ensures Act(w, a + b) == if Act(w, a).1 then Act(w, a) else Act(Act(w, a).0, b)
    decreases |a|
  {
    if a == [] {
      assert a + b == b;
    } else {
      assert (a + b)[0] == a[0] && (a + b)[1..] == a[1..] + b;
      match a[0]
      case Register(k, h) => ActConcat(w.(registry := w.registry[k := h]), a[1..], b);
      case Remove(k) => if k in w.registry { ActConcat(w.(registry := w.registry - {k}), a[1..], b); }
      case Stop => ActConcat(w.(stopped := true), a[1..], b);
    }
  }

  lemma ActOne(w: Setting, x: Action)
    ensures Act(w, [x]) == match x
                           case Register(k, h) => (w.(registry := w.registry[k := h]), false)
                           case Remove(k) => if k in w.registry then (w.(registry := w.registry - {k}), false) else (w, true)
                           case Stop => (w.(stopped := true), false)
  {
    assert [x][1..] == [];
  }

  /**
    Actions are performed in order up to the first removal of a key not registered then,
    which throws; after them a key is registered if and only if the last action on it was a
    registration, or there was none and it was registered before, with the handler of that
    last registration; the reactor is stopped if and only if it was or Stop is among them.
  */
  lemma {:induction false} ActExact(w: Setting, actions: seq<Action>) returns (n: nat)
    ensures n <= |actions| && Performed(Act(w, actions).0, w, actions, n)
    ensures Act(w, actions).1 <==> n < |actions|
    ensures Act(w, actions).1 ==> Fails(w.registry, actions, n)
    decreases |actions|
  {
    if actions == [] {
      n := 0;
    } else {
      var m := |actions| - 1;
      var first, x := actions[..m], actions[m];
      assert actions == first + [x];
      n := ActExact(w, first);
      ActConcat(w, first, [x]);
      assert forall i: nat | i < m :: first[..i] == actions[..i] && first[i] == actions[i];
      assert forall i: nat | i < m :: Fails(w.registry, first, i) == Fails(w.registry, actions, i);
      assert first[..n] == actions[..n];
      var mid := Act(w, first).0;
      if !Act(w, first).1 {
        assert actions[..m] == first;
        ActOne(mid, x);
        hide Act;
        if x.Remove? && x.key !in mid.registry {
          n := m;
        } else {
          n := m + 1;
          assert actions[..n] == actions;
          OneMore(w, mid, first, x, actions);
        }
      }
    }
  }

  lemma OneMore(w: Setting, mid: Setting, first: seq<Action>, x: Action, actions: seq<Action>)
    requires actions == first + [x] && Performed(mid, w, first, |first|)
    requires x.Remove? ==> x.key in mid.registry
    requires forall i: nat | i < |first| :: !Fails(w.registry, actions, i)
    ensures var w' := match x
                      case Register(k, h) => mid.(registry := mid.registry[k := h])
                      case Remove(k) => mid.(registry := mid.registry - {k})
                      case Stop => mid.(stopped := true);
            Performed(w', w, actions, |actions|)
  {
    var m := |first|;
    assert first[..m] == first && actions[..m] == first && actions[..m + 1] == actions && actions[m] == x;
    assert forall k :: k in mid.registry <==> InAfter(w.registry, first, k);
  }

  // ---------------------------------------------------------------- batches

  /** The actions of the handlers called, one after the other. */
  function Flat(calls: seq<Call>): seq<Action>
    decreases |calls|
  {
    if calls == [] then [] else Flat(calls[..|calls| - 1]) + calls[|calls| - 1].actions
  }

  /** The state after the first c calls. */
  function StateAfter(w: Setting, calls: seq<Call>, c: nat): Setting
    requires c <= |calls|
  {
    if c == 0 then w else Act(calls[c - 1].before, calls[c - 1].actions).0
  }

  /** How many of the positions come before p. */
  function Before(at: seq<nat>, p: nat): (r: nat)
    ensures r <= |at|
  {
    if at == [] then 0 else (if at[0] < p then 1 else 0) + Before(at[1..], p)
  }

  predicate Increasing(at: seq<nat>) {
    forall i, j | 0 <= i < j < |at| :: at[i] < at[j]
  }

  predicate ThrewLast(calls: seq<Call>) {
    calls != [] && Act(calls[|calls| - 1].before, calls[|calls| - 1].actions).1
  }

  /** How far in the list the batch gets: to its end, or to the call that stops or throws. */
  function Reach(r: Outcomes, at: seq<nat>, n: nat): nat {
    if !r.after.stopped && !r.threw then n else if at == [] then 0 else at[|at| - 1] + 1
  }

  /** The calls are of the keys at these positions, and do what the script says. */
  predicate Placed(at: seq<nat>, calls: seq<Call>, todo: seq<Key>, j: nat, script: Script) {
    && |at| == |calls| && Increasing(at)
    && forall i | 0 <= i < |at| ::
         at[i] < |todo| && calls[i].key == todo[at[i]] && calls[i].actions == script(j + i)
  }

  predicate CalledIff(w: Setting, todo: seq<Key>, r: Outcomes, at: seq<nat>)
    requires |at| == |r.calls|
  {
    forall p: nat | p < Reach(r, at, |todo|) && p < |todo| ::
      p in at <==> todo[p] in StateAfter(w, r.calls, Before(at, p)).registry
  }

  function Shift(at: seq<nat>): (r: seq<nat>)
    ensures |r| == |at| && forall i | 0 <= i < |r| :: r[i] == at[i] + 1
  {
    seq(|at|, i requires 0 <= i < |at| => at[i] + 1)
  }

  lemma {:induction false} BeforeShift(at: seq<nat>, p: nat)
    ensures Before(Shift(at), p + 1) == Before(at, p) && Before(Shift(at), 0) == 0
  {
    if at != [] {
      BeforeShift(at[1..], p);
      assert Shift(at)[1..] == Shift(at[1..]);
    }
  }

  lemma InShift(at: seq<nat>, p: nat)
    ensures p + 1 in Shift(at) <==> p in at
    ensures 0 !in Shift(at)
  {
    if p in at {
      var i :| 0 <= i < |at| && at[i] == p;
      assert Shift(at)[i] == p + 1;
    }
  }

  /** The calls stand at these positions, exactly those whose key is registered then. */
  predicate Positioned(w: Setting, todo: seq<Key>, r: Outcomes, at: seq<nat>, j: nat, script: Script) {
    && Placed(at, r.calls, todo, j, script) && CalledIff(w, todo, r, at)
    && (r.threw <==> ThrewLast(r.calls)) && r.after == StateAfter(w, r.calls, |r.calls|)
  }

  lemma {:induction false} BatchPositions(w: Setting, todo: seq<Key>, j: nat, script: Script) returns (at: seq<nat>)
    ensures Positioned(w, todo, Batch(w, todo, j, script), at, j, script)
    decreases |todo|
  {
    hide Positioned;
    if todo == [] || w.stopped {
      at := [];
      NoCalls(w, todo, j, script);
    } else if todo[0] !in w.registry {
      var rest := BatchPositions(w, todo[1..], j, script);
      at := Shift(rest);
      Skipped(w, todo, Batch(w, todo[1..], j, script), rest, j, script);
    } else {
      var call := Call(todo[0], w.registry[todo[0]], w, script(j));
      var (w', threw) := Act(w, script(j));
      if threw {
        at := [0];
        ThrowsFirst(w, todo, call, j, script);
      } else {
        var rest := BatchPositions(w', todo[1..], j + 1, script);
        at := [0] + Shift(rest);
        CalledFirst(w, w', todo, call, Batch(w', todo[1..], j + 1, script), rest, j, script);
      }
    }
  }

  lemma NoCalls(w: Setting, todo: seq<Key>, j: nat, script: Script)
    requires todo == [] || w.stopped
    ensures Positioned(w, todo, Outcomes([], w, false), [], j, script)
  {
  }

  lemma ThrowsFirst(w: Setting, todo: seq<Key>, call: Call, j: nat, script: Script)
    requires todo != [] && todo[0] in w.registry && Act(w, script(j)).1
    requires call == Call(todo[0], w.registry[todo[0]], w, script(j))
    ensures Positioned(w, todo, Outcomes([call], Act(w, script(j)).0, true), [0], j, script)
  {
    hide Act;
    assert Before([0], 0) == 0;
  }

  lemma Skipped(w: Setting, todo: seq<Key>, r: Outcomes, rest: seq<nat>, j: nat, script: Script)
    requires todo != [] && todo[0] !in w.registry
    requires Positioned(w, todo[1..], r, rest, j, script)
    ensures Positioned(w, todo, r, Shift(rest), j, script)
  {
    hide ThrewLast, StateAfter, Placed, CalledIff;
    PlacedSize(rest, r.calls, todo[1..], j, script);
    SkippedPlaced(todo, r.calls, rest, j, script);
    SkippedAll(w, todo, r, rest);
  }

  lemma SkippedPlaced(todo: seq<Key>, calls: seq<Call>, rest: seq<nat>, j: nat, script: Script)
    requires todo != [] && Placed(rest, calls, todo[1..], j, script)
    ensures Placed(Shift(rest), calls, todo, j, script)
  {
    forall i | 0 <= i < |rest| ensures Shift(rest)[i] < |todo| && calls[i].key == todo[Shift(rest)[i]] {
      assert todo[1..][rest[i]] == todo[rest[i] + 1];
    }
  }

  lemma SkippedAll(w: Setting, todo: seq<Key>, r: Outcomes, rest: seq<nat>)
    requires todo != [] && todo[0] !in w.registry && |rest| == |r.calls| && CalledIff(w, todo[1..], r, rest)
    ensures CalledIff(w, todo, r, Shift(rest))
  {
    hide StateAfter, Reach, Before;
    forall p: nat | p < Reach(r, Shift(rest), |todo|) && p < |todo|
      ensures p in Shift(rest) <==> todo[p] in StateAfter(w, r.calls, Before(Shift(rest), p)).registry
    {
      SkippedIff(w, todo, r, rest, p);
    }
  }

  lemma SkippedIff(w: Setting, todo: seq<Key>, r: Outcomes, rest: seq<nat>, p: nat)
    requires todo != [] && todo[0] !in w.registry && |rest| == |r.calls| && p < |todo|
    requires CalledIff(w, todo[1..], r, rest) && p < Reach(r, Shift(rest), |todo|)
    ensures p in Shift(rest) <==> todo[p] in StateAfter(w, r.calls, Before(Shift(rest), p)).registry
  {
    if p == 0 {
      BeforeShift(rest, 0);
      InShift(rest, 0);
    } else {
      BeforeShift(rest, p - 1);
      InShift(rest, p - 1);
      hide StateAfter, Before;
      assert todo[1..][p - 1] == todo[p];
      assert p - 1 < Reach(r, rest, |todo| - 1);
    }
  }

  lemma StateAfterCons(w: Setting, w': Setting, call: Call, calls: seq<Call>, c: nat)
    requires c <= |calls| && call.before == w && Act(w, call.actions).0 == w'
    ensures StateAfter(w, [call] + calls, c + 1) == StateAfter(w', calls, c)
  {
    var all := [call] + calls;
    assert all[c] == if c == 0 then call else calls[c - 1];
  }

  lemma CalledFirst(w: Setting, w': Setting, todo: seq<Key>, call: Call, r: Outcomes, rest: seq<nat>, j: nat, script: Script)
    requires todo != [] && todo[0] in w.registry
    requires call == Call(todo[0], w.registry[todo[0]], w, script(j)) && Act(w, script(j)) == (w', false)
    requires Positioned(w', todo[1..], r, rest, j + 1, script)
    ensures Positioned(w, todo, Outcomes([call] + r.calls, r.after, r.threw), [0] + Shift(rest), j, script)
  {
    hide Act, StateAfter, ThrewLast, Placed, CalledIff, Shift;
    PlacedSize(rest, r.calls, todo[1..], j + 1, script);
    CalledFirstPlaced(todo, call, r.calls, rest, j, script);
    StateAfterCons(w, w', call, r.calls, |r.calls|);
    ThrewCons(w', call, r.calls);
    CalledFirstAll(w, w', todo, call, r, rest);
  }

  lemma CalledFirstAll(w: Setting, w': Setting, todo: seq<Key>, call: Call, r: Outcomes, rest: seq<nat>)
    requires todo != [] && todo[0] in w.registry && |rest| == |r.calls|
    requires call.before == w && Act(w, call.actions) == (w', false) && CalledIff(w', todo[1..], r, rest)
    ensures CalledIff(w, todo, Outcomes([call] + r.calls, r.after, r.threw), [0] + Shift(rest))
  {
    hide Act, StateAfter, Reach, Before;
    var all, at := Outcomes([call] + r.calls, r.after, r.threw), [0] + Shift(rest);
    forall p: nat | p < Reach(all, at, |todo|) && p < |todo|
      ensures p in at <==> todo[p] in StateAfter(w, all.calls, Before(at, p)).registry
    {
      CalledFirstIff(w, w', todo, call, r, rest, p);
    }
  }

  lemma PlacedSize(at: seq<nat>, calls: seq<Call>, todo: seq<Key>, j: nat, script: Script)
    requires Placed(at, calls, todo, j, script)
    ensures |at| == |calls|
  {
  }

  lemma ThrewCons(w': Setting, call: Call, calls: seq<Call>)
    requires !Act(call.before, call.actions).1
    ensures ThrewLast([call] + calls) <==> ThrewLast(calls)
  {
    var all := [call] + calls;
    assert all[|all| - 1] == if calls == [] then call else calls[|calls| - 1];
    hide Act;
  }

  lemma CalledFirstPlaced(todo: seq<Key>, call: Call, calls: seq<Call>, rest: seq<nat>, j: nat, script: Script)
    requires todo != [] && call.key == todo[0] && call.actions == script(j)
    requires Placed(rest, calls, todo[1..], j + 1, script)
    ensures Placed([0] + Shift(rest), [call] + calls, todo, j, script)
  {
    var at, all := [0] + Shift(rest), [call] + calls;
    forall i | 0 <= i < |at| ensures at[i] < |todo| && all[i].key == todo[at[i]] && all[i].actions == script(j + i) {
      if i > 0 {
        assert all[i] == calls[i - 1] && at[i] == rest[i - 1] + 1 && j + 1 + (i - 1) == j + i;
      }
    }
  }

  lemma CalledFirstIff(w: Setting, w': Setting, todo: seq<Key>, call: Call, r: Outcomes, rest: seq<nat>, p: nat)
    requires todo != [] && todo[0] in w.registry && p < |todo| && |rest| == |r.calls|
    requires call.before == w && Act(w, call.actions) == (w', false)
    requires CalledIff(w', todo[1..], r, rest)
    requires p < Reach(Outcomes([call] + r.calls, r.after, r.threw), [0] + Shift(rest), |todo|)
    ensures var at := [0] + Shift(rest);
            p in at <==> todo[p] in StateAfter(w, [call] + r.calls, Before(at, p)).registry
  {
    hide Act;
    var at := [0] + Shift(rest);
    assert at[1..] == Shift(rest);
    if p == 0 {
      BeforeShift(rest, 0);
      assert at[0] == 0;
    } else {
      BeforeShift(rest, p - 1);
      InShift(rest, p - 1);
      assert p in at <==> p in Shift(rest);
      assert Before(at, p) == 1 + Before(rest, p - 1);
      assert todo[1..][p - 1] == todo[p];
      StateAfterCons(w, w', call, r.calls, Before(rest, p - 1));
      assert p - 1 < Reach(r, rest, |todo| - 1);
    }
  }

  lemma {:induction false} ChainedAt(calls: seq<Call>, i: nat)
    requires Chained(calls) && i + 1 < |calls|
    ensures Act(calls[i].before, calls[i].actions) == (calls[i + 1].before, false)
    decreases |calls|
  {
    if i > 0 { ChainedAt(calls[1..], i - 1); }
  }

  /** The state after c calls is that of their actions, one after the other. */
  lemma {:induction false} FlatState(w: Setting, calls: seq<Call>, c: nat)
    requires Chained(calls) && (calls != [] ==> calls[0].before == w) && c <= |calls|
    requires c == |calls| ==> !ThrewLast(calls)
    ensures Act(w, Flat(calls[..c])) == (StateAfter(w, calls, c), false)
    decreases c
  {
    if c == 0 {
      assert calls[..0] == [];
    } else {
      FlatState(w, calls, c - 1);
      assert calls[..c][..c - 1] == calls[..c - 1] && calls[..c][c - 1] == calls[c - 1];
      ActConcat(w, Flat(calls[..c - 1]), calls[c - 1].actions);
      if c >= 2 { ChainedAt(calls, c - 2); }
      if c < |calls| { ChainedAt(calls, c - 1); }
      hide Act;
      assert StateAfter(w, calls, c - 1) == calls[c - 1].before;
    }
  }

  /** The same, read off the actions. */
  lemma FlatMatches(w: Setting, calls: seq<Call>, c: nat)
    requires Chained(calls) && (calls != [] ==> calls[0].before == w) && c <= |calls|
    requires c == |calls| ==> !ThrewLast(calls)
    ensures var w', done := StateAfter(w, calls, c), Flat(calls[..c]);
            Matches(w'.registry, w.registry, done) && (w'.stopped <==> w.stopped || Stop in done)
  {
    hide StateAfter, Flat, ThrewLast, Matches, Act, Fails;
    FlatState(w, calls, c);
    var done := Flat(calls[..c]);
    var n := ActExact(w, done);
    assert done[..n] == done;
  }

  /** Key `todo[p]` is registered by what the handlers called before position p did. */
  predicate RegisteredAt(w: Setting, todo: seq<Key>, calls: seq<Call>, at: seq<nat>, p: nat)
    requires p < |todo| && |at| == |calls|
  {
    InAfter(w.registry, Flat(calls[..Before(at, p)]), todo[p])
  }

  /**
    The calls of a batch, exactly: as far as it gets, a position of the list is called if and
    only if the last action on its key by the handlers called before was a registration, or
    there was none and it was registered at the start. So a key removed before its turn is
    not called, and one registered before its turn is, with the handler registered last.
  */
  lemma BatchExact(w: Setting, todo: seq<Key>, j: nat, script: Script) returns (at: seq<nat>)
    ensures var r := Batch(w, todo, j, script);
            && Placed(at, r.calls, todo, j, script)
            && (forall p: nat | p < Reach(r, at, |todo|) && p < |todo| ::
                  p in at <==> RegisteredAt(w, todo, r.calls, at, p))
            && (forall i: nat | i < |at| ::
                  && InAfter(w.registry, Flat(r.calls[..i]), r.calls[i].key)
                  && r.calls[i].handler == HandlerAfter(w.registry, Flat(r.calls[..i]), r.calls[i].key))
            && (!r.threw ==> Matches(r.after.registry, w.registry, Flat(r.calls))
                             && (r.after.stopped <==> w.stopped || Stop in Flat(r.calls)))
  {
    at := BatchPositions(w, todo, j, script);
    BatchIsSound(w, todo, j, script);
    var r := Batch(w, todo, j, script);
    hide Batch, Act, Flat, Chained;
    forall p: nat | p < Reach(r, at, |todo|) && p < |todo| ensures p in at <==> RegisteredAt(w, todo, r.calls, at, p) {
      ReachBefore(r, at, |todo|, p);
      FlatMatches(w, r.calls, Before(at, p));
    }
    forall i: nat | i < |at|
      ensures InAfter(w.registry, Flat(r.calls[..i]), r.calls[i].key)
      ensures r.calls[i].handler == HandlerAfter(w.registry, Flat(r.calls[..i]), r.calls[i].key)
    {
      CallFinds(w, r.calls, i);
    }
    if !r.threw {
      FlatMatches(w, r.calls, |r.calls|);
      assert r.calls[..|r.calls|] == r.calls;
    }
  }

  /** A batch that throws has called less than all its calls before any position it reaches. */
  lemma ReachBefore(r: Outcomes, at: seq<nat>, n: nat, p: nat)
    requires Increasing(at) && |at| == |r.calls| && p < Reach(r, at, n)
    ensures Before(at, p) == |r.calls| ==> !r.threw
  {
    if r.threw { BeforeLast(at, p); }
  }

  lemma {:induction false} BeforeLast(at: seq<nat>, p: nat)
    requires at != [] && Increasing(at) && p <= at[|at| - 1]
    ensures Before(at, p) < |at|
  {
    if |at| > 1 {
      assert at[1..][|at| - 2] == at[|at| - 1];
      BeforeLast(at[1..], p);
    } else {
      assert at[1..] == [];
    }
  }

  lemma CallFinds(w: Setting, calls: seq<Call>, i: nat)
    requires i < |calls| && Chained(calls) && calls[0].before == w && WellCalled(calls[i])
    ensures InAfter(w.registry, Flat(calls[..i]), calls[i].key)
    ensures calls[i].handler == HandlerAfter(w.registry, Flat(calls[..i]), calls[i].key)
  {
    hide Act, Flat, Chained, InAfter, HandlerAfter, LastMark;
    FlatMatches(w, calls, i);
    if i > 0 { ChainedAt(calls, i - 1); }
    hide ThrewLast;
    assert StateAfter(w, calls, i) == calls[i].before;
    assert Matches(calls[i].before.registry, w.registry, Flat(calls[..i]));
  }
}
