/** The queue object itself: its critical sections as methods that change its fields. */
module WaitableQueueMonitor {
  import opened WaitableQueue

  class Monitor<T> {
    const container: Container<T>
    var queue: seq<T>
    var consumers: map<Tid, Consumer>
    ghost var pushed: seq<T>
    ghost var popped: seq<T>
    ghost var abandoned: nat

    constructor (container: Container<T>)
      ensures this.container == container && Now() == Init()
    {
      this.container := container;
      queue, consumers := [], map[];
      pushed, popped, abandoned := [], [], 0;
    }

    ghost function Now(): State<T>
      reads this
    {
      State(queue, consumers, pushed, popped, abandoned)
    }

    /** Every element has a taker on its way if anyone waits, and none is lost or made up. */
    ghost predicate Valid()
      reads this
    {
      Attended(Now()) && Accounted(container, Now())
    }

    /** This call did what label `l` does. */
    twostate predicate Did(l: Label<T>)
      reads this
    {
      Enabled(container, old(Now()), l) && Now() == Apply(container, old(Now()), l)
    }

    /** Push: append, and wake one waiter if there is any. */
    method Push(x: T)
      requires Valid()
      modifies this
      ensures Valid()
      ensures exists c :: Did(Label.Push(x, c))
    {
      ghost var before := Now();
      var woken: Tid := 0;
      queue, pushed := queue + [x], pushed + [x];
      if c :| c in consumers && IsWaiting(consumers[c]) {
        woken := c;
        consumers := consumers[c := Woken(consumers[c].timed)];
        assert SomeWaiting(before);
      } else {
        assert !SomeWaiting(before);
      }
      Keep(before, Label.Push(x, woken));
      assert Did(Label.Push(x, woken));
    }

    /** The first critical section of Pop: take the front, or join the wait set. */
    method Enter(c: Tid, timed: bool) returns (got: seq<T>)
      requires Valid() && StatusOf(Now(), c).Outside?
      modifies this
      ensures Valid()
      ensures got == [] <==> old(queue) == []
      ensures got == [] ==> Did(Block(c, timed))
      ensures got != [] ==> exists i: nat :: Did(Take(c, i)) && got == [old(queue)[i]]
    {
      ghost var before := Now();
      got := [];
      if queue == [] {
        consumers := consumers[c := Waiting(timed)];
        Keep(before, Block(c, timed));
      } else {
        var i := FindFront();
        got := TakeAt(i);
        assert Now() == Apply(container, before, Take(c, i));
        Keep(before, Take(c, i));
        assert Did(Take(c, i));
      }
    }

    /** Back from the wait with the mutex: test again, take or wait again. */
    method Resume(c: Tid) returns (got: seq<T>)
      requires Valid() && StatusOf(Now(), c).Woken?
      modifies this
      ensures Valid()
      ensures got == [] <==> old(queue) == []
      ensures got == [] ==> Did(Reblock(c))
      ensures got != [] ==> exists i: nat :: Did(Retake(c, i)) && got == [old(queue)[i]]
    {
      ghost var before := Now();
      got := [];
      if queue == [] {
        consumers := consumers[c := Waiting(consumers[c].timed)];
        Keep(before, Reblock(c));
      } else {
        var i := FindFront();
        got := TakeAt(i);
        consumers := consumers[c := Outside];
        assert Now() == Apply(container, before, Retake(c, i));
        Keep(before, Retake(c, i));
        assert Did(Retake(c, i));
      }
    }

    method TakeAt(i: nat) returns (got: seq<T>)
      requires i < |queue|
      modifies this`queue, this`popped
      ensures got == [old(queue)[i]] && Now() == Remove(old(Now()), i)
    {
      got := [queue[i]];
      popped := popped + got;
      queue := Without(queue, i);
    }

    /** front(): the oldest element, or the first of maximal rank. */
    method FindFront() returns (i: nat)
      requires queue != []
      ensures Front(container, queue, i)
    {
      i := 0;
      if container.ByRank? {
        var j := 1;
        while j < |queue|
          invariant i < j <= |queue|
          invariant forall k | 0 <= k < j :: container.rank(queue[k]) <= container.rank(queue[i])
        {
          if container.rank(queue[j]) > container.rank(queue[i]) { i := j; }
          j := j + 1;
        }
      }
    }

    lemma Keep(before: State<T>, l: Label<T>)
      requires Attended(before) && Accounted(container, before) && Enabled(container, before, l)
      requires Now() == Apply(container, before, l)
      ensures Valid()
    {
      AttendedStep(container, before, l);
      AccountedStep(container, before, l);
    }
  }
}
