/**
  Mirrored blocks: each write goes to two minions, each read to the first of them that
  answers. Over every run with at most one minion failing for good, a read answers the
  latest write or zeros, never anything older; and it answers the latest write, so that the
  array behaves as one map from offsets to blocks, unless the replica had no room for it.
*/
module Mirror {
  import opened Blocks
  import opened Placement

  datatype Error = NoError | NotEnoughSpace | BlockNotFound

  datatype Request = Read(id: nat, offset: nat) | Write(id: nat, offset: nat, block: Block)

  datatype Reply = Reply(id: nat, error: Error, block: Block)

  // ---------------------------------------------------------------- minion

  class Minion {
    var blocks: map<nat, Block>

    constructor ()
      ensures blocks == map[]
    {
      blocks := map[];
    }

    /** The stored block, or zeros and an error code. */
    method ProcessReadReq(req: Request) returns (rep: Reply)
      requires req.Read?
      ensures rep == ReplyTo(blocks, req, true) && rep.id == req.id
      ensures req.offset in blocks ==> rep.error == NoError && rep.block == blocks[req.offset]
      ensures req.offset !in blocks ==> rep.error == BlockNotFound && rep.block == Zeros()
    {
      if req.offset in blocks {
        rep := Reply(req.id, NoError, blocks[req.offset]);
      } else {
        rep := Reply(req.id, BlockNotFound, Zeros());
      }
    }

    /** Overwrites a stored block in place; a new one needs room. */
    method ProcessWriteReq(req: Request, room: bool) returns (rep: Reply)
      requires req.Write?
      modifies this
      ensures rep == ReplyTo(old(blocks), req, room) && rep.id == req.id
      ensures blocks == Absorb(old(blocks), req, room)
      ensures room || req.offset in old(blocks) ==>
                rep.error == NoError && blocks == old(blocks)[req.offset := req.block]
      ensures !room && req.offset !in old(blocks) ==> rep.error == NotEnoughSpace && blocks == old(blocks)
    {
      if req.offset in blocks {
        blocks := blocks[req.offset := req.block];
      } else {
        if !room {
          rep := Reply(req.id, NotEnoughSpace, Zeros());
          return;
        }
        blocks := blocks[req.offset := req.block];
      }
      rep := Reply(req.id, NoError, Zeros());
    }

    method Serve(req: Request, room: bool) returns (rep: Reply)
      modifies this
      ensures blocks == Absorb(old(blocks), req, room) && rep == ReplyTo(old(blocks), req, room)
    {
      if req.Read? {
        rep := ProcessReadReq(req);
      } else {
        rep := ProcessWriteReq(req, room);
      }
    }
  }

  function Stored(blocks: map<nat, Block>, offset: nat): Block {
    if offset in blocks then blocks[offset] else Zeros()
  }

  function ReplyTo(blocks: map<nat, Block>, req: Request, room: bool): Reply {
    if req.Read? then Reply(req.id, if req.offset in blocks then NoError else BlockNotFound, Stored(blocks, req.offset))
    else Reply(req.id, if room || req.offset in blocks then NoError else NotEnoughSpace, Zeros())
  }

  /** What one delivery of a request makes of a store. */
  function Absorb(blocks: map<nat, Block>, req: Request, room: bool): map<nat, Block> {
    if req.Write? && (room || req.offset in blocks) then blocks[req.offset := req.block] else blocks
  }

  /** Delivering a request again changes nothing, except that it may find room the first did not. */
  lemma AbsorbAgain(blocks: map<nat, Block>, req: Request, room: bool, again: bool)
    ensures Absorb(Absorb(blocks, req, room), req, again) == Absorb(blocks, req, room || again)
  {
  }

  // --------------------------------------------------------------- history

  /** One send of a request whose answer did not come: it was lost, or arrived and found room or not. */
  datatype Delivery = Lost | Arrived(room: bool)

  /**
    How one call of CommunicateMinion goes: the sends that timed out, then one more that is
    answered, unless the minion fails for good during the call (and then whether that send
    reached it). Each delivery of a write tries anew to find room for a block not yet held.
  */
  datatype Exchange = Exchange(timedOut: seq<Delivery>, dies: bool, reached: bool, room: bool)

  /** Some delivery of the exchange found room. */
  predicate Roomy(x: Exchange) { x.room || Arrived(true) in x.timedOut }

  datatype Command = Get(offset: nat) | Put(offset: nat, block: Block)

  /** A command, and how its exchanges with the first and the second replica go. */
  datatype Event = Event(cmd: Command, x1: Exchange, x2: Exchange)

  predicate Puts(e: Event, offset: nat) { e.cmd.Put? && e.cmd.offset == offset }

  /** The reference: the block of the latest write to the offset, or zeros. */
  function Latest(history: seq<Event>, offset: nat): Block
    decreases |history|
  {
    if history == [] then Zeros()
    else
      var last := history[|history| - 1];
      if Puts(last, offset) then last.cmd.block else Latest(history[..|history| - 1], offset)
  }

  /** In a write, minion r was asked to store the block and found room if it needed any. */
  predicate RoomAt(e: Event, r: int, n: nat) {
    var c := ChooseMinions(e.cmd.offset, n);
    c.Choice? && ((r == c.first && Roomy(e.x1)) || (r == c.second && Roomy(e.x2)))
  }

  /** Minion r found room in some write to the offset. */
  predicate Took(history: seq<Event>, r: int, offset: nat, n: nat) {
    exists i | 0 <= i < |history| :: Puts(history[i], offset) && RoomAt(history[i], r, n)
  }

  /** The failed minion after an exchange with minion r: a first failure happens in it or never. */
  function NextFailed(failed: int, r: int, x: Exchange): int {
    if failed == -1 && x.dies then r else failed
  }

  /** A write asks both replicas; a read asks the second only if the first has failed. */
  function FailedBy(failed: int, e: Event, n: nat): int {
    var c := ChooseMinions(e.cmd.offset, n);
    if !c.Choice? then failed
    else if e.cmd.Put? then NextFailed(NextFailed(failed, c.first, e.x1), c.second, e.x2)
    else NextFailed(failed, c.first, e.x1)
  }

  /** The minion that has failed for good in the course of the history, or -1. */
  function FailedAfter(history: seq<Event>, n: nat): int
    decreases |history|
  {
    if history == [] then -1
    else FailedBy(FailedAfter(history[..|history| - 1], n), history[|history| - 1], n)
  }

  /** The minion that dies in an event, if none had failed before, or -1. */
  function DiesIn(e: Event, n: nat): int {
    var c := ChooseMinions(e.cmd.offset, n);
    if c.Undefined? then -1
    else if e.x1.dies then c.first
    else if e.cmd.Put? && e.x2.dies then c.second
    else -1
  }

  /** The minion that died in the first event in which one did, or -1. */
  function FirstDeath(history: seq<Event>, n: nat): int
    decreases |history|
  {
    if history == [] then -1
    else if DiesIn(history[0], n) != -1 then DiesIn(history[0], n)
    else FirstDeath(history[1..], n)
  }

  lemma {:induction false} FirstDeathSnoc(history: seq<Event>, e: Event, n: nat)
    ensures FirstDeath(history + [e], n) == if FirstDeath(history, n) != -1 then FirstDeath(history, n) else DiesIn(e, n)
    decreases |history|
  {
    var all := history + [e];
    hide DiesIn;
    if history == [] {
      assert all[0] == e && all[1..] == [];
    } else {
      assert all[0] == history[0] && all[1..] == history[1..] + [e];
      FirstDeathSnoc(history[1..], e, n);
    }
  }

  lemma FailedByIs(failed: int, e: Event, n: nat)
    requires 1 <= n < TWO_31
    ensures FailedBy(failed, e, n) == if failed != -1 then failed else DiesIn(e, n)
  {
    ChoiceIsModular(e.cmd.offset, n);
    hide ChooseMinions;
  }

  /** The failed minion is the one that died first; nothing brings it back, and no other fails. */
  lemma {:induction false} FailedIsFirstDeath(history: seq<Event>, n: nat)
    requires 1 <= n < TWO_31
    ensures FailedAfter(history, n) == FirstDeath(history, n)
    decreases |history|
  {
    if history != [] {
      var m := |history| - 1;
      FailedIsFirstDeath(history[..m], n);
      FailedByIs(FailedAfter(history[..m], n), history[m], n);
      FirstDeathSnoc(history[..m], history[m], n);
      assert history[..m] + [history[m]] == history;
    }
  }

  lemma LatestSnoc(history: seq<Event>, e: Event, offset: nat)
    ensures Latest(history + [e], offset) == if Puts(e, offset) then e.cmd.block else Latest(history, offset)
  {
    assert (history + [e])[..|history|] == history;
  }

  lemma TookSnoc(history: seq<Event>, e: Event, r: int, offset: nat, n: nat)
    ensures Took(history + [e], r, offset, n) <==> Took(history, r, offset, n) || (Puts(e, offset) && RoomAt(e, r, n))
  {
    var h := history + [e];
    hide RoomAt, Puts;
    if Took(history, r, offset, n) {
      var i :| 0 <= i < |history| && Puts(history[i], offset) && RoomAt(history[i], r, n);
      assert h[i] == history[i];
    }
    assert h[|history|] == e;
  }

  lemma FailedSnoc(history: seq<Event>, e: Event, n: nat)
    ensures FailedAfter(history + [e], n) == FailedBy(FailedAfter(history, n), e, n)
  {
    assert (history + [e])[..|history|] == history;
  }

  // ----------------------------------------------- replicas and the history

  ghost predicate Replica(r: int, offset: nat, n: nat) {
    var c := ChooseMinions(offset, n);
    c.Choice? && (r == c.first || r == c.second)
  }

  /** A store holds the offset if it ever found room for it, and then the latest write. */
  predicate Agrees(blocks: map<nat, Block>, history: seq<Event>, r: int, offset: nat, n: nat) {
    && (offset in blocks <==> Took(history, r, offset, n))
    && (offset in blocks ==> blocks[offset] == Latest(history, offset))
  }

  /** Every replica that has not failed agrees with the history. */
  ghost predicate Consistent(stores: seq<map<nat, Block>>, failed: int, history: seq<Event>) {
    && 1 <= |stores| < TWO_31
    && -1 <= failed < |stores|
    && forall r, offset: nat | 0 <= r < |stores| && r != failed && Replica(r, offset, |stores|) ::
         Agrees(stores[r], history, r, offset, |stores|)
  }

  /** At most the one minion that had not failed before fails; failures are for good. */
  predicate FailsOnce(failed: int, failed': int) { failed == -1 || failed' == failed }

  /** No live store changed. */
  ghost predicate Kept(stores: seq<map<nat, Block>>, stores': seq<map<nat, Block>>, failed: int) {
    |stores'| == |stores| && forall r | 0 <= r < |stores| && r != failed :: stores'[r] == stores[r]
  }

  /** The stores after a request reached minion r, unless it failed. */
  ghost predicate Touched(stores: seq<map<nat, Block>>, stores': seq<map<nat, Block>>, r: int, failed': int,
                          req: Request, room: bool)
  {
    && |stores'| == |stores|
    && forall i | 0 <= i < |stores| && i != failed' ::
         stores'[i] == if i == r then Absorb(stores[i], req, room) else stores[i]
  }

  /** The stores after a request reached the two replicas, unless they failed. */
  ghost predicate Delivered(stores: seq<map<nat, Block>>, stores': seq<map<nat, Block>>, failed': int,
                            req: Request, c: Choice, room1: bool, room2: bool)
  {
    && c.Choice? && |stores'| == |stores|
    && forall r | 0 <= r < |stores| && r != failed' ::
         stores'[r] == if r == c.first || r == c.second
                       then Absorb(stores[r], req, (r == c.first && room1) || (r == c.second && room2))
                       else stores[r]
  }

  lemma TouchedTwice(s0: seq<map<nat, Block>>, s1: seq<map<nat, Block>>, s2: seq<map<nat, Block>>,
                     f1: int, f2: int, req: Request, c: Choice, room1: bool, room2: bool)
    requires c.Choice? && FailsOnce(f1, f2) && -1 <= f1 < |s0|
    requires Touched(s0, s1, c.first, f1, req, room1) && Touched(s1, s2, c.second, f2, req, room2)
    ensures Delivered(s0, s2, f2, req, c, room1, room2)
  {
    forall r | 0 <= r < |s0| && r != f2
      ensures s2[r] == if r == c.first || r == c.second
                       then Absorb(s0[r], req, (r == c.first && room1) || (r == c.second && room2))
                       else s0[r]
    {
      AbsorbAgain(s0[r], req, room1, room2);
    }
  }

  /** A read adds nothing to what the stores must hold. */
  lemma {:induction false} GetKeeps(stores: seq<map<nat, Block>>, stores': seq<map<nat, Block>>, failed: int, failed': int,
                 history: seq<Event>, e: Event)
    requires Consistent(stores, failed, history) && FailsOnce(failed, failed') && -1 <= failed' < |stores|
    requires e.cmd.Get? && Kept(stores, stores', failed')
    ensures Consistent(stores', failed', history + [e])
  {
    forall r, o: nat | 0 <= r < |stores'| && r != failed' && Replica(r, o, |stores'|)
      ensures Agrees(stores'[r], history + [e], r, o, |stores'|)
    {
      LatestSnoc(history, e, o);
      TookSnoc(history, e, r, o, |stores|);
      assert Agrees(stores[r], history, r, o, |stores|);
      hide Latest, Took;
    }
  }

  /** A write keeps the live replicas in agreement with the history, room or no room. */
  lemma {:induction false} PutKeeps(stores: seq<map<nat, Block>>, stores': seq<map<nat, Block>>, failed: int, failed': int,
                 history: seq<Event>, e: Event, id: nat)
    requires Consistent(stores, failed, history) && FailsOnce(failed, failed') && -1 <= failed' < |stores| && e.cmd.Put?
    requires Delivered(stores, stores', failed', Write(id, e.cmd.offset, e.cmd.block),
                       ChooseMinions(e.cmd.offset, |stores|), Roomy(e.x1), Roomy(e.x2))
    ensures Consistent(stores', failed', history + [e])
  {
    forall r, o: nat | 0 <= r < |stores'| && r != failed' && Replica(r, o, |stores'|)
      ensures Agrees(stores'[r], history + [e], r, o, |stores'|)
    {
      LatestSnoc(history, e, o);
      TookSnoc(history, e, r, o, |stores|);
      assert Agrees(stores[r], history, r, o, |stores|);
      hide Latest, Took, Consistent, ChooseMinions, Roomy;
    }
  }

  // -------------------------------------------------------------- answers

  /** The replica whose answer a read returns, given which minion has failed by then. */
  function Answerer(c: Choice, failed: int): int
    requires c.Choice?
  {
    if c.first != failed then c.first else c.second
  }

  /**
    What a read of the offset may answer when `failed` is the minion that has failed by
    then: the latest write or zeros, and the latest write if and only if the replica that
    answers ever found room for the offset (or the latest write is zeros). No answer only
    if there is a single minion and it has failed.
  */
  ghost predicate Answers(answer: seq<Block>, history: seq<Event>, offset: nat, failed: int, n: nat) {
    var c := ChooseMinions(offset, n);
    && c.Choice?
    && var r, latest := Answerer(c, failed), Latest(history, offset);
       if n == 1 && failed == 0 then answer == []
       else
         && answer in {[latest], [Zeros()]}
         && (answer == [latest] <==> Took(history, r, offset, n) || latest == Zeros())
  }

  /** A live replica's answer. */
  lemma {:induction false} StoreAnswers(stores: seq<map<nat, Block>>, failed: int, history: seq<Event>, offset: nat)
    requires Consistent(stores, failed, history)
    ensures ChooseMinions(offset, |stores|).Choice?
    ensures var r := Answerer(ChooseMinions(offset, |stores|), failed);
            && 0 <= r < |stores| && (r == failed <==> |stores| == 1 && failed == 0)
            && Answers(if r == failed then [] else [Stored(stores[r], offset)], history, offset, failed, |stores|)
  {
    ChoiceIsModular(offset, |stores|);
    var r := Answerer(ChooseMinions(offset, |stores|), failed);
    assert Replica(r, offset, |stores|);
    assert r != failed ==> Agrees(stores[r], history, r, offset, |stores|);
    hide ChooseMinions, Latest, Took, Consistent;
  }

  /** Every write so far found room on each of its replicas. */
  predicate AllRoomy(history: seq<Event>) {
    forall i | 0 <= i < |history| && history[i].cmd.Put? :: Roomy(history[i].x1) && Roomy(history[i].x2)
  }

  lemma {:induction false} UnwrittenIsZeros(history: seq<Event>, offset: nat)
    requires forall i | 0 <= i < |history| :: !Puts(history[i], offset)
    ensures Latest(history, offset) == Zeros()
  {
    if history != [] { UnwrittenIsZeros(history[..|history| - 1], offset); }
  }

  /** With room everywhere, two or more minions are one map, whichever of them fails. */
  lemma {:induction false} RoomyIsOneMap(answer: seq<Block>, history: seq<Event>, offset: nat, failed: int, n: nat)
    requires 2 <= n < TWO_31 && AllRoomy(history) && Answers(answer, history, offset, failed, n)
    ensures answer == [Latest(history, offset)]
  {
    var r := Answerer(ChooseMinions(offset, n), failed);
    hide ChooseMinions, Latest;
    if !Took(history, r, offset, n) {
      forall i | 0 <= i < |history| ensures !Puts(history[i], offset) {
        assert Puts(history[i], offset) ==> RoomAt(history[i], r, n);
      }
      UnwrittenIsZeros(history, offset);
    }
  }

  // --------------------------------------------------------------- cluster

  class Cluster {
    const minions: seq<Minion>
    /** The minion that failed for good, or -1. */
    var failed: int
    ghost var history: seq<Event>

    ghost predicate Shape() {
      && 1 <= |minions| < TWO_31
      && forall i, j | 0 <= i < j < |minions| :: minions[i] != minions[j]
    }

    ghost function Stores(): (r: seq<map<nat, Block>>)
      reads minions
      ensures |r| == |minions| && forall i | 0 <= i < |r| :: r[i] == minions[i].blocks
    {
      seq(|minions|, i requires 0 <= i < |minions| reads minions => minions[i].blocks)
    }

    ghost predicate Valid()
      reads this, minions
    {
      Shape() && Consistent(Stores(), failed, history) && failed == FailedAfter(history, |minions|)
    }

    constructor (minions: seq<Minion>)
      requires 1 <= |minions| < TWO_31
      requires forall i, j | 0 <= i < j < |minions| :: minions[i] != minions[j]
      requires forall i | 0 <= i < |minions| :: minions[i].blocks == map[]
      ensures Valid() && failed == -1 && history == [] && this.minions == minions
    {
      this.minions := minions;
      failed := -1;
      history := [];
    }

    /**
      Sends until an answer comes or the minion fails for good. A minion that has failed
      does not answer; the first to fail does so now if the exchange says so.
    */
    method Communicate(r: int, req: Request, x: Exchange) returns (ok: bool, rep: Reply)
      requires Shape() && 0 <= r < |minions| && -1 <= failed < |minions|
      modifies this`failed, minions[r]
      ensures failed == NextFailed(old(failed), r, x)
      ensures ok <==> r != failed
      ensures Touched(old(Stores()), Stores(), r, failed, req, Roomy(x))
      ensures ok && req.Read? ==> rep.block == Stored(old(Stores()[r]), req.offset)
    {
      ok, rep := false, Reply(req.id, NoError, Zeros());
      if r == failed { return; }
      ghost var before := minions[r].blocks;
      for i := 0 to |x.timedOut|
        invariant failed == old(failed)
        invariant var found := Arrived(true) in x.timedOut[..i];
                  minions[r].blocks == Absorb(before, req, found) || (minions[r].blocks == before && !found)
      {
        assert x.timedOut[..i + 1] == x.timedOut[..i] + [x.timedOut[i]];
        if x.timedOut[i].Arrived? {
          var late := minions[r].Serve(req, x.timedOut[i].room);
          AbsorbAgain(before, req, Arrived(true) in x.timedOut[..i], x.timedOut[i].room);
        }
      }
      assert x.timedOut[..|x.timedOut|] == x.timedOut;
      if failed == -1 && x.dies {
        if x.reached { var unheard := minions[r].Serve(req, x.room); }
        failed := r;
        return;
      }
      rep := minions[r].Serve(req, x.room);
      AbsorbAgain(before, req, Arrived(true) in x.timedOut, x.room);
      ok := true;
    }

    /** One request to the first replica, then to the second. */
    method SendTwice(c: Choice, req: Request, x1: Exchange, x2: Exchange)
      requires Shape() && -1 <= failed < |minions| && ValidPair(c, |minions|)
      modifies this`failed, minions
      ensures -1 <= failed < |minions| && FailsOnce(old(failed), failed)
      ensures failed == NextFailed(NextFailed(old(failed), c.first, x1), c.second, x2)
      ensures Delivered(old(Stores()), Stores(), failed, req, c, Roomy(x1), Roomy(x2))
    {
      ghost var s0 := Stores();
      var ok1, rep1 := Communicate(c.first, req, x1);
      ghost var s1, f1 := Stores(), failed;
      hide Touched, Delivered;
      var ok2, rep2 := Communicate(c.second, req, x2);
      TouchedTwice(s0, s1, Stores(), f1, failed, req, c, Roomy(x1), Roomy(x2));
    }

    /**
      WriteCmd::Run. The request takes effect on both replicas unless they failed; one that
      needs room and finds none is not told to the caller, who gets the same reply.
    */
    method WriteCmd(id: nat, offset: nat, block: Block, x1: Exchange, x2: Exchange)
      requires Valid()
      modifies this, minions
      ensures Valid() && history == old(history) + [Event(Put(offset, block), x1, x2)]
      ensures Delivered(old(Stores()), Stores(), failed, Write(id, offset, block),
                        ChooseMinions(offset, |minions|), Roomy(x1), Roomy(x2))
    {
      ChoiceIsModular(offset, |minions|);
      ghost var e, before := Event(Put(offset, block), x1, x2), Stores();
      assert -1 <= failed < |minions|;
      FailedSnoc(history, e, |minions|);
      hide Consistent, Delivered, ChooseMinions, FailedAfter, NextFailed;
      SendTwice(ChooseMinions(offset, |minions|), Write(id, offset, block), x1, x2);
      PutKeeps(before, Stores(), old(failed), failed, history, e, id);
      history := history + [e];
    }

    /** A read request to the first replica, and to the second only if the first has failed. */
    method Ask(c: Choice, req: Request, x1: Exchange, x2: Exchange) returns (ok: bool, rep: Reply)
      requires Shape() && -1 <= failed < |minions| && ValidPair(c, |minions|) && req.Read?
      modifies this`failed, minions
      ensures failed == NextFailed(old(failed), c.first, x1) && Kept(old(Stores()), Stores(), failed)
      ensures ok <==> Answerer(c, failed) != failed
      ensures ok ==> rep.block == Stored(old(Stores())[Answerer(c, failed)], req.offset)
    {
      hide Stored;
      ghost var s0 := Stores();
      ok, rep := Communicate(c.first, req, x1);
      ReadKeeps(s0, Stores(), c.first, failed, req, Roomy(x1));
      if !ok {
        ghost var s1 := Stores();
        ok, rep := Communicate(c.second, req, x2);
        ReadKeeps(s1, Stores(), c.second, failed, req, Roomy(x2));
        hide Touched, Roomy;
      }
    }

    /**
      ReadCmd::Run: the answer of the first replica, or else of the second. No live store
      changes.
    */
    method ReadCmd(id: nat, offset: nat, x1: Exchange, x2: Exchange) returns (answer: seq<Block>)
      requires Valid()
      modifies this, minions
      ensures Valid() && history == old(history) + [Event(Get(offset), x1, x2)]
      ensures Kept(old(Stores()), Stores(), failed)
      ensures Answers(answer, old(history), offset, failed, |minions|)
    {
      ChoiceIsModular(offset, |minions|);
      ghost var e, s0 := Event(Get(offset), x1, x2), Stores();
      assert -1 <= failed < |minions|;
      FailedSnoc(history, e, |minions|);
      hide Consistent, ChooseMinions, FailedAfter, Stored, Answers, Kept;
      var ok, rep := Ask(ChooseMinions(offset, |minions|), Read(id, offset), x1, x2);
      answer := if ok then [rep.block] else [];
      ReadAgrees(s0, old(failed), failed, history, offset);
      GetKeeps(s0, Stores(), old(failed), failed, history, e);
      history := history + [e];
    }

    /**
      Any run of commands on a fresh array, each with any exchange of messages, any lack of
      room and at most one minion failing for good. Every read answers as `Answers` says of
      the commands before it; with two or more minions and room everywhere that is the
      block of the latest write, or zeros.
    */
    method Session(script: seq<Event>) returns (answers: seq<seq<Block>>)
      requires Valid() && history == []
      modifies this, minions
      ensures Valid() && history == script && |answers| == |script|
      ensures forall i | 0 <= i < |script| && script[i].cmd.Get? ::
                Answers(answers[i], script[..i], script[i].cmd.offset, FailedAfter(script[..i + 1], |minions|), |minions|)
    {
      answers := [];
      for i := 0 to |script|
        invariant Valid() && history == script[..i] && |answers| == i
        invariant forall j | 0 <= j < i && script[j].cmd.Get? ::
                    Answers(answers[j], script[..j], script[j].cmd.offset, FailedAfter(script[..j + 1], |minions|), |minions|)
      {
        hide Answers, FailedAfter, Consistent;
        var e := script[i];
        assert script[..i + 1] == script[..i] + [e];
        if e.cmd.Get? {
          var answer := ReadCmd(i, e.cmd.offset, e.x1, e.x2);
          answers := answers + [answer];
        } else {
          WriteCmd(i, e.cmd.offset, e.cmd.block, e.x1, e.x2);
          answers := answers + [[]];
        }
      }
      assert script[..|script|] == script;
    }
  }

  lemma ReadKeeps(stores: seq<map<nat, Block>>, stores': seq<map<nat, Block>>, r: int, failed': int, req: Request, room: bool)
    requires req.Read? && Touched(stores, stores', r, failed', req, room)
    ensures Kept(stores, stores', failed')
  {
  }

  /** The stores a read finds answer for the history even if a minion fails during the read. */
  lemma ReadAgrees(stores: seq<map<nat, Block>>, failed: int, failed': int, history: seq<Event>, offset: nat)
    requires Consistent(stores, failed, history) && FailsOnce(failed, failed') && -1 <= failed' < |stores|
    ensures ChooseMinions(offset, |stores|).Choice?
    ensures var r := Answerer(ChooseMinions(offset, |stores|), failed');
            && 0 <= r < |stores| && (r == failed' <==> |stores| == 1 && failed' == 0)
            && Answers(if r == failed' then [] else [Stored(stores[r], offset)], history, offset, failed', |stores|)
  {
    assert Consistent(stores, failed', history);
    StoreAnswers(stores, failed', history, offset);
  }

  /**
    Room matters: a write that finds none on the first replica is lost to the next read,
    although nothing failed and the second replica holds the block.
  */
  method RefusedWriteReadsZeros(offset: nat, block: Block) returns (answers: seq<seq<Block>>)
    ensures |answers| == 2 && answers[1] == [Zeros()]
  {
    var m0 := new Minion();
    var m1 := new Minion();
    var cluster := new Cluster([m0, m1]);
    var full, fits := Exchange([], false, false, false), Exchange([], false, false, true);
    var script := [Event(Put(offset, block), full, fits), Event(Get(offset), fits, fits)];
    answers := cluster.Session(script);
    RefusedFirst(script, offset, block, full, fits);
  }

  lemma RefusedFirst(script: seq<Event>, offset: nat, block: Block, full: Exchange, fits: Exchange)
    requires !Roomy(full) && !full.dies && !fits.dies
    requires script == [Event(Put(offset, block), full, fits), Event(Get(offset), fits, fits)]
    ensures var c := ChooseMinions(offset, 2);
            && FailedAfter(script[..2], 2) == -1
            && c.Choice? && !Took(script[..1], Answerer(c, -1), offset, 2)
  {
    ChoiceIsModular(offset, 2);
    assert script[..2][..1] == script[..1] && script[..1][..0] == [];
    assert FailedAfter(script[..1], 2) == -1;
    hide ChooseMinions;
  }
}
