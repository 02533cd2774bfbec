/**
  Requests as datagrams. The minion takes one datagram as the header of a request and, if
  the header says write, the next one as the block. What it stores depends on what the
  master sends next, and on what was in the buffer when a datagram is too short.
*/
module Datagrams {
  import opened Blocks
  import opened Mirror

  type Datagram = seq<Byte>

  // ----------------------------------------------------------- wire format

  /** An unsigned number of `n` bytes in memory, least significant first. */
  function Bytes(x: nat, n: nat): (r: seq<Byte>)
    ensures |r| == n
  {
    if n == 0 then [] else [(x % 256) as Byte] + Bytes(x / 256, n - 1)
  }

  function Value(bytes: seq<Byte>): nat {
    if bytes == [] then 0 else bytes[0] as nat + 256 * Value(bytes[1..])
  }

  function Power256(n: nat): nat { if n == 0 then 1 else 256 * Power256(n - 1) }

  lemma {:induction false} ValueOfBytes(x: nat, n: nat)
    requires x < Power256(n)
    ensures Value(Bytes(x, n)) == x
    decreases n
  {
    if n > 0 {
      ValueOfBytes(x / 256, n - 1);
      assert Bytes(x, n)[1..] == Bytes(x / 256, n - 1);
    }
  }

  /** m_id, m_type and m_offset, packed. */
  const HEADER := 17
  const READ: Byte := 1
  const WRITE: Byte := 2

  function Header(id: nat, kind: Byte, offset: nat): (r: Datagram)
    ensures |r| == HEADER
  {
    Bytes(id, 8) + [kind] + Bytes(offset, 8)
  }

  function IdIn(header: seq<Byte>): nat
    requires |header| == HEADER
  {
    Value(header[..8])
  }

  function KindIn(header: seq<Byte>): Byte
    requires |header| == HEADER
  {
    header[8]
  }

  function OffsetIn(header: seq<Byte>): nat
    requires |header| == HEADER
  {
    Value(header[9..])
  }

  /** A header is read back as it was written. */
  lemma HeaderRoundTrip(id: nat, kind: Byte, offset: nat)
    requires id < Power256(8) && offset < Power256(8)
    ensures var h := Header(id, kind, offset); IdIn(h) == id && KindIn(h) == kind && OffsetIn(h) == offset
  {
    var h := Header(id, kind, offset);
    ValueOfBytes(id, 8);
    ValueOfBytes(offset, 8);
    assert h[..8] == Bytes(id, 8) && h[9..] == Bytes(offset, 8);
  }

  // --------------------------------------------------------------- receive

  /** recvfrom into a buffer: what does not fit is dropped, what is not filled stays as it was. */
  function Receive(buffer: seq<Byte>, d: Datagram): (r: seq<Byte>)
    ensures |r| == |buffer|
    ensures forall i | 0 <= i < |r| :: r[i] == if i < |d| then d[i] else buffer[i]
  {
    if |d| >= |buffer| then d[..|buffer|] else d + buffer[|d|..]
  }

  type HeaderBytes = h: seq<Byte> | |h| == HEADER witness Header(0, READ, 0)

  /** What a request finds: the bytes of its buffer, which nothing sets, and room or none. */
  datatype Memory = Memory(header: HeaderBytes, block: Block, room: bool)

  datatype Arrival = Blocked | Arrival(request: Request, rest: seq<Datagram>)

  /** Minion::Read, on the datagrams that have arrived; it blocks while one is missing. */
  function NextRequest(inbox: seq<Datagram>, m: Memory): Arrival {
    if inbox == [] then Blocked
    else
      var h := Receive(m.header, inbox[0]);
      if KindIn(h) == WRITE then
        if |inbox| == 1 then Blocked
        else Arrival(Write(IdIn(h), OffsetIn(h), Receive(m.block, inbox[1])), inbox[2..])
      else if KindIn(h) == READ then Arrival(Read(IdIn(h), OffsetIn(h)), inbox[1..])
      else Arrival(Write(IdIn(h), OffsetIn(h), m.block), inbox[1..])
  }

  /** The store, and the datagrams left, when the minion blocks; `ms(i)` is what request i finds. */
  function Drain(blocks: map<nat, Block>, inbox: seq<Datagram>, i: nat, ms: nat -> Memory): (map<nat, Block>, seq<Datagram>)
    decreases |inbox|
  {
    match NextRequest(inbox, ms(i))
    case Blocked => (blocks, inbox)
    case Arrival(req, rest) => Drain(Absorb(blocks, req, ms(i).room), rest, i + 1, ms)
  }

  /** What the minion answers meanwhile. */
  function Replies(blocks: map<nat, Block>, inbox: seq<Datagram>, i: nat, ms: nat -> Memory): seq<Reply>
    decreases |inbox|
  {
    match NextRequest(inbox, ms(i))
    case Blocked => []
    case Arrival(req, rest) =>
      [ReplyTo(blocks, req, ms(i).room)] + Replies(Absorb(blocks, req, ms(i).room), rest, i + 1, ms)
  }

  lemma Unfold(blocks: map<nat, Block>, inbox: seq<Datagram>, i: nat, ms: nat -> Memory)
    ensures match NextRequest(inbox, ms(i))
            case Blocked => Drain(blocks, inbox, i, ms) == (blocks, inbox) && Replies(blocks, inbox, i, ms) == []
            case Arrival(req, rest) =>
              var after := Absorb(blocks, req, ms(i).room);
              && |rest| < |inbox|
              && Drain(blocks, inbox, i, ms) == Drain(after, rest, i + 1, ms)
              && Replies(blocks, inbox, i, ms) == [ReplyTo(blocks, req, ms(i).room)] + Replies(after, rest, i + 1, ms)
  {
  }

  class Endpoint {
    const minion: Minion
    var inbox: seq<Datagram>

    constructor (minion: Minion)
      ensures this.minion == minion && inbox == []
    {
      this.minion := minion;
      inbox := [];
    }

    /** The minion's loop, until it blocks. */
    method Serve(ms: nat -> Memory) returns (replies: seq<Reply>)
      modifies this`inbox, minion
      ensures (minion.blocks, inbox) == Drain(old(minion.blocks), old(inbox), 0, ms)
      ensures replies == Replies(old(minion.blocks), old(inbox), 0, ms)
    {
      hide Drain, Replies, NextRequest;
      replies := [];
      var next := NextRequest(inbox, ms(0));
      while next.Arrival?
        invariant next == NextRequest(inbox, ms(|replies|))
        invariant Drain(old(minion.blocks), old(inbox), 0, ms) == Drain(minion.blocks, inbox, |replies|, ms)
        invariant Replies(old(minion.blocks), old(inbox), 0, ms) == replies + Replies(minion.blocks, inbox, |replies|, ms)
        decreases |inbox|
      {
        Unfold(minion.blocks, inbox, |replies|, ms);
        var rep := minion.Serve(next.request, ms(|replies|).room);
        replies, inbox := replies + [rep], next.rest;
        next := NextRequest(inbox, ms(|replies|));
      }
      Unfold(minion.blocks, inbox, |replies|, ms);
    }
  }

  // ------------------------------------------- what a write request stores

  /** The datagram after a write header becomes its block, whatever that datagram is. */
  lemma HeaderTakesNext(id: nat, offset: nat, d: Datagram, rest: seq<Datagram>, m: Memory)
    requires id < Power256(8) && offset < Power256(8)
    ensures NextRequest([Header(id, WRITE, offset), d] + rest, m) == Arrival(Write(id, offset, Receive(m.block, d)), rest)
  {
    var inbox := [Header(id, WRITE, offset), d] + rest;
    HeaderRoundTrip(id, WRITE, offset);
    assert Receive(m.header, inbox[0]) == inbox[0] && inbox[1] == d && inbox[2..] == rest;
  }

  /** A read header is a request of its own, and nothing else is taken. */
  lemma ReadHeaderIsServed(id: nat, offset: nat, rest: seq<Datagram>, m: Memory)
    requires id < Power256(8) && offset < Power256(8)
    ensures NextRequest([Header(id, READ, offset)] + rest, m) == Arrival(Read(id, offset), rest)
  {
    var inbox := [Header(id, READ, offset)] + rest;
    HeaderRoundTrip(id, READ, offset);
    assert Receive(m.header, inbox[0]) == inbox[0] && inbox[1..] == rest;
  }

  /** A header of any other kind is served as a write of what the buffer held, and takes nothing. */
  lemma OtherKindWritesBuffer(id: nat, kind: Byte, offset: nat, rest: seq<Datagram>, m: Memory)
    requires id < Power256(8) && offset < Power256(8) && kind != READ && kind != WRITE
    ensures NextRequest([Header(id, kind, offset)] + rest, m) == Arrival(Write(id, offset, m.block), rest)
  {
    var inbox := [Header(id, kind, offset)] + rest;
    HeaderRoundTrip(id, kind, offset);
    assert Receive(m.header, inbox[0]) == inbox[0] && inbox[1..] == rest;
  }

  predicate Carries(d: Datagram, block: Block) { |d| >= BLOCK && d[..BLOCK] == block }

  /**
    A write header is served as the write of this block, whatever the buffers held, if and
    only if the datagram after it is that block.
  */
  lemma ServedAsWrittenIff(id: nat, offset: nat, block: Block, d: Datagram, rest: seq<Datagram>)
    requires id < Power256(8) && offset < Power256(8)
    ensures (forall m: Memory :: NextRequest([Header(id, WRITE, offset), d] + rest, m) == Arrival(Write(id, offset, block), rest))
            <==> Carries(d, block)
  {
    forall m: Memory
      ensures NextRequest([Header(id, WRITE, offset), d] + rest, m) == Arrival(Write(id, offset, Receive(m.block, d)), rest)
    {
      HeaderTakesNext(id, offset, d, rest, m);
    }
    hide NextRequest, Header;
    if Carries(d, block) {
      assert forall m: Memory :: Receive(m.block, d) == block;
    } else {
      var other := Revealing(block, d);
      var m := Memory(Header(0, READ, 0), other, true);
      assert NextRequest([Header(id, WRITE, offset), d] + rest, m) != Arrival(Write(id, offset, block), rest);
    }
  }

  /** Buffer contents that show when a datagram is not the block. */
  lemma Revealing(block: Block, d: Datagram) returns (other: Block)
    requires !Carries(d, block)
    ensures Receive(other, d) != block
  {
    other := block;
    if |d| < BLOCK {
      var flipped: Byte := if block[BLOCK - 1] == 0 then 1 else 0;
      other := block[BLOCK - 1 := flipped];
      assert Receive(other, d)[BLOCK - 1] != block[BLOCK - 1];
    }
  }

  // ------------------------------------------------------- repeated sends

  function Repeat(ds: seq<Datagram>, n: nat): seq<Datagram> {
    if n == 0 then [] else ds + Repeat(ds, n - 1)
  }

  /** The store after n writes to one offset, the i-th of Receive(ms(i).block, d). */
  function Rewritten(blocks: map<nat, Block>, offset: nat, d: Datagram, n: nat, i: nat, ms: nat -> Memory): map<nat, Block>
    decreases n
  {
    if n == 0 then blocks
    else Rewritten(Absorb(blocks, Write(0, offset, Receive(ms(i).block, d)), ms(i).room), offset, d, n - 1, i + 1, ms)
  }

  /** A write header followed by the same datagram, n times over. */
  lemma {:induction false} DrainRepeated(blocks: map<nat, Block>, id: nat, offset: nat, d: Datagram, n: nat,
                                         tail: seq<Datagram>, i: nat, ms: nat -> Memory)
    requires id < Power256(8) && offset < Power256(8)
    ensures Drain(blocks, Repeat([Header(id, WRITE, offset), d], n) + tail, i, ms) ==
            Drain(Rewritten(blocks, offset, d, n, i, ms), tail, i + n, ms)
    decreases n
  {
    hide NextRequest, Header, Receive, Power256, Absorb;
    var h := Header(id, WRITE, offset);
    var inbox := Repeat([h, d], n) + tail;
    if n == 0 {
      assert inbox == tail;
    } else {
      var rest := Repeat([h, d], n - 1) + tail;
      assert inbox == [h, d] + rest;
      HeaderTakesNext(id, offset, d, rest, ms(i));
      AbsorbIgnoresId(blocks, id, offset, Receive(ms(i).block, d), ms(i).room);
      var once := Absorb(blocks, Write(0, offset, Receive(ms(i).block, d)), ms(i).room);
      assert Drain(blocks, inbox, i, ms) == Drain(once, rest, i + 1, ms);
      DrainRepeated(once, id, offset, d, n - 1, tail, i + 1, ms);
      hide Drain, Repeat;
    }
  }

  lemma AbsorbIgnoresId(blocks: map<nat, Block>, id: nat, offset: nat, block: Block, room: bool)
    ensures Absorb(blocks, Write(id, offset, block), room) == Absorb(blocks, Write(0, offset, block), room)
  {
  }

  /** Some of the n writes found room. */
  predicate FoundRoom(n: nat, i: nat, ms: nat -> Memory) {
    exists j: nat | i <= j < i + n :: ms(j).room
  }

  /** Only the offset written changes; it is held if it was or if room was found; the last write stays. */
  lemma {:induction false} RewrittenIs(blocks: map<nat, Block>, offset: nat, d: Datagram, n: nat, i: nat, ms: nat -> Memory)
    requires n > 0
    ensures var after := Rewritten(blocks, offset, d, n, i, ms);
            && after - {offset} == blocks - {offset}
            && (offset in after <==> offset in blocks || FoundRoom(n, i, ms))
            && (offset in after ==> after[offset] == Receive(ms(i + n - 1).block, d))
    decreases n
  {
    var once := Absorb(blocks, Write(0, offset, Receive(ms(i).block, d)), ms(i).room);
    assert once - {offset} == blocks - {offset};
    FoundRoomStep(n, i, ms);
    if n > 1 {
      hide FoundRoom;
      RewrittenIs(once, offset, d, n - 1, i + 1, ms);
    } else {
      assert Rewritten(blocks, offset, d, n, i, ms) == once;
    }
  }

  lemma FoundRoomStep(n: nat, i: nat, ms: nat -> Memory)
    requires n > 0
    ensures FoundRoom(n, i, ms) <==> ms(i).room || FoundRoom(n - 1, i + 1, ms)
  {
  }

  /** Nothing more arrives after an even number of headers; an odd one waits for its block. */
  lemma {:induction false} PairUp(h: Datagram, k: nat)
    ensures Repeat([h], k) == Repeat([h, h], k / 2) + if k % 2 == 1 then [h] else []
  {
    if k >= 2 {
      PairUp(h, k - 2);
      assert Repeat([h], k) == [h] + ([h] + Repeat([h], k - 2));
      assert Repeat([h, h], k / 2) == [h, h] + Repeat([h, h], k / 2 - 1);
    } else if k == 1 {
      assert Repeat([h], 0) == [];
    }
  }

  /**
    WriteCmd as written sends the header alone, k times in all. One header alone stores
    nothing and waits to take the next datagram, whatever it is, as its block; of two or
    more, every second one becomes a block. The offset then holds the header followed by
    what the buffer held, which is the block to be written if and only if the block happens
    to be just that.
  */
  lemma HeadersAlone(blocks: map<nat, Block>, id: nat, offset: nat, block: Block, k: nat, ms: nat -> Memory)
    requires id < Power256(8) && offset < Power256(8)
    ensures var h := Header(id, WRITE, offset);
            var (after, left) := Drain(blocks, Repeat([h], k), 0, ms);
            && left == (if k % 2 == 1 then [h] else [])
            && (k < 2 ==> after == blocks)
            && after - {offset} == blocks - {offset}
            && (k >= 2 ==> (offset in after <==> offset in blocks || FoundRoom(k / 2, 0, ms)))
            && (k >= 2 && offset in after ==>
                  var buffer := ms(k / 2 - 1).block;
                  && after[offset] == h + buffer[HEADER..]
                  && (after[offset] == block <==> block[..HEADER] == h && block[HEADER..] == buffer[HEADER..]))
  {
    hide Drain, Header, Power256, Receive, NextRequest, Rewritten;
    var h, n := Header(id, WRITE, offset), k / 2;
    var odd := if k % 2 == 1 then [h] else [];
    PairUp(h, k);
    DrainRepeated(blocks, id, offset, h, n, odd, 0, ms);
    HeaderWaits(id, offset, Rewritten(blocks, offset, h, n, 0, ms), n, ms);
    hide Repeat;
    if n > 0 {
      RewrittenIs(blocks, offset, h, n, 0, ms);
      HeaderOver(ms(n - 1).block, h, block);
    } else {
      RewrittenNone(blocks, offset, h, 0, ms);
    }
  }

  /**
    After an odd number of headers the next datagram, for instance the request of a later
    read, is stored as a block and never served.
  */
  lemma OddHeaderSwallowsNext(blocks: map<nat, Block>, id: nat, offset: nat, k: nat, d: Datagram, ms: nat -> Memory)
    requires id < Power256(8) && offset < Power256(8) && k % 2 == 1
    ensures var sent := Repeat([Header(id, WRITE, offset)], k);
            var m := ms(k / 2);
            Drain(blocks, sent + [d], 0, ms) ==
            (Absorb(Drain(blocks, sent, 0, ms).0, Write(id, offset, Receive(m.block, d)), m.room), [])
  {
    var h, n := Header(id, WRITE, offset), k / 2;
    var sent := Repeat([h], k);
    var before := Rewritten(blocks, offset, h, n, 0, ms);
    PairUp(h, k);
    hide Header, Power256, Repeat, Rewritten, NextRequest, Drain, Receive;
    DrainRepeated(blocks, id, offset, h, n, [h], 0, ms);
    HeaderWaits(id, offset, before, n, ms);
    assert sent + [d] == Repeat([h, h], n) + ([h, d] + []);
    DrainRepeated(blocks, id, offset, h, n, [h, d] + [], 0, ms);
    HeaderTakesNext(id, offset, d, [], ms(n));
    Unfold(before, [h, d] + [], n, ms);
    HeaderWaits(id, offset, Absorb(before, Write(id, offset, Receive(ms(n).block, d)), ms(n).room), n + 1, ms);
  }

  lemma RewrittenNone(blocks: map<nat, Block>, offset: nat, d: Datagram, i: nat, ms: nat -> Memory)
    ensures Rewritten(blocks, offset, d, 0, i, ms) == blocks
  {
  }

  lemma HeaderWaits(id: nat, offset: nat, blocks: map<nat, Block>, i: nat, ms: nat -> Memory)
    requires id < Power256(8) && offset < Power256(8)
    ensures Drain(blocks, [Header(id, WRITE, offset)], i, ms) == (blocks, [Header(id, WRITE, offset)])
    ensures Drain(blocks, [], i, ms) == (blocks, [])
  {
    HeaderRoundTrip(id, WRITE, offset);
    assert Receive(ms(i).header, Header(id, WRITE, offset)) == Header(id, WRITE, offset);
  }

  lemma HeaderOver(buffer: Block, h: Datagram, block: Block)
    requires |h| == HEADER
    ensures Receive(buffer, h) == h + buffer[HEADER..]
    ensures Receive(buffer, h) == block <==> block[..HEADER] == h && block[HEADER..] == buffer[HEADER..]
  {
    assert block == block[..HEADER] + block[HEADER..];
  }

  /**
    Sent whole, header and block each time, a write is one write, however often it is
    repeated: this is the request the mirrored commands deliver.
  */
  lemma WholeRequests(blocks: map<nat, Block>, id: nat, offset: nat, block: Block, n: nat, ms: nat -> Memory)
    requires id < Power256(8) && offset < Power256(8) && n > 0
    ensures Drain(blocks, Repeat([Header(id, WRITE, offset), block], n), 0, ms) ==
            (Absorb(blocks, Write(id, offset, block), FoundRoom(n, 0, ms)), [])
  {
    var sent := Repeat([Header(id, WRITE, offset), block], n);
    assert sent == sent + [];
    DrainRepeated(blocks, id, offset, block, n, [], 0, ms);
    HeaderWaits(id, offset, Rewritten(blocks, offset, block, n, 0, ms), n, ms);
    RewrittenIs(blocks, offset, block, n, 0, ms);
    hide Drain, Header, FoundRoom;
    assert Receive(ms(n - 1).block, block) == block;
    SameStore(Rewritten(blocks, offset, block, n, 0, ms), blocks, offset, block, FoundRoom(n, 0, ms), id);
  }

  lemma SameStore(after: map<nat, Block>, blocks: map<nat, Block>, offset: nat, block: Block, room: bool, id: nat)
    requires after - {offset} == blocks - {offset}
    requires (offset in after <==> offset in blocks || room) && (offset in after ==> after[offset] == block)
    ensures after == Absorb(blocks, Write(id, offset, block), room)
  {
    var once := Absorb(blocks, Write(id, offset, block), room);
    forall o: nat ensures (o in after <==> o in once) && (o in after ==> after[o] == once[o]) {
      if o != offset {
        assert o in after <==> o in after - {offset};
        assert o in blocks <==> o in blocks - {offset};
        if o in after { assert (after - {offset})[o] == after[o] && (blocks - {offset})[o] == blocks[o]; }
      }
    }
  }

  /**
    End to end: a write sent whole and then a read of an offset. The minion answers twice,
    first the write, with its id and no block, refused exactly if it found no room; then the
    read, with its id: for the offset written, the block; for another, what was there.
  */
  lemma WriteThenRead(blocks: map<nat, Block>, id: nat, offset: nat, block: Block, id': nat, offset': nat, ms: nat -> Memory)
    requires id < Power256(8) && offset < Power256(8) && id' < Power256(8) && offset' < Power256(8)
    ensures var inbox := [Header(id, WRITE, offset), block, Header(id', READ, offset')];
            var replies := Replies(blocks, inbox, 0, ms);
            var taken := ms(0).room || offset in blocks;
            && Drain(blocks, inbox, 0, ms) == (if taken then blocks[offset := block] else blocks, [])
            && |replies| == 2
            && replies[0] == Reply(id, if taken then NoError else NotEnoughSpace, Zeros())
            && replies[1].id == id'
            && (offset' == offset && taken ==> replies[1].error == NoError && replies[1].block == block)
            && (offset' != offset && offset' in blocks ==> replies[1].error == NoError && replies[1].block == blocks[offset'])
            && (offset' !in blocks && (offset' != offset || !taken) ==>
                  replies[1].error == BlockNotFound && replies[1].block == Zeros())
  {
    var h, r := Header(id, WRITE, offset), Header(id', READ, offset');
    var inbox := [h, block, r];
    hide Header, NextRequest, Power256, Drain, Replies;
    assert inbox == [h, block] + [r] && [r] == [r] + [];
    HeaderTakesNext(id, offset, block, [r], ms(0));
    assert Receive(ms(0).block, block) == block;
    Unfold(blocks, inbox, 0, ms);
    var after := Absorb(blocks, Write(id, offset, block), ms(0).room);
    ReadHeaderIsServed(id', offset', [], ms(1));
    Unfold(after, [r] + [], 1, ms);
    NothingArrived(after, 2, ms);
  }

  lemma NothingArrived(blocks: map<nat, Block>, i: nat, ms: nat -> Memory)
    ensures Drain(blocks, [], i, ms) == (blocks, []) && Replies(blocks, [], i, ms) == []
  {
  }
}
