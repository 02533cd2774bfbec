/**
  The reply stream: partial transfers on the NBD socket, the lock of Master::Reply, and
  what a client can decode of the bytes that several command threads wrote.
*/
module ReplyStream {
  import opened Blocks

  // ------------------------------------------------------ partial transfers

  /** One direction of the socket: the bytes written and not yet read. */
  class Pipe {
    var data: seq<Byte>

    constructor ()
      ensures data == []
    {
      data := [];
    }

    /** How much of a request of `count` bytes one system call transfers, at most. */
    static function Clip(answer: int, count: nat): int { if answer > count then count else answer }

    /**
      write_all, where `answers(i)` is what the i-th call of write is willing to take.
      If every call takes something, all of the buffer is written, in order; otherwise the
      assertion of the original fails with a proper prefix written.
    */
    method WriteAll(buf: seq<Byte>, answers: nat -> int) returns (ok: bool)
      modifies this
      ensures ok ==> data == old(data) + buf
      ensures !ok ==> exists n | 0 <= n < |buf| :: data == old(data) + buf[..n]
      ensures (forall i: nat :: answers(i) > 0) ==> ok
    {
      var at, i := 0, 0;
      while at < |buf|
        invariant 0 <= at <= |buf| && 0 <= i
        invariant data == old(data) + buf[..at]
      {
        var n := Clip(answers(i), |buf| - at);
        if n <= 0 {
          return false;
        }
        data := data + buf[at..at + n];
        assert buf[..at + n] == buf[..at] + buf[at..at + n];
        at, i := at + n, i + 1;
      }
      assert buf[..at] == buf;
      return true;
    }

    /** read_all: exactly `count` bytes from the front, unless a call returns none. */
    method ReadAll(count: nat, answers: nat -> int) returns (ok: bool, buf: seq<Byte>)
      modifies this
      ensures ok ==> |old(data)| >= count && buf == old(data)[..count]
      ensures old(data) == buf + data
      ensures (forall i: nat :: answers(i) > 0) && |old(data)| >= count ==> ok
    {
      buf := [];
      var i := 0;
      while |buf| < count
        invariant |buf| <= count && 0 <= i
        invariant old(data) == buf + data
      {
        var n := Clip(Clip(answers(i), count - |buf|), |data|);
        if n <= 0 {
          return false, buf;
        }
        buf, data, i := buf + data[..n], data[n..], i + 1;
      }
      return true, buf;
    }

    /** Whatever the partial transfers on both sides, what is written is what is read. */
    method RoundTrip(buf: seq<Byte>, out: nat -> int, inn: nat -> int) returns (got: seq<Byte>)
      requires data == []
      requires forall i: nat :: out(i) > 0 && inn(i) > 0
      modifies this
      ensures got == buf && data == []
    {
      var ok := WriteAll(buf, out);
      ok, got := ReadAll(|buf|, inn);
    }
  }

  // ---------------------------------------------- replies of several threads

  type Tid = nat

  /** What each thread passes to Master::Reply, call by call; no call is empty. */
  type Programs = Tid -> seq<seq<Byte>>

  /** The j-th Reply of thread t. */
  datatype Turn = Turn(t: Tid, j: nat)

  datatype Holder = Free | Held(owner: Tid, written: nat)

  datatype State = State(
    lock: Holder,
    stream: seq<Byte>,
    made: map<Tid, nat>,  // Reply calls begun by each thread
    order: seq<Turn>)     // in the order in which they took the lock

  datatype Label = Acquire(t: Tid) | WriteSome(n: nat) | Release

  function Init(): State { State(Free, [], map[], []) }

  function Made(s: State, t: Tid): nat { if t in s.made then s.made[t] else 0 }

  predicate Real(ps: Programs, o: Turn) { o.j < |ps(o.t)| }

  function Chunk(ps: Programs, o: Turn): seq<Byte>
    requires Real(ps, o)
  {
    ps(o.t)[o.j]
  }

  /** The chunk being written, if the lock is held. */
  function Current(ps: Programs, s: State): seq<Byte> {
    if s.order != [] && Real(ps, s.order[|s.order| - 1]) then Chunk(ps, s.order[|s.order| - 1]) else []
  }

  predicate Enabled(ps: Programs, s: State, l: Label) {
    match l
    case Acquire(t) => s.lock.Free? && Made(s, t) < |ps(t)|
    case WriteSome(n) => s.lock.Held? && 0 < n <= |Current(ps, s)| - s.lock.written
    case Release => s.lock.Held? && s.lock.written == |Current(ps, s)|
  }

  function Apply(ps: Programs, s: State, l: Label): State
    requires Enabled(ps, s, l)
  {
    match l
    case Acquire(t) =>
      s.(lock := Held(t, 0), made := s.made[t := Made(s, t) + 1], order := s.order + [Turn(t, Made(s, t))])
    case WriteSome(n) =>
      var w := s.lock.written;
      s.(lock := Held(s.lock.owner, w + n), stream := s.stream + Current(ps, s)[w..w + n])
    case Release => s.(lock := Free)
  }

  predicate Runs(ps: Programs, s: State, ls: seq<Label>)
    decreases |ls|
  {
    ls == [] || (Enabled(ps, s, ls[0]) && Runs(ps, Apply(ps, s, ls[0]), ls[1..]))
  }

  function Exec(ps: Programs, s: State, ls: seq<Label>): State
    requires Runs(ps, s, ls)
    decreases |ls|
  {
    if ls == [] then s else Exec(ps, Apply(ps, s, ls[0]), ls[1..])
  }

  predicate AllReal(ps: Programs, order: seq<Turn>) {
    forall i | 0 <= i < |order| :: Real(ps, order[i])
  }

  function Concat(ps: Programs, order: seq<Turn>): seq<Byte>
    requires AllReal(ps, order)
  {
    if order == [] then []
    else
      var n := |order| - 1;
      Concat(ps, order[..n]) + Chunk(ps, order[n])
  }

  /** How many of the turns are of thread t. */
  function CountOf(order: seq<Turn>, t: Tid): nat {
    if order == [] then 0
    else CountOf(order[..|order| - 1], t) + if order[|order| - 1].t == t then 1 else 0
  }

  /** Each thread's chunks appear in program order, none skipped or repeated. */
  predicate InProgramOrder(order: seq<Turn>) {
    forall i | 0 <= i < |order| :: order[i].j == CountOf(order[..i], order[i].t)
  }

  ghost predicate Inv(ps: Programs, s: State) {
    && AllReal(ps, s.order) && InProgramOrder(s.order)
    && (forall t: Tid :: Made(s, t) == CountOf(s.order, t))
    && (s.lock.Free? ==> s.stream == Concat(ps, s.order))
    && (s.lock.Held? ==>
          && s.order != [] && s.lock.written <= |Current(ps, s)|
          && s.stream == Concat(ps, s.order[..|s.order| - 1]) + Current(ps, s)[..s.lock.written])
  }

  lemma KeepsInv(ps: Programs, s: State, l: Label)
    requires Inv(ps, s) && Enabled(ps, s, l)
    ensures Inv(ps, Apply(ps, s, l))
  {
    match l
    case Acquire(t) => AcquireKeeps(ps, s, t);
    case WriteSome(n) => WriteKeeps(ps, s, n);
    case Release => assert Current(ps, s)[..s.lock.written] == Current(ps, s);
  }

  lemma WriteKeeps(ps: Programs, s: State, n: nat)
    requires Inv(ps, s) && Enabled(ps, s, WriteSome(n))
    ensures Inv(ps, Apply(ps, s, WriteSome(n)))
  {
    var w, s' := s.lock.written, Apply(ps, s, WriteSome(n));
    assert Current(ps, s') == Current(ps, s);
    hide Current, Concat, CountOf;
    var before, cur := Concat(ps, s.order[..|s.order| - 1]), Current(ps, s);
    assert (before + cur[..w]) + cur[w..w + n] == before + cur[..w + n];
  }

  lemma AcquireKeeps(ps: Programs, s: State, t: Tid)
    requires Inv(ps, s) && Enabled(ps, s, Acquire(t))
    ensures Inv(ps, Apply(ps, s, Acquire(t)))
  {
    var s' := Apply(ps, s, Acquire(t));
    assert s'.order[..|s.order|] == s.order;
    forall i | 0 <= i < |s'.order| ensures s'.order[i].j == CountOf(s'.order[..i], s'.order[i].t) {
      if i < |s.order| { assert s'.order[..i] == s.order[..i]; }
    }
  }

  lemma {:induction false} RunKeepsInv(ps: Programs, s: State, ls: seq<Label>)
    requires Inv(ps, s) && Runs(ps, s, ls)
    ensures Inv(ps, Exec(ps, s, ls))
    decreases |ls|
  {
    if ls != [] {
      KeepsInv(ps, s, ls[0]);
      RunKeepsInv(ps, Apply(ps, s, ls[0]), ls[1..]);
    }
  }

  /**
    For every schedule of threads and partial writes the stream is whole chunks in lock
    order, then a prefix of the chunk being written, with each thread's chunks in the
    order of its program.
  */
  lemma StreamIsWholeChunks(ps: Programs, ls: seq<Label>)
    requires Runs(ps, Init(), ls)
    ensures var s := Exec(ps, Init(), ls);
            && AllReal(ps, s.order) && InProgramOrder(s.order)
            && (s.lock.Free? ==> s.stream == Concat(ps, s.order))
            && (s.lock.Held? ==>
                  && s.order != []
                  && exists n | 0 <= n <= |Current(ps, s)| ::
                       s.stream == Concat(ps, s.order[..|s.order| - 1]) + Current(ps, s)[..n])
  {
    RunKeepsInv(ps, Init(), ls);
  }

  /** The last step of a run. */
  lemma {:induction false} LastStep(ps: Programs, s: State, ls: seq<Label>)
    requires ls != [] && Runs(ps, s, ls)
    ensures var n := |ls| - 1;
            && Runs(ps, s, ls[..n]) && Enabled(ps, Exec(ps, s, ls[..n]), ls[n])
            && Exec(ps, s, ls) == Apply(ps, Exec(ps, s, ls[..n]), ls[n])
    decreases |ls|
  {
    hide Enabled, Apply;
    var n := |ls| - 1;
    if n == 0 {
      assert ls[..n] == [] && ls[1..] == [];
    } else {
      LastStep(ps, Apply(ps, s, ls[0]), ls[1..]);
      assert ls[1..][..n - 1] == ls[..n][1..] && ls[..n][0] == ls[0] && ls[1..][n - 1] == ls[n];
    }
  }

  /** The threads in the order in which they took the lock. */
  function Acquired(ls: seq<Label>): seq<Tid>
    decreases |ls|
  {
    if ls == [] then [] else Acquired(ls[..|ls| - 1]) + if ls[|ls| - 1].Acquire? then [ls[|ls| - 1].t] else []
  }

  /** The bytes written in all. */
  function Volume(ls: seq<Label>): nat
    decreases |ls|
  {
    if ls == [] then 0 else Volume(ls[..|ls| - 1]) + if ls[|ls| - 1].WriteSome? then ls[|ls| - 1].n else 0
  }

  function Threads(order: seq<Turn>): (r: seq<Tid>)
    ensures |r| == |order| && forall i | 0 <= i < |r| :: r[i] == order[i].t
  {
    seq(|order|, i requires 0 <= i < |order| => order[i].t)
  }

  /** Order, volume and holder are those of the labels: locks taken, bytes written, the last to take the lock. */
  lemma {:induction false} OrderFromLabels(ps: Programs, ls: seq<Label>)
    requires Runs(ps, Init(), ls)
    ensures var s := Exec(ps, Init(), ls);
            && Threads(s.order) == Acquired(ls) && |s.stream| == Volume(ls)
            && (s.lock.Held? ==> s.order != [] && s.lock.owner == s.order[|s.order| - 1].t)
    decreases |ls|
  {
    if ls != [] {
      LastStep(ps, Init(), ls);
      OrderFromLabels(ps, ls[..|ls| - 1]);
      hide Runs, Exec, Enabled, Apply;
      OrderStep(ps, Exec(ps, Init(), ls[..|ls| - 1]), ls[|ls| - 1]);
    }
  }

  lemma OrderStep(ps: Programs, s: State, l: Label)
    requires Enabled(ps, s, l)
    ensures var s' := Apply(ps, s, l);
            && Threads(s'.order) == Threads(s.order) + (if l.Acquire? then [l.t] else [])
            && |s'.stream| == |s.stream| + (if l.WriteSome? then l.n else 0)
            && (s'.lock.Held? ==> s.lock == s'.lock || l.Acquire? || l.WriteSome?)
            && (l.Acquire? ==> s'.order != [] && s'.lock == Held(l.t, 0) && s'.order[|s'.order| - 1].t == l.t)
            && (l.WriteSome? ==> s.lock.Held? && s'.lock.Held? && s'.lock.owner == s.lock.owner)
            && (!l.Acquire? ==> s'.order == s.order)
  {
  }

  // ---------------------------------------------------- which orders occur

  lemma {:induction false} RunThenStep(ps: Programs, s: State, ls: seq<Label>, l: Label)
    requires Runs(ps, s, ls) && Enabled(ps, Exec(ps, s, ls), l)
    ensures Runs(ps, s, ls + [l]) && Exec(ps, s, ls + [l]) == Apply(ps, Exec(ps, s, ls), l)
    decreases |ls|
  {
    var all := ls + [l];
    hide Enabled, Apply;
    if ls == [] {
      assert all[0] == l && all[1..] == [];
      assert Runs(ps, Apply(ps, s, l), all[1..]) && Exec(ps, Apply(ps, s, l), all[1..]) == Apply(ps, s, l);
    } else {
      RunThenStep(ps, Apply(ps, s, ls[0]), ls[1..], l);
      assert all[0] == ls[0] && all[1..] == ls[1..] + [l];
    }
  }

  /** A run that ends with the lock free, having given it out in this order. */
  predicate Serves(ps: Programs, ls: seq<Label>, order: seq<Turn>) {
    Runs(ps, Init(), ls) && Exec(ps, Init(), ls).lock.Free? && Exec(ps, Init(), ls).order == order
  }

  /** One more Reply, written by a single call of write. */
  lemma ReplyOnce(ps: Programs, ls: seq<Label>, order: seq<Turn>, o: Turn) returns (all: seq<Label>)
    requires Serves(ps, ls, order) && Real(ps, o) && Made(Exec(ps, Init(), ls), o.t) == o.j
    ensures Serves(ps, all, order + [o])
  {
    RunThenStep(ps, Init(), ls, Acquire(o.t));
    all := ls + [Acquire(o.t)];
    var s := Exec(ps, Init(), all);
    assert s.order == order + [o] && Current(ps, s) == Chunk(ps, o);
    if Chunk(ps, o) != [] {
      RunThenStep(ps, Init(), all, WriteSome(|Chunk(ps, o)|));
      all := all + [WriteSome(|Chunk(ps, o)|)];
    }
    RunThenStep(ps, Init(), all, Release);
    all := all + [Release];
  }

  lemma {:induction false} EveryOrderOccurs(ps: Programs, order: seq<Turn>) returns (ls: seq<Label>)
    requires AllReal(ps, order) && InProgramOrder(order)
    ensures Serves(ps, ls, order)
    decreases |order|
  {
    if order == [] {
      ls := [];
    } else {
      var n := |order| - 1;
      var before := order[..n];
      PrefixInOrder(ps, order);
      assert order == before + [order[n]];
      hide Serves, InProgramOrder, AllReal, CountOf;
      ls := EveryOrderOccurs(ps, before);
      MadeSoFar(ps, ls, before, order[n].t);
      ls := ReplyOnce(ps, ls, before, order[n]);
    }
  }

  lemma PrefixInOrder(ps: Programs, order: seq<Turn>)
    requires order != [] && AllReal(ps, order) && InProgramOrder(order)
    ensures var n := |order| - 1;
            && AllReal(ps, order[..n]) && InProgramOrder(order[..n])
            && Real(ps, order[n]) && order[n].j == CountOf(order[..n], order[n].t)
  {
    assert forall i | 0 <= i < |order| - 1 :: order[..|order| - 1][..i] == order[..i];
  }

  lemma MadeSoFar(ps: Programs, ls: seq<Label>, order: seq<Turn>, t: Tid)
    requires Serves(ps, ls, order)
    ensures Runs(ps, Init(), ls) && Made(Exec(ps, Init(), ls), t) == CountOf(order, t)
  {
    RunKeepsInv(ps, Init(), ls);
  }

  /**
    The lock can be given out in an order if and only if it is an order of Reply calls the
    threads make, each thread's in the order of its program.
  */
  lemma {:induction false} OrderOccursIff(ps: Programs, order: seq<Turn>)
    ensures (exists ls :: Serves(ps, ls, order)) <==> AllReal(ps, order) && InProgramOrder(order)
  {
    if ls :| Serves(ps, ls, order) {
      StreamIsWholeChunks(ps, ls);
    }
    if AllReal(ps, order) && InProgramOrder(order) {
      var ls := EveryOrderOccurs(ps, order);
    }
  }

  // --------------------------------------------------------------- adjacency

  /** Where the p-th chunk begins in the stream. */
  function Begin(ps: Programs, order: seq<Turn>, p: nat): nat
    requires AllReal(ps, order) && p <= |order|
  {
    |Concat(ps, order[..p])|
  }

  lemma BeginNext(ps: Programs, order: seq<Turn>, p: nat)
    requires AllReal(ps, order) && p < |order|
    ensures Begin(ps, order, p + 1) == Begin(ps, order, p) + |Chunk(ps, order[p])|
  {
    assert order[..p + 1][..p] == order[..p];
  }

  predicate NoneEmpty(ps: Programs, order: seq<Turn>)
    requires AllReal(ps, order)
  {
    forall i | 0 <= i < |order| :: Chunk(ps, order[i]) != []
  }

  lemma {:induction false} BeginGrows(ps: Programs, order: seq<Turn>, p: nat, q: nat)
    requires AllReal(ps, order) && NoneEmpty(ps, order) && p <= q <= |order|
    ensures Begin(ps, order, q) >= Begin(ps, order, p) + (q - p)
    decreases q - p
  {
    if p < q {
      BeginGrows(ps, order, p, q - 1);
      BeginNext(ps, order, q - 1);
    }
  }

  /**
    A chunk directly follows another in the stream if and only if no Reply took the lock
    between the two. For a ReadCmd, whose header and block are two Reply calls: the block
    directly follows its header if and only if no other thread replied in between.
  */
  lemma FollowsIffAdjacent(ps: Programs, order: seq<Turn>, p: nat, q: nat)
    requires AllReal(ps, order) && NoneEmpty(ps, order) && p < q < |order|
    ensures Begin(ps, order, q) == Begin(ps, order, p) + |Chunk(ps, order[p])| <==> q == p + 1
  {
    BeginNext(ps, order, p);
    BeginGrows(ps, order, p + 1, q);
  }

  // ------------------------------------------------------------- the client

  /** NBD_REPLY_MAGIC in network order, and an error field of zero. */
  function Prologue(): seq<Byte> { [0x67, 0x44, 0x66, 0x98, 0, 0, 0, 0] }

  /** A simple reply: the handle of the request, and the block if it was a read. */
  datatype SimpleReply = SimpleReply(handle: seq<Byte>, block: seq<Byte>)

  /** The client knows which of its outstanding handles are reads. */
  type Outstanding = seq<Byte> -> bool

  predicate WellFormed(r: SimpleReply, isRead: Outstanding) {
    |r.handle| == 8 && |r.block| == if isRead(r.handle) then BLOCK else 0
  }

  function Header(handle: seq<Byte>): seq<Byte> { Prologue() + handle }

  function Encode(rs: seq<SimpleReply>): seq<Byte> {
    if rs == [] then [] else Header(rs[0].handle) + rs[0].block + Encode(rs[1..])
  }

  datatype Parsed = Garbled | Parsed(replies: seq<SimpleReply>)

  /** The client's reading of the stream, section "Simple reply message" of the NBD protocol. */
  function Decode(s: seq<Byte>, isRead: Outstanding): Parsed
    decreases |s|
  {
    if s == [] then Parsed([])
    else if |s| < 16 || s[..8] != Prologue() then Garbled
    else
      var handle := s[8..16];
      var n := if isRead(handle) then BLOCK else 0;
      if |s| < 16 + n then Garbled
      else
        match Decode(s[16 + n..], isRead)
        case Garbled => Garbled
        case Parsed(rest) => Parsed([SimpleReply(handle, s[16..16 + n])] + rest)
  }

  /** The client takes a well-formed reply off the front of the stream. */
  lemma DecodeOne(r: SimpleReply, tail: seq<Byte>, isRead: Outstanding)
    requires WellFormed(r, isRead)
    ensures Decode(Header(r.handle) + r.block + tail, isRead) ==
            match Decode(tail, isRead)
            case Garbled => Garbled
            case Parsed(rest) => Parsed([r] + rest)
  {
    var s := Header(r.handle) + r.block + tail;
    HeaderFields(r.handle, r.block + tail);
    assert s == Header(r.handle) + (r.block + tail);
    assert s[16..16 + |r.block|] == r.block && s[16 + |r.block|..] == tail;
  }

  lemma HeaderFields(handle: seq<Byte>, rest: seq<Byte>)
    requires |handle| == 8
    ensures var s := Header(handle) + rest; |s| >= 16 && s[..8] == Prologue() && s[8..16] == handle && s[16..] == rest
  {
  }

  /** Replies sent whole, one after the other, are decoded as they were sent. */
  lemma {:induction false} DecodeEncode(rs: seq<SimpleReply>, isRead: Outstanding)
    requires forall i | 0 <= i < |rs| :: WellFormed(rs[i], isRead)
    ensures Decode(Encode(rs), isRead) == Parsed(rs)
    decreases |rs|
  {
    if rs != [] {
      DecodeOne(rs[0], Encode(rs[1..]), isRead);
      DecodeEncode(rs[1..], isRead);
      hide Decode;
      assert [rs[0]] + rs[1..] == rs;
    }
  }

  /** What the client decodes is what a sender of those replies would have sent. */
  lemma {:induction false} EncodeDecode(s: seq<Byte>, isRead: Outstanding)
    ensures Decode(s, isRead).Parsed? ==> Encode(Decode(s, isRead).replies) == s
    decreases |s|
  {
    if Decode(s, isRead).Parsed? && s != [] {
      var handle := s[8..16];
      var n := if isRead(handle) then BLOCK else 0;
      EncodeDecode(s[16 + n..], isRead);
      assert Decode(s, isRead).replies == [SimpleReply(handle, s[16..16 + n])] + Decode(s[16 + n..], isRead).replies;
      EncodeCut(s, n, Decode(s[16 + n..], isRead).replies);
    }
  }

  lemma EncodeCut(s: seq<Byte>, n: nat, rest: seq<SimpleReply>)
    requires |s| >= 16 + n && s[..8] == Prologue() && Encode(rest) == s[16 + n..]
    ensures Encode([SimpleReply(s[8..16], s[16..16 + n])] + rest) == s
  {
    var rs := [SimpleReply(s[8..16], s[16..16 + n])] + rest;
    assert rs[1..] == rest;
    assert s == (s[..8] + s[8..16]) + s[16..16 + n] + s[16 + n..];
  }

  /** The client decodes exactly these replies if and only if the stream is their encoding. */
  lemma {:induction false} DecodesIff(s: seq<Byte>, rs: seq<SimpleReply>, isRead: Outstanding)
    requires forall i | 0 <= i < |rs| :: WellFormed(rs[i], isRead)
    ensures Decode(s, isRead) == Parsed(rs) <==> s == Encode(rs)
  {
    DecodeEncode(rs, isRead);
    EncodeDecode(s, isRead);
  }

  /** The Reply calls that send these replies: a header, and for a read its block. */
  function Calls(rs: seq<SimpleReply>): seq<seq<Byte>> {
    if rs == [] then []
    else [Header(rs[0].handle)] + (if rs[0].block == [] then [] else [rs[0].block]) + Calls(rs[1..])
  }

  function Join(chunks: seq<seq<Byte>>): seq<Byte> {
    if chunks == [] then [] else chunks[0] + Join(chunks[1..])
  }

  lemma {:induction false} JoinSnoc(chunks: seq<seq<Byte>>, c: seq<Byte>)
    ensures Join(chunks + [c]) == Join(chunks) + c
  {
    if chunks == [] {
      assert [c][1..] == [] && c + [] == c;
    } else {
      JoinSnoc(chunks[1..], c);
      assert (chunks + [c])[1..] == chunks[1..] + [c];
      assert chunks[0] + (Join(chunks[1..]) + c) == (chunks[0] + Join(chunks[1..])) + c;
    }
  }

  function Chunks(ps: Programs, order: seq<Turn>): (r: seq<seq<Byte>>)
    requires AllReal(ps, order)
    ensures |r| == |order| && forall i | 0 <= i < |r| :: r[i] == Chunk(ps, order[i])
  {
    seq(|order|, i requires 0 <= i < |order| => Chunk(ps, order[i]))
  }

  lemma {:induction false} ConcatIsJoin(ps: Programs, order: seq<Turn>)
    requires AllReal(ps, order)
    ensures Concat(ps, order) == Join(Chunks(ps, order))
  {
    if order != [] {
      var n := |order| - 1;
      ConcatIsJoin(ps, order[..n]);
      assert Chunks(ps, order) == Chunks(ps, order[..n]) + [Chunk(ps, order[n])];
      JoinSnoc(Chunks(ps, order[..n]), Chunk(ps, order[n]));
    }
  }

  lemma JoinCons(c: seq<Byte>, rest: seq<seq<Byte>>)
    ensures Join([c] + rest) == c + Join(rest)
  {
    assert ([c] + rest)[1..] == rest;
  }

  lemma {:induction false} JoinCalls(rs: seq<SimpleReply>)
    ensures Join(Calls(rs)) == Encode(rs)
  {
    if rs != [] {
      JoinCalls(rs[1..]);
      var h, b, rest := Header(rs[0].handle), rs[0].block, Calls(rs[1..]);
      hide Join, Header;
      if b == [] {
        assert Calls(rs) == [h] + rest;
        JoinCons(h, rest);
      } else {
        assert Calls(rs) == [h] + ([b] + rest);
        JoinCons(h, [b] + rest);
        JoinCons(b, rest);
      }
    }
  }

  /**
    In every run in which the Reply calls took the lock in the order of whole replies, no
    other call between a header and its block, the client decodes exactly those replies.
  */
  lemma {:induction false} WholeRepliesAreDecoded(ps: Programs, ls: seq<Label>, order: seq<Turn>, rs: seq<SimpleReply>, isRead: Outstanding)
    requires Serves(ps, ls, order) && AllReal(ps, order) && Chunks(ps, order) == Calls(rs)
    requires forall i | 0 <= i < |rs| :: WellFormed(rs[i], isRead)
    ensures Decode(Exec(ps, Init(), ls).stream, isRead) == Parsed(rs)
  {
    StreamIsWholeChunks(ps, ls);
    ConcatIsJoin(ps, order);
    JoinCalls(rs);
    DecodeEncode(rs, isRead);
  }

  /** Two threads, each running ReadCmd: the header of its reply, then the block. */
  function TwoReads(a: SimpleReply, b: SimpleReply): Programs {
    t => if t == 0 then Calls([a]) else if t == 1 then Calls([b]) else []
  }

  /** Header, header, block, block. */
  function Interleaved(): seq<Turn> { [Turn(0, 0), Turn(1, 0), Turn(0, 1), Turn(1, 1)] }

  lemma ReadCalls(r: SimpleReply)
    requires |r.block| == BLOCK
    ensures Calls([r]) == [Header(r.handle), r.block]
  {
    assert [r][1..] == [];
  }

  lemma InterleavedOccurs(a: SimpleReply, b: SimpleReply) returns (ls: seq<Label>)
    requires |a.block| == |b.block| == BLOCK
    ensures Serves(TwoReads(a, b), ls, Interleaved())
    ensures Exec(TwoReads(a, b), Init(), ls).stream == Header(a.handle) + Header(b.handle) + a.block + b.block
  {
    var ps, o := TwoReads(a, b), Interleaved();
    ReadCalls(a);
    ReadCalls(b);
    InterleavedInOrder();
    hide Calls, Header;
    ls := EveryOrderOccurs(ps, o);
    StreamIsWholeChunks(ps, ls);
    ConcatIsJoin(ps, o);
    hide Runs, Exec;
    JoinFour(Chunks(ps, o), Header(a.handle), Header(b.handle), a.block, b.block);
  }

  lemma InterleavedInOrder()
    ensures InProgramOrder(Interleaved())
  {
    var o := Interleaved();
    assert o[..0] == [] && o[..1] == [o[0]] && o[..2] == [o[0], o[1]] && o[..3] == [o[0], o[1], o[2]];
    assert o[..1][..0] == [] && o[..2][..1] == o[..1] && o[..3][..2] == o[..2];
    assert CountOf(o[..1], 0) == 1 && CountOf(o[..1], 1) == 0;
    assert CountOf(o[..2], 0) == 1 && CountOf(o[..2], 1) == 1;
    assert CountOf(o[..3], 1) == 1;
  }

  lemma {:induction false} JoinFour(cs: seq<seq<Byte>>, a: seq<Byte>, b: seq<Byte>, c: seq<Byte>, d: seq<Byte>)
    requires cs == [a, b, c, d]
    ensures Join(cs) == a + b + c + d
  {
    assert [d] == [d] + [] && [c, d] == [c] + [d] && [b, c, d] == [b] + [c, d] && cs == [a] + [b, c, d];
    JoinCons(d, []);
    JoinCons(c, [d]);
    JoinCons(b, [c, d]);
    JoinCons(a, [b, c, d]);
    assert a + (b + (c + (d + []))) == a + b + c + d;
  }

  /**
    Two ReadCmds on two threads can interleave their Reply calls as header, header, block,
    block. The client then decodes the two replies if and only if the first block reads the
    same with the second header in front of it as behind it; whenever it can go on, it gives
    the first request the second header as the beginning of its data.
  */
  lemma InterleavedReadsAreMisread(a: SimpleReply, b: SimpleReply, isRead: Outstanding) returns (ls: seq<Label>)
    requires WellFormed(a, isRead) && WellFormed(b, isRead) && isRead(a.handle) && isRead(b.handle)
    ensures Serves(TwoReads(a, b), ls, Interleaved())
    ensures var got := Decode(Exec(TwoReads(a, b), Init(), ls).stream, isRead);
            && (got == Parsed([a, b]) <==> Header(b.handle) + a.block == a.block + Header(b.handle))
            && (got.Parsed? ==> |got.replies| > 0 && got.replies[0].handle == a.handle
                                && got.replies[0].block == (Header(b.handle) + a.block)[..BLOCK])
  {
    ls := InterleavedOccurs(a, b);
    var s := Exec(TwoReads(a, b), Init(), ls).stream;
    hide *;
    MisreadIff(a, b, s, isRead);
    MisreadFirst(a, b, s, isRead);
  }

  lemma {:induction false} MisreadIff(a: SimpleReply, b: SimpleReply, s: seq<Byte>, isRead: Outstanding)
    requires WellFormed(a, isRead) && WellFormed(b, isRead)
    requires s == Header(a.handle) + Header(b.handle) + a.block + b.block
    ensures Decode(s, isRead) == Parsed([a, b]) <==> Header(b.handle) + a.block == a.block + Header(b.handle)
  {
    hide Decode, Encode, Header;
    DecodesIff(s, [a, b], isRead);
    EncodeTwo(a, b);
    SwapIff(Header(a.handle), Header(b.handle), a.block, b.block);
  }

  lemma {:induction false} MisreadFirst(a: SimpleReply, b: SimpleReply, s: seq<Byte>, isRead: Outstanding)
    requires WellFormed(a, isRead) && WellFormed(b, isRead) && isRead(a.handle) && isRead(b.handle)
    requires s == Header(a.handle) + Header(b.handle) + a.block + b.block
    ensures var got := Decode(s, isRead);
            got.Parsed? ==> |got.replies| > 0 && got.replies[0].handle == a.handle
                            && got.replies[0].block == (Header(b.handle) + a.block)[..BLOCK]
  {
    var rest := Header(b.handle) + a.block + b.block;
    HeaderFields(a.handle, rest);
    assert s == Header(a.handle) + rest;
    hide Header;
    FirstReply(s, isRead);
    assert s[16..16 + BLOCK] == rest[..BLOCK] == (Header(b.handle) + a.block)[..BLOCK];
  }

  /** The first reply decoded has the bytes that follow the first header. */
  lemma FirstReply(s: seq<Byte>, isRead: Outstanding)
    requires |s| >= 16 && isRead(s[8..16])
    ensures var got := Decode(s, isRead);
            got.Parsed? ==> |s| >= 16 + BLOCK && |got.replies| > 0
                            && got.replies[0] == SimpleReply(s[8..16], s[16..16 + BLOCK])
  {
  }

  lemma EncodeTwo(a: SimpleReply, b: SimpleReply)
    ensures Encode([a, b]) == Header(a.handle) + a.block + (Header(b.handle) + b.block)
  {
    assert [a, b][1..] == [b] && [b][1..] == [];
    assert Encode([b]) == Header(b.handle) + b.block + Encode([]);
  }

  lemma SwapIff(p: seq<Byte>, h: seq<Byte>, x: seq<Byte>, q: seq<Byte>)
    ensures p + h + x + q == p + x + (h + q) <==> h + x == x + h
  {
    var l, r := p + h + x + q, p + x + (h + q);
    assert l == p + (h + x) + q && r == p + (x + h) + q;
    if l == r {
      assert l[|p|..|p| + |h| + |x|] == h + x && r[|p|..|p| + |h| + |x|] == x + h;
    }
  }
}
