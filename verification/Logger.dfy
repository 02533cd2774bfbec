/**
  The logger: callers push messages, one thread pops and writes them, and the destructor
  stops that thread with a flag and a sentinel message.
*/
module Logger {

  const SENTINEL := "stop"

  /** A queued string; `last` marks the one the destructor pushed. */
  datatype Item = Item(text: string, last: bool)

  datatype Pc = Test | Write | Pop | Done

  datatype Dtor = Living | Flagged | Pushed | Joined

  datatype State = State(
    queue: seq<Item>,
    stop: bool,
    level: int,
    pc: Pc,
    holder: string,
    file: seq<string>,
    dtor: Dtor,
    // history
    popped: seq<Item>,
    accepted: seq<string>,
    late: nat)  // pops after the flag was set

  datatype Label =
    | Log(level: int, text: string) | SetLevel(level: int)
    | ThreadTest | ThreadWrite | ThreadPop
    | SetFlag | PushSentinel | Join

  function Init(): State { State([], false, 4, Test, "", [], Living, [], [], 0) }

  predicate Enabled(s: State, l: Label) {
    match l
    case Log(_, _) => s.dtor != Joined
    case SetLevel(_) => s.dtor != Joined
    case ThreadTest => s.pc.Test?
    case ThreadWrite => s.pc.Write?
    case ThreadPop => s.pc.Pop? && s.queue != []
    case SetFlag => s.dtor.Living?
    case PushSentinel => s.dtor.Flagged?
    case Join => s.dtor.Pushed? && s.pc.Done?
  }

  function Apply(s: State, l: Label): State
    requires Enabled(s, l)
  {
    match l
    case Log(level, text) =>
      if s.level >= level then s.(queue := s.queue + [Item(text, false)], accepted := s.accepted + [text]) else s
    case SetLevel(level) => s.(level := level)
    case ThreadTest => s.(pc := if s.stop then Done else Write)
    case ThreadWrite => s.(pc := Pop, file := s.file + [s.holder])
    case ThreadPop =>
      s.(pc := Test, holder := s.queue[0].text, popped := s.popped + [s.queue[0]],
         queue := s.queue[1..], late := s.late + if s.stop then 1 else 0)
    case SetFlag => s.(stop := true, dtor := Flagged)
    case PushSentinel => s.(queue := s.queue + [Item(SENTINEL, true)], dtor := Pushed)
    case Join => s.(dtor := Joined)
  }

  predicate Runs(s: State, ls: seq<Label>)
    decreases |ls|
  {
    ls == [] || (Enabled(s, ls[0]) && Runs(Apply(s, ls[0]), ls[1..]))
  }

  function Exec(s: State, ls: seq<Label>): State
    requires Runs(s, ls)
    decreases |ls|
  {
    if ls == [] then s else Exec(Apply(s, ls[0]), ls[1..])
  }

  // ------------------------------------------------------------- invariant

  /** The texts of the items that callers logged. */
  function Messages(items: seq<Item>): seq<string> {
    if items == [] then []
    else (if items[0].last then [] else [items[0].text]) + Messages(items[1..])
  }

  lemma {:induction false} MessagesConcat(a: seq<Item>, b: seq<Item>)
    ensures Messages(a + b) == Messages(a) + Messages(b)
  {
    if a == [] {
      assert a + b == b;
    } else {
      var head := if a[0].last then [] else [a[0].text];
      MessagesConcat(a[1..], b);
      assert (a + b)[0] == a[0] && (a + b)[1..] == a[1..] + b;
      assert head + (Messages(a[1..]) + Messages(b)) == (head + Messages(a[1..])) + Messages(b);
    }
  }

  predicate NoSentinel(items: seq<Item>) {
    forall i | 0 <= i < |items| :: !items[i].last
  }

  function Texts(items: seq<Item>): (r: seq<string>)
    ensures |r| == |items| && forall i | 0 <= i < |r| :: r[i] == items[i].text
  {
    seq(|items|, i requires 0 <= i < |items| => items[i].text)
  }

  lemma {:induction false} MessagesOfClean(items: seq<Item>)
    requires NoSentinel(items)
    ensures Messages(items) == Texts(items)
  {
    if items != [] {
      MessagesOfClean(items[1..]);
      assert Texts(items) == [items[0].text] + Texts(items[1..]);
    }
  }

  /** Lines written so far: the blank one and the popped texts, the last possibly not yet. */
  predicate Written(s: State) {
    var lines := [""] + Texts(s.popped);
    && |s.file| == |s.popped| + (if s.pc.Pop? then 1 else 0)
    && s.file == lines[..|s.file|]
    && s.holder == lines[|s.popped|]
  }

  /** Only the last item popped can be the sentinel, and then the thread is on its way out. */
  predicate SentinelLast(s: State) {
    && NoSentinel(s.popped[..if s.popped == [] then 0 else |s.popped| - 1])
    && (s.pc.Write? || s.pc.Pop? || !s.stop ==> NoSentinel(s.popped))
    && (s.dtor in {Living, Flagged} ==> NoSentinel(s.popped + s.queue))
    && (s.dtor in {Pushed, Joined} ==> exists i :: 0 <= i < |s.popped + s.queue| && (s.popped + s.queue)[i].last)
  }

  predicate Inv(s: State) {
    && s.accepted == Messages(s.popped + s.queue)
    && (s.stop <==> s.dtor != Living)
    && (s.pc.Done? ==> s.stop)
    && Written(s)
    && SentinelLast(s)
    && s.late + (if s.stop && (s.pc.Write? || s.pc.Pop?) then 1 else 0) <= 1
    && (!s.stop ==> s.late == 0)
  }

  lemma KeepsInv(s: State, l: Label)
    requires Inv(s) && Enabled(s, l)
    ensures Inv(Apply(s, l))
  {
    var s' := Apply(s, l);
    match l
    case Log(level, text) => KeepsQueued(s, s', Item(text, false));
    case PushSentinel => KeepsQueued(s, s', Item(SENTINEL, true));
    case ThreadPop => KeepsPopped(s);
    case ThreadWrite =>
      var lines := [""] + Texts(s.popped);
      assert lines[..|s.file| + 1] == lines[..|s.file|] + [lines[|s.file|]];
    case _ =>
  }

  lemma KeepsQueued(s: State, s': State, item: Item)
    requires Inv(s)
    requires s' == s || s' == s.(queue := s.queue + [item], accepted := s'.accepted, dtor := s'.dtor)
    requires s' != s ==> s'.accepted == (if item.last then s.accepted else s.accepted + [item.text])
    requires s' != s ==> if item.last then s.dtor == Flagged && s'.dtor == Pushed else s'.dtor == s.dtor
    ensures Inv(s')
  {
    if s' != s {
      MessagesConcat(s.popped + s.queue, [item]);
      var all, all' := s.popped + s.queue, s'.popped + s'.queue;
      assert all' == all + [item];
      assert Messages([item]) == if item.last then [] else [item.text];
      if item.last { assert all'[|all|].last; }
      if i :| 0 <= i < |all| && all[i].last { assert all'[i].last; }
    }
  }

  lemma KeepsPopped(s: State)
    requires Inv(s) && Enabled(s, ThreadPop)
    ensures Inv(Apply(s, ThreadPop))
  {
    var s' := Apply(s, ThreadPop);
    assert s'.popped + s'.queue == s.popped + s.queue;
    assert s'.popped[..|s.popped|] == s.popped;
    var lines, lines' := [""] + Texts(s.popped), [""] + Texts(s'.popped);
    assert lines' == lines + [s'.holder];
    if s.dtor.Living? { assert (s.popped + s.queue)[|s.popped|] == s.queue[0]; }
  }

  lemma {:induction false} RunKeepsInv(s: State, ls: seq<Label>)
    requires Inv(s) && Runs(s, ls)
    ensures Inv(Exec(s, ls))
    decreases |ls|
  {
    if ls != [] {
      KeepsInv(s, ls[0]);
      RunKeepsInv(Apply(s, ls[0]), ls[1..]);
    }
  }

  // ------------------------------------------------- what the labels say

  /** The last step of a run. */
  lemma {:induction false} LastStep(s: State, ls: seq<Label>)
    requires ls != [] && Runs(s, ls)
    ensures var n := |ls| - 1;
            && Runs(s, ls[..n]) && Enabled(Exec(s, ls[..n]), ls[n])
            && Exec(s, ls) == Apply(Exec(s, ls[..n]), ls[n])
    decreases |ls|
  {
    hide Enabled, Apply;
    var n := |ls| - 1;
    if n == 0 {
      assert ls[..n] == [] && ls[1..] == [];
    } else {
      LastStep(Apply(s, ls[0]), ls[1..]);
      assert ls[1..][..n - 1] == ls[..n][1..] && ls[..n][0] == ls[0] && ls[1..][n - 1] == ls[n];
    }
  }

  /** The level in force after these labels. */
  function LevelAfter(ls: seq<Label>): int
    decreases |ls|
  {
    if ls == [] then Init().level
    else if ls[|ls| - 1].SetLevel? then ls[|ls| - 1].level
    else LevelAfter(ls[..|ls| - 1])
  }

  /** The texts logged at or below the level in force at that moment, in order. */
  function AcceptedBy(ls: seq<Label>): seq<string>
    decreases |ls|
  {
    if ls == [] then []
    else
      var n := |ls| - 1;
      AcceptedBy(ls[..n]) + if ls[n].Log? && ls[n].level <= LevelAfter(ls[..n]) then [ls[n].text] else []
  }

  /** The lines written. */
  function Writes(ls: seq<Label>): nat
    decreases |ls|
  {
    if ls == [] then 0 else Writes(ls[..|ls| - 1]) + if ls[|ls| - 1].ThreadWrite? then 1 else 0
  }

  /** The pops made after the flag was set. */
  function LatePops(ls: seq<Label>): nat
    decreases |ls|
  {
    if ls == [] then 0
    else
      var n := |ls| - 1;
      LatePops(ls[..n]) + if ls[n].ThreadPop? && SetFlag in ls[..n] then 1 else 0
  }

  predicate Told(s: State, ls: seq<Label>) {
    && s.level == LevelAfter(ls) && s.accepted == AcceptedBy(ls)
    && |s.file| == Writes(ls) && s.late == LatePops(ls)
    && (s.stop <==> SetFlag in ls)
  }

  lemma ToldStep(s: State, ls: seq<Label>, l: Label)
    requires Told(s, ls) && Enabled(s, l)
    ensures Told(Apply(s, l), ls + [l])
  {
    assert (ls + [l])[..|ls|] == ls && (ls + [l])[|ls|] == l;
  }

  lemma {:induction false} ToldRun(ls: seq<Label>)
    requires Runs(Init(), ls)
    ensures Told(Exec(Init(), ls), ls)
    decreases |ls|
  {
    if ls != [] {
      var n := |ls| - 1;
      LastStep(Init(), ls);
      ToldRun(ls[..n]);
      hide Runs, Exec, Told, Enabled, Apply;
      ToldStep(Exec(Init(), ls[..n]), ls[..n], ls[n]);
      assert ls[..n] + [ls[n]] == ls;
    }
  }

  // -------------------------------------------------------------- theorems

  /**
    In every run the file is one blank line followed by the messages logged at or below the
    level then in force, in order, as many lines as were written; the sentinel is never
    written as such, so its text is in the file only if a caller logged it; and the thread
    pops at most once after the flag is set.
  */
  lemma LogFile(ls: seq<Label>)
    requires Runs(Init(), ls)
    ensures var s := Exec(Init(), ls);
            && Writes(ls) <= 1 + |AcceptedBy(ls)| && s.file == ([""] + AcceptedBy(ls))[..Writes(ls)]
            && (SENTINEL !in AcceptedBy(ls) ==> SENTINEL !in s.file)
            && LatePops(ls) <= 1
  {
    RunKeepsInv(Init(), ls);
    ToldRun(ls);
    var s := Exec(Init(), ls);
    hide Runs, Exec, Writes, AcceptedBy, LatePops, LevelAfter;
    FileIsPrefix(s);
    if SENTINEL in s.file {
      var i :| 0 <= i < |s.file| && s.file[i] == SENTINEL;
      assert ([""] + s.accepted)[i] == SENTINEL;
    }
  }

  lemma FileIsPrefix(s: State)
    requires Inv(s)
    ensures s.file <= [""] + s.accepted
  {
    var n := if s.file == [] then 0 else |s.file| - 1;
    CleanPrefix(s.popped, n, s.queue);
    assert ([""] + Texts(s.popped))[..n + 1] == [""] + Texts(s.popped)[..n];
    hide Messages, SentinelLast;
  }

  /** The messages of a queue begin with the texts of its items before any sentinel. */
  lemma CleanPrefix(popped: seq<Item>, n: nat, queue: seq<Item>)
    requires n <= |popped| && NoSentinel(popped[..n])
    ensures Texts(popped)[..n] <= Messages(popped + queue)
  {
    assert popped + queue == popped[..n] + (popped[n..] + queue);
    MessagesConcat(popped[..n], popped[n..] + queue);
    MessagesOfClean(popped[..n]);
    hide Messages;
    assert Texts(popped)[..n] == Texts(popped[..n]);
  }

  function StepsLeft(pc: Pc): nat {
    match pc case Write => 3 case Pop => 2 case Test => 1 case Done => 0
  }

  function NextOf(pc: Pc): Label
    requires !pc.Done?
  {
    match pc case Write => ThreadWrite case Pop => ThreadPop case Test => ThreadTest
  }

  /**
    The destructor's join returns: once the sentinel is pushed the logging thread is never
    blocked, and each of its steps brings it closer to its end, at most three steps away.
  */
  lemma ShutdownEnds(ls: seq<Label>)
    requires Runs(Init(), ls)
    ensures var s := Exec(Init(), ls);
            s.dtor.Pushed? && !s.pc.Done? ==>
              && Enabled(s, NextOf(s.pc))
              && StepsLeft(Apply(s, NextOf(s.pc)).pc) < StepsLeft(s.pc) <= 3
  {
    RunKeepsInv(Init(), ls);
    var s := Exec(Init(), ls);
    if s.dtor.Pushed? && s.pc.Pop? {
      var i :| 0 <= i < |s.popped + s.queue| && (s.popped + s.queue)[i].last;
      assert i >= |s.popped|;
    }
  }
}
