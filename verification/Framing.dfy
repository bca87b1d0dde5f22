/** Finding message blocks in a byte stream: msgblock_check and the input loop on the host
    (klippy/chelper/msgblock.c and serialqueue.c), command_find_block on the micro-controller
    (src/command.c). */
module Framing {
  import opened Message
  import opened Timer32
  import Crc
  import Vlq

  const MESSAGE_SYNC: byte := 0x7e
  const MESSAGE_DEST := 0x10

  // ------------------------------------------------------------------ blocks

  function Bits(buf: seq<byte>): seq<bv8> { seq(|buf|, i requires 0 <= i < |buf| => buf[i] as bv8) }

  function CrcHigh(buf: seq<byte>): byte { ((Crc.Fcs(Bits(buf)) >> 8) as bv8) as int }

  function CrcLow(buf: seq<byte>): byte { ((Crc.Fcs(Bits(buf)) & 0xff) as bv8) as int }

  predicate GoodHead(buf: seq<byte>)
    requires |buf| >= MESSAGE_MIN
  {
    MESSAGE_MIN <= buf[0] <= MESSAGE_MAX && buf[1] / MESSAGE_SEQ_SPAN * MESSAGE_SEQ_SPAN == MESSAGE_DEST
  }

  predicate GoodTail(buf: seq<byte>, n: nat)
    requires MESSAGE_MIN <= n <= |buf|
  {
    buf[n - 1] == MESSAGE_SYNC && buf[n - 3] == CrcHigh(buf[..n - 3]) && buf[n - 2] == CrcLow(buf[..n - 3])
  }

  /** A valid message block. */
  predicate Good(f: seq<byte>) { |f| >= MESSAGE_MIN && f[0] == |f| && GoodHead(f) && GoodTail(f, |f|) }

  /** The block that build_and_send_command and command_add_frame make of a payload. */
  function Frame(number: nat, payload: seq<byte>): seq<byte>
    requires |payload| <= MESSAGE_PAYLOAD_MAX
  {
    var head: seq<byte> := [|payload| + MESSAGE_MIN, number % MESSAGE_SEQ_SPAN + MESSAGE_DEST];
    var body := head + payload;
    body + [CrcHigh(body), CrcLow(body), MESSAGE_SYNC]
  }

  /** The place of the first sync byte, or the length. */
  function FindSync(buf: seq<byte>): (k: nat)
    ensures k <= |buf| && (forall i :: 0 <= i < k ==> buf[i] != MESSAGE_SYNC) && (k < |buf| ==> buf[k] == MESSAGE_SYNC)
  {
    if |buf| == 0 || buf[0] == MESSAGE_SYNC then 0 else FindSync(buf[1..]) + 1
  }

  /** A block made of a payload is valid. */
  lemma FrameGood(number: nat, payload: seq<byte>)
    requires |payload| <= MESSAGE_PAYLOAD_MAX
    ensures var f := Frame(number, payload);
      && Good(f) && f[1] % MESSAGE_SEQ_SPAN == number % MESSAGE_SEQ_SPAN
      && f[MESSAGE_HEADER_SIZE..|f| - MESSAGE_TRAILER_SIZE] == payload
  {
    hide CrcHigh, CrcLow;
    var f := Frame(number, payload);
    var head: seq<byte> := [|payload| + MESSAGE_MIN, number % MESSAGE_SEQ_SPAN + MESSAGE_DEST];
    assert f[..|f| - 3] == head + payload;
  }

  // ------------------------------------------------------------------ the host

  /** More data is needed, a block of n bytes was found, or n bytes are to be skipped. */
  datatype Verdict = More | Take(n: nat) | Skip(n: nat)

  /** What the block at the start of the buffer is, if it can be told. */
  function Look(buf: seq<byte>): (v: Verdict)
    ensures v.Take? ==> MESSAGE_MIN <= v.n <= |buf|
    ensures v.Skip? ==> |buf| >= MESSAGE_MIN
  {
    if |buf| < MESSAGE_MIN then More
    else if !GoodHead(buf) then Skip(0)
    else if |buf| < buf[0] then More
    else if GoodTail(buf, buf[0]) then Take(buf[0])
    else Skip(0)
  }

  /** msgblock_check, and need_sync afterwards. */
  function Check(needSync: bool, buf: seq<byte>): (r: (Verdict, bool))
    ensures if r.0.More? then r.1 == needSync else 1 <= r.0.n <= |buf|
  {
    if |buf| < MESSAGE_MIN then (More, needSync)
    else
      var v := if needSync then Skip(0) else Look(buf);
      if v.Skip? then
        var k := FindSync(buf);
        if k < |buf| then (Skip(k + 1), false) else (Skip(|buf|), true)
      else (v, needSync)
  }

  /** The messages in a stream, the bytes left over, and need_sync at the end. */
  datatype Drained = Drained(messages: seq<seq<byte>>, left: seq<byte>, needSync: bool)

  function Drain(needSync: bool, s: seq<byte>): Drained
    decreases |s|
  {
    var (v, ns) := Check(needSync, s);
    if v.More? then Drained([], s, ns)
    else
      var d := Drain(ns, s[v.n..]);
      if v.Take? then d.(messages := [s[..v.n]] + d.messages) else d
  }

  /** A verdict once given does not depend on what comes after. */
  lemma LookMore(x: seq<byte>, y: seq<byte>)
    requires !Look(x).More?
    ensures Look(x + y) == Look(x)
  {
    hide CrcHigh, CrcLow;
    if GoodHead(x) {
      assert (x + y)[..x[0] - 3] == x[..x[0] - 3];
    }
  }

  lemma {:induction false} FindSyncMore(x: seq<byte>, y: seq<byte>)
    ensures FindSync(x + y) == if FindSync(x) < |x| then FindSync(x) else |x| + FindSync(y)
  {
    if |x| == 0 {
      assert x + y == y;
    } else {
      assert (x + y)[1..] == x[1..] + y;
      FindSyncMore(x[1..], y);
    }
  }

  /** Checking a longer buffer gives the same verdict, except that a skip may reach further. */
  lemma CheckMore(needSync: bool, x: seq<byte>, y: seq<byte>)
    requires !Check(needSync, x).0.More?
    ensures Check(needSync, x) == (Skip(|x|), true) || Check(needSync, x + y) == Check(needSync, x)
    ensures Check(needSync, x) == (Skip(|x|), true) ==>
      var k := FindSync(y);
      Check(needSync, x + y) == if k < |y| then (Skip(|x| + k + 1), false) else (Skip(|x + y|), true)
  {
    hide Look;
    FindSyncMore(x, y);
    if !needSync {
      LookIs(x);
      LookMore(x, y);
    }
  }

  lemma LookIs(x: seq<byte>)
    ensures |x| < MESSAGE_MIN ==> Look(x).More?
  {
  }

  lemma DrainStep(needSync: bool, s: seq<byte>)
    ensures var (v, ns) := Check(needSync, s);
      && (v.More? ==> Drain(needSync, s) == Drained([], s, needSync))
      && (v.Skip? ==> Drain(needSync, s) == Drain(ns, s[v.n..]))
  {
    hide Check;
  }

  /** Less than a block, or unsynchronised bytes. */
  lemma CheckSimple(needSync: bool, s: seq<byte>)
    ensures |s| < MESSAGE_MIN ==> Check(needSync, s) == (More, needSync)
    ensures |s| >= MESSAGE_MIN ==>
      var k := FindSync(s);
      Check(true, s) == if k < |s| then (Skip(k + 1), false) else (Skip(|s|), true)
  {
    hide Look, FindSync;
  }

  /** A first part without sync byte is thrown away, at once or later. */
  lemma Skipped(needSync: bool, x: seq<byte>, y: seq<byte>)
    requires Check(needSync, x) == (Skip(|x|), true)
    ensures Drain(needSync, x) == Drained([], [], true)
    ensures Drain(needSync, x + y).messages == Drain(true, y).messages
  {
    hide *;
    CheckMore(needSync, x, y);
    var k := FindSync(y);
    var rest, ns := (if k < |y| then y[k + 1..] else []), k == |y|;
    assert x[|x|..] == [] && (x + y)[|x| + (if k < |y| then k + 1 else |y|)..] == rest;
    DrainStep(needSync, x);
    DrainStep(needSync, x + y);
    CheckSimple(true, []);
    DrainStep(true, []);
    CheckSimple(true, y);
    DrainStep(true, y);
    if |y| < MESSAGE_MIN {
      CheckSimple(ns, rest);
      DrainStep(ns, rest);
    } else if k == |y| {
      assert y[|y|..] == [];
    }
  }

  /** Framing does not depend on how the stream is cut: the messages of a stream are those of its
      first part and those of the rest, read with what the first part left over. */
  lemma {:induction false} DrainSplit(needSync: bool, x: seq<byte>, y: seq<byte>)
    ensures var d := Drain(needSync, x);
      Drain(needSync, x + y).messages == d.messages + Drain(d.needSync, d.left + y).messages
    decreases |x|
  {
    hide Check;
    var (v, ns) := Check(needSync, x);
    if v.More? {
      assert Drain(needSync, x) == Drained([], x, needSync);
    } else {
      CheckMore(needSync, x, y);
      if Check(needSync, x) == (Skip(|x|), true) {
        Skipped(needSync, x, y);
        assert [] + y == y;
      } else {
        assert (x + y)[..v.n] == x[..v.n] && (x + y)[v.n..] == x[v.n..] + y;
        DrainSplit(ns, x[v.n..], y);
        assert [x[..v.n]] + (Drain(ns, x[v.n..]).messages + Drain(Drain(ns, x[v.n..]).needSync, Drain(ns, x[v.n..]).left + y).messages)
            == [x[..v.n]] + Drain(ns, x[v.n..]).messages + Drain(Drain(ns, x[v.n..]).needSync, Drain(ns, x[v.n..]).left + y).messages;
      }
    }
  }

  /** What is left over is less than a block. */
  lemma {:induction false} LeftIsShort(needSync: bool, s: seq<byte>)
    ensures |Drain(needSync, s).left| < MESSAGE_MAX
    decreases |s|
  {
    hide GoodTail;
    var (v, ns) := Check(needSync, s);
    if !v.More? {
      hide Check;
      LeftIsShort(ns, s[v.n..]);
    }
  }

  function Flatten(chunks: seq<seq<byte>>): seq<byte> {
    if |chunks| == 0 then [] else chunks[0] + Flatten(chunks[1..])
  }

  /** The stream read chunk by chunk. */
  function Feed(needSync: bool, left: seq<byte>, chunks: seq<seq<byte>>): seq<seq<byte>>
    decreases |chunks|
  {
    if |chunks| == 0 then []
    else
      var d := Drain(needSync, left + chunks[0]);
      d.messages + Feed(d.needSync, d.left, chunks[1..])
  }

  /** However the stream is cut, the host finds the messages of the whole stream. */
  lemma {:induction false} ChunksDoNotMatter(needSync: bool, left: seq<byte>, chunks: seq<seq<byte>>)
    requires Check(needSync, left).0.More?
    ensures Feed(needSync, left, chunks) == Drain(needSync, left + Flatten(chunks)).messages
    decreases |chunks|
  {
    hide Check;
    if |chunks| == 0 {
      assert left + [] == left;
    } else {
      var d := Drain(needSync, left + chunks[0]);
      DrainStops(needSync, left + chunks[0]);
      ChunksDoNotMatter(d.needSync, d.left, chunks[1..]);
      DrainSplit(needSync, left + chunks[0], Flatten(chunks[1..]));
      assert left + Flatten(chunks) == left + chunks[0] + Flatten(chunks[1..]);
    }
  }

  lemma {:induction false} DrainStops(needSync: bool, s: seq<byte>)
    ensures Check(Drain(needSync, s).needSync, Drain(needSync, s).left).0.More?
    decreases |s|
  {
    hide Check;
    var (v, ns) := Check(needSync, s);
    if !v.More? {
      DrainStops(ns, s[v.n..]);
    }
  }

  lemma CheckBlock(f: seq<byte>, rest: seq<byte>)
    requires Good(f)
    ensures Check(false, f + rest) == (Take(|f|), false)
  {
    assert f[..|f| - 3] == (f + rest)[..|f| - 3];
  }

  /** A stream of valid blocks is taken apart into these blocks. */
  lemma {:induction false} BlocksAreFound(blocks: seq<seq<byte>>)
    requires forall f <- blocks :: Good(f)
    ensures Drain(false, Flatten(blocks)) == Drained(blocks, [], false)
    decreases |blocks|
  {
    if |blocks| > 0 {
      hide Check, Good;
      var f, rest := blocks[0], Flatten(blocks[1..]);
      assert f in blocks;
      CheckBlock(f, rest);
      assert (f + rest)[..|f|] == f && (f + rest)[|f|..] == rest;
      BlocksAreFound(blocks[1..]);
      assert blocks == [f] + blocks[1..];
    }
  }

  function Bytes(messages: seq<seq<byte>>): nat { if |messages| == 0 then 0 else |messages[0]| + Bytes(messages[1..]) }

  class HostInput {
    var inputBuf: seq<byte>
    var needSync: bool
    var bytesInvalid: nat
    ghost var handled: seq<seq<byte>> // the messages passed to handle_message

    constructor ()
      ensures inputBuf == [] && !needSync && bytesInvalid == 0 && handled == []
    {
      inputBuf, needSync, bytesInvalid := [], false, 0;
      handled := [];
    }

    /** The input loop of serialqueue.c, after `chunk` was read. */
    method InputEvent(chunk: seq<byte>)
      modifies this
      ensures var d := Drain(old(needSync), old(inputBuf) + chunk);
        handled == old(handled) + d.messages && inputBuf == d.left && needSync == d.needSync
      ensures |inputBuf| < MESSAGE_MAX
      ensures |old(inputBuf)| + |chunk| + old(bytesInvalid) + Bytes(old(handled)) == |inputBuf| + bytesInvalid + Bytes(handled)
    {
      hide Check;
      inputBuf := inputBuf + chunk;
      ghost var d := Drain(needSync, inputBuf);
      LeftIsShort(needSync, inputBuf);
      while true
        invariant var e := Drain(needSync, inputBuf);
          old(handled) + d.messages == handled + e.messages && d.left == e.left && d.needSync == e.needSync
        invariant |old(inputBuf)| + |chunk| + old(bytesInvalid) + Bytes(old(handled)) == |inputBuf| + bytesInvalid + Bytes(handled)
        decreases |inputBuf|
      {
        var (v, ns) := Check(needSync, inputBuf);
        needSync := ns;
        if v.More? {
          return;
        }
        if v.Take? {
          ghost var m := inputBuf[..v.n];
          BytesGrow(handled, m);
          assert handled + ([m] + Drain(ns, inputBuf[v.n..]).messages) == handled + [m] + Drain(ns, inputBuf[v.n..]).messages;
          handled := handled + [m];
        } else {
          bytesInvalid := bytesInvalid + v.n;
        }
        inputBuf := inputBuf[v.n..];
      }
    }
  }

  lemma {:induction false} BytesGrow(messages: seq<seq<byte>>, m: seq<byte>)
    ensures Bytes(messages + [m]) == Bytes(messages) + |m|
  {
    if |messages| > 0 {
      assert (messages + [m])[1..] == messages[1..] + [m];
      BytesGrow(messages[1..], m);
    } else {
      assert (messages + [m])[1..] == [];
    }
  }

  // ------------------------------------------------------------------ the micro-controller

  /** The two flags of sync_state. */
  datatype Sync = Sync(needSync: bool, needValid: bool)

  /** A valid block was found, or garbage was answered with a nak. */
  datatype Event = Found(block: seq<byte>) | GarbageNak

  /** How many bytes to take, none if more are needed; what happened; and the flags afterwards. */
  datatype Pop = Pop(count: nat, events: seq<Event>, st: Sync)

  /** The end of command_find_block: bytes are discarded up to the next sync byte. */
  function Discard(st: Sync, buf: seq<byte>): Pop {
    var k := FindSync(buf);
    Pop(if k < |buf| then k + 1 else |buf|, if st.needValid then [] else [GarbageNak], Sync(k == |buf|, true))
  }

  /** command_find_block, without its check of the sequence number. */
  function FindBlock(st: Sync, buf: seq<byte>): (p: Pop)
    ensures p.count <= |buf| && (p.count == 0 ==> p == Pop(0, [], st))
  {
    if |buf| > 0 && st.needSync then Discard(st, buf)
    else
      var v := Look(buf);
      match v
      case More => Pop(0, [], st)
      case Take(n) => Pop(n, [Found(buf[..n])], st.(needValid := false))
      case Skip(_) => if buf[0] == MESSAGE_SYNC then Pop(1, [], st) else Discard(st, buf)
  }

  datatype Parsed = Parsed(events: seq<Event>, left: seq<byte>, st: Sync)

  /** All that happens on a stream. */
  function Parse(st: Sync, s: seq<byte>): Parsed
    decreases |s|
  {
    var p := FindBlock(st, s);
    if p.count == 0 then Parsed([], s, st)
    else
      var d := Parse(p.st, s[p.count..]);
      d.(events := p.events + d.events)
  }

  /** With more bytes, a decision stays as it is, except that discarding may reach further. */
  lemma FindBlockMore(st: Sync, x: seq<byte>, y: seq<byte>)
    requires FindBlock(st, x).count > 0
    ensures var p := FindBlock(st, x);
      if p.st.needSync && p.count == |x| then p == Discard(st, x) && FindBlock(st, x + y) == Discard(st, x + y)
      else FindBlock(st, x + y) == p
  {
    hide GoodTail, GoodHead, FindSync;
    FindSyncMore(x, y);
    if !Look(x).More? {
      LookMore(x, y);
      if Look(x).Take? {
        assert (x + y)[..Look(x).n] == x[..Look(x).n];
      }
    }
  }

  lemma ParseStep(st: Sync, s: seq<byte>)
    ensures var p := FindBlock(st, s);
      if p.count == 0 then Parse(st, s) == Parsed([], s, st)
      else Parse(st, s) == Parsed(p.events + Parse(p.st, s[p.count..]).events, Parse(p.st, s[p.count..]).left, Parse(p.st, s[p.count..]).st)
  {
    hide FindBlock;
  }

  /** A stream may be cut anywhere: the events are the same, and so are the state and the rest. */
  ghost predicate Confluent(st: Sync, x: seq<byte>, y: seq<byte>) {
    var d := Parse(st, x);
    var e := Parse(d.st, d.left + y);
    Parse(st, x + y) == Parsed(d.events + e.events, e.left, e.st)
  }

  /** Bytes without a sync byte are discarded, and discarding goes on in the next part. */
  lemma DiscardOn(st: Sync, x: seq<byte>, y: seq<byte>)
    requires |x| > 0 && FindSync(x) == |x|
    requires FindBlock(st, x) == Discard(st, x) && FindBlock(st, x + y) == Discard(st, x + y)
    ensures Confluent(st, x, y)
  {
    hide *;
    DiscardSplit(st, x, y);
    DiscardAll(st, x);
    if |y| > 0 {
      DiscardRest(st, x, y);
    } else {
      var p := Discard(st, x);
      Nothing(p.st);
      assert x + y == x && y == [] && p.events + [] == p.events;
    }
    ConfluentIs(st, x, y);
  }

  lemma DiscardAll(st: Sync, x: seq<byte>)
    requires |x| > 0 && FindBlock(st, x) == Discard(st, x) && FindSync(x) == |x|
    ensures Parse(st, x) == Parsed(Discard(st, x).events, [], Discard(st, x).st)
  {
    hide Parse, FindBlock;
    assert x[|x|..] == [];
    ParseStep(st, x);
    Nothing(Discard(st, x).st);
  }

  lemma DiscardRest(st: Sync, x: seq<byte>, y: seq<byte>)
    requires |x| > 0 && FindSync(x) == |x| && |y| > 0 && FindBlock(st, x + y) == Discard(st, x + y)
    ensures var p := Discard(st, x);
      var e := Parse(p.st, y); Parse(st, x + y) == Parsed(p.events + e.events, e.left, e.st)
  {
    hide *;
    DiscardSplit(st, x, y);
    var p, r := Discard(st, x), Discard(Sync(true, true), y);
    DiscardFirst(p.st, y);
    ParseStep(p.st, y);
    ParseStep(st, x + y);
    DropFirst(x, y, r.count);
    assert [] + Parse(r.st, y[r.count..]).events == Parse(r.st, y[r.count..]).events;
  }

  lemma DropFirst(x: seq<byte>, y: seq<byte>, k: nat)
    requires k <= |y|
    ensures (x + y)[|x| + k..] == y[k..]
  {
  }

  lemma ConfluentIs(st: Sync, x: seq<byte>, y: seq<byte>)
    requires Parse(st, x).left == []
    requires var e := Parse(Parse(st, x).st, y); Parse(st, x + y) == Parsed(Parse(st, x).events + e.events, e.left, e.st)
    ensures Confluent(st, x, y)
  {
    hide Parse;
    assert [] + y == y;
  }

  lemma DiscardSplit(st: Sync, x: seq<byte>, y: seq<byte>)
    requires |x| > 0 && FindSync(x) == |x|
    ensures Discard(st, x).count == |x| && Discard(st, x).st == Sync(true, true)
    ensures var p, q, r := Discard(st, x), Discard(st, x + y), Discard(Sync(true, true), y);
      q == Pop(|x| + r.count, p.events, r.st) && r.events == [] && r.count <= |y| && (|y| > 0 ==> r.count > 0)
  {
    hide FindSync;
    FindSyncMore(x, y);
  }

  lemma DiscardFirst(st: Sync, y: seq<byte>)
    requires |y| > 0 && st.needSync
    ensures FindBlock(st, y) == Discard(st, y)
  {
  }

  lemma Nothing(st: Sync)
    ensures Parse(st, []) == Parsed([], [], st)
  {
  }

  /** Framing on the micro-controller does not depend on how the stream is cut. */
  lemma {:induction false} ParseSplit(st: Sync, x: seq<byte>, y: seq<byte>)
    ensures Confluent(st, x, y)
    decreases |x|
  {
    hide FindBlock, FindSync, Parse;
    var p := FindBlock(st, x);
    ParseStep(st, x);
    if p.count > 0 {
      FindBlockMore(st, x, y);
      if p.st.needSync && p.count == |x| {
        DiscardOn(st, x, y);
      } else {
        var rest := x[p.count..];
        assert (x + y)[p.count..] == rest + y;
        ParseStep(st, x + y);
        ParseSplit(p.st, rest, y);
        var d := Parse(p.st, rest);
        var e := Parse(d.st, d.left + y);
        assert p.events + (d.events + e.events) == p.events + d.events + e.events;
      }
    }
  }

  /** At most one nak for garbage before the next valid block; none if one was already sent. */
  predicate OneNakEach(events: seq<Event>, waiting: bool) {
    |events| == 0 || match events[0]
                     case Found(_) => OneNakEach(events[1..], false)
                     case GarbageNak => !waiting && OneNakEach(events[1..], true)
  }

  lemma {:induction false} GarbageNakedOnce(st: Sync, s: seq<byte>)
    ensures OneNakEach(Parse(st, s).events, st.needValid)
    decreases |s|
  {
    var p := FindBlock(st, s);
    if p.count > 0 {
      PopNaks(st, s);
      hide FindBlock;
      GarbageNakedOnce(p.st, s[p.count..]);
      var rest := Parse(p.st, s[p.count..]).events;
      if |p.events| == 0 {
        assert p.events + rest == rest;
      } else {
        assert p.events == [p.events[0]] && (p.events + rest)[1..] == rest;
      }
    }
  }

  lemma PopNaks(st: Sync, s: seq<byte>)
    ensures var p := FindBlock(st, s);
      && |p.events| <= 1 && (p.events == [] ==> p.st.needValid == st.needValid)
      && (p.events != [] ==> p.st.needValid == p.events[0].GarbageNak? && (p.events[0].GarbageNak? ==> !st.needValid))
  {
    hide FindSync, Look;
  }

  /** The blocks accepted in turn, and the number expected next: a block counts if its number is the
      expected one. */
  function Accepted(next: nat, events: seq<Event>): (seq<seq<byte>>, nat) {
    if |events| == 0 then ([], next)
    else
      var (blocks, n) := Accepted(next, events[..|events| - 1]);
      var e := events[|events| - 1];
      if e.Found? && |e.block| > 1 && e.block[1] == n then (blocks + [e.block], (n + 1) % MESSAGE_SEQ_SPAN + MESSAGE_DEST)
      else (blocks, n)
  }

  class McuInput {
    var buf: seq<byte>
    var st: Sync
    var nextSequence: nat
    ghost var events: seq<Event>
    ghost var dispatched: seq<seq<byte>>

    constructor ()
      ensures buf == [] && st == Sync(false, false) && nextSequence == MESSAGE_DEST && events == [] && dispatched == []
    {
      buf, st, nextSequence := [], Sync(false, false), MESSAGE_DEST;
      events, dispatched := [], [];
    }

    /** The receive loop around command_find_and_dispatch, after `chunk` arrived. */
    method Receive(chunk: seq<byte>)
      requires Accepted(MESSAGE_DEST, events) == (dispatched, nextSequence)
      modifies this
      ensures var d := Parse(old(st), old(buf) + chunk);
        events == old(events) + d.events && buf == d.left && st == d.st
      ensures Accepted(MESSAGE_DEST, events) == (dispatched, nextSequence)
    {
      hide FindBlock, Parse, Accepted;
      buf := buf + chunk;
      ghost var d := Parse(st, buf);
      while true
        invariant var e := Parse(st, buf); d == Parsed(d.events, e.left, e.st) && old(events) + d.events == events + e.events
        invariant Accepted(MESSAGE_DEST, events) == (dispatched, nextSequence)
        decreases |buf|
      {
        ParseStep(st, buf);
        PopNaks(st, buf);
        var p := FindBlock(st, buf);
        if p.count == 0 {
          return;
        }
        ghost var rest := Parse(p.st, buf[p.count..]).events;
        assert events + (p.events + rest) == events + p.events + rest;
        if p.events != [] {
          var e := p.events[0];
          AcceptedGrows(events, e);
          if e.Found? && |e.block| > 1 && e.block[1] == nextSequence {
            nextSequence := (nextSequence + 1) % MESSAGE_SEQ_SPAN + MESSAGE_DEST;
            dispatched := dispatched + [e.block];
          }
          assert p.events == [e];
        } else {
          assert events + p.events == events;
        }
        events := events + p.events;
        st, buf := p.st, buf[p.count..];
      }
    }
  }

  lemma AcceptedGrows(events: seq<Event>, e: Event)
    ensures var (blocks, n) := Accepted(MESSAGE_DEST, events);
      Accepted(MESSAGE_DEST, events + [e]) ==
      if e.Found? && |e.block| > 1 && e.block[1] == n then (blocks + [e.block], (n + 1) % MESSAGE_SEQ_SPAN + MESSAGE_DEST)
      else (blocks, n)
  {
    assert (events + [e])[..|events|] == events;
  }

  // ------------------------------------------------------------------ the numbers in a block

  /** `count` numbers from `pos` on that take up the payload exactly. */
  function DecodeFrom(msg: seq<byte>, pos: nat, count: nat): Option<seq<uint32>>
    requires |msg| >= MESSAGE_MIN && msg[|msg| - 1] < 128
    decreases count
  {
    var end := |msg| - MESSAGE_TRAILER_SIZE;
    if count == 0 then if pos == end then Some([]) else None
    else if pos >= end then None
    else
      var (v, n) := Vlq.Parse(msg[pos..]);
      var rest := DecodeFrom(msg, pos + n, count - 1);
      if rest.Some? then Some([Wrap(v)] + rest.value) else None
  }

  /** msgblock_decode, on a block that was checked: parsing a number stops at the sync byte at the
      latest, so nothing beyond the block is read. */
  method Decode(count: nat, msg: seq<byte>) returns (data: Option<seq<uint32>>)
    requires Good(msg)
    ensures data == DecodeFrom(msg, MESSAGE_HEADER_SIZE, count)
  {
    hide CrcHigh, CrcLow;
    var pos: nat, end := MESSAGE_HEADER_SIZE, |msg| - MESSAGE_TRAILER_SIZE;
    var out: seq<uint32> := [];
    ghost var all := DecodeFrom(msg, pos, count);
    assert all.Some? ==> [] + all.value == all.value;
    for left := count downto 0
      invariant pos <= |msg|
      invariant var r := DecodeFrom(msg, pos, left);
        DecodeFrom(msg, MESSAGE_HEADER_SIZE, count) == if r.Some? then Some(out + r.value) else None
    {
      if pos >= end {
        return None;
      }
      var v, next := Vlq.ParseInt(msg, pos);
      ghost var r := DecodeFrom(msg, next, left);
      if r.Some? {
        assert out + ([v] + r.value) == out + [v] + r.value;
      }
      out, pos := out + [v], next;
    }
    if pos != end {
      return None;
    }
    assert out + [] == out;
    data := Some(out);
  }

  lemma {:induction false} EncodeAllHead(data: seq<uint32>)
    requires |data| > 0
    ensures Vlq.EncodeAll(data) == Vlq.Encode(data[0]) + Vlq.EncodeAll(data[1..])
    decreases |data|
  {
    hide Vlq.Encode;
    var n := |data| - 1;
    if n > 0 {
      EncodeAllHead(data[..n]);
      assert data[..n][1..] == data[1..][..n - 1];
    } else {
      assert data[1..] == [] && data[..0] == [];
    }
  }

  lemma {:induction false} DecodeEncoded(data: seq<uint32>, msg: seq<byte>, pos: nat)
    requires |msg| >= MESSAGE_MIN && msg[|msg| - 1] < 128 && pos <= |msg| - MESSAGE_TRAILER_SIZE
    requires msg[pos..|msg| - MESSAGE_TRAILER_SIZE] == Vlq.EncodeAll(data)
    ensures DecodeFrom(msg, pos, |data|) == Some(data)
    decreases |data|
  {
    hide Vlq.Encode, Vlq.Parse;
    if |data| > 0 {
      EncodeAllHead(data);
      var end, code := |msg| - MESSAGE_TRAILER_SIZE, Vlq.Encode(data[0]);
      var rest := msg[pos + |code|..];
      Head(msg, pos, end, code, Vlq.EncodeAll(data[1..]));
      Vlq.WordRoundTrip(data[0], rest);
      Vlq.ParseWithin(code + rest);
      DecodeEncoded(data[1..], msg, pos + |code|);
      assert data == [data[0]] + data[1..];
    } else {
      assert data == [];
    }
  }

  lemma Head(msg: seq<byte>, pos: nat, end: nat, code: seq<byte>, more: seq<byte>)
    requires pos <= end < |msg| && msg[pos..end] == code + more
    ensures pos + |code| <= end && msg[pos..] == code + msg[pos + |code|..] && msg[pos + |code|..end] == more
  {
    assert msg[pos..end][..|code|] == code && msg[pos..end][|code|..] == more;
    assert msg[pos..pos + |code|] == code;
  }

  /** Encode, frame, check and decode: any list of words that fits a payload comes back. */
  lemma MessageRoundTrip(number: nat, data: seq<uint32>)
    requires |Vlq.EncodeAll(data)| <= MESSAGE_PAYLOAD_MAX
    ensures var f := Frame(number, Vlq.EncodeAll(data));
      Check(false, f) == (Take(|f|), false) && Good(f) && DecodeFrom(f, MESSAGE_HEADER_SIZE, |data|) == Some(data)
  {
    hide CrcHigh, CrcLow, Check;
    var f := Frame(number, Vlq.EncodeAll(data));
    FrameGood(number, Vlq.EncodeAll(data));
    CheckBlock(f, []);
    assert f + [] == f;
    DecodeEncoded(data, f, MESSAGE_HEADER_SIZE);
  }
}
