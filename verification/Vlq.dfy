/** Variable length quantities: the integer encoding inside message blocks, in C (encode_int and
    parse_int of klippy/chelper/msgblock.c and src/command.c) and in Python (klippy/msgproto.py). */
module Vlq {
  import opened Message
  import opened Timer32

  /** v without its last k groups of seven bits. */
  function Shifted(v: int, k: nat): int {
    if k == 0 then v
    else if k == 1 then v / 0x80
    else if k == 2 then v / 0x4000
    else if k == 3 then v / 0x20_0000
    else v / 0x1000_0000
  }

  /** The groups from group k down; all but the last carry the continuation bit. */
  function Groups(v: int, k: nat): seq<byte> {
    if k == 0 then [v % 128] else [Shifted(v, k) % 128 + 128] + Groups(v, k - 1)
  }

  function Signed(v: uint32): int { if v < HALF then v else v - WRAP }

  /** The number of groups after the first. */
  function Extra(v: int): nat {
    if -0x20 <= v < 0x60 then 0
    else if -0x1000 <= v < 0x3000 then 1
    else if -0x8_0000 <= v < 0x18_0000 then 2
    else if -0x400_0000 <= v < 0xc00_0000 then 3
    else 4
  }

  /** encode_int; the top group of the longest form is not masked. */
  function Encode(v: uint32): seq<byte> {
    var k := Extra(Signed(v));
    if k < 4 then Groups(v, k) else [v / 0x1000_0000 + 128] + Groups(v, 3)
  }

  /** PT_uint32.encode, for any integer. */
  function PyEncode(v: int): seq<byte> { Groups(v, Extra(v)) }

  // ------------------------------------------------------------------ parsing

  /** Bytes that end in one without continuation bit. */
  predicate Ended(s: seq<byte>) { |s| > 0 && s[|s| - 1] < 128 }

  /** The groups after the first, and how many bytes they take. */
  function Continue(acc: int, s: seq<byte>): (int, nat)
    requires Ended(s)
    decreases |s|
  {
    var v := acc * 128 + s[0] % 128;
    if s[0] < 128 then (v, 1) else var r := Continue(v, s[1..]); (r.0, r.1 + 1)
  }

  /** The first group carries the sign. */
  function First(c: byte): int { if c % 128 >= 96 then c % 128 - 128 else c % 128 }

  /** The number at the start of the bytes, without limit on its size, and how many bytes it takes. */
  function Parse(s: seq<byte>): (int, nat)
    requires Ended(s)
  {
    if s[0] < 128 then (First(s[0]), 1) else var r := Continue(First(s[0]), s[1..]); (r.0, r.1 + 1)
  }

  lemma {:induction false} ContinueWithin(acc: int, s: seq<byte>)
    requires Ended(s)
    ensures 1 <= Continue(acc, s).1 <= |s|
    decreases |s|
  {
    if s[0] >= 128 {
      ContinueWithin(acc * 128 + s[0] % 128, s[1..]);
    }
  }

  lemma ParseWithin(s: seq<byte>)
    requires Ended(s)
    ensures 1 <= Parse(s).1 <= |s|
  {
    if s[0] >= 128 {
      ContinueWithin(First(s[0]), s[1..]);
    }
  }

  /** parse_int: the same in 32 bits. */
  method ParseInt(s: seq<byte>, pos: nat) returns (v: uint32, next: nat)
    requires pos < |s| && s[|s| - 1] < 128
    ensures v == Wrap(Parse(s[pos..]).0) && next == pos + Parse(s[pos..]).1 <= |s|
  {
    var c := s[pos];
    next := pos + 1;
    v := c % 128;
    if v >= 96 {
      v := Wrap(v - 128);
    }
    ghost var w := First(c);
    ParseWithin(s[pos..]);
    while c >= 128
      invariant pos < next <= |s| && v == Wrap(w) && (c >= 128 ==> next < |s|)
      invariant if c < 128 then (w, next - pos) == Parse(s[pos..])
                else var r := Continue(w, s[next..]); Parse(s[pos..]) == (r.0, r.1 + next - pos)
      decreases |s| - next, c
    {
      assert s[next..][1..] == s[next + 1..];
      WrapShift(w, s[next] % 128);
      w := w * 128 + s[next] % 128;
      c := s[next];
      v := Wrap(v * 128 + c % 128);
      next := next + 1;
    }
  }

  lemma WrapShift(w: int, low: int)
    ensures Wrap(Wrap(w) * 128 + low) == Wrap(w * 128 + low)
  {
    WrapMultiple(w * 128 + low, -(w / WRAP) * 128);
  }

  /** PT_uint32.parse and PT_int32.parse: the value and where it ends, or nothing (an index error) if the
      bytes end before the number does. */
  method PyParse(s: seq<byte>, pos: nat, signed: bool) returns (r: Option<(int, nat)>)
    ensures r.None? <==> forall k :: pos <= k < |s| ==> s[k] >= 128
    ensures r.Some? ==> var (v, next) := r.value;
      && pos < next <= |s| && Ended(s[pos..next])
      && Parse(s[pos..next]).1 == next - pos && v == (if signed then Parse(s[pos..next]).0 else Wrap(Parse(s[pos..next]).0))
      && (Ended(s[pos..]) ==> Parse(s[pos..]) == Parse(s[pos..next]))
  {
    hide Parse, Wrap;
    if pos >= |s| {
      return None;
    }
    var c := s[pos];
    var v, next := c % 128, pos + 1;
    if v >= 96 {
      v := v - 128;
    }
    ghost var first := v;
    while c >= 128
      invariant pos < next <= |s| && c == s[next - 1] && first == First(s[pos])
      invariant forall k :: pos <= k < next - 1 ==> s[k] >= 128
      invariant v == Groups7(first, s[pos + 1..next])
      decreases |s| - next, c
    {
      if next >= |s| {
        return None;
      }
      assert s[pos + 1..next + 1][..next - pos - 1] == s[pos + 1..next];
      c := s[next];
      v := v * 128 + c % 128;
      next := next + 1;
    }
    PyParsed(s, pos, next, v);
    r := Some((if signed then v else Wrap(v), next));
  }

  lemma PyParsed(s: seq<byte>, pos: nat, next: nat, v: int)
    requires pos < next <= |s| && s[next - 1] < 128 && forall k :: pos <= k < next - 1 ==> s[k] >= 128
    requires v == Groups7(First(s[pos]), s[pos + 1..next])
    ensures Ended(s[pos..next]) && Parse(s[pos..next]) == (v, next - pos)
    ensures Ended(s[pos..]) ==> Parse(s[pos..]) == (v, next - pos)
  {
    hide Parse, Groups7, First;
    ParseStops(s[pos..next], next - pos);
    assert s[pos..next][1..next - pos] == s[pos + 1..next];
    if Ended(s[pos..]) {
      ParseStops(s[pos..], next - pos);
      assert s[pos..][1..next - pos] == s[pos + 1..next];
    }
  }

  /** A number from its first group and the bytes of the others. */
  function Groups7(acc: int, s: seq<byte>): int {
    if |s| == 0 then acc else Groups7(acc, s[..|s| - 1]) * 128 + s[|s| - 1] % 128
  }

  lemma {:induction false} Groups7Front(acc: int, s: seq<byte>)
    requires |s| > 0
    ensures Groups7(acc, s) == Groups7(acc * 128 + s[0] % 128, s[1..])
  {
    if |s| > 1 {
      Groups7Front(acc, s[..|s| - 1]);
      assert s[..|s| - 1][1..] == s[1..][..|s| - 2];
    }
  }

  /** The first byte without continuation bit is at index n - 1. */
  predicate EndsAt(s: seq<byte>, n: nat) { 0 < n <= |s| && s[n - 1] < 128 && forall k :: 0 <= k < n - 1 ==> s[k] >= 128 }

  /** Parsing stops at the first byte without continuation bit. */
  lemma {:induction false} ContinueStops(acc: int, s: seq<byte>, n: nat)
    requires Ended(s) && EndsAt(s, n)
    ensures Continue(acc, s) == (Groups7(acc, s[..n]), n)
    decreases |s|
  {
    Groups7Front(acc, s[..n]);
    if n > 1 {
      ContinueStops(acc * 128 + s[0] % 128, s[1..], n - 1);
      assert s[..n][1..] == s[1..][..n - 1];
    }
  }

  lemma ParseStops(s: seq<byte>, n: nat)
    requires Ended(s) && EndsAt(s, n)
    ensures Parse(s) == (Groups7(First(s[0]), s[1..n]), n)
  {
    if n > 1 {
      ContinueStops(First(s[0]), s[1..], n - 1);
      assert s[1..][..n - 1] == s[1..n];
    }
  }

  // ------------------------------------------------------------------ what encoding and parsing give

  lemma Split2(v: int)
    ensures v % 0x4000 == v / 0x80 % 128 * 0x80 + v % 0x80
  {
  }

  lemma Split3(v: int)
    ensures v % 0x20_0000 == v / 0x4000 % 128 * 0x4000 + v % 0x4000
  {
  }

  lemma Split4(v: int)
    ensures v % 0x1000_0000 == v / 0x20_0000 % 128 * 0x20_0000 + v % 0x20_0000
  {
  }

  lemma {:induction false} GroupsEnd(v: int, k: nat)
    ensures |Groups(v, k)| == k + 1 && Ended(Groups(v, k))
  {
    if k > 0 {
      GroupsEnd(v, k - 1);
    }
  }

  lemma ContinueNext(acc: int, c: byte, s: seq<byte>)
    requires c >= 128 && Ended(s)
    ensures Ended([c] + s)
    ensures Continue(acc, [c] + s) == (Continue(acc * 128 + c % 128, s).0, Continue(acc * 128 + c % 128, s).1 + 1)
  {
    assert ([c] + s)[1..] == s;
  }

  /** What the groups below the first add up to. */
  lemma Continue0(acc: int, v: int, rest: seq<byte>)
    requires Ended(Groups(v, 0) + rest)
    ensures Continue(acc, Groups(v, 0) + rest) == (acc * 0x80 + v % 0x80, 1)
  {
  }

  lemma Continue1(acc: int, v: int, rest: seq<byte>)
    requires rest == [] || Ended(rest)
    ensures Ended(Groups(v, 1) + rest) && Continue(acc, Groups(v, 1) + rest) == (acc * 0x4000 + v % 0x4000, 2)
  {
    hide Continue;
    var d := v / 0x80 % 128;
    Continue0(acc * 128 + d, v, rest);
    ContinueNext(acc, d + 128, Groups(v, 0) + rest);
    assert Groups(v, 1) + rest == [d + 128] + (Groups(v, 0) + rest);
    Split2(v);
  }

  lemma Continue2(acc: int, v: int, rest: seq<byte>)
    requires rest == [] || Ended(rest)
    ensures Ended(Groups(v, 2) + rest) && Continue(acc, Groups(v, 2) + rest) == (acc * 0x20_0000 + v % 0x20_0000, 3)
  {
    hide Continue;
    var d := v / 0x4000 % 128;
    Continue1(acc * 128 + d, v, rest);
    ContinueNext(acc, d + 128, Groups(v, 1) + rest);
    assert Groups(v, 2) + rest == [d + 128] + (Groups(v, 1) + rest);
    Split3(v);
  }

  lemma Continue3(acc: int, v: int, rest: seq<byte>)
    requires rest == [] || Ended(rest)
    ensures Ended(Groups(v, 3) + rest) && Continue(acc, Groups(v, 3) + rest) == (acc * 0x1000_0000 + v % 0x1000_0000, 4)
  {
    hide Continue;
    var d := v / 0x20_0000 % 128;
    Continue2(acc * 128 + d, v, rest);
    ContinueNext(acc, d + 128, Groups(v, 2) + rest);
    assert Groups(v, 3) + rest == [d + 128] + (Groups(v, 2) + rest);
    Split4(v);
  }

  lemma ParseNext(c: byte, s: seq<byte>)
    requires c >= 128 && Ended(s)
    ensures Ended([c] + s) && Parse([c] + s) == (Continue(First(c), s).0, Continue(First(c), s).1 + 1)
  {
    assert ([c] + s)[1..] == s;
  }

  lemma Short0(v: int, rest: seq<byte>)
    requires (rest == [] || Ended(rest)) && -32 <= v < 96
    ensures Ended(Groups(v, 0) + rest) && Parse(Groups(v, 0) + rest) == (v, 1)
  {
  }

  /** A first group before k others whose continuation is known. */
  lemma ShortNext(v: int, k: nat, rest: seq<byte>, size: int)
    requires 0 < k < 4 && (rest == [] || Ended(rest)) && -32 <= Shifted(v, k) < 96 && size > 0
    requires Ended(Groups(v, k - 1) + rest)
    requires Continue(Shifted(v, k), Groups(v, k - 1) + rest) == (Shifted(v, k) * size + v % size, k)
    requires Shifted(v, k) * size + v % size == v
    ensures Ended(Groups(v, k) + rest) && Parse(Groups(v, k) + rest) == (v, k + 1)
  {
    hide Continue, Parse, First, Shifted;
    var c := Shifted(v, k) % 128 + 128;
    FirstGroup(Shifted(v, k));
    assert Groups(v, k) + rest == [c] + (Groups(v, k - 1) + rest);
    ParseNext(c, Groups(v, k - 1) + rest);
  }

  lemma Whole(v: int)
    ensures Shifted(v, 1) * 0x80 + v % 0x80 == v
    ensures Shifted(v, 2) * 0x4000 + v % 0x4000 == v
    ensures Shifted(v, 3) * 0x20_0000 + v % 0x20_0000 == v
  {
  }

  /** A number whose top group is in the signed range of a first group comes back as it is. */
  lemma ShortForm(v: int, k: nat, rest: seq<byte>)
    requires rest == [] || Ended(rest)
    requires k < 4 && -32 <= Shifted(v, k) < 96
    ensures Ended(Groups(v, k) + rest) && Parse(Groups(v, k) + rest) == (v, k + 1)
  {
    hide Continue, Parse, First, Groups;
    Whole(v);
    if k == 0 {
      Short0(v, rest);
    } else if k == 1 {
      EndedGroups(v, 0, rest);
      Continue0(Shifted(v, 1), v, rest);
      ShortNext(v, 1, rest, 0x80);
    } else if k == 2 {
      Continue1(Shifted(v, 2), v, rest);
      ShortNext(v, 2, rest, 0x4000);
    } else {
      Continue2(Shifted(v, 3), v, rest);
      ShortNext(v, 3, rest, 0x20_0000);
    }
  }

  lemma EndedGroups(v: int, k: nat, rest: seq<byte>)
    requires rest == [] || Ended(rest)
    ensures Ended(Groups(v, k) + rest)
  {
    GroupsEnd(v, k);
  }

  lemma FirstGroup(q: int)
    requires -32 <= q < 96
    ensures First(q % 128 + 128) == q
  {
  }

  lemma FirstLow(q: nat)
    requires q < 16
    ensures First(q + 128) == q
  {
  }

  lemma ExtraFits(v: int)
    requires Extra(v) < 4
    ensures -32 <= Shifted(v, Extra(v)) < 96
  {
  }

  lemma LongForm(c: byte, v: int, rest: seq<byte>)
    requires c >= 128 && (rest == [] || Ended(rest))
    ensures var s := [c] + Groups(v, 3) + rest;
      Ended(s) && Parse(s) == (First(c) * 0x1000_0000 + v % 0x1000_0000, 5)
  {
    hide Continue, Parse, First, Groups;
    Continue3(First(c), v, rest);
    ParseNext(c, Groups(v, 3) + rest);
    assert [c] + Groups(v, 3) + rest == [c] + (Groups(v, 3) + rest);
  }

  /** Python's encoding of any integer is parsed as that integer, up to a multiple of 2^35. */
  lemma PyRoundTrip(v: int, rest: seq<byte>)
    requires rest == [] || Ended(rest)
    ensures var s := PyEncode(v) + rest;
      && Ended(s) && Parse(s).1 == |PyEncode(v)|
      && (Extra(v) < 4 ==> Parse(s).0 == v) && (Parse(s).0 - v) % 0x8_0000_0000 == 0
  {
    hide Continue;
    GroupsEnd(v, Extra(v));
    if Extra(v) < 4 {
      ExtraFits(v);
      ShortForm(v, Extra(v), rest);
    } else {
      var c := Shifted(v, 4) % 128 + 128;
      LongForm(c, v, rest);
      assert PyEncode(v) == [c] + Groups(v, 3);
      Multiple(v, c);
    }
  }

  lemma Multiple(v: int, c: byte)
    requires c == v / 0x1000_0000 % 128 + 128
    ensures (First(c) * 0x1000_0000 + v % 0x1000_0000 - v) % 0x8_0000_0000 == 0
  {
    var q := v / 0x1000_0000;
    var m := First(c) / 128 - q / 128;
    assert First(c) - q == 128 * m || First(c) - q == 128 * (m + 1) || First(c) - q == 128 * (m - 1);
    assert v == q * 0x1000_0000 + v % 0x1000_0000;
  }

  lemma {:induction false} GroupsWrap(v: int, k: nat)
    requires k < 4
    ensures Groups(v - WRAP, k) == Groups(v, k)
  {
    hide Shifted;
    ShiftWrap(v, k);
    if k > 0 {
      GroupsWrap(v, k - 1);
    } else {
      assert (v - WRAP) % 128 == v % 128;
    }
  }

  /** 2^32 is a multiple of 128 groups, in any of the last four places. */
  lemma ShiftWrap(v: int, k: nat)
    requires k < 4
    ensures Shifted(v - WRAP, k) % 128 == Shifted(v, k) % 128
  {
    if k == 0 {
      Moved(v, -0x200_0000);
    } else if k == 1 {
      assert (v - WRAP) / 0x80 == v / 0x80 - 0x200_0000;
      Moved(v / 0x80, -0x4_0000);
    } else if k == 2 {
      assert (v - WRAP) / 0x4000 == v / 0x4000 - 0x4_0000;
      Moved(v / 0x4000, -0x800);
    } else {
      assert (v - WRAP) / 0x20_0000 == v / 0x20_0000 - 0x800;
      Moved(v / 0x20_0000, -0x10);
    }
  }

  lemma Moved(q: int, m: int)
    ensures (q + 128 * m) % 128 == q % 128
  {
  }

  /** The C encoding of a word is parsed as the signed number, unless that is below -2^26. */
  lemma RoundTrip(v: uint32, rest: seq<byte>)
    requires rest == [] || Ended(rest)
    ensures var s := Encode(v) + rest;
      && Ended(s) && Parse(s).1 == |Encode(v)| <= 5
      && Parse(s).0 == if -0x400_0000 <= Signed(v) then Signed(v) else v
  {
    hide Continue, Parse, First, Groups, Shifted;
    var k := Extra(Signed(v));
    if k < 4 {
      GroupsEnd(v, k);
      GroupsWrap(v, k);
      ExtraFits(Signed(v));
      ShortForm(Signed(v), k, rest);
    } else {
      GroupsEnd(v, 3);
      LongForm(v / 0x1000_0000 + 128, v, rest);
      FirstLow(v / 0x1000_0000);
      assert v == v / 0x1000_0000 * 0x1000_0000 + v % 0x1000_0000;
    }
  }

  /** C reads what C writes; so does Python, for unsigned words. */
  lemma WordRoundTrip(v: uint32, rest: seq<byte>)
    requires rest == [] || Ended(rest)
    ensures Ended(Encode(v) + rest) && Parse(Encode(v) + rest).1 == |Encode(v)| && Wrap(Parse(Encode(v) + rest).0) == v
  {
    RoundTrip(v, rest);
  }

  /** C reads what Python writes, up to a multiple of 2^32, for every integer. */
  lemma PyToC(v: int, rest: seq<byte>)
    requires rest == [] || Ended(rest)
    ensures Ended(PyEncode(v) + rest) && Wrap(Parse(PyEncode(v) + rest).0) == Wrap(v)
  {
    PyRoundTrip(v, rest);
    var p := Parse(PyEncode(v) + rest).0;
    var m := (p - v) / 0x8_0000_0000;
    assert p == v + m * 8 * WRAP;
    WrapMultiple(v, m * 8);
  }

  /** Python's signed parse of a C encoding is exact exactly from -2^26 on. */
  lemma SignedExact(v: uint32, rest: seq<byte>)
    requires rest == [] || Ended(rest)
    ensures Ended(Encode(v) + rest) && (Parse(Encode(v) + rest).0 == Signed(v) <==> -0x400_0000 <= Signed(v))
  {
    RoundTrip(v, rest);
  }

  // ------------------------------------------------------------------ lists of words

  function EncodeAll(data: seq<uint32>): seq<byte> {
    if |data| == 0 then [] else EncodeAll(data[..|data| - 1]) + Encode(data[|data| - 1])
  }

  /** message_alloc_and_encode: the encoding, unless it does not fit a payload. */
  method AllocAndEncode(data: seq<uint32>) returns (msg: Option<seq<byte>>)
    ensures msg == if |EncodeAll(data)| <= MESSAGE_PAYLOAD_MAX then Some(EncodeAll(data)) else None
  {
    var out: seq<byte> := [];
    for i := 0 to |data|
      invariant out == EncodeAll(data[..i]) && |out| <= MESSAGE_PAYLOAD_MAX
    {
      assert data[..i + 1][..i] == data[..i];
      RoundTrip(data[i], []);
      out := out + Encode(data[i]);
      assert |out| <= MESSAGE_MAX; // the buffer holds one number too many
      if |out| > MESSAGE_PAYLOAD_MAX {
        Longer(data, i + 1);
        return None;
      }
    }
    assert data[..|data|] == data;
    msg := Some(out);
  }

  lemma {:induction false} Longer(data: seq<uint32>, i: nat)
    requires i <= |data|
    ensures |EncodeAll(data[..i])| <= |EncodeAll(data)|
    decreases |data|
  {
    if i < |data| {
      assert data[..|data| - 1][..i] == data[..i];
      Longer(data[..|data| - 1], i);
    } else {
      assert data[..i] == data;
    }
  }
}
