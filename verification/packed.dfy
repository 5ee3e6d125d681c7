/** Packed replies of the framebuffer observer: run-length pixels with a raw fallback. */
module Packed {
  import opened Machine
  import opened Limbs
  import opened Memory

  const SOURCE_MAX := 65536
  const WIRE_MAX := 4056
  const HEADER := 8
  const RAW := 0
  const RUNS := 1

  datatype Option<T> = None | Some(value: T)

  // ---- the wire format, as a client reads it --------------------------------

  function Repeat(pixel: seq<uint8>, n: nat): (s: seq<uint8>)
    ensures |pixel| == 4 ==> |s| == 4 * n
  {
    if n == 0 then [] else pixel + Repeat(pixel, n - 1)
  }

  /** Pairs of a nonzero little-endian count and one four-byte pixel. */
  function Expand(body: seq<uint8>): Option<seq<uint8>>
    decreases |body|
  {
    if body == [] then Some([])
    else if |body| < 8 || LE(body[..4]) == 0 then None
    else
      match Expand(body[8..])
      case None => None
      case Some(rest) => Some(Repeat(body[4..8], LE(body[..4])) + rest)
  }

  /** The bytes a reply stands for; None when it is malformed. */
  function Decode(wire: seq<uint8>): Option<seq<uint8>> {
    if |wire| < 12 || |wire| > WIRE_MAX then None
    else
      var count, encoding, body := LE(wire[..4]), LE(wire[4..8]), wire[8..];
      if count == 0 || count % 4 != 0 then None
      else if encoding == RAW then if |body| == count then Some(body) else None
      else if encoding != RUNS then None
      else
        match Expand(body)
        case None => None
        case Some(s) => if |s| == count then Some(s) else None
  }

  // ---- byte writes ----------------------------------------------------------

  function Le32(v: nat): (s: seq<uint8>)
    requires v < 0x1_0000_0000
    ensures |s| == 4
  {
    [(v % 256) as uint8, (v / 0x100 % 256) as uint8, (v / 0x1_0000 % 256) as uint8, (v / 0x100_0000) as uint8]
  }

  lemma Le32Value(v: nat)
    requires v < 0x1_0000_0000
    ensures LE(Le32(v)) == v
  {
    var s := Le32(v);
    assert LE(s[3..]) == s[3] as int;
    assert s[2..][1..] == s[3..] && s[1..][1..] == s[2..];
    assert LE(s[2..]) == s[2] as int + 256 * s[3] as int;
    assert v / 0x1_0000 == v / 0x100 / 0x100 && v / 0x100_0000 == v / 0x1_0000 / 0x100;
  }

  method PutLe32(out: array<uint8>, at: nat, v: nat)
    requires at + 4 <= out.Length && v < 0x1_0000_0000
    modifies out
    ensures out[..] == old(out[..at]) + Le32(v) + old(out[at + 4..])
  {
    CopyIn(out, at, Le32(v));
  }

  // ---- runs -----------------------------------------------------------------

  lemma {:induction false} ExpandAppend(a: seq<uint8>, pair: seq<uint8>)
    requires Expand(a).Some? && |pair| == 8 && LE(pair[..4]) > 0
    ensures Expand(a + pair) == Some(Expand(a).value + Repeat(pair[4..8], LE(pair[..4])))
    decreases |a|
  {
    hide LE, Repeat;
    if a == [] {
      assert a + pair == pair && pair[8..] == [];
      var last := Repeat(pair[4..8], LE(pair[..4]));
      assert [] + last == last + [] == last;
    } else {
      var b := a + pair;
      assert b[..4] == a[..4] && b[4..8] == a[4..8] && b[8..] == a[8..] + pair;
      ExpandAppend(a[8..], pair);
      var first, rest, last := Repeat(a[4..8], LE(a[..4])), Expand(a[8..]).value, Repeat(pair[4..8], LE(pair[..4]));
      assert first + (rest + last) == (first + rest) + last;
    }
  }

  /** Bytes [from, from + run) repeat the pixel at `from`. */
  ghost predicate IsRun(s: seq<uint8>, from: nat, run: nat) {
    run % 4 == 0 && from + run <= |s| && forall j | 0 <= j < run :: s[from + j] == s[from + j % 4]
  }

  lemma {:induction false} RunIsRepeat(s: seq<uint8>, from: nat, run: nat)
    requires IsRun(s, from, run) && run >= 4
    ensures s[from..from + run] == Repeat(s[from..from + 4], run / 4)
    decreases run
  {
    hide IsRun, Repeat;
    RunWhole(s, from, run);
    var pixel := s[from..from + 4];
    RepeatLast(pixel, run / 4);
    if run == 4 {
      RepeatNone(pixel);
      assert [] + pixel == pixel;
    } else {
      RunIsRepeat(s, from, run - 4);
      LastPixel(s, from, run);
      assert s[from..from + run] == s[from..from + (run - 4)] + s[from + run - 4..from + run];
    }
  }

  lemma RunWhole(s: seq<uint8>, from: nat, run: nat)
    requires IsRun(s, from, run) && run >= 4
    ensures from + run <= |s| && run % 4 == 0 && run / 4 - 1 == (run - 4) / 4
    ensures run > 4 ==> run >= 8 && IsRun(s, from, run - 4)
  {
  }

  lemma RepeatNone(pixel: seq<uint8>)
    ensures Repeat(pixel, 0) == []
  {
  }

  lemma LastPixel(s: seq<uint8>, from: nat, run: nat)
    requires IsRun(s, from, run) && run >= 4
    ensures s[from + run - 4..from + run] == s[from..from + 4]
  {
    var a, b := s[from + run - 4..from + run], s[from..from + 4];
    forall j | 0 <= j < 4
      ensures a[j] == b[j]
    {
      assert s[from + (run - 4 + j)] == s[from + (run - 4 + j) % 4];
    }
  }

  lemma {:induction false} RepeatLast(pixel: seq<uint8>, n: nat)
    requires n > 0
    ensures Repeat(pixel, n) == Repeat(pixel, n - 1) + pixel
  {
    if n > 1 {
      RepeatLast(pixel, n - 1);
    }
  }

  /** Length of the longest run at `from`, found pixel by pixel. */
  method RunAt(s: seq<uint8>, from: nat) returns (run: nat)
    requires |s| % 4 == 0 && from % 4 == 0 && from + 4 <= |s|
    ensures 4 <= run && IsRun(s, from, run)
    ensures from + run < |s| ==> s[from + run..from + run + 4] != s[from..from + 4]
  {
    run := 4;
    FirstRun(s, from);
    hide IsRun;
    while run < |s| - from && s[from + run..from + run + 4] == s[from..from + 4]
      invariant 4 <= run && run % 4 == 0 && from + run <= |s| && IsRun(s, from, run)
    {
      ExtendRun(s, from, run);
      run := run + 4;
    }
  }

  lemma FirstRun(s: seq<uint8>, from: nat)
    requires from + 4 <= |s|
    ensures IsRun(s, from, 4)
  {
  }

  lemma ExtendRun(s: seq<uint8>, from: nat, run: nat)
    requires IsRun(s, from, run) && from + run + 4 <= |s| && s[from + run..from + run + 4] == s[from..from + 4]
    ensures IsRun(s, from, run + 4)
  {
    SamePixel(s, from + run, from, 0);
    SamePixel(s, from + run, from, 1);
    SamePixel(s, from + run, from, 2);
    SamePixel(s, from + run, from, 3);
    forall j | run <= j < run + 4
      ensures s[from + j] == s[from + j % 4]
    {
      Aligned(run, j - run);
    }
  }

  lemma SamePixel(s: seq<uint8>, a: nat, b: nat, d: nat)
    requires a + 4 <= |s| && b + 4 <= |s| && s[a..a + 4] == s[b..b + 4] && d < 4
    ensures s[a + d] == s[b + d]
  {
    assert s[a..a + 4][d] == s[a + d] && s[b..b + 4][d] == s[b + d];
  }

  lemma Aligned(run: nat, d: nat)
    requires run % 4 == 0 && d < 4
    ensures (run + d) % 4 == d
  {
  }

  lemma ExpandNone()
    ensures Expand([]) == Some([])
  {
  }

  // ---- packed_read -----------------------------------------------------------

  /** The run loop: `written` bytes of the reply stand for `consumed` source bytes. */
  method PackRuns(out: array<uint8>, source: seq<uint8>) returns (consumed: nat, written: nat)
    requires out.Length >= WIRE_MAX && 0 < |source| <= SOURCE_MAX && |source| % 4 == 0
    modifies out
    ensures 4 <= consumed <= |source| && consumed % 4 == 0 && 16 <= written <= WIRE_MAX
    ensures Expand(out[8..written]) == Some(source[..consumed])
    ensures consumed < |source| ==> written + 8 > WIRE_MAX
    ensures forall j | written <= j < out.Length :: out[j] == old(out[j])
  {
    hide Expand, Repeat, LE;
    consumed, written := 0, HEADER;
    assert out[8..8] == [] && source[..0] == [];
    ExpandNone();
    while consumed < |source| && written + 8 <= WIRE_MAX
      invariant consumed <= |source| && consumed % 4 == 0
      invariant 8 <= written <= WIRE_MAX && written % 8 == 0
      invariant consumed == 0 ==> written == 8
      invariant consumed > 0 ==> consumed >= 4 && written >= 16
      invariant Expand(out[8..written]) == Some(source[..consumed])
      invariant forall j | written <= j < out.Length :: out[j] == old(out[j])
      decreases |source| - consumed
    {
      var run := PackRun(out, source, consumed, written);
      consumed, written := consumed + run, written + 8;
    }
  }

  method PackRun(out: array<uint8>, source: seq<uint8>, consumed: nat, at: nat) returns (run: nat)
    requires 8 <= at && at + 8 <= out.Length && consumed < |source| <= SOURCE_MAX && |source| % 4 == 0
             && consumed % 4 == 0
    requires Expand(out[8..at]) == Some(source[..consumed])
    modifies out
    ensures run >= 4 && run % 4 == 0 && consumed + run <= |source|
    ensures Expand(out[8..at + 8]) == Some(source[..consumed + run])
    ensures forall j | at + 8 <= j < out.Length :: out[j] == old(out[j])
  {
    hide Expand, Repeat, LE;
    run := RunAt(source, consumed);
    PutPair(out, at, run / 4, source[consumed..consumed + 4]);
    RunIsRepeat(source, consumed, run);
    assert source[..consumed] + source[consumed..consumed + run] == source[..consumed + run];
  }

  method PutPair(out: array<uint8>, at: nat, count: nat, pixel: seq<uint8>)
    requires 8 <= at && at + 8 <= out.Length && 0 < count < 0x1_0000_0000 && |pixel| == 4
    requires Expand(out[8..at]).Some?
    modifies out
    ensures Expand(out[8..at + 8]) == Some(old(Expand(out[8..at])).value + Repeat(pixel, count))
    ensures forall j | at + 8 <= j < out.Length :: out[j] == old(out[j])
  {
    hide Expand, Repeat, LE;
    ghost var before := out[8..at];
    PutLe32(out, at, count);
    CopyIn(out, at + 4, pixel);
    var pair := Le32(count) + pixel;
    assert out[8..at + 8] == before + pair;
    assert pair[..4] == Le32(count) && pair[4..8] == pixel;
    Le32Value(count);
    ExpandAppend(before, pair);
  }

  method PutHeader(out: array<uint8>, count: nat, encoding: nat)
    requires out.Length >= 8 && count < 0x1_0000_0000 && encoding < 0x1_0000_0000
    modifies out
    ensures LE(out[..4]) == count && LE(out[4..8]) == encoding && out[8..] == old(out[8..])
  {
    PutLe32(out, 0, count);
    PutLe32(out, 4, encoding);
    assert out[..4] == Le32(count) && out[4..8] == Le32(encoding);
    Le32Value(count);
    Le32Value(encoding);
  }

  lemma Headed(wire: seq<uint8>, all: seq<uint8>, n: nat)
    requires 12 <= n <= |all| && wire == all[..n]
    ensures wire[..4] == all[..4] && wire[4..8] == all[4..8] && wire[8..] == all[8..n]
  {
  }

  /** packed_read: the reply decodes to exactly the source prefix it claims, is never
      empty, fits the wire, and covers at least what a raw reply would, in no more bytes. */
  method PackedRead(out: array<uint8>, source: seq<uint8>) returns (n: nat)
    requires out.Length >= WIRE_MAX && 0 < |source| <= SOURCE_MAX && |source| % 4 == 0
    modifies out
    ensures 12 <= n <= WIRE_MAX
    ensures Decode(out[..n]).Some? && Decode(out[..n]).value <= source
    ensures var k := |Decode(out[..n]).value|;
            k >= 4 && k % 4 == 0 && (k == |source| || k >= WIRE_MAX - HEADER) && n <= k + HEADER
    ensures out[WIRE_MAX..] == old(out[WIRE_MAX..])
  {
    hide Decode, Expand;
    var consumed, written := PackRuns(out, source);
    var raw := if |source| > WIRE_MAX - HEADER then WIRE_MAX - HEADER else |source|;
    if consumed < raw || (consumed == raw && written >= raw + HEADER) {
      n := PutRaw(out, source, raw);
      return;
    }
    PutRuns(out, source, consumed, written);
    n := written;
  }

  method PutRuns(out: array<uint8>, source: seq<uint8>, consumed: nat, n: nat)
    requires out.Length >= WIRE_MAX && 0 < consumed <= |source| <= SOURCE_MAX && consumed % 4 == 0
             && 16 <= n <= WIRE_MAX
    requires Expand(out[8..n]) == Some(source[..consumed])
    modifies out
    ensures Decode(out[..n]) == Some(source[..consumed])
    ensures out[WIRE_MAX..] == old(out[WIRE_MAX..])
  {
    hide Expand, LE;
    ghost var body := out[8..n];
    PutHeader(out, consumed, RUNS);
    assert out[8..n] == out[8..][..n - 8] == body;
    Headed(out[..n], out[..], n);
    assert out[..n][..4] == out[..4] && out[..n][4..8] == out[4..8];
    assert out[WIRE_MAX..] == out[8..][WIRE_MAX - 8..];
  }

  method PutRaw(out: array<uint8>, source: seq<uint8>, raw: nat) returns (n: nat)
    requires out.Length >= WIRE_MAX && 0 < raw <= |source| && raw % 4 == 0 && raw <= WIRE_MAX - HEADER
    modifies out
    ensures n == raw + HEADER && Decode(out[..n]) == Some(source[..raw])
    ensures out[WIRE_MAX..] == old(out[WIRE_MAX..])
  {
    CopyIn(out, HEADER, source[..raw]);
    assert out[8..raw + 8] == source[..raw];
    ghost var tail := out[8..];
    assert tail[..raw] == source[..raw];
    PutHeader(out, raw, RAW);
    n := raw + HEADER;
    assert out[8..n] == out[8..][..raw] == tail[..raw];
    Headed(out[..n], out[..], n);
    assert out[..n][..4] == out[..4] && out[..n][4..8] == out[4..8];
    assert out[WIRE_MAX..] == out[8..][WIRE_MAX - 8..];
  }

  // ---- the client -------------------------------------------------------------

  lemma Extends(s: seq<uint8>, got: seq<uint8>, length: nat, part: seq<uint8>)
    requires got <= s && |got| + length <= |s| && part <= s[|got|..|got| + length]
    ensures got + part <= s
  {
  }

  /** A client that asks again from where the last reply ended gets the whole
      snapshot, byte for byte, and no reply but the last brings less than a raw one. */
  method FetchAll(out: array<uint8>, snapshot: seq<uint8>) returns (got: seq<uint8>, replies: nat)
    requires out.Length >= WIRE_MAX && |snapshot| % 4 == 0
    modifies out
    ensures got == snapshot
    ensures replies * (WIRE_MAX - HEADER) < |snapshot| + (WIRE_MAX - HEADER)
  {
    hide Decode;
    got, replies := [], 0;
    while |got| < |snapshot|
      invariant got <= snapshot && |got| % 4 == 0
      invariant replies * (WIRE_MAX - HEADER) <= |got| + (if |got| == |snapshot| then WIRE_MAX - HEADER - 1 else 0)
      decreases |snapshot| - |got|
    {
      var offset := |got|;
      var length := if |snapshot| - offset > SOURCE_MAX then SOURCE_MAX else |snapshot| - offset;
      var n := PackedRead(out, snapshot[offset..offset + length]);
      var part := Decode(out[..n]).value;
      Extends(snapshot, got, length, part);
      got, replies := got + part, replies + 1;
    }
  }
}
