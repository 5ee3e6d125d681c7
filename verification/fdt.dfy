/** The flattened device tree format (version 17), as a reader sees it:
    chapter 5 of the Devicetree Specification. */
module DeviceTree {
  import opened Machine

  type Bytes = seq<uint8>

  const MAGIC := 0xD00D_FEED
  const BEGIN := 1
  const END := 2
  const PROP := 3
  const NOP := 4
  const FINISH := 9
  const HEADER := 40
  const RESERVED := 16

  datatype Option<T> = None | Some(value: T)

  /** What a structure block says, token by token. */
  datatype Event = Begin(name: Bytes) | Property(name: Bytes, value: Bytes) | End

  function BE(s: Bytes): nat
    requires |s| == 4
  {
    s[0] as nat * 0x100_0000 + s[1] as nat * 0x1_0000 + s[2] as nat * 0x100 + s[3] as nat
  }

  /** Bytes needed to reach the next multiple of four. */
  function Gap(n: nat): nat { (4 - n % 4) % 4 }

  /** Position of the first zero byte at or after `from`. */
  function NulAt(s: Bytes, from: nat): (n: nat)
    requires from <= |s|
    ensures from <= n <= |s| && (n < |s| ==> s[n] == 0) && forall i | from <= i < n :: s[i] != 0
    decreases |s| - from
  {
    if from == |s| || s[from] == 0 then from else NulAt(s, from + 1)
  }

  /** The string at an offset of the strings block. */
  function NameAt(strings: Bytes, off: nat): Option<Bytes> {
    if off > |strings| || NulAt(strings, off) == |strings| then None else Some(strings[off..NulAt(strings, off)])
  }

  datatype Token = Bad | Stop | Skip(next: nat) | Found(event: Event, next: nat)

  /** The token at the front of a structure block. */
  function Next(s: Bytes, strings: Bytes): (t: Token)
    ensures t.Skip? || t.Found? ==> 4 <= t.next <= |s|
  {
    if |s| < 4 then Bad
    else
      var token := BE(s[..4]);
      if token == FINISH then if |s| == 4 then Stop else Bad
      else if token == NOP then Skip(4)
      else if token == END then Found(End, 4)
      else if token == BEGIN then
        var nul := NulAt(s, 4);
        var next := nul + 1 + Gap(nul + 1);
        if next > |s| then Bad else Found(Begin(s[4..nul]), next)
      else if token == PROP && |s| >= 12 then
        var len, name := BE(s[4..8]), NameAt(strings, BE(s[8..12]));
        var next := 12 + len + Gap(len);
        if next > |s| || name.None? then Bad else Found(Property(name.value, s[12..12 + len]), next)
      else Bad
  }

  function ReadEvents(s: Bytes, strings: Bytes): Option<seq<Event>>
    decreases |s|
  {
    match Next(s, strings)
    case Bad => None
    case Stop => Some([])
    case Skip(next) => ReadEvents(s[next..], strings)
    case Found(event, next) =>
      match ReadEvents(s[next..], strings)
      case None => None
      case Some(rest) => Some([event] + rest)
  }

  function Word(blob: Bytes, at: nat): nat
    requires at + 4 <= |blob|
  {
    BE(blob[at..at + 4])
  }

  /** A whole blob: header, empty reservation map, structure and strings blocks. */
  function ReadBlob(blob: Bytes): Option<seq<Event>> {
    if |blob| < HEADER + RESERVED || Word(blob, 0) != MAGIC || Word(blob, 4) != |blob| then None
    else if Word(blob, 20) != 17 || Word(blob, 24) != 16 then None
    else ReadBlocks(blob, Word(blob, 8), Word(blob, 36), Word(blob, 12), Word(blob, 32), Word(blob, 16))
  }

  /** The blocks a header points to, in order and inside the blob. */
  function ReadBlocks(blob: Bytes, at: nat, size: nat, stringsAt: nat, strings: nat, reserved: nat)
    : Option<seq<Event>>
  {
    if at % 4 != 0 || reserved % 8 != 0 || reserved < HEADER || reserved + RESERVED > at then None
    else if at + size > stringsAt || stringsAt + strings > |blob| then None
    else if exists i | reserved <= i < reserved + RESERVED :: blob[i] != 0 then None
    else ReadEvents(blob[at..at + size], blob[stringsAt..stringsAt + strings])
  }

  // ---- trees ------------------------------------------------------------------

  datatype Node = Node(name: Bytes, items: List)
  datatype List = Nil | PropItem(name: Bytes, value: Bytes, rest: List) | Child(node: Node, more: List)

  /** The calls that build a node, and a node's items. */
  function Calls(n: Node): seq<Event> {
    [Begin(n.name)] + ItemCalls(n.items) + [End]
  }

  function ItemCalls(l: List): seq<Event> {
    match l
    case Nil => []
    case PropItem(name, value, rest) => [Property(name, value)] + ItemCalls(rest)
    case Child(node, more) => Calls(node) + ItemCalls(more)
  }

  /** Items up to the End that closes them, and what follows it. */
  function ParseItems(ev: seq<Event>): (r: Option<(List, seq<Event>)>)
    ensures r.Some? ==> |r.value.1| < |ev|
    decreases |ev|
  {
    if ev == [] then None
    else
      match ev[0]
      case End => Some((Nil, ev[1..]))
      case Property(name, value) =>
        (match ParseItems(ev[1..])
         case None => None
         case Some((rest, after)) => Some((PropItem(name, value, rest), after)))
      case Begin(name) =>
        match ParseItems(ev[1..])
        case None => None
        case Some((items, after)) =>
          match ParseItems(after)
          case None => None
          case Some((more, end)) => Some((Child(Node(name, items), more), end))
  }

  function ParseTree(ev: seq<Event>): Option<Node> {
    if ev == [] || !ev[0].Begin? then None
    else
      match ParseItems(ev[1..])
      case None => None
      case Some((items, after)) => if after == [] then Some(Node(ev[0].name, items)) else None
  }

  /** The tree a blob holds. */
  function ReadTree(blob: Bytes): Option<Node> {
    match ReadBlob(blob)
    case None => None
    case Some(ev) => ParseTree(ev)
  }

  lemma Regroup(b: Event, items: seq<Event>, more: seq<Event>, after: seq<Event>)
    ensures ([b] + items + [End]) + more + [End] + after == [b] + (items + [End] + (more + [End] + after))
  {
  }

  lemma ParseBegin(name: Bytes, inner: seq<Event>, items: List, tail: seq<Event>, more: List, after: seq<Event>)
    requires ParseItems(inner) == Some((items, tail)) && ParseItems(tail) == Some((more, after))
    ensures ParseItems([Begin(name)] + inner) == Some((Child(Node(name, items), more), after))
  {
    assert ([Begin(name)] + inner)[1..] == inner;
  }

  lemma {:induction false} ItemsParse(l: List, after: seq<Event>)
    ensures ParseItems(ItemCalls(l) + [End] + after) == Some((l, after))
    decreases l
  {
    var ev := ItemCalls(l) + [End] + after;
    match l
    case Nil =>
      assert ev == [End] + after && ev[1..] == after;
    case PropItem(name, value, rest) =>
      ItemsParse(rest, after);
      assert ev[0] == Property(name, value) && ev[1..] == ItemCalls(rest) + [End] + after;
    case Child(node, more) =>
      var tail := ItemCalls(more) + [End] + after;
      var inner := ItemCalls(node.items) + [End] + tail;
      ItemsParse(node.items, tail);
      ItemsParse(more, after);
      hide ParseItems;
      Regroup(Begin(node.name), ItemCalls(node.items), ItemCalls(more), after);
      assert ItemCalls(l) == ([Begin(node.name)] + ItemCalls(node.items) + [End]) + ItemCalls(more);
      ParseBegin(node.name, inner, node.items, tail, more, after);
  }

  /** The calls of a tree determine it. */
  lemma TreeParse(n: Node)
    ensures ParseTree(Calls(n)) == Some(n)
  {
    ItemsParse(n.items, []);
    assert Calls(n)[1..] == ItemCalls(n.items) + [End] + [];
  }

  // ---- the format, written ------------------------------------------------------

  function Be32(v: nat): (s: Bytes)
    requires v < 0x1_0000_0000
    ensures |s| == 4
  {
    [(v / 0x100_0000) as uint8, (v / 0x1_0000 % 0x100) as uint8, (v / 0x100 % 0x100) as uint8, (v % 0x100) as uint8]
  }

  lemma Be32Value(v: nat)
    requires v < 0x1_0000_0000
    ensures BE(Be32(v)) == v
  {
    assert v / 0x1_0000 == v / 0x100 / 0x100 && v / 0x100_0000 == v / 0x1_0000 / 0x100;
  }

  function Zeros(n: nat): (s: Bytes)
    ensures |s| == n && forall i | 0 <= i < n :: s[i] == 0
  {
    seq(n, _ => 0)
  }

  lemma ZerosMore(s: Bytes, k: nat)
    ensures s + Zeros(k) + [0] == s + Zeros(k + 1)
  {
  }

  lemma GapReached(n: nat, k: nat)
    requires k <= Gap(n)
    ensures (n + k) % 4 == 0 <==> k == Gap(n)
  {
  }

  /** A C string: no zero byte inside. */
  predicate IsName(s: Bytes) { forall i | 0 <= i < |s| :: s[i] != 0 }

  /** An event together with where its property name was interned. */
  datatype Rec = Rec(event: Event, off: nat)

  predicate Fits(r: Rec) {
    && r.off < 0x1_0000_0000
    && match r.event
       case Begin(name) => IsName(name)
       case Property(name, value) => IsName(name) && |value| < 0x1_0000_0000
       case End => true
  }

  function Encode(r: Rec): (s: Bytes)
    requires Fits(r)
  {
    match r.event
    case Begin(name) => Be32(BEGIN) + name + [0] + Zeros(Gap(|name| + 1))
    case Property(name, value) => Be32(PROP) + Be32(|value|) + Be32(r.off) + value + Zeros(Gap(|value|))
    case End => Be32(END)
  }

  function EncodeAll(recs: seq<Rec>): Bytes
    requires forall i | 0 <= i < |recs| :: Fits(recs[i])
  {
    if recs == [] then [] else Encode(recs[0]) + EncodeAll(recs[1..])
  }

  function EventsOf(recs: seq<Rec>): seq<Event> {
    seq(|recs|, i requires 0 <= i < |recs| => recs[i].event)
  }

  /** Offset `off` of the strings block holds exactly `name`. */
  predicate Interned(strings: Bytes, off: nat, name: Bytes) {
    off + |name| < |strings| && strings[off..off + |name|] == name && strings[off + |name|] == 0
  }

  predicate AllInterned(strings: Bytes, recs: seq<Rec>) {
    forall i | 0 <= i < |recs| && recs[i].event.Property? :: Interned(strings, recs[i].off, recs[i].event.name)
  }

  // ---- reading back what was written ----------------------------------------------

  lemma {:induction false} NulUnique(s: Bytes, from: nat, n: nat)
    requires from <= n < |s| && s[n] == 0 && forall i | from <= i < n :: s[i] != 0
    ensures NulAt(s, from) == n
    decreases n - from
  {
    if from < n {
      NulUnique(s, from + 1, n);
    }
  }

  lemma InternedName(strings: Bytes, off: nat, name: Bytes)
    requires Interned(strings, off, name) && IsName(name)
    ensures NameAt(strings, off) == Some(name)
  {
    forall i | off <= i < off + |name|
      ensures strings[i] != 0
    {
      assert strings[i] == name[i - off];
    }
    NulUnique(strings, off, off + |name|);
  }

  lemma NextBegin(name: Bytes, rest: Bytes, strings: Bytes)
    requires IsName(name)
    ensures var e := Encode(Rec(Begin(name), 0)); Next(e + rest, strings) == Found(Begin(name), |e|)
  {
    var s := Encode(Rec(Begin(name), 0)) + rest;
    Be32Value(BEGIN);
    assert s[..4] == Be32(BEGIN);
    forall i | 0 <= i < |name|
      ensures s[4 + i] == name[i]
    {
    }
    var nul := 4 + |name|;
    assert s[nul] == 0;
    assert forall i | 4 <= i < nul :: s[i] == name[i - 4];
    NulUnique(s, 4, nul);
    assert s[4..nul] == name;
    hide BE, Be32;
  }

  lemma NextProperty(name: Bytes, value: Bytes, off: nat, rest: Bytes, strings: Bytes)
    requires Fits(Rec(Property(name, value), off)) && Interned(strings, off, name)
    ensures var e := Encode(Rec(Property(name, value), off));
            Next(e + rest, strings) == Found(Property(name, value), |e|)
  {
    var s := Encode(Rec(Property(name, value), off)) + rest;
    Be32Value(PROP);
    Be32Value(|value|);
    Be32Value(off);
    InternedName(strings, off, name);
    hide BE, Be32, NameAt, Interned;
    assert s[..4] == Be32(PROP);
    assert s[4..8] == Be32(|value|);
    assert s[8..12] == Be32(off);
    assert s[12..12 + |value|] == value;
  }

  lemma NextEnd(rest: Bytes, strings: Bytes)
    ensures Next(Be32(END) + rest, strings) == Found(End, 4)
  {
    var s := Be32(END) + rest;
    Be32Value(END);
    assert s[..4] == Be32(END);
  }

  lemma NextIs(r: Rec, rest: Bytes, strings: Bytes)
    requires Fits(r) && (r.event.Property? ==> Interned(strings, r.off, r.event.name))
    ensures Next(Encode(r) + rest, strings) == Found(r.event, |Encode(r)|)
  {
    match r.event
    case Begin(name) => NextBegin(name, rest, strings);
    case Property(name, value) => NextProperty(name, value, r.off, rest, strings);
    case End => NextEnd(rest, strings);
  }

  lemma ReadEnd(strings: Bytes)
    ensures ReadEvents(Be32(FINISH), strings) == Some([])
  {
    Be32Value(FINISH);
    hide Be32, BE;
    assert Be32(FINISH)[..4] == Be32(FINISH);
  }

  /** A structure block reads back as the events it was written from. */
  lemma {:induction false} ReadBack(recs: seq<Rec>, strings: Bytes)
    requires (forall i | 0 <= i < |recs| :: Fits(recs[i])) && AllInterned(strings, recs)
    ensures ReadEvents(EncodeAll(recs) + Be32(FINISH), strings) == Some(EventsOf(recs))
    decreases |recs|
  {
    hide Next, Encode, Be32, Interned, Fits;
    if recs == [] {
      ReadEnd(strings);
      assert EncodeAll(recs) + Be32(FINISH) == Be32(FINISH);
    } else {
      var first, rest := Encode(recs[0]), EncodeAll(recs[1..]) + Be32(FINISH);
      assert EncodeAll(recs) + Be32(FINISH) == first + rest;
      NextIs(recs[0], rest, strings);
      ReadBack(recs[1..], strings);
      assert (first + rest)[|first|..] == rest;
      assert EventsOf(recs) == [recs[0].event] + EventsOf(recs[1..]);
    }
  }

  lemma {:induction false} EncodeAppend(recs: seq<Rec>, r: Rec)
    requires (forall i | 0 <= i < |recs| :: Fits(recs[i])) && Fits(r)
    ensures EncodeAll(recs + [r]) == EncodeAll(recs) + Encode(r)
    decreases |recs|
  {
    hide Encode;
    if recs != [] {
      EncodeAppend(recs[1..], r);
      assert (recs + [r])[1..] == recs[1..] + [r];
    } else {
      assert (recs + [r])[1..] == [];
      assert recs + [r] == [r];
    }
  }

  lemma GapAligns(n: nat)
    ensures (n + Gap(n)) % 4 == 0
  {
  }

  lemma AlignedSum(a: nat, b: nat)
    requires a % 4 == 0 && b % 4 == 0
    ensures (a + b) % 4 == 0 && (a + b) / 4 == a / 4 + b / 4
  {
  }

  lemma EncodedAligned(r: Rec)
    requires Fits(r)
    ensures |Encode(r)| % 4 == 0
  {
    hide Gap, Be32, Zeros;
    match r.event
    case Begin(name) =>
      GapAligns(|name| + 1);
      AlignedSum(4, |name| + 1 + Gap(|name| + 1));
    case Property(name, value) =>
      GapAligns(|value|);
      AlignedSum(12, |value| + Gap(|value|));
    case End =>
  }

  lemma {:induction false} EncodeAligned(recs: seq<Rec>)
    requires forall i | 0 <= i < |recs| :: Fits(recs[i])
    ensures |EncodeAll(recs)| % 4 == 0
    decreases |recs|
  {
    if recs != [] {
      hide Encode;
      EncodedAligned(recs[0]);
      EncodeAligned(recs[1..]);
      AlignedSum(|Encode(recs[0])|, |EncodeAll(recs[1..])|);
    }
  }

  /** Interning more names disturbs none already interned. */
  lemma InternedSurvives(strings: Bytes, more: Bytes, recs: seq<Rec>)
    requires AllInterned(strings, recs)
    ensures AllInterned(strings + more, recs)
  {
    forall i | 0 <= i < |recs| && recs[i].event.Property?
      ensures Interned(strings + more, recs[i].off, recs[i].event.name)
    {
      var off, name := recs[i].off, recs[i].event.name;
      assert (strings + more)[off..off + |name|] == strings[off..off + |name|];
    }
  }
}

/** The builder: one buffer, structure and strings growing in its two halves. */
module FdtBuilder {
  import opened Machine
  import opened Memory
  import opened DeviceTree

  const START := HEADER + RESERVED

  /** The parts of the buffer in use: header, structure block and strings block. */
  datatype Image = Image(head: Bytes, body: Bytes, strings: Bytes)

  /** Strings end with a zero byte, so that a search cannot run off the block. */
  predicate Terminated(strings: Bytes) { strings == [] || strings[|strings| - 1] == 0 }

  ghost predicate Built(im: Image, recs: seq<Rec>) {
    && im.head == Zeros(START) && Terminated(im.strings)
    && (forall i | 0 <= i < |recs| :: Fits(recs[i]))
    && AllInterned(im.strings, recs) && im.body == EncodeAll(recs)
  }

  /** One more call: its bytes appended, its name interned. */
  lemma Extended(im: Image, recs: seq<Rec>, r: Rec, next: Image, more: Bytes)
    requires Built(im, recs) && Fits(r) && next.head == im.head && next.body == im.body + Encode(r)
    requires next.strings == im.strings + more && Terminated(next.strings)
    requires r.event.Property? ==> Interned(next.strings, r.off, r.event.name)
    ensures Built(next, recs + [r])
  {
    EncodeAppend(recs, r);
    InternedSurvives(im.strings, more, recs);
    hide Encode, Interned, EncodeAll;
  }

  lemma ExtendedBody(im: Image, recs: seq<Rec>, r: Rec)
    requires Built(im, recs) && Fits(r) && !r.event.Property?
    ensures Built(im.(body := im.body + Encode(r)), recs + [r])
  {
    assert im.strings + [] == im.strings;
    Extended(im, recs, r, im.(body := im.body + Encode(r)), []);
  }

  lemma Spliced(old_: Bytes, new_: Bytes, data: Bytes, off: nat, strings: nat)
    requires START + off + |data| <= strings <= |old_|
    requires new_ == old_[..START + off] + data + old_[START + off + |data|..]
    ensures |new_| == |old_| && new_[..START] == old_[..START] && new_[strings..] == old_[strings..]
    ensures new_[START..START + off + |data|] == old_[START..START + off] + data
  {
  }

  /** Where an entry of the strings block starts. */
  predicate Entry(strings: Bytes, off: nat) {
    off < |strings| && (off == 0 || strings[off - 1] == 0)
  }

  predicate Known(strings: Bytes, name: Bytes) {
    exists off | 0 <= off < |strings| :: Entry(strings, off) && Interned(strings, off, name)
  }

  /** An absent string counts as the empty one. */
  function Text(s: Option<Bytes>): Bytes { if s.Some? then s.value else [] }

  /** The sticky error code after a step that fails with `code` unless ok. */
  function After(error: int, ok: bool, code: int): int {
    if error != 0 then error else if ok then 0 else code
  }

  class Builder {
    const buf: array<uint8>
    var structOff: nat
    var strOff: nat
    var error: int
    ghost var recs: seq<Rec>

    function StrStart(): nat { buf.Length / 2 }

    ghost predicate Bounds()
      reads this
    {
      && buf.Length < 0x1_0000_0000
      && (error == 0 ==> START + structOff <= StrStart() && StrStart() + strOff <= buf.Length)
    }

    /** n more bytes of structure fit below the strings. */
    predicate Room(n: nat)
      reads this
    {
      START + structOff + n <= StrStart()
    }

    /** The name is stored already, or there is room to store it. */
    ghost predicate NameRoom(name: Bytes)
      reads this, buf
      requires Bounds() && error == 0
    {
      Known(Now().strings, name) || StrStart() + strOff + |name| < buf.Length
    }

    /** Bytes a name adds to the table. */
    ghost function NameBytes(name: Bytes): nat
      reads this, buf
      requires Bounds() && error == 0
    {
      if Known(Now().strings, name) then 0 else |name| + 1
    }

    /** The error code after adding a property with n value bytes. */
    ghost function PropOutcome(name: Bytes, n: nat): int
      reads this, buf
      requires Bounds()
    {
      After(After(error, error == 0 && NameRoom(name), -2), Room(12 + n + Gap(n)), -1)
    }

    ghost function Now(): Image
      reads this, buf
      requires Bounds() && error == 0
    {
      Image(buf[..][..START], buf[..][START..START + structOff], buf[..][StrStart()..][..strOff])
    }

    /** While no error is recorded the buffer holds the encoded calls so far. */
    ghost predicate Valid()
      reads this, buf
    {
      Bounds() && (error == 0 ==> Built(Now(), recs))
    }

    constructor (buf: array<uint8>)
      requires buf.Length < 0x1_0000_0000
      modifies buf
      ensures this.buf == buf && Valid() && (error == 0 <==> buf.Length >= START + 64)
      ensures error == 0 ==> recs == [] && structOff == strOff == 0
    {
      this.buf := buf;
      structOff, strOff, error, recs := 0, 0, 0, [];
      new;
      if buf.Length < START + 64 {
        error := -3;
        return;
      }
      for i := 0 to START
        invariant forall j | 0 <= j < i :: buf[j] == 0
        invariant error == 0 && structOff == 0 && strOff == 0 && recs == []
      {
        buf[i] := 0;
      }
      assert buf[..START] == Zeros(START);
    }

    /** emit_bytes */
    method Emit(data: Bytes)
      requires Bounds()
      modifies this`structOff, this`error, buf
      ensures Bounds() && error == After(old(error), old(Room(|data|)), -1)
      ensures error == 0 ==> old(error) == 0 && structOff == old(structOff) + |data|
                             && Now() == old(Now()).(body := old(Now()).body + data)
    {
      if error != 0 || |data| == 0 {
        assert error == 0 ==> Now().body == Now().body + data;
        return;
      }
      var pos := START + structOff;
      if pos + |data| > StrStart() {
        error := -1;
        return;
      }
      CopyIn(buf, pos, data);
      Spliced(old(buf[..]), buf[..], data, structOff, StrStart());
      structOff := structOff + |data|;
    }

    method EmitU32(v: nat)
      requires Bounds() && v < 0x1_0000_0000
      modifies this`structOff, this`error, buf
      ensures Bounds() && error == After(old(error), old(Room(4)), -1)
      ensures error == 0 ==> old(error) == 0 && structOff == old(structOff) + 4
                             && Now() == old(Now()).(body := old(Now()).body + Be32(v))
    {
      Emit(Be32(v));
    }

    /** emit_str: byte by byte, then the terminator. */
    method EmitStr(s: Bytes)
      requires Bounds()
      modifies this`structOff, this`error, buf
      ensures Bounds() && error == After(old(error), old(Room(|s| + 1)), -1)
      ensures error == 0 ==> old(error) == 0 && Now() == old(Now()).(body := old(Now()).body + s + [0])
    {
      if error != 0 {
        return;
      }
      ghost var body := Now().body;
      assert body + s[..0] == body;
      for i := 0 to |s|
        invariant Bounds() && error == After(0, old(Room(i)), -1)
        invariant error == 0 ==> structOff == old(structOff) + i && Now() == old(Now()).(body := body + s[..i])
      {
        Emit([s[i]]);
        assert body + s[..i] + [s[i]] == body + s[..i + 1];
      }
      Emit([0]);
      assert s[..|s|] == s;
    }

    method EmitAlign4()
      requires Bounds()
      modifies this`structOff, this`error, buf
      ensures Bounds() && error == After(old(error), old(Room(Gap(structOff))), -1)
      ensures error == 0 ==> old(error) == 0
      ensures error == 0 ==> Now() == old(Now()).(body := old(Now()).body + Zeros(Gap(old(structOff))))
    {
      hide Now, Gap, Zeros;
      if error != 0 {
        return;
      }
      ghost var body := Now().body;
      ghost var k := 0;
      assert body + Zeros(0) == body;
      while error == 0 && structOff % 4 != 0
        invariant Bounds() && k <= Gap(old(structOff)) && error == After(0, old(Room(k)), -1)
        invariant error == 0 ==> structOff == old(structOff) + k && Now() == old(Now()).(body := body + Zeros(k))
        decreases Gap(old(structOff)) - k
      {
        GapReached(old(structOff), k);
        Emit([0]);
        ZerosMore(body, k);
        k := k + 1;
      }
      GapReached(old(structOff), k);
    }

    // ---- the strings block ------------------------------------------------------

    /** The search of str_intern: an entry equal to s, if the walk meets one. */
    method Search(s: Bytes) returns (found: bool, off: nat)
      requires Bounds() && error == 0 && Terminated(Now().strings) && IsName(s)
      ensures found <==> Known(Now().strings, s)
      ensures found ==> Interned(Now().strings, off, s)
    {
      ghost var strings := Now().strings;
      var base := StrStart();
      var i := 0;
      while i < strOff
        invariant i <= strOff && (i < strOff ==> Entry(strings, i))
        invariant forall k | 0 <= k < i && Entry(strings, k) :: !Interned(strings, k, s)
        decreases strOff - i
      {
        var hit := Matches(s, i);
        if hit {
          return true, i;
        }
        var from := i;
        while i < strOff && buf[base + i] != 0
          invariant from <= i <= strOff
          invariant i == strOff ==> from < strOff && strings[strOff - 1] != 0
          invariant forall k | from <= k < i :: strings[k] != 0
        {
          assert strings[i] == buf[base + i];
          i := i + 1;
        }
        assert i < strOff && strings[i] == buf[base + i];
        i := i + 1;
      }
      return false, 0;
    }

    /** The entry at offset i, compared with s and its terminator. */
    method Matches(s: Bytes, i: nat) returns (hit: bool)
      requires Bounds() && error == 0 && Terminated(Now().strings) && IsName(s) && i < strOff
      ensures hit <==> Interned(Now().strings, i, s)
    {
      ghost var strings := Now().strings;
      var base := StrStart() + i;
      var j := 0;
      while buf[base + j] != 0 && j < |s| && buf[base + j] == s[j]
        invariant j <= |s| && i + j < strOff
        invariant forall k | 0 <= k < j :: strings[i + k] == s[k]
        decreases |s| - j
      {
        assert strings[i + j] == buf[base + j];
        j := j + 1;
      }
      assert strings[i + j] == buf[base + j];
      hit := buf[base + j] == 0 && j == |s|;
      if hit {
        assert strings[i..i + |s|] == s;
      }
    }

    /** One byte at the end of the strings block, if the buffer has room. */
    method PutString(c: uint8)
      requires Bounds() && error == 0
      modifies this`strOff, this`error, buf
      ensures Bounds() && error == After(0, StrStart() + old(strOff) < buf.Length, -2)
      ensures error == 0 ==> strOff == old(strOff) + 1 && Now() == old(Now()).(strings := old(Now()).strings + [c])
    {
      var pos := StrStart() + strOff;
      if pos >= buf.Length {
        error := -2;
        return;
      }
      buf[pos] := c;
      Joined(old(buf[..]), buf[..], [c], strOff, StrStart());
      strOff := strOff + 1;
    }

    /** str_intern's append: the bytes of s and a terminator, or an error. */
    method Append(s: Bytes)
      requires Bounds() && error == 0
      modifies this`strOff, this`error, buf
      ensures Bounds() && error == After(0, StrStart() + old(strOff) + |s| < buf.Length, -2)
      ensures error == 0 ==> Now() == old(Now()).(strings := old(Now()).strings + s + [0])
    {
      ghost var strings := Now().strings;
      assert strings + s[..0] == strings;
      for i := 0 to |s|
        invariant Bounds() && error == 0 && strOff == old(strOff) + i
        invariant Now() == old(Now()).(strings := strings + s[..i])
      {
        PutString(s[i]);
        if error != 0 {
          return;
        }
        assert strings + s[..i] + [s[i]] == strings + s[..i + 1];
      }
      PutString(0);
      assert s[..|s|] == s;
    }

    /** str_intern: afterwards offset `off` holds exactly s, and nothing interned before moved. */
    method StrIntern(s: Bytes) returns (off: nat, ghost more: Bytes)
      requires Bounds() && IsName(s) && (error == 0 ==> Terminated(Now().strings))
      modifies this`strOff, this`error, buf
      ensures Bounds() && off < 0x1_0000_0000
      ensures error == After(old(error), old(error == 0 && NameRoom(s)), -2)
      ensures error == 0 ==> old(error) == 0 && Now() == old(Now()).(strings := old(Now()).strings + more)
                             && more == (if old(Known(Now().strings, s)) then [] else s + [0])
                             && strOff == old(strOff + NameBytes(s))
                             && Terminated(Now().strings) && Interned(Now().strings, off, s)
    {
      off, more := 0, [];
      if error != 0 {
        return;
      }
      var found, at := Search(s);
      if found {
        assert Now().strings + [] == Now().strings;
        return at, [];
      }
      off, more := strOff, s + [0];
      ghost var strings := Now().strings;
      Append(s);
      assert strings + more == strings + s + [0];
      if error == 0 {
        assert Now().strings[off..off + |s|] == s;
      } else {
        off := 0;
      }
    }

    // ---- the public calls --------------------------------------------------------

    method BeginNode(text: Option<Bytes>)
      requires Valid() && IsName(Text(text))
      modifies this`structOff, this`error, this`recs, buf
      ensures Valid() && error == After(old(error), old(Room(|Encode(Rec(Begin(Text(text)), 0))|)), -1)
      ensures error == 0 ==> old(error) == 0 && recs == old(recs) + [Rec(Begin(Text(text)), 0)]
                             && structOff == old(structOff) + |Encode(Rec(Begin(Text(text)), 0))|
    {
      var name := Text(text);
      ghost var im := if error == 0 then Now() else Image([], [], []);
      AlignedNow();
      hide Encode, Built;
      EmitBegin(name);
      if error == 0 {
        ghost var r := Rec(Begin(name), 0);
        ExtendedBody(im, recs, r);
        recs := recs + [r];
      }
    }

    method EmitBegin(name: Bytes)
      requires Bounds() && IsName(name) && (error == 0 ==> structOff % 4 == 0)
      modifies this`structOff, this`error, buf
      ensures Bounds() && error == After(old(error), old(Room(|Encode(Rec(Begin(name), 0))|)), -1)
      ensures error == 0 ==> old(error) == 0 && structOff == old(structOff) + |Encode(Rec(Begin(name), 0))|
                             && Now() == old(Now()).(body := old(Now()).body + Encode(Rec(Begin(name), 0)))
    {
      ghost var body := if error == 0 then Now().body else [];
      NowSize();
      hide Encode, Be32, Gap, Zeros, Now;
      EmitU32(BEGIN);
      EmitStr(name);
      NowSize();
      EmitAlign4();
      if error == 0 {
        BeginBytes(body, name);
      }
    }

    method EndNode()
      requires Valid()
      modifies this`structOff, this`error, this`recs, buf
      ensures Valid() && error == After(old(error), old(Room(4)), -1)
      ensures error == 0 ==> old(error) == 0 && recs == old(recs) + [Rec(End, 0)] && structOff == old(structOff) + 4
    {
      ghost var im := if error == 0 then Now() else Image([], [], []);
      EmitU32(END);
      if error == 0 {
        ExtendedBody(im, recs, Rec(End, 0));
        recs := recs + [Rec(End, 0)];
      }
    }

    /** emit_prop_header: the name interned, then token, length and name offset. */
    method PropHeader(name: Bytes, len: nat) returns (ghost off: nat, ghost more: Bytes)
      requires Bounds() && IsName(name) && len < 0x1_0000_0000 && (error == 0 ==> Terminated(Now().strings))
      modifies this`structOff, this`strOff, this`error, buf
      ensures Bounds() && off < 0x1_0000_0000
      ensures error == After(After(old(error), old(error == 0 && NameRoom(name)), -2), old(Room(12)), -1)
      ensures error == 0 ==> old(error) == 0 && structOff == old(structOff) + 12
      ensures error == 0 ==> strOff == old(strOff + NameBytes(name))
                             && Now() == old(Now()).(body := old(Now()).body + Be32(PROP) + Be32(len) + Be32(off),
                                                     strings := old(Now()).strings + more)
                             && Terminated(Now().strings) && Interned(Now().strings, off, name)
                             && structOff % 4 == old(structOff) % 4
    {
      hide Now, Be32, Interned, Terminated;
      var nameoff;
      nameoff, more := StrIntern(name);
      off := nameoff;
      EmitU32(PROP);
      EmitU32(len);
      EmitU32(nameoff);
    }

    /** Records a property whose header and bytes have been emitted. */
    ghost method Record(im: Image, name: Bytes, value: Bytes, off: nat, more: Bytes)
      requires Bounds() && error == 0 && Built(im, recs) && IsName(name) && off < 0x1_0000_0000
      requires |value| < 0x1_0000_0000
      requires Now() == im.(body := im.body + Be32(PROP) + Be32(|value|) + Be32(off) + value + Zeros(Gap(|value|)),
                            strings := im.strings + more)
      requires Terminated(Now().strings) && Interned(Now().strings, off, name)
      modifies this`recs
      ensures Valid() && error == 0 && recs == old(recs) + [Rec(Property(name, value), off)]
    {
      var r := Rec(Property(name, value), off);
      PropertyBytes(im.body, name, value, off);
      Extended(im, recs, r, Now(), more);
      recs := recs + [r];
    }

    method PropU32(name: Bytes, val: nat)
      requires Valid() && IsName(name) && val < 0x1_0000_0000
      modifies this, buf
      ensures Valid() && error == old(PropOutcome(name, 4))
      ensures error == 0 ==> old(error) == 0 && Logged(old(recs), name, Be32(val))
    {
      PropCells(name, [val]);
    }

    method PropU64(name: Bytes, val: nat)
      requires Valid() && IsName(name) && val < 0x1_0000_0000_0000_0000
      modifies this, buf
      ensures Valid() && error == old(PropOutcome(name, 8))
      ensures error == 0 ==> old(error) == 0 && Logged(old(recs), name, Be64(val))
    {
      HalvesCells(val);
      PropCells(name, Halves(val));
    }

    method PropReg64(base: nat, size: nat)
      requires Valid() && base < 0x1_0000_0000_0000_0000 && size < 0x1_0000_0000_0000_0000
      modifies this, buf
      ensures Valid() && error == old(PropOutcome(REG, 16))
      ensures error == 0 ==> old(error) == 0 && Logged(old(recs), REG, Be64(base) + Be64(size))
    {
      var cells := Halves(base) + Halves(size);
      RegCells(base, size);
      hide *;
      PropCells(REG, cells);
    }

    /** fdt_prop_u32_array, and the cells of every fixed-size property: the length
        is a 32-bit product, the cells follow one by one. */
    method PropCells(name: Bytes, vals: seq<nat>)
      requires Valid() && IsName(name) && forall i | 0 <= i < |vals| :: vals[i] < 0x1_0000_0000
      modifies this, buf
      ensures Valid() && error == old(PropOutcome(name, 4 * |vals|))
      ensures error == 0 ==> old(error) == 0 && Logged(old(recs), name, Cells(vals))
                             && structOff == old(structOff) + 12 + 4 * |vals|
                             && strOff == old(strOff + NameBytes(name))
    {
      hide Be32, Cells, Interned, Terminated, Built, Valid, Now, Logged, Known, Zeros, Gap, Low32;
      GapNone(|vals|);
      Opened();
      ghost var im := if error == 0 then Now() else Image([], [], []);
      ghost var off, more := PropHeader(name, Low32(|vals| * 4));
      Low32Same(|Cells(vals)|);
      EmitCells(vals);
      if error == 0 {
        CellsDone(Now().body, vals);
        Record(im, name, Cells(vals), off, more);
        LoggedIs(old(recs), name, Cells(vals), off);
      } else {
        Closed();
      }
    }

    method EmitCells(vals: seq<nat>)
      requires Bounds() && forall i | 0 <= i < |vals| :: vals[i] < 0x1_0000_0000
      modifies this`structOff, this`error, buf
      ensures Bounds() && error == After(old(error), old(Room(4 * |vals|)), -1)
      ensures error == 0 ==> old(error) == 0 && structOff == old(structOff) + 4 * |vals|
                             && Now() == old(Now()).(body := old(Now()).body + Cells(vals))
      ensures error == 0 ==> |Cells(vals)| < 0x1_0000_0000
    {
      hide Be32, Now, Cells;
      if error != 0 {
        return;
      }
      ghost var body := Now().body;
      assert vals[..0] == [] && body + Cells(vals[..0]) == body;
      for i := 0 to |vals|
        invariant Bounds() && error == After(0, old(Room(4 * i)), -1)
        invariant error == 0 ==> structOff == old(structOff) + 4 * i
        invariant error == 0 ==> Now() == old(Now()).(body := body + Cells(vals[..i]))
      {
        EmitU32(vals[i]);
        CellsMore(body, vals, i);
      }
      assert vals[..|vals|] == vals;
    }

    method PropString(name: Bytes, text: Option<Bytes>)
      requires Valid() && IsName(name)
      modifies this, buf
      ensures Valid() && error == old(PropOutcome(name, |Text(text)| + 1))
      ensures error == 0 ==> old(error) == 0 && Logged(old(recs), name, Text(text) + [0])
    {
      hide Be32, Cells, Interned, Terminated, Built, Valid, Now, Logged, Known, Zeros, Gap, Low32;
      AlignedNow();
      Opened();
      ghost var im := if error == 0 then Now() else Image([], [], []);
      var val := Text(text);
      var len := Low32(|val| + 1);
      Low32Same(|val + [0]|);
      ghost var off, more := PropHeader(name, len);
      EmitText(val);
      if error == 0 {
        Record(im, name, val + [0], off, more);
        LoggedIs(old(recs), name, val + [0], off);
      } else {
        Closed();
      }
    }

    /** A string value: its bytes, the terminator, and the padding. */
    method EmitText(val: Bytes)
      requires Bounds() && (error == 0 ==> structOff % 4 == 0)
      modifies this`structOff, this`error, buf
      ensures Bounds() && error == After(old(error), old(Room(|val| + 1 + Gap(|val| + 1))), -1)
      ensures error == 0 ==> old(error) == 0 && |val| + 1 < 0x1_0000_0000
                             && Now() == old(Now()).(body := old(Now()).body + (val + [0]) + Zeros(Gap(|val + [0]|)))
    {
      hide Be32, Cells, Now, Zeros, Gap;
      NowSize();
      ghost var body := if error == 0 then Now().body else [];
      EmitStr(val);
      NowSize();
      assert error == 0 ==> structOff == |body| + (|val| + 1);
      ghost var n := |body|;
      GapShift(n, |val| + 1);
      EmitAlign4();
      if error == 0 {
        StringBytes(body, val);
      }
    }

    method PropReg64N(bases: seq<nat>, sizes: seq<nat>)
      requires Valid() && |bases| == |sizes|
      requires forall i | 0 <= i < |bases| :: bases[i] < 0x1_0000_0000_0000_0000 && sizes[i] < 0x1_0000_0000_0000_0000
      modifies this, buf
      ensures Valid() && error == old(PropOutcome(REG, 16 * |bases|))
      ensures error == 0 ==> old(error) == 0 && Logged(old(recs), REG, RegValue(bases, sizes))
    {
      RegListCells(bases, sizes);
      var cells := RegList(bases, sizes);
      RegListSize(bases, sizes);
      hide *;
      PropCells(REG, cells);
    }

    /** fdt_finish.  A blob that fits the buffer reads back as exactly the calls that
        built it; the rounded size fits unless it passes the last multiple of four. */
    method Finish() returns (total: nat)
      requires Valid()
      modifies this`structOff, this`error, buf
      ensures error == After(old(error), old(Room(4)), -1) && (total == 0 <==> error != 0)
      ensures error == 0 ==> structOff == old(structOff) + 4 && total == RoundUp(START + structOff + strOff)
      ensures error == 0 ==> (total <= buf.Length <==> START + structOff + strOff <= buf.Length / 4 * 4)
      ensures error == 0 && total <= buf.Length ==> ReadBlob(buf[..total]) == Some(EventsOf(recs))
    {
      hide Be32, Built, Valid, ReadEvents, ReadBlob, EventsOf, RoundUp, Gap, Now;
      total := 0;
      Opened();
      if error != 0 {
        return;
      }
      ghost var im := Now();
      AlignedNow();
      EmitU32(FINISH);
      if error != 0 {
        return;
      }
      Rounded(START + structOff);
      var strNew := RoundUp(START + structOff);
      if strNew + strOff > buf.Length {
        assert false;  // error -4 of the source cannot happen
      }
      total := Complete(im, strNew);
    }

    method Complete(ghost im: Image, strNew: nat) returns (total: nat)
      requires Bounds() && error == 0 && Built(im, recs) && Now() == im.(body := im.body + Be32(FINISH))
      requires strNew == RoundUp(START + structOff)
      modifies buf
      ensures total == RoundUp(START + structOff + strOff) > 0
      ensures total <= buf.Length <==> START + structOff + strOff <= buf.Length / 4 * 4
      ensures total <= buf.Length ==> ReadBlob(buf[..total]) == Some(EventsOf(recs))
    {
      hide *;
      SealedEvents(im, recs);
      NowSize();
      Rounded(START + structOff);
      total := Seal(strNew);
      RoundFits(START + structOff + strOff, buf.Length);
    }

    /** Moves the strings down behind the structure block, pads, and fills the header. */
    method Seal(strNew: nat) returns (total: nat)
      requires Bounds() && error == 0 && structOff > 0 && strNew == START + structOff
      requires Now().head == Zeros(START)
      modifies buf
      ensures total == RoundUp(START + structOff + strOff) && total > 0
      ensures total <= buf.Length ==> ReadBlob(buf[..total]) == old(ReadEvents(Now().body, Now().strings))
    {
      ghost var im := Now();
      hide Cells, Zeros, ReadEvents, ReadBlob, Laid;
      Arrange(strNew);
      ghost var moved := buf[..];
      total := PadEnd(buf, strNew + strOff);
      LaidSame(moved, buf[..], im);
      PutHeader(im, total);
    }

    /** The header, written last. */
    method PutHeader(ghost im: Image, total: nat)
      requires Bounds() && error == 0 && Laid(buf[..], im) && |im.body| == structOff && |im.strings| == strOff
      requires START + structOff + strOff <= total
      modifies buf
      ensures total <= buf.Length ==> ReadBlob(buf[..total]) == ReadEvents(im.body, im.strings)
    {
      hide Cells, Zeros, ReadEvents, ReadBlob, Laid, HeaderWords;
      ghost var before := buf[..];
      var words := HeaderWords(Low32(total), structOff, strOff);
      WriteWords(buf, words);
      if total <= buf.Length {
        ghost var blob := buf[..total];
        Overwritten(before, buf[..], Cells(words));
        LaidSame(before, blob, im);
        assert blob[..40] == buf[..][..40];
        Low32Same(total);
        BlobReads(blob, im, words);
      }
    }

    /** The strings block moved down to its final place. */
    method Arrange(strNew: nat)
      requires Bounds() && error == 0 && strNew == START + structOff && Now().head == Zeros(START)
      modifies buf
      ensures Laid(buf[..], old(Now()))
    {
      hide Laid, Zeros;
      MoveDown(buf, StrStart(), strNew, strOff);
      assert buf[..][strNew..strNew + strOff] == buf[strNew..strNew + strOff];
      Arranged(old(buf[..]), buf[..], structOff, strOff, StrStart());
    }

    /** The call appended one property with this value and name. */
    ghost predicate Logged(before: seq<Rec>, name: Bytes, value: Bytes)
      reads this
    {
      |recs| == |before| + 1 && recs[..|before|] == before && recs[|before|].event == Property(name, value)
    }

    lemma Opened()
      requires Valid()
      ensures Bounds() && (error == 0 ==> Built(Now(), recs) && Terminated(Now().strings))
    {
    }

    lemma Unknown(name: Bytes)
      requires Bounds() && error == 0 && strOff == 0
      ensures !Known(Now().strings, name)
    {
    }

    lemma Closed()
      requires Bounds() && error != 0
      ensures Valid()
    {
    }

    lemma LoggedIs(before: seq<Rec>, name: Bytes, value: Bytes, off: nat)
      requires recs == before + [Rec(Property(name, value), off)]
      ensures Logged(before, name, value)
    {
    }

    lemma NowSize()
      requires Bounds()
      ensures error == 0 ==> |Now().body| == structOff < 0x1_0000_0000
    {
    }

    lemma AlignedNow()
      requires Valid()
      ensures error == 0 ==> structOff % 4 == 0
    {
      if error == 0 {
        EncodeAligned(recs);
        assert |Now().body| == structOff;
      }
    }
  }

  /** A buffer of 169 bytes and one property with an 84-byte name: the returned size is 172. */
  method Overshoots(name: Bytes) returns (size: nat, capacity: nat)
    requires |name| == 84 && IsName(name)
    ensures capacity == 169 && size == 172
  {
    hide Encode, Known, Terminated, Builder.Now, Builder.Valid, Builder.Bounds;
    capacity := 169;
    var buf := new uint8[capacity](_ => 0);
    var b := new Builder(buf);
    RootBytes();
    b.BeginNode(None);
    b.Opened();
    b.Unknown(name);
    b.PropCells(name, []);
    b.EndNode();
    size := b.Finish();
  }

  lemma RootBytes()
    ensures IsName([]) && |Encode(Rec(Begin([]), 0))| == 8
  {
  }

  function RoundUp(n: nat): nat { n + Gap(n) }

  /** A forward copy to a lower address is safe although the two blocks overlap. */
  method MoveDown(buf: array<uint8>, src: nat, dst: nat, n: nat)
    requires dst <= src && src + n <= buf.Length
    modifies buf
    ensures buf[dst..dst + n] == old(buf[src..src + n])
    ensures forall j | 0 <= j < dst :: buf[j] == old(buf[j])
  {
    for i := 0 to n
      invariant forall j | 0 <= j < dst :: buf[j] == old(buf[j])
      invariant forall j | dst + i <= j < buf.Length :: buf[j] == old(buf[j])
      invariant buf[dst..dst + i] == old(buf[src..src + i])
    {
      buf[dst + i] := buf[src + i];
      assert buf[dst..dst + i + 1] == buf[dst..dst + i] + [buf[dst + i]];
    }
  }

  lemma Arranged(before: Bytes, after: Bytes, size: nat, strs: nat, at: nat)
    requires START + size <= at && at + strs <= |before| == |after| && before[..START] == Zeros(START)
    requires forall j | 0 <= j < START + size :: after[j] == before[j]
    requires after[START + size..START + size + strs] == before[at..at + strs]
    ensures Laid(after, Image(before[..START], before[START..START + size], before[at..][..strs]))
  {
    assert after[START..START + size] == before[START..START + size];
    assert before[at..][..strs] == before[at..at + strs];
    assert forall i | 0 <= i < START :: before[i] == before[..START][i];
    hide Zeros;
  }

  lemma Rounded(n: nat)
    requires n % 4 == 0
    ensures RoundUp(n) == n
  {
  }

  lemma RoundFits(n: nat, cap: nat)
    ensures RoundUp(n) <= cap <==> n <= cap / 4 * 4
  {
  }

  /** The closed structure block reads as the recorded calls. */
  lemma SealedEvents(im: Image, recs: seq<Rec>)
    requires Built(im, recs)
    ensures im.head == Zeros(START) && (START + |im.body| + 4) % 4 == 0
    ensures ReadEvents(im.body + Be32(FINISH), im.strings) == Some(EventsOf(recs))
  {
    hide ReadEvents, Be32, EncodeAll, AllInterned, Fits, Zeros, EventsOf, Terminated;
    EncodeAligned(recs);
    ReadBack(recs, im.strings);
  }

  /** A blob of the calls of a tree reads back as that tree. */
  lemma FinishedTree(blob: Bytes, recs: seq<Rec>, n: Node)
    requires ReadBlob(blob) == Some(EventsOf(recs)) && EventsOf(recs) == Calls(n)
    ensures ReadTree(blob) == Some(n)
  {
    TreeParse(n);
    hide ReadBlob, Calls, ParseTree;
  }

  /** The final layout: reservation map, structure block, strings block. */
  predicate Laid(buf: Bytes, im: Image) {
    var size, strs := |im.body|, |im.strings|;
    && START + size + strs <= |buf|
    && buf[START..START + size] == im.body && buf[START + size..START + size + strs] == im.strings
    && forall i | HEADER <= i < START :: buf[i] == 0
  }

  /** Layout depends only on the bytes behind the header. */
  lemma LaidSame(a: Bytes, b: Bytes, im: Image)
    requires Laid(a, im) && START + |im.body| + |im.strings| <= |b|
    requires forall i | HEADER <= i < START + |im.body| + |im.strings| :: b[i] == a[i]
    ensures Laid(b, im)
  {
    var size, strs := |im.body|, |im.strings|;
    assert b[START..START + size] == a[START..START + size];
    assert b[START + size..START + size + strs] == a[START + size..START + size + strs];
  }

  /** Zero bytes up to the next multiple of four, as far as the buffer reaches. */
  method PadEnd(buf: array<uint8>, start: nat) returns (total: nat)
    requires start <= buf.Length
    modifies buf
    ensures total == RoundUp(start)
    ensures forall i | 0 <= i < start :: buf[i] == old(buf[i])
    ensures forall i | start <= i < total && i < buf.Length :: buf[i] == 0
  {
    total := start;
    while total % 4 != 0
      invariant start <= total <= RoundUp(start)
      invariant forall i | 0 <= i < start :: buf[i] == old(buf[i])
      invariant forall i | start <= i < total && i < buf.Length :: buf[i] == 0
      decreases RoundUp(start) - total
    {
      if total < buf.Length {
        buf[total] := 0;
      }
      total := total + 1;
    }
  }

  lemma WordStep(prev: Bytes, first: Bytes, cells: Bytes, w: Bytes, k: nat)
    requires |cells| == k && |w| == 4 && k + 4 <= |first| && prev == cells + first[k..]
    ensures prev[..k] + w + prev[k + 4..] == (cells + w) + first[k + 4..]
  {
  }

  lemma CellsStep(words: seq<nat>, i: nat)
    requires i < |words| && forall j | 0 <= j < |words| :: words[j] < 0x1_0000_0000
    ensures Cells(words[..i + 1]) == Cells(words[..i]) + Be32(words[i])
  {
    assert words[..i + 1][..i] == words[..i];
  }

  method WriteWord(buf: array<uint8>, words: seq<nat>, i: nat, ghost first: Bytes)
    requires i < |words| && (forall j | 0 <= j < |words| :: words[j] < 0x1_0000_0000)
    requires |first| == buf.Length && 4 * |words| <= buf.Length && buf[..] == Cells(words[..i]) + first[4 * i..]
    modifies buf
    ensures buf[..] == Cells(words[..i + 1]) + first[4 * i + 4..]
  {
    hide Be32, Cells;
    ghost var prev := buf[..];
    CopyIn(buf, 4 * i, Be32(words[i]));
    CellsStep(words, i);
    assert old(buf[..4 * i]) == prev[..4 * i] && old(buf[4 * i + 4..]) == prev[4 * i + 4..];
    WordStep(prev, first, Cells(words[..i]), Be32(words[i]), 4 * i);
  }

  method WriteWords(buf: array<uint8>, words: seq<nat>)
    requires 4 * |words| <= buf.Length && forall i | 0 <= i < |words| :: words[i] < 0x1_0000_0000
    modifies buf
    ensures buf[..] == Cells(words) + old(buf[4 * |words|..])
  {
    ghost var first := buf[..];
    assert words[..0] == [] && buf[..] == [] + first[0..];
    hide Be32, Cells;
    for i := 0 to |words|
      invariant buf[..] == Cells(words[..i]) + first[4 * i..]
    {
      WriteWord(buf, words, i, first);
    }
    assert words[..|words|] == words && first[4 * |words|..] == old(buf[4 * |words|..]);
  }

  lemma {:induction false} CellWord(words: seq<nat>, i: nat)
    requires i < |words| && forall i | 0 <= i < |words| :: words[i] < 0x1_0000_0000
    ensures Cells(words)[4 * i..4 * i + 4] == Be32(words[i])
    decreases |words|
  {
    hide Be32;
    var n := |words| - 1;
    if i < n {
      CellWord(words[..n], i);
      assert Cells(words)[4 * i..4 * i + 4] == Cells(words[..n])[4 * i..4 * i + 4];
    }
  }

  lemma Overwritten(before: Bytes, after: Bytes, head: Bytes)
    requires |head| <= |before| && after == head + before[|head|..]
    ensures |after| == |before| && after[..|head|] == head && forall i | |head| <= i < |after| :: after[i] == before[i]
  {
  }

  lemma SubSlice(s: Bytes, m: nat, a: nat, b: nat)
    requires a <= b <= m <= |s|
    ensures s[..m][a..b] == s[a..b]
  {
  }

  lemma HeaderWord(blob: Bytes, words: seq<nat>, i: nat)
    requires 4 * |words| <= |blob| && i < |words| && (forall i | 0 <= i < |words| :: words[i] < 0x1_0000_0000)
    requires blob[..4 * |words|] == Cells(words)
    ensures Word(blob, 4 * i) == words[i]
  {
    CellWord(words, i);
    Be32Value(words[i]);
    SubSlice(blob, 4 * |words|, 4 * i, 4 * i + 4);
    hide Cells, BE, Be32;
  }

  function HeaderWords(total: nat, size: nat, strs: nat): (w: seq<nat>)
    requires total < 0x1_0000_0000 && START + size < 0x1_0000_0000 && strs < 0x1_0000_0000
    ensures |w| == 10 && forall i | 0 <= i < |w| :: w[i] < 0x1_0000_0000
  {
    [MAGIC, total, START, START + size, HEADER, 17, 16, 0, strs, size]
  }

  /** A sealed buffer reads as its structure and strings blocks. */
  lemma BlobReads(blob: Bytes, im: Image, words: seq<nat>)
    requires Laid(blob, im) && |blob| < 0x1_0000_0000
    requires words == HeaderWords(|blob|, |im.body|, |im.strings|) && blob[..40] == Cells(words)
    ensures ReadBlob(blob) == ReadEvents(im.body, im.strings)
  {
    BlocksRead(blob, im);
    hide Cells, Zeros, ReadEvents, ReadBlocks, Word, Laid;
    HeaderReads(blob, words);
  }

  lemma BlocksRead(blob: Bytes, im: Image)
    requires Laid(blob, im)
    ensures |blob| >= START
    ensures ReadBlocks(blob, START, |im.body|, START + |im.body|, |im.strings|, HEADER)
            == ReadEvents(im.body, im.strings)
  {
    hide ReadEvents;
  }

  lemma HeaderReads(blob: Bytes, words: seq<nat>)
    requires |words| == 10 && 40 <= |blob| && (forall i | 0 <= i < |words| :: words[i] < 0x1_0000_0000)
    requires blob[..40] == Cells(words)
    ensures Word(blob, 0) == words[0] && Word(blob, 4) == words[1] && Word(blob, 8) == words[2]
    ensures Word(blob, 12) == words[3] && Word(blob, 16) == words[4] && Word(blob, 20) == words[5]
    ensures Word(blob, 24) == words[6] && Word(blob, 32) == words[8] && Word(blob, 36) == words[9]
  {
    hide Cells, Word;
    HeaderWord(blob, words, 0);
    HeaderWord(blob, words, 1);
    HeaderWord(blob, words, 2);
    HeaderWord(blob, words, 3);
    HeaderWord(blob, words, 4);
    HeaderWord(blob, words, 5);
    HeaderWord(blob, words, 6);
    HeaderWord(blob, words, 8);
    HeaderWord(blob, words, 9);
  }

  lemma BeginBytes(body: Bytes, name: Bytes)
    requires IsName(name) && |body| % 4 == 0
    ensures body + Be32(BEGIN) + name + [0] + Zeros(Gap(|body + Be32(BEGIN) + name + [0]|))
            == body + Encode(Rec(Begin(name), 0))
  {
    GapShift(|body| + 4, |name| + 1);
    assert |body + Be32(BEGIN) + name + [0]| == |body| + 4 + (|name| + 1);
    hide Gap, Be32, Zeros;
  }

  lemma GapShift(a: nat, n: nat)
    requires a % 4 == 0
    ensures Gap(a + n) == Gap(n)
  {
  }

  /** "reg" */
  const REG: Bytes := [114, 101, 103]

  function Cells(vals: seq<nat>): (s: Bytes)
    requires forall i | 0 <= i < |vals| :: vals[i] < 0x1_0000_0000
    ensures |s| == 4 * |vals|
  {
    if vals == [] then [] else Cells(vals[..|vals| - 1]) + Be32(vals[|vals| - 1])
  }

  lemma CellsMore(s: Bytes, vals: seq<nat>, i: nat)
    requires i < |vals| && forall i | 0 <= i < |vals| :: vals[i] < 0x1_0000_0000
    ensures s + Cells(vals[..i]) + Be32(vals[i]) == s + Cells(vals[..i + 1])
  {
    hide Be32;
    assert vals[..i + 1][..i] == vals[..i];
  }

  function Be64(v: nat): Bytes
    requires v < 0x1_0000_0000_0000_0000
  {
    Be32(v / 0x1_0000_0000) + Be32(v % 0x1_0000_0000)
  }

  /** The two 32-bit cells of a 64-bit number. */
  function Halves(v: nat): (cells: seq<nat>)
    requires v < 0x1_0000_0000_0000_0000
    ensures forall i | 0 <= i < |cells| :: cells[i] < 0x1_0000_0000
  {
    [v / 0x1_0000_0000, v % 0x1_0000_0000]
  }

  lemma HalvesCells(v: nat)
    requires v < 0x1_0000_0000_0000_0000
    ensures Cells(Halves(v)) == Be64(v)
  {
    hide Be32;
    var a, b := v / 0x1_0000_0000, v % 0x1_0000_0000;
    assert [a, b][..1] == [a] && [a][..0] == [];
    assert Cells([a]) == Be32(a);
  }

  lemma RegCells(base: nat, size: nat)
    requires base < 0x1_0000_0000_0000_0000 && size < 0x1_0000_0000_0000_0000
    ensures IsName(REG) && Cells(Halves(base) + Halves(size)) == Be64(base) + Be64(size)
  {
    HalvesCells(base);
    HalvesCells(size);
    CellsJoin(Halves(base), Halves(size));
    hide Halves, Cells, Be64;
  }

  function RegList(bases: seq<nat>, sizes: seq<nat>): (cells: seq<nat>)
    requires |bases| == |sizes|
    requires forall i | 0 <= i < |bases| :: bases[i] < 0x1_0000_0000_0000_0000 && sizes[i] < 0x1_0000_0000_0000_0000
    ensures forall i | 0 <= i < |cells| :: cells[i] < 0x1_0000_0000
  {
    if bases == [] then []
    else
      var n := |bases| - 1;
      var b, s := bases[n], sizes[n];
      RegList(bases[..n], sizes[..n]) + (Halves(b) + Halves(s))
  }

  /** (base, size) pairs as 64-bit big-endian numbers. */
  lemma {:induction false} RegListSize(bases: seq<nat>, sizes: seq<nat>)
    requires |bases| == |sizes|
    requires forall i | 0 <= i < |bases| :: bases[i] < 0x1_0000_0000_0000_0000 && sizes[i] < 0x1_0000_0000_0000_0000
    ensures 4 * |RegList(bases, sizes)| == 16 * |bases|
    decreases |bases|
  {
    if bases != [] {
      RegListSize(bases[..|bases| - 1], sizes[..|bases| - 1]);
    }
  }

  function RegValue(bases: seq<nat>, sizes: seq<nat>): Bytes
    requires |bases| == |sizes|
    requires forall i | 0 <= i < |bases| :: bases[i] < 0x1_0000_0000_0000_0000 && sizes[i] < 0x1_0000_0000_0000_0000
  {
    if bases == [] then []
    else
      var n := |bases| - 1;
      RegValue(bases[..n], sizes[..n]) + (Be64(bases[n]) + Be64(sizes[n]))
  }

  lemma {:induction false} CellsJoin(a: seq<nat>, b: seq<nat>)
    requires (forall i | 0 <= i < |a| :: a[i] < 0x1_0000_0000) && (forall i | 0 <= i < |b| :: b[i] < 0x1_0000_0000)
    ensures Cells(a + b) == Cells(a) + Cells(b)
    decreases |b|
  {
    hide Be32;
    if b == [] {
      assert a + b == a;
    } else {
      var n := |b| - 1;
      assert (a + b)[..|a + b| - 1] == a + b[..n];
      CellsJoin(a, b[..n]);
    }
  }

  lemma {:induction false} RegListCells(bases: seq<nat>, sizes: seq<nat>)
    requires |bases| == |sizes|
    requires forall i | 0 <= i < |bases| :: bases[i] < 0x1_0000_0000_0000_0000 && sizes[i] < 0x1_0000_0000_0000_0000
    ensures IsName(REG) && Cells(RegList(bases, sizes)) == RegValue(bases, sizes)
    decreases |bases|
  {
    if bases != [] {
      hide Halves, Cells, Be64;
      var n := |bases| - 1;
      RegListCells(bases[..n], sizes[..n]);
      CellsJoin(RegList(bases[..n], sizes[..n]), Halves(bases[n]) + Halves(sizes[n]));
      RegCells(bases[n], sizes[n]);
    }
  }

  /** Conversion to a 32-bit length. */
  lemma GapNone(n: nat)
    ensures Gap(4 * n) == 0
  {
  }

  function Low32(n: nat): (r: nat)
    ensures r < 0x1_0000_0000
  {
    n % 0x1_0000_0000
  }

  lemma Low32Same(n: nat)
    ensures n < 0x1_0000_0000 ==> Low32(n) == n
  {
  }

  lemma StringBytes(body: Bytes, val: Bytes)
    ensures body + val + [0] + Zeros(Gap(|val| + 1)) == body + (val + [0]) + Zeros(Gap(|val + [0]|))
  {
  }

  lemma CellsDone(body: Bytes, vals: seq<nat>)
    requires forall i | 0 <= i < |vals| :: vals[i] < 0x1_0000_0000
    ensures body + Zeros(Gap(|Cells(vals)|)) == body && |Cells(vals)| == |vals| * 4
  {
  }

  lemma PropertyBytes(body: Bytes, name: Bytes, value: Bytes, off: nat)
    requires Fits(Rec(Property(name, value), off))
    ensures body + Be32(PROP) + Be32(|value|) + Be32(off) + value + Zeros(Gap(|value|))
         == body + Encode(Rec(Property(name, value), off))
  {
    hide Gap, Be32, Zeros;
  }

  lemma Joined(old_: Bytes, new_: Bytes, data: Bytes, off: nat, strings: nat)
    requires START <= strings && strings + off + |data| <= |old_|
    requires new_ == old_[..strings + off] + data + old_[strings + off + |data|..]
    ensures |new_| == |old_| && new_[..strings] == old_[..strings]
    ensures new_[strings..][..off + |data|] == old_[strings..][..off] + data
  {
  }
}
