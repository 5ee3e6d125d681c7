/** Pixel surfaces and the rectangles cut from them. */
module Surfaces {
  import opened Machine
  import opened Memory

  type Bytes = seq<uint8>

  const PIXEL := 4
  const MAX_WIDTH := 1024
  const MAX_HEIGHT := 768
  const MAX_SURFACES := 4
  const SURFACE_BYTES := MAX_WIDTH * MAX_HEIGHT * PIXEL

  /** A surface as its readers see it: geometry, frame count and committed pixels. */
  datatype Surface = Surface(handle: nat, sequence: nat, width: nat, height: nat, committed: Bytes)

  /** A rectangle of a surface, named by the surface's handle. */
  datatype Selection = Selection(handle: nat, x: nat, y: nat, width: nat, height: nat)

  /** Pixels of a surface sw by sh, row by row. */
  predicate Holds(buf: Bytes, sw: nat, sh: nat) { |buf| >= sw * sh * 4 }

  /** Row r of the rectangle of width w at column x. */
  function Row(buf: Bytes, sw: nat, sh: nat, x: nat, w: nat, r: nat): (b: Bytes)
    requires x + w <= sw && r < sh && Holds(buf, sw, sh)
    ensures |b| == w * 4
  {
    RowBound(sw, sh, x, w, r);
    buf[PixelAt(sw, x, r)..PixelAt(sw, x, r) + w * 4]
  }

  /** Byte offset of pixel x of row r. */
  function PixelAt(sw: nat, x: nat, r: nat): nat { (r * sw + x) * 4 }

  lemma RowBound(sw: nat, sh: nat, x: nat, w: nat, r: nat)
    requires x + w <= sw && r < sh
    ensures PixelAt(sw, x, r) + w * 4 <= sw * sh * 4
  {
    Products(r + 1, sh, sw);
  }

  lemma Products(a: nat, b: nat, c: nat)
    requires a <= b
    ensures a * c <= b * c == c * b && a * c == (a - 1) * c + c
  {
  }

  /** The rows of the rectangle, and the rows one after another. */
  function Rows(buf: Bytes, sw: nat, sh: nat, x: nat, y: nat, w: nat, h: nat): (rows: seq<Bytes>)
    requires x + w <= sw && y + h <= sh && Holds(buf, sw, sh)
    ensures |rows| == h && forall r | 0 <= r < h :: rows[r] == Row(buf, sw, sh, x, w, y + r)
  {
    if h == 0 then [] else Rows(buf, sw, sh, x, y, w, h - 1) + [Row(buf, sw, sh, x, w, y + h - 1)]
  }

  function Flat(rows: seq<Bytes>): Bytes {
    if rows == [] then [] else Flat(rows[..|rows| - 1]) + rows[|rows| - 1]
  }

  lemma {:induction false} FlatSize(rows: seq<Bytes>, rb: nat)
    requires forall r | 0 <= r < |rows| :: |rows[r]| == rb
    ensures |Flat(rows)| == Offset(|rows|, rb)
    decreases |rows|
  {
    if rows != [] {
      FlatSize(rows[..|rows| - 1], rb);
      Products(|rows|, |rows|, rb);
    }
  }

  /** Where row r starts, in rows of rb bytes. */
  function Offset(r: nat, rb: nat): nat { r * rb }

  /** A piece of one row is the piece of the whole at that row's place. */
  lemma {:induction false} FlatSlice(rows: seq<Bytes>, rb: nat, row: nat, col: nat, part: nat)
    requires (forall r | 0 <= r < |rows| :: |rows[r]| == rb) && row < |rows| && col + part <= rb
    ensures Offset(row, rb) + col + part <= |Flat(rows)|
    ensures Flat(rows)[Offset(row, rb) + col..Offset(row, rb) + col + part] == rows[row][col..col + part]
    decreases |rows|
  {
    hide Offset;
    var n := |rows| - 1;
    FlatSize(rows[..n], rb);
    if row == n {
      Shift(Flat(rows[..n]), rows[n], col, col + part);
    } else {
      FlatSlice(rows[..n], rb, row, col, part);
      var at := Offset(row, rb) + col;
      Front(Flat(rows[..n]), rows[n], at, at + part);
    }
  }

  lemma Shift(a: Bytes, b: Bytes, i: nat, j: nat)
    requires i <= j <= |b|
    ensures (a + b)[|a| + i..|a| + j] == b[i..j]
  {
  }

  lemma Front(a: Bytes, b: Bytes, i: nat, j: nat)
    requires i <= j <= |a|
    ensures (a + b)[i..j] == a[i..j]
  {
  }

  /** The selected rectangle lies inside a surface that holds pixels. */
  predicate Inside(s: Surface, sel: Selection) {
    && 0 < sel.width && sel.x + sel.width <= s.width && sel.y + sel.height <= s.height
    && Holds(s.committed, s.width, s.height)
  }

  /** The selected rectangle, row after row. */
  function Picture(s: Surface, sel: Selection): Bytes
    requires Inside(s, sel)
  {
    Flat(Rows(s.committed, s.width, s.height, sel.x, sel.y, sel.width, sel.height))
  }

  lemma PictureSize(s: Surface, sel: Selection)
    requires Inside(s, sel)
    ensures |Picture(s, sel)| == Offset(sel.height, sel.width * 4) == sel.width * sel.height * 4
  {
    FlatSize(Rows(s.committed, s.width, s.height, sel.x, sel.y, sel.width, sel.height), sel.width * 4);
    OffsetIs(sel.width, sel.height);
    hide Offset, Inside;
  }

  lemma OffsetIs(w: nat, h: nat)
    ensures Offset(h, w * 4) == w * h * 4
  {
    assert h * (w * 4) == h * w * 4;
  }

  lemma RowSplit(at: nat, rb: nat, h: nat)
    requires rb > 0 && at < Offset(h, rb)
    ensures at / rb < h && at % rb < rb && at == Offset(at / rb, rb) + at % rb
  {
    var row := at / rb;
    assert at == row * rb + at % rb;
    Below(row, rb, at, h);
  }

  lemma Below(row: nat, rb: nat, at: nat, h: nat)
    requires row * rb <= at < h * rb
    ensures row < h
  {
    assert row >= h ==> row * rb >= h * rb;
  }

  /** Part of one row of the selected rectangle. */
  function Piece(s: Surface, sel: Selection, row: nat, col: nat, part: nat): (b: Bytes)
    requires Inside(s, sel) && row < sel.height && col + part <= sel.width * 4
    ensures |b| == part
  {
    Row(s.committed, s.width, s.height, sel.x, sel.width, sel.y + row)[col..col + part]
  }

  lemma PieceOf(s: Surface, sel: Selection, row: nat, col: nat, part: nat)
    requires Inside(s, sel) && row < sel.height && col + part <= sel.width * 4
    ensures var at := Offset(row, sel.width * 4) + col;
            at + part <= |Picture(s, sel)|
            && Picture(s, sel)[at..at + part] == Piece(s, sel, row, col, part)
  {
    FlatSlice(Rows(s.committed, s.width, s.height, sel.x, sel.y, sel.width, sel.height), sel.width * 4, row, col, part);
  }

  // ---- copying rectangles row by row -----------------------------------------------

  lemma SpliceAppend(d: Bytes, off: nat, a: Bytes, b: Bytes)
    requires off + |a| + |b| <= |d|
    ensures Splice(Splice(d, off, a), off + |a|, b) == Splice(d, off, a + b)
  {
    var e := Splice(d, off, a);
    assert e[..off + |a|] == d[..off] + a;
    assert e[off + |a| + |b|..] == d[off + |a| + |b|..];
  }

  lemma SpliceNest(arena: Bytes, base: nat, p: Bytes, o: nat, t: Bytes)
    requires base + |p| <= |arena| && o + |t| <= |p|
    ensures Splice(Splice(arena, base, p), base + o, t) == Splice(arena, base, Splice(p, o, t))
  {
    var e := Splice(arena, base, p);
    assert e[..base + o] == arena[..base] + p[..o];
    assert e[base + o + |t|..] == p[o + |t|..] + arena[base + |p|..];
  }

  lemma SpliceNone(d: Bytes, off: nat)
    requires off <= |d|
    ensures Splice(d, off, []) == d
  {
  }

  /** Reading: the rows of a rectangle copied one after another into a buffer. */
  method CopyRows(dst: Bytes, off: nat, buf: Bytes, sw: nat, sh: nat, x: nat, y: nat, w: nat, h: nat)
    returns (out: Bytes)
    requires x + w <= sw && y + h <= sh && Holds(buf, sw, sh)
    requires off + |Flat(Rows(buf, sw, sh, x, y, w, h))| <= |dst|
    ensures out == Splice(dst, off, Flat(Rows(buf, sw, sh, x, y, w, h)))
  {
    hide Splice, Row, Flat, Rows, Holds;
    out := dst;
    var at := off;
    FlatNone(buf, sw, sh, x, y, w);
    SpliceNone(dst, off);
    for row := 0 to h
      invariant at == off + |Flat(Rows(buf, sw, sh, x, y, w, row))| && at <= |dst| && |out| == |dst|
      invariant out == Splice(dst, off, Flat(Rows(buf, sw, sh, x, y, w, row)))
    {
      var piece := Row(buf, sw, sh, x, w, y + row);
      FlatGrows(buf, sw, sh, x, y, w, row, h);
      SpliceAppend(dst, off, Flat(Rows(buf, sw, sh, x, y, w, row)), piece);
      out := Splice(out, at, piece);
      at := at + |piece|;
    }
  }

  lemma FlatStep(buf: Bytes, sw: nat, sh: nat, x: nat, y: nat, w: nat, h: nat)
    requires x + w <= sw && y + h <= sh && Holds(buf, sw, sh) && h > 0
    ensures Flat(Rows(buf, sw, sh, x, y, w, h))
            == Flat(Rows(buf, sw, sh, x, y, w, h - 1)) + Row(buf, sw, sh, x, w, y + h - 1)
  {
    hide Row, Holds;
    var rows := Rows(buf, sw, sh, x, y, w, h);
    assert rows[..h - 1] == Rows(buf, sw, sh, x, y, w, h - 1);
  }

  lemma {:induction false} FlatGrows(buf: Bytes, sw: nat, sh: nat, x: nat, y: nat, w: nat, r: nat, h: nat)
    requires x + w <= sw && y + h <= sh && Holds(buf, sw, sh) && r < h
    ensures Flat(Rows(buf, sw, sh, x, y, w, r + 1))
            == Flat(Rows(buf, sw, sh, x, y, w, r)) + Row(buf, sw, sh, x, w, y + r)
    ensures |Flat(Rows(buf, sw, sh, x, y, w, r + 1))| <= |Flat(Rows(buf, sw, sh, x, y, w, h))|
    decreases h
  {
    hide Row, Holds, Rows, Flat;
    FlatStep(buf, sw, sh, x, y, w, r + 1);
    if r + 1 < h {
      FlatGrows(buf, sw, sh, x, y, w, r, h - 1);
      FlatStep(buf, sw, sh, x, y, w, h);
    }
  }

  /** Writing: h rows taken one after another from src into the rectangle. */
  function PutRows(buf: Bytes, sw: nat, sh: nat, x: nat, y: nat, w: nat, h: nat, src: Bytes): (r: Bytes)
    requires x + w <= sw && y + h <= sh && Holds(buf, sw, sh) && |src| == Offset(h, w * 4)
    ensures |r| == |buf|
    decreases h
  {
    if h == 0 then buf
    else
      var n := Offset(h - 1, w * 4);
      Products(h, h, w * 4);
      RowBound(sw, sh, x, w, y + h - 1);
      Splice(PutRows(buf, sw, sh, x, y, w, h - 1, src[..n]), PixelAt(sw, x, y + h - 1), src[n..])
  }

  /** A row written leaves every earlier row as it was. */
  lemma RowsApart(buf: Bytes, sw: nat, sh: nat, x: nat, w: nat, r: nat, later: nat, t: Bytes)
    requires x + w <= sw && r < later < sh && Holds(buf, sw, sh) && |t| == w * 4
    ensures PixelAt(sw, x, later) + |t| <= |buf|
    ensures Row(Splice(buf, PixelAt(sw, x, later), t), sw, sh, x, w, r) == Row(buf, sw, sh, x, w, r)
    ensures Row(Splice(buf, PixelAt(sw, x, later), t), sw, sh, x, w, later) == t
  {
    RowBound(sw, sh, x, w, later);
    RowBound(sw, sh, x, w, r);
    var at := PixelAt(sw, x, later);
    assert PixelAt(sw, x, r) + w * 4 <= at by { Products(r + 1, later, sw); }
    hide Splice, Holds, PixelAt;
    SpliceParts(buf, at, t);
    SameSlice(buf, Splice(buf, at, t), PixelAt(sw, x, r), PixelAt(sw, x, r) + w * 4);
  }

  lemma SameSlice(a: Bytes, b: Bytes, i: nat, j: nat)
    requires i <= j <= |a| == |b| && forall k | i <= k < j :: a[k] == b[k]
    ensures a[i..j] == b[i..j]
  {
  }

  lemma RowWritten(buf: Bytes, sw: nat, sh: nat, x: nat, w: nat, r: nat, t: Bytes)
    requires x + w <= sw && r < sh && Holds(buf, sw, sh) && |t| == w * 4
    ensures PixelAt(sw, x, r) + |t| <= |buf| && Row(Splice(buf, PixelAt(sw, x, r), t), sw, sh, x, w, r) == t
  {
    RowBound(sw, sh, x, w, r);
    SpliceParts(buf, PixelAt(sw, x, r), t);
    hide Splice, Holds;
  }

  lemma {:induction false} RowsKept(buf: Bytes, sw: nat, sh: nat, x: nat, y: nat, w: nat, h: nat, later: nat, t: Bytes)
    requires x + w <= sw && y + h <= later < sh && Holds(buf, sw, sh) && |t| == w * 4
    ensures PixelAt(sw, x, later) + |t| <= |buf|
    ensures Rows(Splice(buf, PixelAt(sw, x, later), t), sw, sh, x, y, w, h) == Rows(buf, sw, sh, x, y, w, h)
    decreases h
  {
    RowBound(sw, sh, x, w, later);
    hide Splice, Row, Holds;
    if h > 0 {
      RowsKept(buf, sw, sh, x, y, w, h - 1, later, t);
      RowsApart(buf, sw, sh, x, w, y + h - 1, later, t);
    }
  }

  lemma PutStep(buf: Bytes, sw: nat, sh: nat, x: nat, y: nat, w: nat, h: nat, src: Bytes)
    requires x + w <= sw && y + h <= sh && Holds(buf, sw, sh) && |src| == Offset(h, w * 4) && h > 0
    ensures var n := Offset(h - 1, w * 4);
            && n + w * 4 == |src| && PixelAt(sw, x, y + h - 1) + w * 4 <= |buf|
            && PutRows(buf, sw, sh, x, y, w, h, src)
               == Splice(PutRows(buf, sw, sh, x, y, w, h - 1, src[..n]), PixelAt(sw, x, y + h - 1), src[n..])
  {
    Products(h, h, w * 4);
    RowBound(sw, sh, x, w, y + h - 1);
  }

  /** What was written reads back row by row. */
  lemma {:induction false} PutRowsGet(buf: Bytes, sw: nat, sh: nat, x: nat, y: nat, w: nat, h: nat, src: Bytes)
    requires x + w <= sw && y + h <= sh && Holds(buf, sw, sh) && |src| == Offset(h, w * 4)
    ensures Flat(Rows(PutRows(buf, sw, sh, x, y, w, h, src), sw, sh, x, y, w, h)) == src
    decreases h
  {
    hide PutRows, Splice, Row, Offset, Holds, PixelAt, Rows, Flat;
    HoldsMore(buf, PutRows(buf, sw, sh, x, y, w, h, src), sw, sh);
    if h == 0 {
      OffsetZero(w * 4);
      FlatNone(PutRows(buf, sw, sh, x, y, w, h, src), sw, sh, x, y, w);
    } else {
      PutStep(buf, sw, sh, x, y, w, h, src);
      var n := Offset(h - 1, w * 4);
      HoldsMore(buf, PutRows(buf, sw, sh, x, y, w, h - 1, src[..n]), sw, sh);
      var prev := PutRows(buf, sw, sh, x, y, w, h - 1, src[..n]);
      PutRowsGet(buf, sw, sh, x, y, w, h - 1, src[..n]);
      RowsKept(prev, sw, sh, x, y, w, h - 1, y + h - 1, src[n..]);
      RowWritten(prev, sw, sh, x, w, y + h - 1, src[n..]);
      FlatStep(PutRows(buf, sw, sh, x, y, w, h, src), sw, sh, x, y, w, h);
      assert src[..n] + src[n..] == src;
    }
  }

  lemma FlatNone(buf: Bytes, sw: nat, sh: nat, x: nat, y: nat, w: nat)
    requires x + w <= sw && y <= sh && Holds(buf, sw, sh)
    ensures Flat(Rows(buf, sw, sh, x, y, w, 0)) == []
  {
  }

  lemma OffsetZero(rb: nat)
    ensures Offset(0, rb) == 0
  {
  }

  lemma HoldsMore(a: Bytes, b: Bytes, sw: nat, sh: nat)
    requires Holds(a, sw, sh) && |a| == |b|
    ensures Holds(b, sw, sh)
  {
  }

  /** Bytes outside the rectangle stay. */
  lemma {:induction false} PutRowsElsewhere(buf: Bytes, sw: nat, sh: nat, x: nat, y: nat, w: nat, h: nat,
                                            src: Bytes, k: nat)
    requires x + w <= sw && y + h <= sh && Holds(buf, sw, sh) && |src| == Offset(h, w * 4) && k < |buf|
    requires forall r | y <= r < y + h :: !InRow(sw, x, w, r, k)
    ensures PutRows(buf, sw, sh, x, y, w, h, src)[k] == buf[k]
    decreases h
  {
    if h > 0 {
      var n := Offset(h - 1, w * 4);
      Products(h, h, w * 4);
      RowBound(sw, sh, x, w, y + h - 1);
      PutRowsElsewhere(buf, sw, sh, x, y, w, h - 1, src[..n], k);
      assert !InRow(sw, x, w, y + h - 1, k);
      SpliceParts(PutRows(buf, sw, sh, x, y, w, h - 1, src[..n]), PixelAt(sw, x, y + h - 1), src[n..]);
      hide Splice, Holds;
    }
  }

  predicate InRow(sw: nat, x: nat, w: nat, r: nat, k: nat) { PixelAt(sw, x, r) <= k < PixelAt(sw, x, r) + w * 4 }
}

/** One guest's framebuffer session: surfaces, selection, detach and rebind. */
module Framebuffer {
  import opened Modular
  import opened Memory
  import opened Surfaces

  const VERSION := 1
  const DATA_BYTES := 65536
  const WORD := 0x1_0000_0000
  const LAST32 := 0xffff_ffff
  const LAST64 := 0xffff_ffff_ffff_ffff
  const ARENA_BYTES := 2 * MAX_SURFACES * SURFACE_BYTES
  const REBIND_FRAMES := 13

  datatype Status = Ok | BadVersion | BadOperation | BadHandle | BadBounds | NoSpace

  datatype Request = Request(version: nat, operation: nat, id: nat, reserved: nat, handle: nat,
                             x: nat, y: nat, width: nat, height: nat, dataOffset: nat, dataLength: nat)
  datatype Response = Response(status: Status, id: nat, handle: nat, sequence: nat, width: nat, height: nat)

  datatype Meta = Meta(handle: nat, sequence: nat, width: nat, height: nat)

  const BLANK := Meta(0, 0, 0, 0)
  const NOTHING := Selection(0, 0, 0, 0, 0)

  /** A client session.  `issued` and `flips` are histories: every handle ever handed
      out, and the pixels each surface had at its last flip. */
  datatype Session = Session(
    bound: bool, nextHandle: nat, generation: nat, retired: bool, sel: Selection,
    metas: seq<Meta>, arena: Bytes, data: Bytes, issued: set<nat>, flips: seq<Bytes>)

  // ---- the arena: a staging and a committed area per surface ----------------------------

  function At(i: nat, k: nat): nat { (2 * i + k) * SURFACE_BYTES }

  function Area(arena: Bytes, i: nat, k: nat): (a: Bytes)
    requires |arena| >= ARENA_BYTES && i < MAX_SURFACES && k < 2
    ensures |a| == SURFACE_BYTES
  {
    arena[At(i, k)..At(i, k) + SURFACE_BYTES]
  }

  function SetArea(arena: Bytes, i: nat, k: nat, p: Bytes): (r: Bytes)
    requires |arena| >= ARENA_BYTES && i < MAX_SURFACES && k < 2 && |p| == SURFACE_BYTES
    ensures |r| == |arena|
  {
    Splice(arena, At(i, k), p)
  }

  /** Areas do not overlap. */
  lemma AreaSet(arena: Bytes, i: nat, k: nat, p: Bytes, j: nat, m: nat)
    requires |arena| >= ARENA_BYTES && i < MAX_SURFACES && k < 2 && j < MAX_SURFACES && m < 2 && |p| == SURFACE_BYTES
    ensures Area(SetArea(arena, i, k, p), j, m) == if i == j && k == m then p else Area(arena, j, m)
  {
    AreaBound(i, k);
    AreaBound(j, m);
    AreasApart(i, k, j, m);
    hide Splice, At;
    SpliceParts(arena, At(i, k), p);
    if i != j || k != m {
      SameSlice(arena, SetArea(arena, i, k, p), At(j, m), At(j, m) + SURFACE_BYTES);
    }
  }

  lemma AreaBound(i: nat, k: nat)
    requires i < MAX_SURFACES && k < 2
    ensures At(i, k) + SURFACE_BYTES <= ARENA_BYTES
  {
  }

  lemma AreasApart(i: nat, k: nat, j: nat, m: nat)
    requires k < 2 && m < 2
    ensures (i == j && k == m) || At(i, k) + SURFACE_BYTES <= At(j, m) || At(j, m) + SURFACE_BYTES <= At(i, k)
  {
    var a, b := 2 * i + k, 2 * j + m;
    assert a == b ==> i == j && k == m;
  }

  function Size(m: Meta): nat { m.width * m.height * 4 }

  predicate Bounded(m: Meta) { 0 < m.width <= MAX_WIDTH && 0 < m.height <= MAX_HEIGHT }

  lemma SizeBound(m: Meta)
    requires m.width <= MAX_WIDTH && m.height <= MAX_HEIGHT
    ensures Size(m) <= SURFACE_BYTES
  {
    MulLe(m.width, MAX_WIDTH, m.height, MAX_HEIGHT);
  }

  function Zeros(n: nat): (z: Bytes)
    ensures |z| == n
  {
    seq(n, _ => 0)
  }

  // ---- requests ----------------------------------------------------------------------------

  /** First surface from i on with this handle. */
  function FindFrom(metas: seq<Meta>, handle: nat, i: nat): (k: nat)
    requires i <= |metas|
    ensures i <= k <= |metas| && (k < |metas| ==> metas[k].handle == handle)
    ensures forall j | i <= j < k :: metas[j].handle != handle
    decreases |metas| - i
  {
    if i == |metas| || metas[i].handle == handle then i else FindFrom(metas, handle, i + 1)
  }

  function Lookup(c: Session, handle: nat): nat {
    if handle == 0 then |c.metas| else FindFrom(c.metas, handle, 0)
  }

  predicate GeometryValid(m: Meta, q: Request) {
    && q.width != 0 && q.height != 0 && q.x <= m.width && q.y <= m.height
    && q.width <= m.width - q.x && q.height <= m.height - q.y
  }

  predicate RectangleValid(m: Meta, q: Request) {
    && GeometryValid(m, q) && q.dataOffset <= DATA_BYTES
    && q.dataLength == q.width * q.height * 4 && q.width * q.height * 4 <= DATA_BYTES - q.dataOffset
  }

  predicate Shaped(c: Session) {
    && |c.metas| == MAX_SURFACES && |c.flips| == MAX_SURFACES
    && (c.bound ==> |c.arena| >= ARENA_BYTES && |c.data| == DATA_BYTES)
    && (forall i | 0 <= i < |c.metas| && c.metas[i].handle != 0 :: Bounded(c.metas[i]))
    && (!c.bound ==> forall i | 0 <= i < |c.metas| :: c.metas[i].handle == 0)
  }

  function Created(c: Session, q: Request): (Session, Response)
    requires Shaped(c) && c.bound
  {
    if q.width == 0 || q.height == 0 || q.width > MAX_WIDTH || q.height > MAX_HEIGHT then
      (c, Response(BadBounds, q.id, q.handle, 0, 0, 0))
    else
      var i := FindFrom(c.metas, 0, 0);
      if i == |c.metas| || c.nextHandle == 0 then (c, Response(NoSpace, q.id, q.handle, 0, 0, 0))
      else
        var m := Meta(c.nextHandle, 0, q.width, q.height);
        SizeBound(m);
        var blank := SetArea(c.arena, i, 0, Splice(Area(c.arena, i, 0), 0, Zeros(Size(m))));
        (c.(metas := c.metas[i := m], nextHandle := (c.nextHandle + 1) % (LAST64 + 1),
            arena := SetArea(blank, i, 1, Splice(Area(blank, i, 1), 0, Zeros(Size(m)))),
            issued := c.issued + {c.nextHandle}),
         Response(Ok, q.id, c.nextHandle, 0, q.width, q.height))
  }

  lemma Fits(m: Meta, q: Request)
    requires Bounded(m) && GeometryValid(m, q)
    ensures m.width * m.height * 4 <= SURFACE_BYTES && Offset(q.height, q.width * 4) == q.width * q.height * 4
  {
    SizeBound(m);
    OffsetIs(q.width, q.height);
  }

  /** The rectangle of a request in one of a surface's areas. */
  function Rectangle(buf: Bytes, m: Meta, q: Request): (r: Bytes)
    requires Bounded(m) && GeometryValid(m, q) && |buf| == SURFACE_BYTES
    ensures |r| == q.width * q.height * 4
  {
    Fits(m, q);
    FlatSize(Rows(buf, m.width, m.height, q.x, q.y, q.width, q.height), q.width * 4);
    Flat(Rows(buf, m.width, m.height, q.x, q.y, q.width, q.height))
  }

  function Written(c: Session, i: nat, q: Request): Session
    requires Shaped(c) && c.bound && i < |c.metas| && c.metas[i].handle != 0 && RectangleValid(c.metas[i], q)
  {
    var m := c.metas[i];
    Fits(m, q);
    var src := c.data[q.dataOffset..q.dataOffset + q.dataLength];
    c.(arena := SetArea(c.arena, i, 0,
                        PutRows(Area(c.arena, i, 0), m.width, m.height, q.x, q.y, q.width, q.height, src)))
  }

  function Flipped(c: Session, i: nat): Session
    requires Shaped(c) && c.bound && i < |c.metas| && c.metas[i].handle != 0
  {
    var m := c.metas[i];
    SizeBound(m);
    var pixels := Area(c.arena, i, 0)[..Size(m)];
    c.(arena := SetArea(c.arena, i, 1, Splice(Area(c.arena, i, 1), 0, pixels)),
       metas := c.metas[i := m.(sequence := m.sequence + 1)], flips := c.flips[i := pixels])
  }

  function Answer(c: Session, i: nat, q: Request): Response
    requires i < |c.metas|
  {
    var m := c.metas[i];
    Response(Ok, q.id, m.handle, m.sequence, m.width, m.height)
  }

  function Execute(c: Session, q: Request): (Session, Response)
    requires Shaped(c) && c.bound
  {
    var base := Response(Ok, q.id, q.handle, 0, 0, 0);
    if q.version != VERSION then (c, base.(status := BadVersion))
    else if q.reserved != 0 || q.operation < 1 || q.operation > 7 then (c, base.(status := BadOperation))
    else if q.operation == 7 && q.handle == 0 then (c.(sel := NOTHING), base)
    else if q.operation == 1 then Created(c, q)
    else
      var i := Lookup(c, q.handle);
      if i == |c.metas| then (c, base.(status := BadHandle))
      else
        var m := c.metas[i];
        if q.operation == 7 then
          if !GeometryValid(m, q) then (c, base.(status := BadBounds))
          else (c.(sel := Selection(m.handle, q.x, q.y, q.width, q.height)), Answer(c, i, q))
        else if q.operation == 2 then
          if !RectangleValid(m, q) then (c, base.(status := BadBounds)) else (Written(c, i, q), Answer(c, i, q))
        else if q.operation == 5 then
          if !RectangleValid(m, q) then (c, base.(status := BadBounds))
          else (c.(data := Splice(c.data, q.dataOffset, Rectangle(Area(c.arena, i, 1), m, q))), Answer(c, i, q))
        else if q.operation == 3 then
          if m.sequence == LAST64 then (c, base.(status := NoSpace))
          else (Flipped(c, i), Answer(Flipped(c, i), i, q))
        else if q.operation == 6 then
          (c.(metas := c.metas[i := m.(handle := 0)],
              sel := if c.sel.handle == m.handle then c.sel.(handle := 0) else c.sel), Answer(c, i, q))
        else (c, Answer(c, i, q))
  }

  // ---- detach and rebind -----------------------------------------------------------------------

  function Detached(c: Session): Session {
    c.(bound := false, retired := true, sel := NOTHING, metas := seq(MAX_SURFACES, _ => BLANK), arena := [], data := [])
  }

  /** aos_fb_client_rebind on a fresh region and arena. */
  function Rebound(c: Session, arena: Bytes, data: Bytes, clean: bool, generation: nat): (Session, bool) {
    if c.bound || !c.retired || c.generation == LAST32 || generation == 0 || generation != c.generation + 1
       || |arena| < ARENA_BYTES || |data| != DATA_BYTES || !clean then (c, false)
    else
      (c.(bound := true, retired := false, generation := generation, sel := NOTHING,
          metas := seq(MAX_SURFACES, _ => BLANK), arena := arena, data := data), true)
  }

  // ---- what every request keeps ------------------------------------------------------------------

  ghost predicate HandlesOk(c: Session) {
    && (forall i, j | 0 <= i < j < |c.metas| && c.metas[i].handle != 0 :: c.metas[i].handle != c.metas[j].handle)
    && (forall i | 0 <= i < |c.metas| && c.metas[i].handle != 0 :: c.metas[i].handle in c.issued)
    && c.nextHandle <= LAST64
    && (forall h | h in c.issued :: 0 < h <= LAST64 && (c.nextHandle == 0 || h < c.nextHandle))
  }

  /** Surface i is the selected one and contains the selected rectangle. */
  predicate Names(c: Session, i: nat) {
    && i < |c.metas| && c.metas[i].handle == c.sel.handle != 0 && 0 < c.sel.width && 0 < c.sel.height
    && c.sel.x + c.sel.width <= c.metas[i].width && c.sel.y + c.sel.height <= c.metas[i].height
  }

  ghost predicate SelectionOk(c: Session) { c.sel.handle != 0 ==> exists i :: Names(c, i) }

  /** The committed pixels of surface i are those of its last flip. */
  ghost predicate FlipOk(c: Session, i: nat)
    requires Shaped(c) && c.bound && i < |c.metas|
  {
    var m := c.metas[i];
    m.handle != 0 && m.sequence > 0 ==> Size(m) <= SURFACE_BYTES && Area(c.arena, i, 1)[..Size(m)] == c.flips[i]
  }

  ghost predicate Inv(c: Session) {
    Shaped(c) && HandlesOk(c) && SelectionOk(c) && (c.bound ==> forall i: nat | i < |c.metas| :: FlipOk(c, i))
  }

  lemma CreatedKeeps(c: Session, q: Request)
    requires Inv(c) && c.bound
    ensures var (c', p) := Created(c, q);
            && Inv(c') && c'.bound && c.issued <= c'.issued
            && (p.status == Ok ==> p.handle !in c.issued && p.handle in c'.issued)
  {
    var (c', p) := Created(c, q);
    if p.status == Ok {
      var i := FindFrom(c.metas, 0, 0);
      var m := c'.metas[i];
      SizeBound(m);
      var blank := SetArea(c.arena, i, 0, Splice(Area(c.arena, i, 0), 0, Zeros(Size(m))));
      forall j: nat | j < |c.metas|
        ensures FlipOk(c', j)
      {
        assert FlipOk(c, j);
        if j != i {
          AreaSet(c.arena, i, 0, Splice(Area(c.arena, i, 0), 0, Zeros(Size(m))), j, 1);
          AreaSet(blank, i, 1, Splice(Area(blank, i, 1), 0, Zeros(Size(m))), j, 1);
        }
      }
      if c.sel.handle != 0 {
        var k: nat :| Names(c, k);
        assert Names(c', k);
      }
      hide Area, SetArea, Splice, Size, FlipOk;
    }
  }

  lemma WrittenKeeps(c: Session, i: nat, q: Request)
    requires Inv(c) && c.bound && i < |c.metas| && c.metas[i].handle != 0 && RectangleValid(c.metas[i], q)
    ensures Inv(Written(c, i, q))
  {
    hide Area, SetArea, PutRows, Size, FlipOk;
    var c', m := Written(c, i, q), c.metas[i];
    Fits(m, q);
    var src := c.data[q.dataOffset..q.dataOffset + q.dataLength];
    var p := PutRows(Area(c.arena, i, 0), m.width, m.height, q.x, q.y, q.width, q.height, src);
    forall j: nat | j < |c.metas|
      ensures FlipOk(c', j)
    {
      PendingSet(c, i, p, j);
    }
    if c.sel.handle != 0 {
      var k: nat :| Names(c, k);
      assert Names(c', k);
    }
  }

  /** Writing a pending area leaves the committed pixels as they are. */
  lemma PendingSet(c: Session, i: nat, p: Bytes, j: nat)
    requires Shaped(c) && c.bound && i < |c.metas| && j < |c.metas| && |p| == SURFACE_BYTES && FlipOk(c, j)
    ensures var c' := c.(arena := SetArea(c.arena, i, 0, p)); Shaped(c') && FlipOk(c', j)
  {
    AreaSet(c.arena, i, 0, p, j, 1);
    hide Area, SetArea, Size;
  }

  lemma FlippedKeeps(c: Session, i: nat)
    requires Inv(c) && c.bound && i < |c.metas| && c.metas[i].handle != 0
    ensures Inv(Flipped(c, i))
  {
    var c', m := Flipped(c, i), c.metas[i];
    SizeBound(m);
    var pixels := Area(c.arena, i, 0)[..Size(m)];
    var p := Splice(Area(c.arena, i, 1), 0, pixels);
    SpliceParts(Area(c.arena, i, 1), 0, pixels);
    forall j: nat | j < |c.metas|
      ensures FlipOk(c', j)
    {
      assert FlipOk(c, j);
      AreaSet(c.arena, i, 1, p, j, 1);
      assert p[..Size(m)] == p[0..0 + |pixels|];
    }
    if c.sel.handle != 0 {
      var k: nat :| Names(c, k);
      assert Names(c', k);
    }
    hide Area, SetArea, Splice, Size, FlipOk;
  }

  lemma DestroyedKeeps(c: Session, i: nat, c': Session)
    requires Inv(c) && c.bound && i < |c.metas| && c.metas[i].handle != 0
    requires c' == c.(metas := c.metas[i := c.metas[i].(handle := 0)],
                      sel := if c.sel.handle == c.metas[i].handle then c.sel.(handle := 0) else c.sel)
    ensures Inv(c')
  {
    forall j: nat | j < |c.metas|
      ensures FlipOk(c', j)
    {
      assert FlipOk(c, j);
    }
    if c'.sel.handle != 0 {
      var k: nat :| Names(c, k);
      assert Names(c', k);
    }
    hide Area, Size, FlipOk;
  }

  /** Every request keeps the session in order and hands out only fresh handles. */
  lemma ExecuteKeeps(c: Session, q: Request)
    requires Inv(c) && c.bound
    ensures var (c', p) := Execute(c, q);
            && Inv(c') && c'.bound && c.issued <= c'.issued && c'.generation == c.generation
            && (q.operation == 1 && p.status == Ok ==> p.handle !in c.issued && p.handle in c'.issued)
  {
    hide Area, SetArea, Rectangle, PutRows, Splice, Size, SelectionOk, FlipOk, HandlesOk;
    var i := Lookup(c, q.handle);
    if q.version == VERSION && q.reserved == 0 && q.operation == 1 {
      CreatedKeeps(c, q);
      hide Created, Inv;
    } else if i < |c.metas| && q.operation == 2 && RectangleValid(c.metas[i], q) {
      WrittenKeeps(c, i, q);
      hide RectangleValid, Inv;
    } else if i < |c.metas| && q.operation == 3 {
      FlippedKeeps(c, i);
      hide Inv;
    } else if i < |c.metas| && q.operation == 6 {
      DestroyedKeeps(c, i, c.(metas := c.metas[i := c.metas[i].(handle := 0)],
                              sel := if c.sel.handle == c.metas[i].handle then c.sel.(handle := 0) else c.sel));
      hide Inv;
    } else {
      OtherKeeps(c, q);
      hide Execute, Inv;
    }
  }

  lemma OtherKeeps(c: Session, q: Request)
    requires Inv(c) && c.bound && !(q.version == VERSION && q.reserved == 0 && q.operation == 1)
    requires Lookup(c, q.handle) == |c.metas| || q.operation !in {2, 3, 6}
             || (q.operation == 2 && !RectangleValid(c.metas[Lookup(c, q.handle)], q))
    ensures var (c', p) := Execute(c, q);
            Inv(c') && c'.bound && c'.issued == c.issued && c'.generation == c.generation
            && (q.operation == 1 ==> p.status != Ok)
  {
    var c' := Execute(c, q).0;
    var i := Lookup(c, q.handle);
    hide Area, SetArea, Rectangle, PutRows, Splice, Size, SelectionOk, FlipOk, HandlesOk, RectangleValid, Written,
         Flipped, Created;
    assert c' == c.(sel := c'.sel, data := c'.data);
    if c'.sel != c.sel && c'.sel.handle != 0 {
      assert Names(c', i);
    }
    SelectKeeps(c, c');
  }

  /** Changing only the selection or the payload keeps everything else. */
  lemma SelectKeeps(c: Session, c': Session)
    requires Inv(c) && c.bound && c' == c.(sel := c'.sel, data := c'.data) && |c'.data| == DATA_BYTES
    requires c'.sel == c.sel || c'.sel.handle == 0 || exists i :: Names(c', i)
    ensures Inv(c')
  {
    forall j: nat | j < |c.metas|
      ensures FlipOk(c', j)
    {
      assert FlipOk(c, j);
    }
    if c'.sel == c.sel && c.sel.handle != 0 {
      var k: nat :| Names(c, k);
      assert Names(c', k);
    }
    hide Area, Size, FlipOk;
  }

  // ---- staged rebind ---------------------------------------------------------------------------------

  const STAGE := 1
  const COMMIT := 2
  const ABORT := 3

  datatype Control = Control(authorized: bool, version: nat, generation: nat, index: nat)
  datatype Verdict = Accepted | BadRequest | Denied | BadState | Resource

  /** A session together with the rebind being staged for it. */
  datatype Link = Link(c: Session, stagedGeneration: nat, nextFrame: nat)

  function Validate(l: Link, op: nat, q: Control): Verdict {
    var c := l.c;
    if q.version != 1 || op < STAGE || op > ABORT then BadRequest
    else if !q.authorized then Denied
    else if op == ABORT && q.index == 0 && q.generation != 0 && c.retired && !c.bound && l.nextFrame == 0
            && l.stagedGeneration == 0 && q.generation == c.generation then Accepted
    else if c.bound || !c.retired || c.generation == LAST32 || q.generation == 0 || q.generation != c.generation + 1
            || (l.nextFrame != 0 && l.stagedGeneration != q.generation)
            || (l.nextFrame == 0 && l.stagedGeneration != 0) then BadState
    else if op == STAGE then if q.index < REBIND_FRAMES && q.index == l.nextFrame then Accepted else BadState
    else if q.index != 0 then BadRequest
    else if op == COMMIT then if l.nextFrame == REBIND_FRAMES then Accepted else BadState
    else if l.nextFrame <= REBIND_FRAMES then Accepted else BadState
  }

  function Staged(l: Link, q: Control): (Link, Verdict) {
    var v := Validate(l, STAGE, q);
    if v != Accepted then (l, v) else (l.(stagedGeneration := q.generation, nextFrame := l.nextFrame + 1), Accepted)
  }

  function Committed(l: Link, q: Control, arena: Bytes, data: Bytes, clean: bool): (Link, Verdict) {
    var v := Validate(l, COMMIT, q);
    if v != Accepted then (l, v)
    else
      var (c, ok) := Rebound(l.c, arena, data, clean, q.generation);
      if ok then (Link(c, 0, 0), Accepted) else (l, Resource)
  }

  function Aborted(l: Link, q: Control): (Link, Verdict) {
    var v := Validate(l, ABORT, q);
    if v != Accepted then (l, v) else (Link(l.c.(generation := q.generation), 0, 0), Accepted)
  }

  datatype Step =
    | Exec(q: Request)
    | Payload(shared: Bytes)  // the client rewrites the shared data area
    | Detach
    | Stage(ctl: Control)
    | Commit(control: Control, arena: Bytes, data: Bytes, clean: bool)
    | Abort(abort: Control)

  function Next(l: Link, step: Step): Link
    requires Shaped(l.c)
  {
    match step
    case Exec(q) => if l.c.bound then l.(c := Execute(l.c, q).0) else l
    case Payload(shared) => if l.c.bound && |shared| == DATA_BYTES then l.(c := l.c.(data := shared)) else l
    case Detach => if l.c.bound then l.(c := Detached(l.c)) else l
    case Stage(q) => Staged(l, q).0
    case Commit(q, arena, data, clean) => Committed(l, q, arena, data, clean).0
    case Abort(q) => Aborted(l, q).0
  }

  ghost predicate LinkInv(l: Link) {
    && Inv(l.c) && l.c.generation <= LAST32 && (l.c.bound ==> !l.c.retired)
    && l.nextFrame <= REBIND_FRAMES && (l.nextFrame == 0 <==> l.stagedGeneration == 0)
    && (l.nextFrame > 0 ==> l.stagedGeneration == l.c.generation + 1 && l.c.retired && !l.c.bound)
  }

  lemma NextKeeps(l: Link, step: Step)
    requires LinkInv(l)
    ensures LinkInv(Next(l, step)) && l.c.issued <= Next(l, step).c.issued
    ensures l.c.generation <= Next(l, step).c.generation
  {
    match step
    case Exec(q) =>
      if l.c.bound {
        ExecuteKeeps(l.c, q);
        assert Execute(l.c, q).0.retired == l.c.retired;
        hide Execute, Inv;
      }
    case Payload(shared) =>
      if l.c.bound && |shared| == DATA_BYTES {
        SelectKeeps(l.c, l.c.(data := shared));
        hide Inv;
      }
    case Detach =>
    case Stage(q) =>
    case Commit(q, arena, data, clean) =>
      hide FlipOk;
      var c := Next(l, step).c;
      if c != l.c {
        forall j: nat | j < |c.metas|
          ensures FlipOk(c, j)
        {
          UnusedFlip(c, j);
        }
      }
    case Abort(q) =>
  }

  lemma UnusedFlip(c: Session, j: nat)
    requires Shaped(c) && c.bound && j < |c.metas| && c.metas[j].handle == 0
    ensures FlipOk(c, j)
  {
  }

  function Run(l: Link, steps: seq<Step>): (r: Link)
    requires LinkInv(l)
    ensures LinkInv(r) && l.c.issued <= r.c.issued && l.c.generation <= r.c.generation
    decreases |steps|
  {
    if steps == [] then l
    else
      var t := Run(l, steps[..|steps| - 1]);
      NextKeeps(t, steps[|steps| - 1]);
      Next(t, steps[|steps| - 1])
  }

  /** A fresh session. */
  function Start(arena: Bytes, data: Bytes): Link {
    var surfaces := seq(MAX_SURFACES, _ => BLANK);
    Link(Session(true, 1, 0, false, NOTHING, surfaces, arena, data, {}, seq(MAX_SURFACES, _ => [])), 0, 0)
  }

  lemma StartHolds(arena: Bytes, data: Bytes)
    requires |arena| >= ARENA_BYTES && |data| == DATA_BYTES
    ensures LinkInv(Start(arena, data))
  {
    var l := Start(arena, data);
    forall j: nat | j < |l.c.metas|
      ensures FlipOk(l.c, j)
    {
      UnusedFlip(l.c, j);
    }
    hide FlipOk;
  }

  /** No handle is ever handed out twice, whatever happens in between: destroys,
      detaches, aborted and committed rebinds included. */
  lemma NeverReissued(l: Link, q: Request, steps: seq<Step>, q': Request)
    requires LinkInv(l) && l.c.bound && q.operation == 1 && q'.operation == 1 && Execute(l.c, q).1.status == Ok
    ensures var mid := Run(l, [Exec(q)] + steps);
            mid.c.bound && Execute(mid.c, q').1.status == Ok ==> Execute(mid.c, q').1.handle != Execute(l.c, q).1.handle
  {
    ExecuteKeeps(l.c, q);
    RunIncludes(l, Exec(q), steps);
    var mid := Run(l, [Exec(q)] + steps);
    hide Execute, Run, Inv;
    if mid.c.bound {
      ExecuteKeeps(mid.c, q');
    }
  }

  lemma {:induction false} RunIncludes(l: Link, first: Step, steps: seq<Step>)
    requires LinkInv(l)
    ensures Next(l, first).c.issued <= Run(l, [first] + steps).c.issued
    decreases |steps|
  {
    hide Next, LinkInv;
    var all, n := [first] + steps, |steps|;
    if n == 0 {
      assert all[..0] == [] && all[0] == first && all == [first];
    } else {
      assert all[..n] == [first] + steps[..n - 1] && |all| == n + 1;
      RunIncludes(l, first, steps[..n - 1]);
      NextKeeps(Run(l, all[..n]), all[n]);
    }
  }

  // ---- captures ------------------------------------------------------------------------------------------

  /** Surface i as a reader sees it. */
  function View(c: Session, i: nat, pixels: Bytes): Surface
    requires i < |c.metas|
  {
    var m := c.metas[i];
    Surface(m.handle, m.sequence, m.width, m.height, pixels)
  }

  lemma NamesInside(c: Session, i: nat, pixels: Bytes)
    requires Names(c, i) && Shaped(c) && |pixels| >= Size(c.metas[i])
    ensures Inside(View(c, i, pixels), c.sel)
  {
  }

  /** Pictures depend only on the pixels of the surface, not on what lies behind them. */
  lemma {:induction false} RowsPrefix(a: Bytes, b: Bytes, sw: nat, sh: nat, x: nat, y: nat, w: nat, h: nat)
    requires x + w <= sw && y + h <= sh && Holds(a, sw, sh) && Holds(b, sw, sh) && a[..sw * sh * 4] == b[..sw * sh * 4]
    ensures Rows(a, sw, sh, x, y, w, h) == Rows(b, sw, sh, x, y, w, h)
    decreases h
  {
    if h > 0 {
      RowsPrefix(a, b, sw, sh, x, y, w, h - 1);
      RowPrefix(a, b, sw, sh, x, w, y + h - 1);
      hide Row, Holds;
    }
  }

  lemma RowPrefix(a: Bytes, b: Bytes, sw: nat, sh: nat, x: nat, w: nat, r: nat)
    requires x + w <= sw && r < sh && Holds(a, sw, sh) && Holds(b, sw, sh) && a[..sw * sh * 4] == b[..sw * sh * 4]
    ensures Row(a, sw, sh, x, w, r) == Row(b, sw, sh, x, w, r)
  {
    RowBound(sw, sh, x, w, r);
    var n := sw * sh * 4;
    hide PixelAt;
    var i := PixelAt(sw, x, r);
    assert a[..n][i..i + w * 4] == a[i..i + w * 4];
    assert b[..n][i..i + w * 4] == b[i..i + w * 4];
  }

  /** The copy loop of CAPTURE stays inside the snapshot and leaves there exactly the
      selected rectangle of the last flip. */
  method Capture(c: Session, snapshot: Bytes) returns (ok: bool, after: Bytes)
    requires Inv(c) && c.bound && |snapshot| >= SURFACE_BYTES
    ensures |after| == |snapshot|
    ensures !ok ==> after == snapshot && forall i: nat | Names(c, i) :: c.metas[i].sequence == 0
    ensures ok ==> exists i: nat | Names(c, i) && c.metas[i].sequence > 0 ::
                     Inside(View(c, i, c.flips[i]), c.sel)
                     && var picture := Picture(View(c, i, c.flips[i]), c.sel);
                        |picture| <= |snapshot| && after == picture + snapshot[|picture|..]
  {
    ok, after := false, snapshot;
    var i := Lookup(c, c.sel.handle);
    NoneChosen(c, i);
    if c.sel.handle == 0 || i == |c.metas| {
      return;
    }
    Chosen(c, i);
    if c.metas[i].sequence == 0 {
      return;
    }
    var m := c.metas[i];
    assert FlipOk(c, i);
    CaptureBounds(c, i);
    after := CopyRows(snapshot, 0, Area(c.arena, i, 1), m.width, m.height, c.sel.x, c.sel.y, c.sel.width, c.sel.height);
    SpliceParts(snapshot, 0, Picture(View(c, i, c.flips[i]), c.sel));
    ok := true;
    assert after == Picture(View(c, i, c.flips[i]), c.sel) + snapshot[|Picture(View(c, i, c.flips[i]), c.sel)|..];
  }

  /** The looked-up surface is the only one the selection can name. */
  lemma Chosen(c: Session, i: nat)
    requires Inv(c) && c.sel.handle != 0 && i == Lookup(c, c.sel.handle) && i < |c.metas|
    ensures Names(c, i) && forall j: nat | Names(c, j) :: j == i
  {
    var k: nat :| Names(c, k);
  }

  lemma NoneChosen(c: Session, i: nat)
    requires i == Lookup(c, c.sel.handle)
    ensures c.sel.handle == 0 || i == |c.metas| ==> forall j: nat :: !Names(c, j)
  {
  }

  lemma CaptureBounds(c: Session, i: nat)
    requires Inv(c) && c.bound && Names(c, i) && c.metas[i].sequence > 0
    ensures var m := c.metas[i];
            && Holds(Area(c.arena, i, 1), m.width, m.height) && Inside(View(c, i, c.flips[i]), c.sel)
            && Flat(Rows(Area(c.arena, i, 1), m.width, m.height, c.sel.x, c.sel.y, c.sel.width, c.sel.height))
               == Picture(View(c, i, c.flips[i]), c.sel)
            && |Picture(View(c, i, c.flips[i]), c.sel)| <= SURFACE_BYTES
  {
    var m := c.metas[i];
    assert FlipOk(c, i);
    SizeBound(m);
    NamesInside(c, i, c.flips[i]);
    PictureSize(View(c, i, c.flips[i]), c.sel);
    SizeBound(Meta(0, 0, c.sel.width, c.sel.height));
    assert c.flips[i][..Size(m)] == c.flips[i];
    RowsPrefix(Area(c.arena, i, 1), c.flips[i], m.width, m.height, c.sel.x, c.sel.y, c.sel.width, c.sel.height);
    hide Area, Rows, Flat;
  }

  /** End to end: a rectangle written and flipped reads back as it was written. */
  lemma WriteThenFlip(c: Session, i: nat, q: Request)
    requires Inv(c) && c.bound && i < |c.metas| && c.metas[i].handle != 0 && RectangleValid(c.metas[i], q)
    ensures Inv(Written(c, i, q))
    ensures var c' := Flipped(Written(c, i, q), i);
            Rectangle(Area(c'.arena, i, 1), c.metas[i], q) == c.data[q.dataOffset..q.dataOffset + q.dataLength]
  {
    WrittenKeeps(c, i, q);
    var w, m := Written(c, i, q), c.metas[i];
    Fits(m, q);
    SizeBound(m);
    var src := c.data[q.dataOffset..q.dataOffset + q.dataLength];
    var p := PutRows(Area(c.arena, i, 0), m.width, m.height, q.x, q.y, q.width, q.height, src);
    AreaSet(c.arena, i, 0, p, i, 0);
    var out := Splice(Area(w.arena, i, 1), 0, p[..Size(m)]);
    AreaSet(w.arena, i, 1, out, i, 1);
    SpliceParts(Area(w.arena, i, 1), 0, p[..Size(m)]);
    assert out[..Size(m)] == out[0..0 + Size(m)] == p[..Size(m)];
    PutRowsGet(Area(c.arena, i, 0), m.width, m.height, q.x, q.y, q.width, q.height, src);
    RowsPrefix(out, p, m.width, m.height, q.x, q.y, q.width, q.height);
    hide Area, SetArea, PutRows, Splice, Rows, Flat, RectangleValid;
  }

  // ---- the session in place ---------------------------------------------------------------------------------

  /** The row loop of WRITE: each row lands in the arena directly. */
  method WriteRect(arena: Bytes, i: nat, m: Meta, q: Request, src: Bytes) returns (out: Bytes)
    requires |arena| >= ARENA_BYTES && i < MAX_SURFACES && Bounded(m) && GeometryValid(m, q)
    requires |src| == Offset(q.height, q.width * 4) && Holds(Area(arena, i, 0), m.width, m.height)
    ensures out == SetArea(arena, i, 0, PutRows(Area(arena, i, 0), m.width, m.height, q.x, q.y, q.width, q.height, src))
  {
    hide Area, SetArea, PutRows, Splice, PixelAt, Offset, Holds, At, Bounded;
    out := arena;
    var rb, from := q.width * 4, 0;
    ghost var area := Area(arena, i, 0);
    NoRows(arena, i, m, q);
    assert src[..0] == [];
    AreaBound(i, 0);
    for row := 0 to q.height
      invariant from == Offset(row, rb) <= |src|
      invariant out == SetArea(arena, i, 0, PutRows(area, m.width, m.height, q.x, q.y, q.width, row, src[..from]))
    {
      OffsetStep(row, q.height, rb);
      var pixel := PixelAt(m.width, q.x, q.y + row);
      WriteStep(arena, i, m, q, src, row, from, rb);
      out := Splice(out, At(i, 0) + pixel, src[from..from + rb]);
      from := from + rb;
    }
    assert src[..from] == src;
  }

  lemma OffsetStep(r: nat, h: nat, rb: nat)
    requires r < h
    ensures Offset(r + 1, rb) == Offset(r, rb) + rb <= Offset(h, rb)
  {
    Products(r + 1, h, rb);
  }

  lemma NoRows(arena: Bytes, i: nat, m: Meta, q: Request)
    requires |arena| >= ARENA_BYTES && i < MAX_SURFACES && Bounded(m) && GeometryValid(m, q)
    requires Holds(Area(arena, i, 0), m.width, m.height)
    ensures Offset(0, q.width * 4) == 0
    ensures arena == SetArea(arena, i, 0, PutRows(Area(arena, i, 0), m.width, m.height, q.x, q.y, q.width, 0, []))
  {
    OffsetZero(q.width * 4);
    assert Splice(arena, At(i, 0), Area(arena, i, 0)) == arena;
  }

  lemma WriteStep(arena: Bytes, i: nat, m: Meta, q: Request, src: Bytes, row: nat, from: nat, rb: nat)
    requires |arena| >= ARENA_BYTES && i < MAX_SURFACES && Bounded(m) && GeometryValid(m, q) && rb == q.width * 4
    requires Holds(Area(arena, i, 0), m.width, m.height) && row < q.height && from == Offset(row, rb)
    requires from + rb == Offset(row + 1, rb) <= |src|
    ensures var area := Area(arena, i, 0);
            var p := PutRows(area, m.width, m.height, q.x, q.y, q.width, row, src[..from]);
            var at := At(i, 0) + PixelAt(m.width, q.x, q.y + row);
            && at + rb <= |arena|
            && Splice(SetArea(arena, i, 0, p), at, src[from..from + rb])
               == SetArea(arena, i, 0, PutRows(area, m.width, m.height, q.x, q.y, q.width, row + 1, src[..from + rb]))
  {
    hide Area, PutRows, Splice, PixelAt, Offset, Holds, At, Bounded;
    AreaBound(i, 0);
    var area := Area(arena, i, 0);
    var now := src[..from + rb];
    PutStep(area, m.width, m.height, q.x, q.y, q.width, row + 1, now);
    assert now[..from] == src[..from] && now[from..] == src[from..from + rb];
    var p := PutRows(area, m.width, m.height, q.x, q.y, q.width, row, src[..from]);
    SpliceNest(arena, At(i, 0), p, PixelAt(m.width, q.x, q.y + row), src[from..from + rb]);
  }

  class Service {
    var c: Session
    var stagedGeneration: nat
    var nextFrame: nat

    constructor (arena: Bytes, data: Bytes)
      requires |arena| >= ARENA_BYTES && |data| == DATA_BYTES
      ensures State() == Start(arena, data) && LinkInv(State()) && c.bound
    {
      c, stagedGeneration, nextFrame := Start(arena, data).c, 0, 0;
      new;
      StartHolds(arena, data);
    }

    function State(): Link
      reads this
    {
      Link(c, stagedGeneration, nextFrame)
    }

    /** The client is gone: its surfaces, selection and memory with it, its handle count not. */
    method Detach()
      requires LinkInv(State()) && c.bound
      modifies this`c
      ensures State() == Next(old(State()), Step.Detach) && LinkInv(State())
    {
      NextKeeps(State(), Step.Detach);
      hide LinkInv;
      var surfaces := seq(MAX_SURFACES, _ => BLANK);
      c := c.(bound := false, retired := true, sel := NOTHING, metas := surfaces, arena := [], data := []);
    }

    /** aos_fb_rebind_staged */
    method Stage(q: Control) returns (v: Verdict)
      requires LinkInv(State())
      modifies this`stagedGeneration, this`nextFrame
      ensures (State(), v) == Staged(old(State()), q) && LinkInv(State())
    {
      NextKeeps(State(), Step.Stage(q));
      hide LinkInv, Validate;
      v := Validate(State(), STAGE, q);
      if v != Accepted {
        return;
      }
      stagedGeneration := q.generation;
      nextFrame := nextFrame + 1;
    }

    /** aos_fb_rebind_commit */
    method Commit(q: Control, arena: Bytes, data: Bytes, clean: bool) returns (v: Verdict)
      requires LinkInv(State())
      modifies this
      ensures (State(), v) == Committed(old(State()), q, arena, data, clean) && LinkInv(State())
    {
      NextKeeps(State(), Step.Commit(q, arena, data, clean));
      hide LinkInv, Validate;
      v := Validate(State(), COMMIT, q);
      if v != Accepted {
        return;
      }
      if c.bound || !c.retired || c.generation == LAST32 || q.generation == 0 || q.generation != c.generation + 1
         || |arena| < ARENA_BYTES || |data| != DATA_BYTES || !clean
      {
        return Resource;
      }
      var blank := Start(arena, data).c;
      c := blank.(nextHandle := c.nextHandle, generation := q.generation, issued := c.issued, flips := c.flips);
      stagedGeneration, nextFrame := 0, 0;
    }

    /** aos_fb_rebind_aborted */
    method Abort(q: Control) returns (v: Verdict)
      requires LinkInv(State())
      modifies this
      ensures (State(), v) == Aborted(old(State()), q) && LinkInv(State())
    {
      NextKeeps(State(), Step.Abort(q));
      hide LinkInv, Validate;
      v := Validate(State(), ABORT, q);
      if v != Accepted {
        return;
      }
      c := c.(generation := q.generation);
      stagedGeneration, nextFrame := 0, 0;
    }

    /** One request, with the row loops of WRITE and READ; the session stays in order. */
    method Handle(q: Request) returns (p: Response)
      requires Inv(c) && c.bound
      modifies this`c
      ensures (c, p) == Execute(old(c), q) && Inv(c) && c.bound
    {
      ExecuteKeeps(c, q);
      hide Inv;
      assert Shaped(c) by { SessionShaped(c); }
      var i := Lookup(c, q.handle);
      if q.version == VERSION && q.reserved == 0 && i < |c.metas| && RectangleValid(c.metas[i], q) && q.operation == 2 {
        p := Write(i, q);
      } else if q.version == VERSION && q.reserved == 0 && i < |c.metas| && RectangleValid(c.metas[i], q)
                && q.operation == 5
      {
        p := Read(i, q);
      } else {
        var result := Execute(c, q);
        c, p := result.0, result.1;
      }
    }

    method Write(i: nat, q: Request) returns (p: Response)
      requires Shaped(c) && c.bound && i == Lookup(c, q.handle) < |c.metas| && RectangleValid(c.metas[i], q)
      requires q.operation == 2 && q.version == VERSION && q.reserved == 0
      modifies this`c
      ensures (c, p) == Execute(old(c), q)
    {
      var m := c.metas[i];
      WriteIs(c, i, q);
      p := Answer(c, i, q);
      hide Execute, Area, SetArea, PutRows, Holds, Offset, Shaped, RectangleValid;
      var arena := WriteRect(c.arena, i, m, q, c.data[q.dataOffset..q.dataOffset + q.dataLength]);
      c := c.(arena := arena);
    }

    method Read(i: nat, q: Request) returns (p: Response)
      requires Shaped(c) && c.bound && i == Lookup(c, q.handle) < |c.metas| && RectangleValid(c.metas[i], q)
      requires q.operation == 5 && q.version == VERSION && q.reserved == 0
      modifies this`c
      ensures (c, p) == Execute(old(c), q)
    {
      var m := c.metas[i];
      Fits(m, q);
      p := Answer(c, i, q);
      assert |Rectangle(Area(c.arena, i, 1), m, q)| == q.width * q.height * 4;
      hide Area, Rows, Flat;
      var data := CopyRows(c.data, q.dataOffset, Area(c.arena, i, 1), m.width, m.height, q.x, q.y, q.width, q.height);
      c := c.(data := data);
    }
  }

  lemma WriteIs(c: Session, i: nat, q: Request)
    requires Shaped(c) && c.bound && i == Lookup(c, q.handle) < |c.metas| && RectangleValid(c.metas[i], q)
    requires q.operation == 2 && q.version == VERSION && q.reserved == 0
    ensures var m := c.metas[i];
            && |c.arena| >= ARENA_BYTES && i < MAX_SURFACES && Bounded(m) && GeometryValid(m, q)
            && q.dataOffset + q.dataLength <= |c.data| && q.dataLength == Offset(q.height, q.width * 4)
            && Holds(Area(c.arena, i, 0), m.width, m.height)
            && Execute(c, q) ==
                 (c.(arena := SetArea(c.arena, i, 0, PutRows(Area(c.arena, i, 0), m.width, m.height, q.x, q.y,
                                                             q.width, q.height,
                                                             c.data[q.dataOffset..q.dataOffset + q.dataLength]))),
                  Answer(c, i, q))
  {
    Fits(c.metas[i], q);
    hide Area, SetArea, PutRows, Rectangle, Created, Flipped, Offset;
  }

  lemma SessionShaped(c: Session)
    requires Inv(c)
    ensures Shaped(c)
  {
  }
}
