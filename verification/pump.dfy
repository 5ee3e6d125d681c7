/** Shared rings: free-running 32-bit indices over a small buffer. */
module Rings {
  import opened Modular

  const WORD := 0x1_0000_0000

  datatype Ring<T> = Ring(head: nat, tail: nat, buffers: seq<T>)

  function Wrap(n: nat): (r: nat)
    ensures r < WORD
  {
    n % WORD
  }

  /** tail - head in 32-bit arithmetic. */
  function Len<T>(r: Ring<T>): (n: nat)
    requires r.head < WORD
    ensures n < WORD
  {
    Wrap(r.tail + WORD - r.head)
  }

  function Slot(index: nat, cap: nat): (s: nat)
    requires cap > 0
    ensures s < cap
  {
    Wrap(index) % cap
  }

  predicate Shaped<T>(r: Ring<T>, cap: nat) {
    0 < cap <= |r.buffers| && cap < WORD && r.head < WORD && r.tail < WORD
  }

  /** What a consumer will take, oldest first. */
  function Contents<T>(r: Ring<T>, cap: nat): (s: seq<T>)
    requires Shaped(r, cap)
    ensures |s| == Len(r)
  {
    seq(Len(r), i requires 0 <= i < Len(r) => r.buffers[Slot(r.head + i, cap)])
  }

  function Taken<T>(r: Ring<T>): Ring<T> { r.(head := Wrap(r.head + 1)) }

  function Posted<T>(r: Ring<T>, cap: nat, x: T): Ring<T>
    requires Shaped(r, cap)
  {
    r.(buffers := r.buffers[Slot(r.tail, cap) := x], tail := Wrap(r.tail + 1))
  }

  lemma WrapAdd(a: nat, b: nat)
    ensures Wrap(Wrap(a) + b) == Wrap(a + b)
  {
    var q := a / WORD;
    CongIntro(a + b, Wrap(a) + b, q, WORD);
  }

  lemma LenSplit<T>(r: Ring<T>, n: nat)
    requires r.head < WORD && r.tail < WORD && n < WORD
    ensures Len(r) == n <==> r.tail == Wrap(r.head + n)
  {
  }

  /** Consuming drops the oldest entry, across a wrap of the index too. */
  lemma TakenContents<T>(r: Ring<T>, cap: nat)
    requires Shaped(r, cap) && Len(r) > 0
    ensures Shaped(Taken(r), cap) && Contents(Taken(r), cap) == Contents(r, cap)[1..]
  {
    hide Len, Slot, Wrap;
    var t := Taken(r);
    var n := Len(r);
    LenSplit(r, n);
    LenSplit(t, n - 1);
    WrapAdd(r.head + 1, n - 1);
    forall i | 0 <= i < n - 1
      ensures Contents(t, cap)[i] == Contents(r, cap)[1..][i]
    {
      SameSlot(r.head + 1, i, cap);
      assert r.head + 1 + i == r.head + (i + 1);
    }
  }

  lemma SameSlot(a: nat, i: nat, cap: nat)
    requires cap > 0
    ensures Slot(Wrap(a) + i, cap) == Slot(a + i, cap)
  {
    WrapAdd(a, i);
  }

  // ---- when slots do not collide -------------------------------------------------

  /** The window of `cap` indices from `head` never puts two of them in one slot. */
  ghost predicate Collisionless(head: nat, cap: nat)
    requires cap > 0
  {
    forall i: nat, j: nat | i < j < cap :: !Clash(head, cap, i, j)
  }

  predicate Clash(head: nat, cap: nat, i: nat, j: nat)
    requires cap > 0
  {
    Slot(head + i, cap) == Slot(head + j, cap)
  }

  /** What a caller can check: the capacity divides 2^32, or the window does not wrap. */
  predicate WindowOk(head: nat, cap: nat)
    requires cap > 0
  {
    WORD % cap == 0 || head + cap <= WORD
  }

  lemma ResidueGap(a: nat, b: nat, m: nat)
    requires m > 0 && a < b && a % m == b % m
    ensures b >= a + m
  {
    var p, q, s := a / m, b / m, a % m;
    assert a == p * m + s && b == q * m + s;
    assert b - a == (q - p) * m;
    assert q - p <= 0 ==> (q - p) * m <= 0;
    assert q - p >= 1 ==> (q - p) * m >= m;
  }

  lemma NearbyResidues(a: nat, b: nat, m: nat)
    requires m > 0 && a < b < a + m
    ensures a % m != b % m
  {
    if a % m == b % m {
      ResidueGap(a, b, m);
    }
  }

  lemma DividingSlot(x: nat, cap: nat)
    requires cap > 0 && WORD % cap == 0
    ensures Slot(x, cap) == x % cap
  {
    var q := x / WORD;
    var k := WORD / cap;
    assert x == Wrap(x) + q * WORD;
    MultipleOf(q, k, cap);
    CongIntro(x, Wrap(x), q * k, cap);
  }

  lemma MultipleOf(q: nat, k: nat, cap: nat)
    ensures q * (k * cap) == (q * k) * cap
  {
  }

  lemma SlotsDistinct(head: nat, cap: nat, i: nat, j: nat)
    requires cap > 0 && WindowOk(head, cap) && i < j < cap
    ensures Slot(head + i, cap) != Slot(head + j, cap)
  {
    NearbyResidues(head + i, head + j, cap);
    if WORD % cap == 0 {
      DividingSlot(head + i, cap);
      DividingSlot(head + j, cap);
    } else {
      assert Wrap(head + i) == head + i && Wrap(head + j) == head + j;
    }
  }

  /** Otherwise two live indices share a slot: one on each side of the wrap. */
  lemma SlotsCollide(head: nat, cap: nat)
    requires 0 < cap < WORD && head < WORD && !WindowOk(head, cap)
    ensures !Collisionless(head, cap)
  {
    var r := WORD % cap;
    var k := head + cap - WORD;
    var after := if r <= k then r - 1 else k - 1;
    var before := if r <= k then WORD - 1 else WORD - 1 - (r - k);
    BeforeWrap(cap, if r <= k then 0 else r - k);
    var i, j := before - head, WORD + after - head;
    SlotInside(before, cap);
    SlotPast(after, cap);
    hide Slot;
    assert Clash(head, cap, i, j);
  }

  lemma SlotInside(x: nat, cap: nat)
    requires cap > 0 && x < WORD
    ensures Slot(x, cap) == x % cap
  {
  }

  lemma SlotPast(x: nat, cap: nat)
    requires x < cap < WORD
    ensures Slot(WORD + x, cap) == x
  {
    DivModUnique(x, 0, x, cap);
  }

  lemma BeforeWrap(cap: nat, d: nat)
    requires 0 < cap < WORD && d < WORD % cap
    ensures (WORD - 1 - d) % cap == WORD % cap - 1 - d
  {
    DivModUnique(WORD - 1 - d, WORD / cap, WORD % cap - 1 - d, cap);
  }

  lemma CollisionlessIff(head: nat, cap: nat)
    requires 0 < cap < WORD && head < WORD
    ensures Collisionless(head, cap) <==> WindowOk(head, cap)
  {
    if WindowOk(head, cap) {
      forall i: nat, j: nat | i < j < cap
        ensures !Clash(head, cap, i, j)
      {
        SlotsDistinct(head, cap, i, j);
      }
    } else {
      SlotsCollide(head, cap);
    }
  }

  lemma PostedLen<T>(r: Ring<T>, cap: nat, x: T)
    requires Shaped(r, cap) && Len(r) < cap
    ensures Shaped(Posted(r, cap, x), cap) && Len(Posted(r, cap, x)) == Len(r) + 1
  {
    var p, n := Posted(r, cap, x), Len(r);
    LenSplit(r, n);
    WrapAdd(r.head + n, 1);
    LenSplit(p, n + 1);
    hide Len, Slot, Wrap;
  }

  // ---- when a post disturbs no live entry ---------------------------------------------

  /** With n entries live the next one goes to a slot of its own: the capacity divides 2^32,
      or the next index has not wrapped, or it has gone far enough past the wrap, or too few
      entries from before the wrap are live. */
  predicate RoomAt(head: nat, cap: nat, n: nat)
    requires cap > 0
  {
    var r := WORD % cap;
    r == 0 || head + n < WORD || head + n - WORD >= r || n < r
  }

  ghost predicate Lands(head: nat, cap: nat, n: nat)
    requires cap > 0
  {
    forall i: nat | i < n :: !Clash(head, cap, i, n)
  }

  /** Past the wrap, the live entry i shares the next slot exactly if it is 2^32 % cap back. */
  lemma ClashIff(head: nat, cap: nat, n: nat, i: nat)
    requires 0 < cap < WORD && head < WORD && i < n < cap
    ensures Clash(head, cap, i, n) <==> !RoomAt(head, cap, n) && i == n - WORD % cap
  {
    var r, x := WORD % cap, head + n - WORD;
    if head + n < WORD || r == 0 {
      SlotsDistinctAt(head, cap, i, n);
    } else {
      SlotPast(x, cap);
      if head + i >= WORD {
        SlotPast(head + i - WORD, cap);
      } else {
        SlotInside(head + i, cap);
        EarlierSlot(cap, WORD - 1 - (head + i));
      }
    }
    hide Slot;
  }

  lemma SlotsDistinctAt(head: nat, cap: nat, i: nat, j: nat)
    requires cap > 0 && i < j < cap && (WORD % cap == 0 || head + j < WORD)
    ensures Slot(head + i, cap) != Slot(head + j, cap)
  {
    NearbyResidues(head + i, head + j, cap);
    if WORD % cap == 0 {
      DividingSlot(head + i, cap);
      DividingSlot(head + j, cap);
    } else {
      SlotInside(head + i, cap);
      SlotInside(head + j, cap);
    }
  }

  /** Slots of the last indices before the wrap, counted back from it. */
  lemma EarlierSlot(cap: nat, d: nat)
    requires 0 < cap < WORD && d < cap && d < WORD && WORD % cap != 0
    ensures var r := WORD % cap;
            (WORD - 1 - d) % cap == if d < r then r - 1 - d else cap + r - 1 - d
  {
    var r, q := WORD % cap, WORD / cap;
    if d < r {
      BeforeWrap(cap, d);
    } else {
      assert WORD == q * cap + r;
      DivModUnique(WORD - 1 - d, q - 1, cap + r - 1 - d, cap);
    }
  }

  /** Posting disturbs no live entry exactly under that condition. */
  lemma LandsIff(head: nat, cap: nat, n: nat)
    requires 0 < cap < WORD && head < WORD && n < cap
    ensures Lands(head, cap, n) <==> RoomAt(head, cap, n)
  {
    forall i: nat | i < n
      ensures Clash(head, cap, i, n) <==> !RoomAt(head, cap, n) && i == n - WORD % cap
    {
      ClashIff(head, cap, n, i);
    }
    hide Clash;
    if !RoomAt(head, cap, n) {
      assert Clash(head, cap, n - WORD % cap, n);
    }
  }

  /** What posting x makes of the live entries. */
  function Stored<T>(s: seq<T>, head: nat, cap: nat, x: T): seq<T>
    requires cap > 0
  {
    (if RoomAt(head, cap, |s|) then s else s[|s| - WORD % cap := x]) + [x]
  }

  /** Posting appends the newest entry; without room it also replaces one live entry. */
  lemma PostedContents<T>(r: Ring<T>, cap: nat, x: T)
    requires Shaped(r, cap) && Len(r) < cap
    ensures Shaped(Posted(r, cap, x), cap)
    ensures Contents(Posted(r, cap, x), cap) == Stored(Contents(r, cap), r.head, cap, x)
  {
    hide Len, Slot, Wrap, RoomAt;
    var p, n := Posted(r, cap, x), Len(r);
    PostedLen(r, cap, x);
    LenSplit(r, n);
    SameSlot(r.head + n, 0, cap);
    assert Slot(r.tail, cap) == Slot(r.head + n, cap);
    RoomSize(r.head, cap, n);
    var s := Stored(Contents(r, cap), r.head, cap, x);
    forall i | 0 <= i < n
      ensures Contents(p, cap)[i] == s[i]
    {
      ClashIff(r.head, cap, n, i);
    }
  }

  lemma RoomSize(head: nat, cap: nat, n: nat)
    requires cap > 0 && head < WORD && n < cap
    ensures !RoomAt(head, cap, n) ==> 0 < WORD % cap <= n
  {
  }

  /** Three slots, one live entry just before the wrap: the next post replaces it. */
  lemma PostLoses<T>(r: Ring<T>, a: T, b: T)
    requires r == Ring(WORD - 1, 0, [a, a, a])
    ensures Contents(r, 3) == [a] && Contents(Posted(r, 3, b), 3) == [b, b]
  {
    assert Len(r) == 1;
    hide Len;
    var s := Contents(r, 3);
    var k := Slot(r.head + 0, 3);
    assert k == 0 || k == 1 || k == 2;
    assert s == [r.buffers[k]];
    hide Slot, Contents;
    PostedContents(r, 3, b);
    assert !RoomAt(r.head, 3, 1);
  }

  // ---- several posts -------------------------------------------------------------------

  /** Entry m is replaced by the one posted 2^32 % cap later into its slot. */
  predicate Replaced(head: nat, cap: nat, from: nat, size: nat, m: nat)
    requires cap > 0
  {
    var j := m + WORD % cap;
    from <= j < size && !RoomAt(head, cap, j)
  }

  /** The live entries when all of s past the first `from` have been posted. */
  function Overlaid<T>(s: seq<T>, head: nat, cap: nat, from: nat): (o: seq<T>)
    requires cap > 0
    ensures |o| == |s|
  {
    seq(|s|, m requires 0 <= m < |s| => if Replaced(head, cap, from, |s|, m) then s[m + WORD % cap] else s[m])
  }

  lemma OverlaidNone<T>(s: seq<T>, head: nat, cap: nat)
    requires cap > 0
    ensures Overlaid(s, head, cap, |s|) == s
  {
  }

  lemma OverlaidMore<T>(s: seq<T>, head: nat, cap: nat, from: nat, x: T)
    requires 0 < cap < WORD && head < WORD && from <= |s| < cap
    ensures Stored(Overlaid(s, head, cap, from), head, cap, x) == Overlaid(s + [x], head, cap, from)
  {
    var n, r := |s|, WORD % cap;
    var a, b := Stored(Overlaid(s, head, cap, from), head, cap, x), Overlaid(s + [x], head, cap, from);
    RoomSize(head, cap, n);
    assert !Replaced(head, cap, from, n + 1, n);
    hide RoomAt;
    forall m | 0 <= m < n
      ensures a[m] == b[m]
    {
    }
  }

  /** Nothing is lost exactly if every post has room, or stores what it replaces. */
  lemma OverlaidIff<T>(s: seq<T>, head: nat, cap: nat, from: nat)
    requires 0 < cap < WORD && head < WORD && from <= |s| <= cap
    ensures Overlaid(s, head, cap, from) == s <==>
              forall j: nat | from <= j < |s| :: RoomAt(head, cap, j) || s[j - WORD % cap] == s[j]
  {
  }
}

/** The block virtualizer's request pump. */
module BlockPump {
  import opened Machine
  import opened Memory
  import opened Rings

  const TRANSFER := 4096
  const QUEUE_CAPACITY := 128
  const DATA_BYTES := (0x10_0000 / TRANSFER + 1) * TRANSFER

  const READ := 0
  const WRITE := 1
  const FLUSH := 2
  const BARRIER := 3

  type Bytes = seq<uint8>

  datatype Option<T> = None | Some(value: T)
  datatype Status = Ok | Unspec | InvalidParam | IoError | NoDevice
  datatype Req = Req(code: nat, io: nat, block: nat, count: nat, id: nat)
  datatype Resp = Resp(status: Status, success: nat, id: nat)

  /** One guest: its two rings, its data cells and its RAM disk, if any. */
  datatype Client = Client(
    bound: bool, capacity: nat, req: Ring<Req>, resp: Ring<Resp>, data: Bytes,
    disk: Option<Bytes>, diskBlocks: nat, mediaBlocks: nat, readOnly: bool)

  /** A synchronous backend: media and data cells in, status and both of them out. */
  type BackendFn = (Bytes, Bytes, Req) -> (Status, Bytes, Bytes)

  ghost predicate KeepsCells(b: Option<BackendFn>) {
    b.Some? ==> forall m: Bytes, d: Bytes, r: Req :: |b.value(m, d, r).2| == |d|
  }

  predicate Formed(c: Client) {
    && |c.data| == DATA_BYTES && (c.disk.Some? ==> |c.disk.value| == c.diskBlocks * TRANSFER)
    && |c.req.buffers| == QUEUE_CAPACITY && |c.resp.buffers| == QUEUE_CAPACITY
    && c.req.head < WORD && c.req.tail < WORD && c.resp.head < WORD && c.resp.tail < WORD
  }

  // ---- one request -----------------------------------------------------------------

  predicate Valid(c: Client, r: Req) {
    if r.code == READ || r.code == WRITE then
      && r.count != 0 && r.block <= c.mediaBlocks && r.count <= c.mediaBlocks - r.block
      && r.io <= DATA_BYTES && r.count * TRANSFER <= DATA_BYTES - r.io
    else (r.code == FLUSH || r.code == BARRIER) && r.io == 0 && r.block == 0 && r.count == 0
  }

  lemma DiskRoom(c: Client, r: Req)
    requires Formed(c) && Valid(c, r) && (r.code == READ || r.code == WRITE) && c.disk.Some?
             && c.diskBlocks >= c.mediaBlocks
    ensures r.block * TRANSFER + r.count * TRANSFER <= |c.disk.value|
  {
  }

  /** serve_rw on the RAM disk. */
  function Ram(c: Client, r: Req): (Status, Client)
    requires Formed(c) && Valid(c, r)
  {
    if r.code != READ && r.code != WRITE then (Ok, c)
    else if c.disk.None? || c.diskBlocks < c.mediaBlocks then (NoDevice, c)
    else
      var at, n := r.block * TRANSFER, r.count * TRANSFER;
      DiskRoom(c, r);
      if r.code == WRITE then (Ok, c.(disk := Some(Splice(c.disk.value, at, c.data[r.io..r.io + n]))))
      else (Ok, c.(data := Splice(c.data, r.io, c.disk.value[at..at + n])))
  }

  /** The response to one request and what it does to media, disk and data cells. */
  function Serve(b: Option<BackendFn>, media: Bytes, c: Client, r: Req): (Bytes, Client, Resp)
    requires Formed(c)
  {
    if !Valid(c, r) then (media, c, Resp(InvalidParam, 0, r.id))
    else if r.code == WRITE && c.readOnly then (media, c, Resp(IoError, 0, r.id))
    else
      var (status, m, c1) :=
        if b.Some? then var (s, m, d) := b.value(media, c.data, r); (s, m, c.(data := d))
        else var (s, k) := Ram(c, r); (s, media, k);
      (m, c1, Resp(status, if status == Ok && (r.code == READ || r.code == WRITE) then r.count else 0, r.id))
  }

  lemma ServeKeeps(b: Option<BackendFn>, media: Bytes, c: Client, r: Req)
    requires Formed(c) && KeepsCells(b)
    ensures var (m, c1, p) := Serve(b, media, c, r);
            && Formed(c1) && c1 == c.(data := c1.data, disk := c1.disk) && p.id == r.id
            && (p.status == InvalidParam && !Valid(c, r) ==> m == media && c1 == c)
  {
    hide Valid;
  }

  /** Requests executed one after another: one response each, in order, with its id. */
  ghost function ServeAll(b: Option<BackendFn>, media: Bytes, c: Client,
                          reqs: seq<Req>): (r: (Bytes, Client, seq<Resp>))
    requires Formed(c) && KeepsCells(b)
    ensures Formed(r.1) && r.1 == c.(data := r.1.data, disk := r.1.disk)
    ensures |r.2| == |reqs| && forall i | 0 <= i < |reqs| :: r.2[i].id == reqs[i].id
  {
    if reqs == [] then (media, c, [])
    else
      var n := |reqs| - 1;
      var (m, k, ps) := ServeAll(b, media, c, reqs[..n]);
      var (m', k', p) := Serve(b, m, k, reqs[n]);
      ServeKeeps(b, m, k, reqs[n]);
      (m', k', ps + [p])
  }

  // ---- the pump ------------------------------------------------------------------------

  predicate Usable(c: Client) { c.bound && 0 < c.capacity <= QUEUE_CAPACITY }

  /** Both rings occupied no further than their capacity. */
  predicate InOrder(c: Client)
    requires Formed(c)
  {
    Usable(c) && Len(c.resp) <= c.capacity && Len(c.req) <= c.capacity
  }

  /** How many requests one pump serves. */
  function Quota(c: Client): (n: nat)
    requires Formed(c)
  {
    if !InOrder(c) then 0
    else if Len(c.req) <= c.capacity - Len(c.resp) then Len(c.req) else c.capacity - Len(c.resp)
  }

  /** After one pump: the oldest Quota requests taken and executed in order, each answered. */
  ghost predicate Pumped(b: Option<BackendFn>, media: Bytes, c: Client, media': Bytes, c': Client)
    requires Formed(c) && KeepsCells(b)
  {
    if !Usable(c) then media' == media && c' == c
    else if !InOrder(c) then media' == media && c' == Discarded(c)
    else
      var reqs := Contents(c.req, c.capacity);
      var (m, k, ps) := ServeAll(b, media, c, reqs[..Quota(c)]);
      && Formed(c') && media' == m && c' == k.(req := c'.req, resp := c'.resp)
      && Contents(c'.req, c.capacity) == reqs[Quota(c)..]
      && Len(c'.resp) == Len(c.resp) + Quota(c)
      && Contents(c'.resp, c.capacity)
         == Overlaid(Contents(c.resp, c.capacity) + ps, c.resp.head, c.capacity, Len(c.resp))
  }

  /** An overfull ring is emptied: responses first, otherwise requests. */
  function Discarded(c: Client): Client
    requires Formed(c)
  {
    if Len(c.resp) > c.capacity then c.(resp := c.resp.(head := c.resp.tail))
    else c.(req := c.req.(head := c.req.tail))
  }

  method PumpClient(b: Option<BackendFn>, media: Bytes, c: Client) returns (media': Bytes, c': Client, done: nat)
    requires Formed(c) && KeepsCells(b)
    ensures done == Quota(c) && Pumped(b, media, c, media', c')
  {
    media', c', done := media, c, 0;
    if !c.bound || c.capacity == 0 || c.capacity > QUEUE_CAPACITY {
      return;
    }
    if Len(c.resp) > c.capacity {
      c' := c.(resp := c.resp.(head := c.resp.tail));
      return;
    }
    if Len(c.req) > c.capacity {
      c' := c.(req := c.req.(head := c.req.tail));
      return;
    }
    media', c', done := Drain(b, media, c);
  }

  /** The budgeted loop over one client's requests. */
  method Drain(b: Option<BackendFn>, media: Bytes, c: Client) returns (media': Bytes, c': Client, done: nat)
    requires Formed(c) && KeepsCells(b) && InOrder(c)
    ensures done == Quota(c) && Pumped(b, media, c, media', c')
  {
    hide Serve, ServeAll, Overlaid, Slot, Len, Contents;
    media', c', done := media, c, 0;
    ghost var reqs := Contents(c.req, c.capacity);
    var budget := c.capacity;
    ServeNone(b, media, c);
    assert reqs[..0] == [] && reqs[0..] == reqs;
    assert Contents(c.resp, c.capacity) + [] == Contents(c.resp, c.capacity);
    OverlaidNone(Contents(c.resp, c.capacity), c.resp.head, c.capacity);
    while budget > 0 && Len(c'.req) != 0 && Len(c'.resp) < c.capacity
      invariant done + budget == c.capacity && done <= Quota(c)
      invariant Progress(b, media, c, reqs, done, media', c')
      decreases budget
    {
      budget := budget - 1;
      var req := c'.req.buffers[Slot(c'.req.head, c.capacity)];
      var served := Serve(b, media', c', req);
      Step(b, media, c, reqs, done, media', c', req);
      media' := served.0;
      c' := served.1.(req := Taken(c'.req), resp := Posted(c'.resp, c.capacity, served.2));
      done := done + 1;
    }
  }

  lemma ServeNone(b: Option<BackendFn>, media: Bytes, c: Client)
    requires Formed(c) && KeepsCells(b)
    ensures ServeAll(b, media, c, []) == (media, c, [])
  {
  }

  /** What holds after `done` rounds of the loop. */
  ghost predicate Progress(b: Option<BackendFn>, media: Bytes, c: Client, reqs: seq<Req>, done: nat, m: Bytes,
                           k: Client)
    requires Formed(c) && KeepsCells(b) && InOrder(c) && reqs == Contents(c.req, c.capacity) && done <= |reqs|
  {
    var (m1, k1, ps) := ServeAll(b, media, c, reqs[..done]);
    && Formed(k) && m == m1 && k == k1.(req := k.req, resp := k.resp)
    && Contents(k.req, c.capacity) == reqs[done..]
    && k.resp.head == c.resp.head && Len(k.resp) == Len(c.resp) + done
    && Contents(k.resp, c.capacity)
       == Overlaid(Contents(c.resp, c.capacity) + ps, c.resp.head, c.capacity, Len(c.resp))
  }

  lemma Step(b: Option<BackendFn>, media: Bytes, c: Client, reqs: seq<Req>, done: nat, m: Bytes, k: Client, req: Req)
    requires Formed(c) && KeepsCells(b) && InOrder(c) && reqs == Contents(c.req, c.capacity) && done < |reqs|
    requires Progress(b, media, c, reqs, done, m, k) && Len(k.req) != 0 && Len(k.resp) < c.capacity
    requires req == k.req.buffers[Slot(k.req.head, c.capacity)]
    ensures var (m', k', p) := Serve(b, m, k, req);
            Progress(b, media, c, reqs, done + 1, m', k'.(req := Taken(k.req), resp := Posted(k.resp, c.capacity, p)))
  {
    var n := c.capacity;
    var (m1, k1, ps) := ServeAll(b, media, c, reqs[..done]);
    var (m', k', p) := Serve(b, m, k, req);
    hide Serve, ServeAll, Len, Contents, Slot, Overlaid, Stored;
    FirstOf(k.req, n);
    assert req == reqs[done..][0] == reqs[done];
    TakenContents(k.req, n);
    PostedLen(k.resp, n, p);
    ServeKeeps(b, m, k, req);
    ServeFrame(b, m, k, k1, req);
    ServeStep(b, media, c, reqs, done);
    PostedContents(k.resp, n, p);
    OverlaidMore(Contents(c.resp, n) + ps, c.resp.head, n, Len(c.resp), p);
    assert Contents(c.resp, n) + ps + [p] == Contents(c.resp, n) + (ps + [p]);
    assert reqs[done..][1..] == reqs[done + 1..];
  }

  lemma FirstOf(r: Ring<Req>, cap: nat)
    requires Shaped(r, cap) && Len(r) != 0
    ensures Contents(r, cap)[0] == r.buffers[Slot(r.head, cap)]
  {
    assert r.head + 0 == r.head;
    hide Len, Slot;
  }

  /** Serving does not look at the rings. */
  lemma ServeFrame(b: Option<BackendFn>, m: Bytes, k: Client, k1: Client, r: Req)
    requires Formed(k) && Formed(k1) && k == k1.(req := k.req, resp := k.resp)
    ensures var (x, y, z) := Serve(b, m, k1, r); Serve(b, m, k, r) == (x, y.(req := k.req, resp := k.resp), z)
  {
    assert Valid(k, r) == Valid(k1, r);
    hide Valid, Formed;
  }

  lemma ServeStep(b: Option<BackendFn>, media: Bytes, c: Client, reqs: seq<Req>, n: nat)
    requires Formed(c) && KeepsCells(b) && n < |reqs|
    ensures var (m, k, ps) := ServeAll(b, media, c, reqs[..n]);
            var (m', k', p) := Serve(b, m, k, reqs[n]);
            ServeAll(b, media, c, reqs[..n + 1]) == (m', k', ps + [p])
  {
    assert reqs[..n + 1][..n] == reqs[..n] && reqs[..n + 1][n] == reqs[n];
    hide Serve, Formed;
  }

  // ---- what the RAM disk means -----------------------------------------------------------

  /** A read returns what the last write to those blocks stored. */
  lemma ReadAfterWrite(media: Bytes, c: Client, w: Req, r: Req)
    requires Formed(c) && w.code == WRITE && r.code == READ && w.block == r.block && w.count == r.count
    requires Serve(None, media, c, w).2.status == Ok && Valid(c, r)
    ensures var c1 := Serve(None, media, c, w).1;
            && Formed(c1) && Serve(None, media, c1, r).2 == Resp(Ok, r.count, r.id)
            && Serve(None, media, c1, r).1.data[r.io..r.io + r.count * TRANSFER]
               == c.data[w.io..w.io + w.count * TRANSFER]
  {
    var c1 := Serve(None, media, c, w).1;
    assert Valid(c, w);
    DiskRoom(c, w);
    var at, n := w.block * TRANSFER, w.count * TRANSFER;
    SpliceParts(c.disk.value, at, c.data[w.io..w.io + n]);
    assert Formed(c1) && c1 == c.(disk := c1.disk);
    assert Valid(c1, r);
    SpliceParts(c1.data, r.io, c1.disk.value[at..at + n]);
    hide Splice;
  }

  /** A write leaves every other block, and all data cells, as they were. */
  lemma WriteElsewhere(media: Bytes, c: Client, w: Req, i: nat)
    requires Formed(c) && w.code == WRITE && Serve(None, media, c, w).2.status == Ok && c.disk.Some?
    requires i < |c.disk.value| && !(w.block * TRANSFER <= i < (w.block + w.count) * TRANSFER)
    ensures var c1 := Serve(None, media, c, w).1;
            c1.data == c.data && c1.disk.Some? && |c1.disk.value| == |c.disk.value|
            && c1.disk.value[i] == c.disk.value[i]
  {
    assert Valid(c, w);
    DiskRoom(c, w);
    SpliceParts(c.disk.value, w.block * TRANSFER, c.data[w.io..w.io + w.count * TRANSFER]);
    hide Splice;
  }

  // ---- all clients ------------------------------------------------------------------------

  function Quotas(clients: seq<Client>): nat
    requires forall i | 0 <= i < |clients| :: Formed(clients[i])
  {
    if clients == [] then 0 else Quotas(clients[..|clients| - 1]) + Quota(clients[|clients| - 1])
  }

  /** aos_blk_virt_pump: every client in turn, the media threaded through. */
  method Pump(b: Option<BackendFn>, media: Bytes, clients: seq<Client>)
    returns (media': Bytes, after: seq<Client>, completed: nat, ghost medias: seq<Bytes>)
    requires KeepsCells(b) && forall i | 0 <= i < |clients| :: Formed(clients[i])
    ensures |after| == |clients| && |medias| == |clients| + 1 && medias[0] == media && medias[|clients|] == media'
    ensures forall i | 0 <= i < |clients| :: Pumped(b, medias[i], clients[i], medias[i + 1], after[i])
    ensures completed == Quotas(clients)
  {
    media', after, completed, medias := media, [], 0, [media];
    for i := 0 to |clients|
      invariant |after| == i && |medias| == i + 1 && medias[0] == media && medias[i] == media'
      invariant forall j | 0 <= j < i :: Pumped(b, medias[j], clients[j], medias[j + 1], after[j])
      invariant completed == Quotas(clients[..i])
    {
      var c', done;
      media', c', done := PumpClient(b, media', clients[i]);
      assert clients[..i + 1][..i] == clients[..i];
      hide Pumped;
      after, completed, medias := after + [c'], completed + done, medias + [media'];
    }
    assert clients[..|clients|] == clients;
  }
}

/** Clients that use their rings while the pump runs: every interleaving of the accesses. */
module BlockTraffic {
  import opened Rings
  import opened BlockPump

  // ---- one ring between two sides ------------------------------------------------------

  /** All of `sent` went in and the first `got` came out.  The writer may have stored the
      next entry before publishing it, the reader copied the oldest before releasing it. */
  ghost predicate Flow<T>(r: Ring<T>, cap: nat, sent: seq<T>, got: nat, stored: Option<T>, copied: Option<T>) {
    && Shaped(r, cap) && Len(r) <= cap && got + Len(r) == |sent| && Contents(r, cap) == sent[got..]
    && (stored.Some? ==> Len(r) < cap && r.buffers[Slot(r.tail, cap)] == stored.value)
    && (copied.Some? ==> Len(r) > 0 && sent[got] == copied.value)
  }

  function Filled<T>(r: Ring<T>, cap: nat, x: T): Ring<T>
    requires Shaped(r, cap)
  {
    r.(buffers := r.buffers[Slot(r.tail, cap) := x])
  }

  function Published<T>(r: Ring<T>): Ring<T> { r.(tail := Wrap(r.tail + 1)) }

  lemma FilledFlow<T>(r: Ring<T>, cap: nat, sent: seq<T>, got: nat, copied: Option<T>, x: T)
    requires Flow(r, cap, sent, got, None, copied) && Len(r) < cap && RoomAt(r.head, cap, Len(r))
    ensures Flow(Filled(r, cap, x), cap, sent, got, Some(x), copied)
  {
    hide Len, Slot, Wrap, RoomAt;
    var f, n := Filled(r, cap, x), Len(r);
    LenSplit(r, n);
    LenSplit(f, n);
    SameSlot(r.head + n, 0, cap);
    assert Slot(r.tail, cap) == Slot(r.head + n, cap);
    forall i | 0 <= i < n
      ensures Contents(f, cap)[i] == Contents(r, cap)[i]
    {
      ClashIff(r.head, cap, n, i);
    }
  }

  lemma PublishedFlow<T>(r: Ring<T>, cap: nat, sent: seq<T>, got: nat, copied: Option<T>, x: T)
    requires Flow(r, cap, sent, got, Some(x), copied)
    ensures Flow(Published(r), cap, sent + [x], got, None, copied)
  {
    hide Len, Slot, Wrap;
    var p, n := Published(r), Len(r);
    LenSplit(r, n);
    WrapAdd(r.head + n, 1);
    LenSplit(p, n + 1);
    SameSlot(r.head + n, 0, cap);
    assert Slot(r.tail, cap) == Slot(r.head + n, cap);
    assert Contents(p, cap) == Contents(r, cap) + [x];
    assert sent[got..] + [x] == (sent + [x])[got..];
  }

  lemma CopiedFlow<T>(r: Ring<T>, cap: nat, sent: seq<T>, got: nat, stored: Option<T>)
    requires Flow(r, cap, sent, got, stored, None) && Len(r) > 0
    ensures Flow(r, cap, sent, got, stored, Some(r.buffers[Slot(r.head, cap)]))
  {
    hide Len, Slot;
    assert r.head + 0 == r.head;
    assert sent[got] == sent[got..][0] == Contents(r, cap)[0];
  }

  lemma ReleasedFlow<T>(r: Ring<T>, cap: nat, sent: seq<T>, got: nat, stored: Option<T>, x: T)
    requires Flow(r, cap, sent, got, stored, Some(x))
    ensures Flow(Taken(r), cap, sent, got + 1, stored, None) && Len(Taken(r)) == Len(r) - 1
  {
    hide Len, Slot, Wrap, Contents;
    TakenContents(r, cap);
    assert sent[got..][1..] == sent[got + 1..];
  }

  // ---- client and pump ---------------------------------------------------------------------

  /** Where the pump is in one turn of its loop. */
  datatype Turn = Idle | Copied(req: Req) | Held(req: Req) | Answering(resp: Resp) | Stored(resp: Resp)

  /** The rest are histories: requests submitted and executed, answers posted and received.
      `clean` says that no entry was stored without room for it. */
  datatype Traffic = Traffic(
    c: Client, media: Bytes, turn: Turn, posting: Option<Req>, taking: Option<Resp>,
    submitted: seq<Req>, executed: seq<Req>, answers: seq<Resp>, received: seq<Resp>, clean: bool)

  datatype Step =
    | Post(req: Req)      // client: request stored
    | Publish             // client: request tail moved
    | Take                // client: response copied
    | Release             // client: response head moved
    | Data(data: Bytes)   // client: data cells rewritten
    | Pump                // pump: its next access

  function Next(b: Option<BackendFn>, s: Traffic, step: Step): Traffic
    requires Formed(s.c) && Usable(s.c)
  {
    var c := s.c;
    match step
    case Post(q) =>
      if s.posting.Some? || Len(c.req) >= c.capacity then s
      else s.(c := c.(req := Filled(c.req, c.capacity, q)), posting := Some(q),
              clean := s.clean && RoomAt(c.req.head, c.capacity, Len(c.req)))
    case Publish =>
      if s.posting.None? then s
      else s.(c := c.(req := Published(c.req)), posting := None, submitted := s.submitted + [s.posting.value])
    case Take =>
      if s.taking.Some? || Len(c.resp) == 0 then s
      else s.(taking := Some(c.resp.buffers[Slot(c.resp.head, c.capacity)]))
    case Release =>
      if s.taking.None? then s
      else s.(c := c.(resp := Taken(c.resp)), taking := None, received := s.received + [s.taking.value])
    case Data(d) => if |d| == DATA_BYTES then s.(c := c.(data := d)) else s
    case Pump => Pumps(b, s)
  }

  function Pumps(b: Option<BackendFn>, s: Traffic): Traffic
    requires Formed(s.c) && Usable(s.c)
  {
    var c := s.c;
    match s.turn
    case Idle =>
      if 0 < Len(c.req) <= c.capacity && Len(c.resp) < c.capacity
      then s.(turn := Copied(c.req.buffers[Slot(c.req.head, c.capacity)])) else s
    case Copied(q) => s.(c := c.(req := Taken(c.req)), turn := Held(q))
    case Held(q) =>
      var (m, k, p) := Serve(b, s.media, c, q);
      s.(media := m, c := k, turn := Answering(p), executed := s.executed + [q])
    case Answering(p) =>
      if Len(c.resp) >= c.capacity then s.(turn := Idle)
      else s.(c := c.(resp := Filled(c.resp, c.capacity, p)), turn := Stored(p),
              clean := s.clean && RoomAt(c.resp.head, c.capacity, Len(c.resp)))
    case Stored(p) => s.(c := c.(resp := Published(c.resp)), turn := Idle, answers := s.answers + [p])
  }

  function Released(s: Traffic): nat { |s.executed| + if s.turn.Held? then 1 else 0 }
  function Copy(s: Traffic): Option<Req> { if s.turn.Copied? then Some(s.turn.req) else None }
  function Store(s: Traffic): Option<Resp> { if s.turn.Stored? then Some(s.turn.resp) else None }

  /** Requests flow in order to the pump, answers in order back to the client. */
  ghost predicate Ordered(s: Traffic) {
    && Flow(s.c.req, s.c.capacity, s.submitted, Released(s), s.posting, Copy(s))
    && Flow(s.c.resp, s.c.capacity, s.answers, |s.received|, Store(s), s.taking)
    && s.executed <= s.submitted && s.received <= s.answers
    && (s.turn.Held? ==> |s.executed| < |s.submitted| && s.turn.req == s.submitted[|s.executed|])
    && (!s.turn.Idle? ==> Len(s.c.resp) < s.c.capacity)
  }

  /** Each request executed has one answer, with its id; the last may still be on its way. */
  ghost predicate Answered(s: Traffic) {
    && |s.answers| + (if s.turn.Answering? || s.turn.Stored? then 1 else 0) == |s.executed|
    && (forall i | 0 <= i < |s.answers| :: s.answers[i].id == s.executed[i].id)
    && (s.turn.Answering? || s.turn.Stored? ==> s.turn.resp.id == s.executed[|s.answers|].id)
  }

  ghost predicate Inv(s: Traffic) {
    Formed(s.c) && Usable(s.c) && (s.clean ==> Ordered(s) && Answered(s))
  }

  lemma ClientKeeps(b: Option<BackendFn>, s: Traffic, step: Step)
    requires Inv(s) && !step.Pump?
    ensures Inv(Next(b, s, step))
  {
    hide Flow, RoomAt, Serve, Slot;
    var c, t := s.c, Next(b, s, step);
    if t.clean {
      FlowSizes(s);
      match step
      case Post(q) =>
        if t != s {
          FilledFlow(c.req, c.capacity, s.submitted, Released(s), Copy(s), q);
        }
      case Publish =>
        if t != s {
          PublishedFlow(c.req, c.capacity, s.submitted, Released(s), Copy(s), s.posting.value);
        }
      case Take =>
        if t != s {
          CopiedFlow(c.resp, c.capacity, s.answers, |s.received|, Store(s));
        }
      case Release =>
        if t != s {
          ReleasedFlow(c.resp, c.capacity, s.answers, |s.received|, Store(s), s.taking.value);
          TakenIs(s);
        }
      case Data(d) =>
    }
  }

  lemma FlowSizes(s: Traffic)
    requires Ordered(s) && Formed(s.c)
    ensures Shaped(s.c.req, s.c.capacity) && Shaped(s.c.resp, s.c.capacity)
    ensures Released(s) + Len(s.c.req) == |s.submitted| && |s.received| + Len(s.c.resp) == |s.answers|
    ensures s.taking.Some? ==> |s.received| < |s.answers| && s.taking.value == s.answers[|s.received|]
    ensures s.turn.Copied? ==> |s.executed| < |s.submitted| && s.turn.req == s.submitted[|s.executed|]
  {
    hide Len, Slot, Contents;
  }

  lemma TakenIs(s: Traffic)
    requires s.received <= s.answers && s.taking.Some?
    requires |s.received| < |s.answers| && s.taking.value == s.answers[|s.received|]
    ensures s.received + [s.taking.value] <= s.answers
  {
  }

  lemma PumpKeeps(b: Option<BackendFn>, s: Traffic)
    requires Inv(s) && KeepsCells(b)
    ensures Inv(Pumps(b, s))
  {
    hide Flow, RoomAt, Serve, Slot;
    var c, t := s.c, Pumps(b, s);
    if s.turn.Held? {
      ServeKeeps(b, s.media, c, s.turn.req);
    }
    if t.clean {
      FlowSizes(s);
      match s.turn
      case Idle =>
        if t != s {
          CopiedFlow(c.req, c.capacity, s.submitted, Released(s), s.posting);
        }
      case Copied(q) => ReleasedFlow(c.req, c.capacity, s.submitted, Released(s), s.posting, q);
      case Held(q) =>
      case Answering(p) => FilledFlow(c.resp, c.capacity, s.answers, |s.received|, s.taking, p);
      case Stored(p) => PublishedFlow(c.resp, c.capacity, s.answers, |s.received|, s.taking, p);
    }
  }

  function Run(b: Option<BackendFn>, s: Traffic, steps: seq<Step>): (t: Traffic)
    requires Inv(s) && KeepsCells(b)
    ensures Inv(t)
    decreases |steps|
  {
    if steps == [] then s
    else
      var t := Run(b, s, steps[..|steps| - 1]);
      var step := steps[|steps| - 1];
      if step.Pump? then PumpKeeps(b, t); Pumps(b, t)
      else ClientKeeps(b, t, step); Next(b, t, step)
  }

  /** Rings empty at any index, nothing submitted yet. */
  predicate Fresh(s: Traffic) {
    && Formed(s.c) && Usable(s.c) && s.c.req.head == s.c.req.tail && s.c.resp.head == s.c.resp.tail
    && s == Traffic(s.c, s.media, Idle, None, None, [], [], [], [], true)
  }

  lemma EmptyFlow<T>(r: Ring<T>, cap: nat)
    requires Shaped(r, cap) && r.head == r.tail
    ensures Flow(r, cap, [], 0, None, None)
  {
    assert Len(r) == 0;
    hide Len, Slot;
  }

  lemma FreshHolds(s: Traffic)
    requires Fresh(s)
    ensures Inv(s)
  {
    EmptyFlow(s.c.req, s.c.capacity);
    EmptyFlow(s.c.resp, s.c.capacity);
    assert Len(s.c.resp) == 0;
    hide Flow, Len;
  }

  /** Requests the pump has released and not yet answered. */
  function Underway(s: Traffic): nat { if s.turn.Idle? || s.turn.Copied? then 0 else 1 }

  /** Over every interleaving: requests are executed once each in the order submitted, and
      the client receives their answers in that order, none lost and none made up, as long
      as every entry had room. */
  lemma InOrderAlways(b: Option<BackendFn>, s: Traffic, steps: seq<Step>)
    requires Fresh(s) && KeepsCells(b)
    ensures Inv(s)
    ensures var t := Run(b, s, steps);
            t.clean ==>
              && t.executed <= t.submitted && |t.received| <= |t.executed|
              && (forall i | 0 <= i < |t.received| :: t.received[i].id == t.submitted[i].id)
              && |t.submitted| == |t.received| + Len(t.c.req) + Len(t.c.resp) + Underway(t)
  {
    hide Run, Flow, Len;
    FreshHolds(s);
    var t := Run(b, s, steps);
    if t.clean {
      FlowSizes(t);
    }
  }

  /** With a capacity that divides 2^32 every entry has room. */
  lemma {:induction false} AlwaysClean(b: Option<BackendFn>, s: Traffic, steps: seq<Step>)
    requires Inv(s) && KeepsCells(b) && s.clean && WORD % s.c.capacity == 0
    ensures Run(b, s, steps).clean && Run(b, s, steps).c.capacity == s.c.capacity
    decreases |steps|
  {
    hide Next, Pumps, Inv;
    if steps != [] {
      AlwaysClean(b, s, steps[..|steps| - 1]);
      var t := Run(b, s, steps[..|steps| - 1]);
      CleanStep(b, t, steps[|steps| - 1]);
    }
  }

  lemma CleanStep(b: Option<BackendFn>, s: Traffic, step: Step)
    requires Inv(s) && KeepsCells(b) && s.clean && WORD % s.c.capacity == 0
    ensures Formed(s.c) && Usable(s.c) && Next(b, s, Pump) == Pumps(b, s)
    ensures Next(b, s, step).clean && Next(b, s, step).c.capacity == s.c.capacity
  {
    hide Serve, Slot, Len, Ordered, Answered, Wrap;
    if s.turn.Held? {
      ServeKeeps(b, s.media, s.c, s.turn.req);
    }
  }

  /** One turn of the pump's loop, with no access of the client in between, is the five
      accesses of the pump. */
  lemma TurnIsSteps(b: Option<BackendFn>, s: Traffic)
    requires Inv(s) && KeepsCells(b) && s.turn.Idle? && 0 < Len(s.c.req) <= s.c.capacity
    requires Len(s.c.resp) < s.c.capacity
    ensures var q := s.c.req.buffers[Slot(s.c.req.head, s.c.capacity)];
            var (m, k, p) := Serve(b, s.media, s.c, q);
            var t := Run(b, s, [Pump, Pump, Pump, Pump, Pump]);
            t.media == m && t.c == k.(req := Taken(s.c.req), resp := Posted(s.c.resp, s.c.capacity, p))
  {
    hide Run, Serve, Inv, Len, Slot, Pumps, Posted;
    var t1 := Taking(b, s);
    var t2 := Giving(b, t1);
    PumpsInv(s);
    RunPump(b, s, []);
    RunPump(b, s, [Pump]);
    RunPump(b, s, [Pump, Pump]);
    RunPump(b, s, [Pump, Pump, Pump]);
    RunPump(b, s, [Pump, Pump, Pump, Pump]);
    assert [] + [Pump] == [Pump] && [Pump] + [Pump] == [Pump, Pump] && [Pump, Pump] + [Pump] == [Pump, Pump, Pump];
    assert [Pump, Pump, Pump] + [Pump] == [Pump, Pump, Pump, Pump];
    assert [Pump, Pump, Pump, Pump] + [Pump] == [Pump, Pump, Pump, Pump, Pump];
  }

  lemma PumpsInv(s: Traffic)
    requires Inv(s)
    ensures Formed(s.c) && Usable(s.c)
  {
  }

  /** Copy, release and serve. */
  lemma Taking(b: Option<BackendFn>, s: Traffic) returns (t: Traffic)
    requires Inv(s) && KeepsCells(b) && s.turn.Idle? && 0 < Len(s.c.req) <= s.c.capacity
    requires Len(s.c.resp) < s.c.capacity
    ensures Formed(s.c) && Usable(s.c) && Formed(t.c) && Usable(t.c) && t.turn.Answering?
    ensures var s1 := Pumps(b, s);
            && Formed(s1.c) && Usable(s1.c)
            && var s2 := Pumps(b, s1); Formed(s2.c) && Usable(s2.c) && t == Pumps(b, s2)
    ensures var q := s.c.req.buffers[Slot(s.c.req.head, s.c.capacity)];
            var (m, k, p) := Serve(b, s.media, s.c, q);
            && t.media == m && t.turn.resp == p && t.c == k.(req := Taken(s.c.req), resp := s.c.resp)
            && t.c.capacity == s.c.capacity && k.resp == s.c.resp
  {
    hide Serve, Len, Slot, Wrap, Ordered, Answered, RoomAt;
    var c, q := s.c, s.c.req.buffers[Slot(s.c.req.head, s.c.capacity)];
    ServeKeeps(b, s.media, c, q);
    ServeKeeps(b, s.media, c.(req := Taken(c.req)), q);
    ServeFrame(b, s.media, c.(req := Taken(c.req)), c, q);
    t := Pumps(b, Pumps(b, Pumps(b, s)));
  }

  /** Store the answer and publish it. */
  lemma Giving(b: Option<BackendFn>, s: Traffic) returns (t: Traffic)
    requires Formed(s.c) && Usable(s.c) && s.turn.Answering? && Len(s.c.resp) < s.c.capacity
    ensures var s1 := Pumps(b, s); Formed(s1.c) && Usable(s1.c) && t == Pumps(b, s1)
    ensures t.media == s.media && t.c == s.c.(resp := Posted(s.c.resp, s.c.capacity, s.turn.resp))
  {
    hide Serve, Len, Slot, Wrap, RoomAt;
    t := Pumps(b, Pumps(b, s));
  }

  lemma RunPump(b: Option<BackendFn>, s: Traffic, steps: seq<Step>)
    requires Inv(s) && KeepsCells(b)
    ensures Run(b, s, steps + [Pump]) == Pumps(b, Run(b, s, steps)) && (steps == [] ==> Run(b, s, steps) == s)
  {
    hide Pumps, Inv;
    assert (steps + [Pump])[..|steps|] == steps;
  }
}

/** Transfers to host media through the driver's bounded DMA window. */
module HostTransfer {
  import opened Machine
  import opened Memory

  const SECTOR := 512
  const OK := 0

  type Bytes = seq<uint8>

  /** Media after one transfer of n bytes, and data cells after one. */
  function WholeMedia(write: bool, media: Bytes, at: nat, data: Bytes, n: nat): Bytes
    requires at + n <= |media| && n <= |data|
  {
    if write then Splice(media, at, data[..n]) else media
  }

  function WholeData(write: bool, media: Bytes, at: nat, data: Bytes, n: nat): Bytes
    requires at + n <= |media| && n <= |data|
  {
    if write then data else Splice(data, 0, media[at..at + n])
  }

  lemma SplicePrefix(s: Bytes, at: nat, t: Bytes, n: nat, k: nat)
    requires n + k <= |t| && at + |t| <= |s|
    ensures Splice(Splice(s, at, t[..n]), at + n, t[n..n + k]) == Splice(s, at, t[..n + k])
  {
    var a := Splice(s, at, t[..n]);
    assert a[..at + n] == s[..at] + t[..n];
    assert a[at + n + k..] == s[at + n + k..];
    assert t[..n] + t[n..n + k] == t[..n + k];
  }

  /** Media m and data d are what one whole transfer of the first n bytes leaves. */
  ghost predicate Moved(write: bool, m0: Bytes, at: nat, d0: Bytes, n: nat, m: Bytes, d: Bytes) {
    && at + n <= |m0| == |m| && n <= |d0| == |d|
    && m == WholeMedia(write, m0, at, d0, n) && d == WholeData(write, m0, at, d0, n)
  }

  lemma MovedNone(write: bool, m0: Bytes, at: nat, d0: Bytes)
    requires at <= |m0|
    ensures Moved(write, m0, at, d0, 0, m0, d0)
  {
    assert Splice(m0, at, d0[..0]) == m0;
    assert Splice(d0, 0, m0[at..at]) == d0;
  }

  /** Two adjacent transfers are one. */
  lemma MovedWrite(m0: Bytes, at: nat, d0: Bytes, n: nat, k: nat, m: Bytes)
    requires Moved(true, m0, at, d0, n, m, d0) && at + n + k <= |m0| && n + k <= |d0|
    ensures Moved(true, m0, at, d0, n + k, Splice(m, at + n, d0[n..n + k]), d0)
  {
    hide Splice;
    var t := d0[..n + k];
    assert t[..n] == d0[..n] && t[n..n + k] == d0[n..n + k] && t[..n + k] == t;
    SplicePrefix(m0, at, t, n, k);
  }

  lemma MovedRead(m0: Bytes, at: nat, d0: Bytes, n: nat, k: nat, d: Bytes)
    requires Moved(false, m0, at, d0, n, m0, d) && at + n + k <= |m0| && n + k <= |d0|
    ensures Moved(false, m0, at, d0, n + k, m0, Splice(d, n, m0[at + n..at + n + k]))
  {
    hide Splice;
    var t := m0[at..at + n + k];
    assert t[..n] == m0[at..at + n] && t[n..n + k] == m0[at + n..at + n + k] && t[..n + k] == t;
    SplicePrefix(d0, 0, t, n, k);
  }

  lemma MovedSides(write: bool, m0: Bytes, at: nat, d0: Bytes, n: nat, m: Bytes, d: Bytes)
    requires Moved(write, m0, at, d0, n, m, d)
    ensures |m| == |m0| && |d| == |d0| && at + n <= |m0| && n <= |d0|
    ensures m == WholeMedia(write, m0, at, d0, n) && d == WholeData(write, m0, at, d0, n)
    ensures (write ==> d == d0) && (!write ==> m == m0)
  {
  }

  /** Any bytes at all in the n from `at` on. */
  function Torn(m: Bytes, at: nat, n: nat, torn: nat -> uint8): (r: Bytes)
    requires at + n <= |m|
    ensures |r| == |m|
  {
    Splice(m, at, seq(n, i requires 0 <= i < n => torn(i)))
  }

  /** Bytes of the next call, when that many sectors are left. */
  function Next(left: nat, maxSectors: nat): nat { (if left > maxSectors then maxSectors else left) * SECTOR }

  lemma FrontOf(part: Bytes, all: Bytes)
    requires |part| <= |all| && exists rest :: all == [] + part + rest
    ensures all[..|part|] == part
  {
  }

  method CopyAt(data: array<uint8>, at: nat, s: Bytes)
    requires at + |s| <= data.Length
    modifies data
    ensures data[..] == Splice(old(data[..]), at, s)
  {
    CopyIn(data, at, s);
  }

  class Host {
    var media: Bytes
    const dma: array<uint8>

    constructor (media: Bytes, dma: array<uint8>)
      ensures this.media == media && this.dma == dma
    {
      this.media, this.dma := media, dma;
    }

    /** One driver call: it moves sectors between media and window.  A failed read moves
        nothing, a failed write may leave anything in its sectors. */
    method Call(write: bool, sector: nat, sectors: nat, rc: nat, torn: nat -> uint8) returns (result: nat)
      requires sectors * SECTOR <= dma.Length && (sector + sectors) * SECTOR <= |media|
      modifies this, dma
      ensures result == rc
      ensures !write ==> media == old(media)
      ensures rc != OK && write ==> media == Torn(old(media), sector * SECTOR, sectors * SECTOR, torn)
      ensures rc == OK && write ==> media == Splice(old(media), sector * SECTOR, old(dma[..sectors * SECTOR]))
      ensures rc == OK && !write ==> dma[..sectors * SECTOR] == media[sector * SECTOR..(sector + sectors) * SECTOR]
    {
      if rc == OK {
        var at, n := sector * SECTOR, sectors * SECTOR;
        if write {
          media := Splice(media, at, dma[..n]);
        } else {
          CopyIn(dma, 0, media[at..at + n]);
        }
      } else if write {
        media := Torn(media, sector * SECTOR, sectors * SECTOR, torn);
      }
      return rc;
    }

    /** One chunk: through the window to the media, or from the media through the window. */
    method Chunk(write: bool, sector: nat, sectors: nat, data: array<uint8>, at: nat, rc: nat, torn: nat -> uint8)
      returns (result: nat)
      requires data != dma && sectors * SECTOR <= dma.Length && (sector + sectors) * SECTOR <= |media|
      requires at + sectors * SECTOR <= data.Length
      modifies this, dma, data
      ensures result == rc && |media| == |old(media)|
      ensures rc != OK || write ==> data[..] == old(data[..])
      ensures rc != OK && write ==> media == Torn(old(media), sector * SECTOR, sectors * SECTOR, torn)
      ensures rc == OK && write ==>
                media == Splice(old(media), sector * SECTOR, old(data[at..at + sectors * SECTOR]))
      ensures !write ==> media == old(media)
      ensures rc == OK && !write ==>
                data[..] == Splice(old(data[..]), at, old(media[sector * SECTOR..(sector + sectors) * SECTOR]))
    {
      hide Torn;
      var bytes := sectors * SECTOR;
      if write {
        var part := data[at..at + bytes];
        CopyIn(dma, 0, part);
        FrontOf(part, dma[..]);
        assert dma[..bytes] == dma[..][..bytes];
      }
      hide Splice;
      result := Call(write, sector, sectors, rc, torn);
      if result != OK {
        return;
      }
      if !write {
        CopyAt(data, at, dma[..bytes]);
      }
    }

    /** host_blk_transfer: chunk by chunk it does what one whole transfer would do; a
        failing call stops it with the chunks before that call transferred, and what lies
        past the sectors of that call as it was. */
    method Transfer(write: bool, sector: nat, data: array<uint8>, nbytes: nat, maxSectors: nat,
                    rcs: nat -> nat, torn: nat -> uint8)
      returns (result: nat, ghost moved: nat, ghost calls: nat)
      requires data != dma && 0 < maxSectors && maxSectors * SECTOR <= dma.Length
      requires nbytes <= data.Length && (sector + nbytes / SECTOR) * SECTOR <= |media|
      modifies this, dma, data
      ensures moved <= nbytes / SECTOR && (result == OK <==> moved == nbytes / SECTOR)
      ensures result != OK ==> moved == Product(calls, maxSectors) && result == rcs(calls)
      ensures var m := WholeMedia(write, old(media), sector * SECTOR, old(data[..]), moved * SECTOR);
              media == if result == OK || !write then m
                       else Torn(m, (sector + moved) * SECTOR, Next(nbytes / SECTOR - moved, maxSectors), torn)
      ensures data[..] == WholeData(write, old(media), sector * SECTOR, old(data[..]), moved * SECTOR)
    {
      hide Splice, WholeMedia, WholeData, Moved, Product, Torn;
      ghost var m0, d0 := media, data[..];
      ghost var m;
      result, moved, calls, m := Sectors(write, sector, data, nbytes / SECTOR, maxSectors, rcs, torn);
      MovedSides(write, m0, sector * SECTOR, d0, moved * SECTOR, m, data[..]);
    }

    /** The loop over the sectors that are left. */
    method Sectors(write: bool, sector: nat, data: array<uint8>, total: nat, maxSectors: nat,
                   rcs: nat -> nat, torn: nat -> uint8)
      returns (result: nat, ghost moved: nat, ghost calls: nat, ghost m: Bytes)
      requires data != dma && 0 < maxSectors && maxSectors * SECTOR <= dma.Length
      requires total * SECTOR <= data.Length && (sector + total) * SECTOR <= |media|
      modifies this, dma, data
      ensures moved <= total && (result == OK <==> moved == total)
      ensures result != OK ==> moved == Product(calls, maxSectors) && result == rcs(calls)
      ensures Moved(write, old(media), sector * SECTOR, old(data[..]), moved * SECTOR, m, data[..])
      ensures |m| == |old(media)|
      ensures media == if result == OK || !write then m
                       else Torn(m, (sector + moved) * SECTOR, Next(total - moved, maxSectors), torn)
    {
      hide Splice, WholeMedia, WholeData, Moved, Product, Torn;
      var left: nat, offset: nat, call: nat := total, 0, 0;
      moved, calls := 0, 0;
      var at := sector;
      ghost var m0, d0, start := media, data[..], sector * SECTOR;
      m := media;
      MovedNone(write, m0, start, d0);
      ProductStep(0, maxSectors);
      while left > 0
        invariant calls == call && moved + left == total && offset == moved * SECTOR && at == sector + moved
        invariant left > 0 ==> moved == Product(calls, maxSectors)
        invariant m == media && |m| == |m0| && Moved(write, m0, start, d0, offset, media, data[..])
        decreases left
      {
        var sectors := if left > maxSectors then maxSectors else left;
        result := MovedChunk(write, at, sectors, data, offset, rcs(call), torn, m0, start, d0);
        if result != OK {
          return;
        }
        m := media;
        ProductStep(calls, maxSectors);
        at, left, offset, call := at + sectors, left - sectors, offset + sectors * SECTOR, call + 1;
        moved, calls := moved + sectors, calls + 1;
      }
      result := OK;
    }

    /** A chunk that succeeds extends the transfer done so far; one that fails leaves it. */
    method MovedChunk(write: bool, sector: nat, sectors: nat, data: array<uint8>, at: nat, rc: nat,
                      torn: nat -> uint8, ghost m0: Bytes, ghost start: nat, ghost d0: Bytes) returns (result: nat)
      requires data != dma && sectors * SECTOR <= dma.Length && Moved(write, m0, start, d0, at, media, data[..])
      requires sector * SECTOR == start + at && start + at + sectors * SECTOR <= |m0| && at + sectors * SECTOR <= |d0|
      modifies this, dma, data
      ensures result == rc && |media| == |m0|
      ensures rc == OK ==> Moved(write, m0, start, d0, at + sectors * SECTOR, media, data[..])
      ensures rc != OK ==> Moved(write, m0, start, d0, at, old(media), data[..])
      ensures rc != OK && write ==>
                sector * SECTOR + sectors * SECTOR <= |old(media)|
                && media == Torn(old(media), sector * SECTOR, sectors * SECTOR, torn)
      ensures rc != OK && !write ==> media == old(media)
    {
      hide Splice, WholeMedia, WholeData, Moved, Product, Torn;
      MovedSides(write, m0, start, d0, at, media, data[..]);
      if write {
        MovedWrite(m0, start, d0, at, sectors * SECTOR, media);
      } else {
        MovedRead(m0, start, d0, at, sectors * SECTOR, data[..]);
      }
      assert data[at..at + sectors * SECTOR] == data[..][at..at + sectors * SECTOR];
      result := Chunk(write, sector, sectors, data, at, rc, torn);
    }
  }

  function Product(a: nat, b: nat): nat { a * b }

  lemma ProductStep(a: nat, b: nat)
    ensures Product(a + 1, b) == Product(a, b) + b && Product(0, b) == 0
  {
  }
}
