/** The framebuffer observer: captures under cookies, and reads of what was captured. */
module Observer {
  import opened Machine
  import opened Memory
  import opened Surfaces
  import F = Framebuffer
  import Packed

  const VERSION := 1
  const CAPTURE := 1
  const READ := 2
  const RELEASE := 3
  const READ_PACKED := 4

  datatype Status = Ok | BadRequest | Denied | NoFrame | BadCookie | BadBounds | Exhausted

  datatype Ask = Ask(version: nat, operation: nat, id: nat, client: nat, cookie: nat, offset: nat, length: nat)
  datatype Answer = Answer(status: Status, id: nat, length: nat, cookie: nat, sequence: nat, width: nat, height: nat)

  /** A client between two requests: detached ones have nothing selected. */
  ghost predicate Watchable(c: F.Session) { F.Inv(c) && (c.bound || c.sel.handle == 0) }

  /** Every step of a client keeps it watchable. */
  lemma WatchableKeeps(l: F.Link, step: F.Step)
    requires F.LinkInv(l) && Watchable(l.c)
    ensures Watchable(F.Next(l, step).c)
  {
    F.NextKeeps(l, step);
    if step.Exec? && l.c.bound {
      F.ExecuteKeeps(l.c, step.q);
    }
    hide F.Inv, F.Execute;
  }

  /** The selected rectangle of the last flip of the selected surface. */
  ghost predicate Shows(c: F.Session, picture: Bytes) {
    exists i: nat | F.Names(c, i) && c.metas[i].sequence > 0 && i < |c.flips| ::
      Inside(F.View(c, i, c.flips[i]), c.sel) && picture == Picture(F.View(c, i, c.flips[i]), c.sel)
  }

  /** Cookies stay what they were. */
  ghost predicate Extends(before: map<nat, Bytes>, after: map<nat, Bytes>) {
    forall k | k in before :: k in after && after[k] == before[k]
  }

  ghost predicate Blank(c: F.Session) { forall i: nat | F.Names(c, i) :: c.metas[i].sequence == 0 }

  class Watcher {
    var snapshot: Bytes
    var cookie: nat
    var nextCookie: nat
    var sequence: nat
    var width: nat
    var height: nat
    var bytes: nat
    const data: array<uint8>
    const allowed: set<nat>
    /** Every cookie ever given out, with the picture captured under it. */
    ghost var issued: map<nat, Bytes>

    constructor (snapshot: Bytes, data: array<uint8>, allowed: set<nat>)
      requires |snapshot| >= SURFACE_BYTES && data.Length == F.DATA_BYTES
      ensures Valid() && issued == map[] && cookie == 0 && this.data == data && this.allowed == allowed
    {
      this.snapshot, this.data, this.allowed := snapshot, data, allowed;
      cookie, nextCookie, sequence, width, height, bytes, issued := 0, 1, 0, 0, 0, 0, map[];
    }

    ghost predicate Valid()
      reads this
    {
      && data.Length == F.DATA_BYTES && |snapshot| >= SURFACE_BYTES && nextCookie <= F.LAST64
      && (forall k | k in issued :: 0 < k && (nextCookie == 0 || k < nextCookie))
      && (cookie != 0 ==> cookie in issued && |issued[cookie]| == bytes && issued[cookie] <= snapshot)
    }

    function Reply(q: Ask, length: nat): Answer
      reads this
    {
      Answer(Ok, q.id, length, cookie, sequence, width, height)
    }

    function Refuse(q: Ask, status: Status): Answer { Answer(status, q.id, 0, 0, 0, 0, 0) }

    /** The observer's execute.  A read is answered with bytes of the picture captured when its
        cookie was given out, whatever the clients have done since. */
    method Execute(q: Ask, clients: seq<F.Session>) returns (p: Answer)
      requires Valid() && forall i | 0 <= i < |clients| :: Watchable(clients[i])
      modifies this, data
      ensures Valid() && Extends(old(issued), issued) && p.id == q.id
      ensures p.status != Ok ==> unchanged(this) && data[..] == old(data[..])
      ensures q.version != VERSION || !(CAPTURE <= q.operation <= READ_PACKED) ==> p.status == BadRequest
      ensures q.version == VERSION && q.operation == CAPTURE ==> Captured(old(nextCookie), old(issued), q, clients, p)
      ensures q.version == VERSION && q.operation in {READ, READ_PACKED, RELEASE} ==>
                ReadOf(old(cookie), old(bytes), old(issued), q, p)
      ensures p.status == Ok && q.operation in {READ, READ_PACKED} ==> issued == old(issued) && cookie == q.cookie
      ensures p.status == Ok && q.operation == RELEASE ==> issued == old(issued) && cookie == 0
    {
      if q.version != VERSION || q.operation < CAPTURE || q.operation > READ_PACKED {
        return Refuse(q, BadRequest);
      }
      if q.operation == CAPTURE {
        p := Capture(q, clients);
        return;
      }
      if q.client != 0 {
        return Refuse(q, BadRequest);
      }
      if q.cookie == 0 || q.cookie != cookie {
        return Refuse(q, BadCookie);
      }
      p := Use(q);
    }

    /** A capture succeeds exactly for a permitted client that shows a frame, while cookies
        are left; the new cookie was never given out, and stands for that frame. */
    ghost predicate Captured(was: nat, before: map<nat, Bytes>, q: Ask, clients: seq<F.Session>, p: Answer)
      reads this
    {
      var plain, may := q.cookie == 0 && q.offset == 0 && q.length == 0, q.client < |clients| && q.client in allowed;
      && (p.status == Ok <==> plain && may && !Blank(clients[q.client]) && was != 0)
      && (p.status == Denied <==> plain && !may)
      && (p.status == NoFrame <==> plain && may && Blank(clients[q.client]))
      && (p.status == Exhausted <==> plain && may && !Blank(clients[q.client]) && was == 0)
      && (p.status == BadRequest <==> !plain)
      && (p.status == Ok ==> p.cookie == cookie == was && was !in before && cookie in issued
                             && Shows(clients[q.client], issued[cookie]) && issued == before[cookie := issued[cookie]])
    }

    method Capture(q: Ask, clients: seq<F.Session>) returns (p: Answer)
      requires Valid() && q.operation == CAPTURE && forall i | 0 <= i < |clients| :: Watchable(clients[i])
      modifies this
      ensures Valid() && Extends(old(issued), issued) && p.id == q.id && (p.status != Ok ==> unchanged(this))
      ensures Captured(old(nextCookie), old(issued), q, clients, p)
    {
      hide Shows, Blank, Watchable, Valid;
      if q.cookie != 0 || q.offset != 0 || q.length != 0 {
        return Refuse(q, BadRequest);
      }
      if q.client >= |clients| || q.client !in allowed {
        return Refuse(q, Denied);
      }
      var c := clients[q.client];
      var found, i := Find(c);
      if !found {
        return Refuse(q, NoFrame);
      }
      if nextCookie == 0 {
        return Refuse(q, Exhausted);
      }
      Issue(c, i);
      return Reply(q, 0);
    }

    /** The rectangle copied, under the next cookie. */
    method Issue(c: F.Session, i: nat)
      requires Valid() && nextCookie != 0 && Watchable(c) && c.bound && F.Names(c, i) && c.metas[i].sequence > 0
      modifies this
      ensures Valid() && cookie == old(nextCookie) && cookie !in old(issued) && cookie in issued
      ensures Shows(c, issued[cookie]) && issued == old(issued)[cookie := issued[cookie]]
    {
      hide Shows, Watchable;
      ghost var picture;
      snapshot, picture := Copy(c, i, snapshot);
      cookie := nextCookie;
      nextCookie := if nextCookie == F.LAST64 then 0 else nextCookie + 1;
      issued := issued[cookie := picture];
      sequence, width, height := c.metas[i].sequence, c.sel.width, c.sel.height;
      bytes := width * height * 4;
    }

    /** What READ, READ_PACKED and RELEASE answer under the current cookie `now`. */
    ghost predicate ReadOf(now: nat, size: nat, before: map<nat, Bytes>, q: Ask, p: Answer)
      reads this, data
    {
      var mine, fits := q.client == 0 && q.cookie == now != 0, 0 < q.length && q.offset + q.length <= size;
      && (q.operation == READ ==>
            (p.status == Ok <==> mine && fits && q.length <= F.DATA_BYTES))
      && (q.operation == READ_PACKED ==>
            (p.status == Ok <==>
               mine && fits && q.length <= Packed.SOURCE_MAX && q.offset % 4 == 0 && q.length % 4 == 0))
      && (q.operation == RELEASE ==> (p.status == Ok <==> mine && q.offset == 0 && q.length == 0))
      && (p.status == BadCookie <==> q.client == 0 && !mine)
      && (p.status == BadRequest <==> q.client != 0 || (mine && q.operation == RELEASE && p.status != Ok))
      && (p.status == Ok && q.operation != RELEASE ==>
            && now in before && q.offset + q.length <= |before[now]| && p.length <= data.Length
            && var asked := before[now][q.offset..q.offset + q.length];
               && (q.operation == READ ==> p.length == q.length && data[..p.length] == asked)
               && (q.operation == READ_PACKED ==>
                     var got := Packed.Decode(data[..p.length]);
                     got.Some? && got.value != [] && got.value <= asked))
    }

    method Use(q: Ask) returns (p: Answer)
      requires Valid() && q.client == 0 && q.cookie == cookie != 0 && q.operation in {READ, READ_PACKED, RELEASE}
      modifies this`cookie, data
      ensures Valid() && p.id == q.id && (p.status != Ok ==> cookie == old(cookie) && data[..] == old(data[..]))
      ensures ReadOf(old(cookie), bytes, issued, q, p)
      ensures p.status == Ok && q.operation != RELEASE ==> cookie == old(cookie)
      ensures p.status == Ok && q.operation == RELEASE ==> cookie == 0
    {
      hide Packed.Decode;
      ghost var picture := issued[cookie];
      if q.operation == READ {
        if q.length == 0 || q.length > F.DATA_BYTES || q.offset > bytes || q.length > bytes - q.offset {
          return Refuse(q, BadBounds);
        }
        var part := snapshot[q.offset..q.offset + q.length];
        SamePart(picture, snapshot, q.offset, q.length);
        CopyIn(data, 0, part);
        assert data[..q.length] == part;
        return Reply(q, q.length);
      }
      if q.operation == READ_PACKED {
        if q.length == 0 || q.length > Packed.SOURCE_MAX || q.offset % 4 != 0 || q.length % 4 != 0
           || q.offset > bytes || q.length > bytes - q.offset {
          return Refuse(q, BadBounds);
        }
        SamePart(picture, snapshot, q.offset, q.length);
        var n := Packed.PackedRead(data, snapshot[q.offset..q.offset + q.length]);
        return Reply(q, n);
      }
      if q.offset != 0 || q.length != 0 {
        return Refuse(q, BadRequest);
      }
      cookie := 0;
      return Reply(q, 0);
    }
  }

  lemma SamePart(picture: Bytes, snapshot: Bytes, offset: nat, n: nat)
    requires picture <= snapshot && offset + n <= |picture|
    ensures snapshot[offset..offset + n] == picture[offset..offset + n]
  {
  }

  /** The selected surface, if it has been flipped. */
  method Find(c: F.Session) returns (found: bool, i: nat)
    requires Watchable(c)
    ensures found <==> !Blank(c)
    ensures found ==> c.bound && F.Names(c, i) && c.metas[i].sequence > 0
  {
    i := F.Lookup(c, c.sel.handle);
    F.NoneChosen(c, i);
    if c.sel.handle == 0 || i == |c.metas| {
      return false, i;
    }
    F.Chosen(c, i);
    return c.metas[i].sequence != 0, i;
  }

  /** The row loop of CAPTURE. */
  method Copy(c: F.Session, i: nat, snapshot: Bytes) returns (after: Bytes, ghost picture: Bytes)
    requires Watchable(c) && c.bound && F.Names(c, i) && c.metas[i].sequence > 0 && |snapshot| >= SURFACE_BYTES
    ensures |after| == |snapshot| && picture <= after && Shows(c, picture)
    ensures |picture| == c.sel.width * c.sel.height * 4
  {
    var ok;
    ok, after := F.Capture(c, snapshot);
    assert ok;
    ghost var k: nat :| F.Names(c, k) && c.metas[k].sequence > 0
                        && Inside(F.View(c, k, c.flips[k]), c.sel)
                        && var pic := Picture(F.View(c, k, c.flips[k]), c.sel);
                           |pic| <= |snapshot| && after == pic + snapshot[|pic|..];
    picture := Picture(F.View(c, k, c.flips[k]), c.sel);
    PictureSize(F.View(c, k, c.flips[k]), c.sel);
  }
}
