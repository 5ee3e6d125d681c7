/** Endowments: what a parent asks to hand to a child, against what it holds. */
module Endowment {
  const VERSION := 1
  const MAX_CAPS := 8

  /** Rights are a set of bit numbers. */
  datatype Cap = Cap(kind: nat, rights: set<nat>, parentSlot: nat)

  /** A fixed table of which `count` entries are in use. */
  datatype Endow = Endow(version: nat, count: nat, caps: seq<Cap>)

  predicate Formed(e: Endow) { |e.caps| == MAX_CAPS }

  predicate Matches(a: Cap, b: Cap) { a.parentSlot == b.parentSlot && a.kind == b.kind }

  /** Entries of a table the validator looks at. */
  function InUse(e: Endow): nat
    requires Formed(e)
  {
    if e.count < MAX_CAPS then e.count else MAX_CAPS
  }

  /** First holding from j on of the same slot and kind. */
  function MatchFrom(h: Endow, c: Cap, j: nat): (k: nat)
    requires Formed(h) && j <= InUse(h)
    ensures j <= k <= InUse(h) && (k < InUse(h) ==> Matches(h.caps[k], c))
    ensures forall i | j <= i < k :: !Matches(h.caps[i], c)
    decreases InUse(h) - j
  {
    if j == InUse(h) || Matches(h.caps[j], c) then j else MatchFrom(h, c, j + 1)
  }

  /** The holding that decides capability c allows it. */
  predicate Covered(h: Endow, c: Cap)
    requires Formed(h)
  {
    var k := MatchFrom(h, c, 0);
    k < InUse(h) && c.rights <= h.caps[k].rights
  }

  predicate Valid(e: Endow, h: Endow)
    requires Formed(e) && Formed(h)
  {
    e.version == VERSION && 0 < e.count <= MAX_CAPS && forall i | 0 <= i < e.count :: Covered(h, e.caps[i])
  }

  /** aos_endowment_validate: two nested searches. */
  method Validate(e: Endow, h: Endow) returns (ok: bool)
    requires Formed(e) && Formed(h)
    ensures ok == Valid(e, h)
  {
    if e.version != VERSION || e.count == 0 || e.count > MAX_CAPS {
      return false;
    }
    for i := 0 to e.count
      invariant forall k | 0 <= k < i :: Covered(h, e.caps[k])
    {
      var found := false;
      var j := 0;
      while j < h.count && j < MAX_CAPS
        invariant j <= InUse(h) && MatchFrom(h, e.caps[i], j) == MatchFrom(h, e.caps[i], 0)
        invariant !found
      {
        if Matches(h.caps[j], e.caps[i]) {
          if !(e.caps[i].rights <= h.caps[j].rights) {
            return false;
          }
          found := true;
          break;
        }
        j := j + 1;
      }
      if !found {
        return false;
      }
    }
    return true;
  }

  /** Nothing valid asks for more than some declared holding gives. */
  lemma ValidCount(e: Endow, h: Endow)
    requires Formed(e) && Formed(h) && Valid(e, h)
    ensures 0 < e.count <= MAX_CAPS
  {
  }

  lemma ValidWithin(e: Endow, h: Endow, i: nat)
    requires Formed(e) && Formed(h) && Valid(e, h) && i < e.count
    ensures exists j | 0 <= j < InUse(h) :: Matches(h.caps[j], e.caps[i]) && e.caps[i].rights <= h.caps[j].rights
  {
    assert Covered(h, e.caps[i]);
    var k := MatchFrom(h, e.caps[i], 0);
    assert Matches(h.caps[k], e.caps[i]);
  }

  /** With one declaration per slot and kind the converse holds too: a request is refused
      only if it is malformed or some capability exceeds every holding. */
  lemma ValidIff(e: Endow, h: Endow)
    requires Formed(e) && Formed(h) && e.version == VERSION && 0 < e.count <= MAX_CAPS
    requires forall i, j | 0 <= i < j < InUse(h) :: !Matches(h.caps[i], h.caps[j])
    ensures Valid(e, h) <==>
              forall i | 0 <= i < e.count :: Backed(h, e.caps[i])
  {
    forall i | 0 <= i < e.count
      ensures Covered(h, e.caps[i]) <==> Backed(h, e.caps[i])
    {
      var c := e.caps[i];
      var k := MatchFrom(h, c, 0);
      if k < InUse(h) {
        assert Matches(h.caps[k], c);
      }
      if Backed(h, c) {
        var j :| 0 <= j < InUse(h) && Matches(h.caps[j], c) && c.rights <= h.caps[j].rights;
        assert k <= j;
      }
    }
    hide Covered, Backed;
  }

  predicate Backed(h: Endow, c: Cap)
    requires Formed(h)
  {
    exists j | 0 <= j < InUse(h) :: Matches(h.caps[j], c) && c.rights <= h.caps[j].rights
  }
}

/** Creating a child domain through a long sequence of kernel calls, any of which may fail. */
module ChildSpawn {
  import opened Endowment

  const SCRATCH_SLOTS := 24
  const MAX_PT_LEVELS := 4
  const LEDGER_ENTRIES := 16

  datatype Option<T> = None | Some(value: T)

  datatype Answer = Fine | FailedLookup | Failure

  datatype Code = Ok | ErrValidate | ErrScratch | ErrRetype | ErrAsid | ErrMap | ErrConfigure | ErrEndow | ErrStart

  /** A capability placed in the child: where, from which of the parent's, with which rights. */
  datatype Mint = Mint(slot: nat, source: nat, rights: set<nat>, badge: nat)

  datatype Entry = Entry(kind: nat, rights: set<nat>, badge: nat)

  /** The self-report: entries, and how many did not fit. */
  datatype Ledger = Ledger(entries: seq<Entry>, dropped: nat)

  datatype Request = Request(
    endow: Endow, holdings: Endow, cptrs: Option<seq<nat>>, childBase: nat, badge: nat,
    scratchBase: nat, scratchCount: nat, content: nat, extras: seq<nat>, faultInstall: bool)

  predicate Sound(r: Request) {
    && Endowment.Formed(r.endow) && Endowment.Formed(r.holdings) && r.scratchBase > 0
    && (r.cptrs.Some? && r.endow.count <= MAX_CAPS ==> |r.cptrs.value| >= r.endow.count)
  }

  /** Bits of a rights mask that the kernel knows: write, read, grant, grant-reply. */
  function Unpack(rights: set<nat>): set<nat> { rights * {0, 1, 2, 3} }

  function MintOf(r: Request, i: nat): Mint
    requires Sound(r) && r.cptrs.Some? && i < r.endow.count <= MAX_CAPS
  {
    Mint(r.childBase + i, r.cptrs.value[i], Unpack(r.endow.caps[i].rights), r.badge)
  }

  /** Every capability the request names, in order. */
  function AllMints(r: Request, n: nat): seq<Mint>
    requires Sound(r) && r.cptrs.Some? && n <= r.endow.count <= MAX_CAPS
  {
    if n == 0 then [] else AllMints(r, n - 1) + [MintOf(r, n - 1)]
  }

  function Recorded(l: Ledger, e: Entry): Ledger {
    if |l.entries| >= LEDGER_ENTRIES then l.(dropped := l.dropped + 1) else l.(entries := l.entries + [e])
  }

  /** The report after the first n mints. */
  function Reported(l: Ledger, r: Request, n: nat): Ledger
    requires Sound(r) && n <= MAX_CAPS
  {
    if n == 0 then l
    else Recorded(Reported(l, r, n - 1), EntryOf(r.endow.caps[n - 1], r.badge))
  }

  /** Endpoints, notifications and kinds without a name of their own carry a badge. */
  predicate CarriesBadge(kind: nat) { kind == 2 || kind == 3 || kind >= 10 }

  function EntryOf(c: Cap, badge: nat): Entry {
    Entry(c.kind, c.rights, if CarriesBadge(c.kind) then badge else 0)
  }

  /** How far a spawn has come: kernel calls answered and scratch slots staged. */
  datatype Point = Point(calls: nat, slots: nat)

  /** After one kernel call that must succeed and stages `slots` objects. */
  function Plain(oracle: nat -> Answer, at: Option<Point>, slots: nat): (p: Option<Point>)
    ensures p.Some? ==> at.Some? && p.value.slots == at.value.slots + slots
  {
    if at.None? || oracle(at.value.calls) != Fine then None
    else Some(Point(at.value.calls + 1, at.value.slots + slots))
  }

  /** Tables to supply before the mapping that call k asks for succeeds, if the kernel lacks
      no more than `left` and grants each. */
  function Missing(oracle: nat -> Answer, k: nat, left: nat): (d: Option<nat>)
    ensures d.Some? ==> d.value <= left
    decreases left
  {
    if oracle(k) == Fine then Some(0)
    else if oracle(k) != FailedLookup || left == 0 || oracle(k + 1) != Fine || oracle(k + 2) != Fine then None
    else
      match Missing(oracle, k + 3, left - 1)
      case None => None
      case Some(d) => Some(d + 1)
  }

  lemma MissingIs(oracle: nat -> Answer, k: nat, left: nat)
    ensures Missing(oracle, k, left) ==
              if oracle(k) == Fine then Some(0)
              else if oracle(k) != FailedLookup || left == 0 || oracle(k + 1) != Fine || oracle(k + 2) != Fine then None
              else More(Missing(oracle, k + 3, left - 1), 1)
  {
  }

  function More(d: Option<nat>, n: nat): Option<nat> { if d.Some? then Some(d.value + n) else None }

  function Mapped(oracle: nat -> Answer, at: Option<Point>): (p: Option<Point>)
    ensures p.Some? ==> at.Some? && at.value.slots <= p.value.slots <= at.value.slots + 3
  {
    if at.None? then None
    else
      match Missing(oracle, at.value.calls, MAX_PT_LEVELS - 1)
      case None => None
      case Some(d) => Some(Point(at.value.calls + 3 * d + 1, at.value.slots + d))
  }

  function AllMapped(oracle: nat -> Answer, at: Option<Point>, n: nat): (p: Option<Point>)
    ensures p.Some? ==> at.Some? && at.value.slots <= p.value.slots <= at.value.slots + 3 * n
    decreases n
  {
    if n == 0 then at else Mapped(oracle, AllMapped(oracle, at, n - 1))
  }

  lemma FirstMapped(oracle: nat -> Answer, at: Option<Point>)
    ensures AllMapped(oracle, at, 1) == Mapped(oracle, at)
  {
    assert AllMapped(oracle, at, 0) == at;
  }

  lemma {:induction false} MappedMore(oracle: nat -> Answer, at: Option<Point>, m: nat, n: nat)
    requires m <= n
    ensures var p, q := AllMapped(oracle, at, m), AllMapped(oracle, at, n);
            q.Some? ==> p.Some? && p.value.slots <= q.value.slots
    decreases n
  {
    hide Mapped;
    if m < n {
      MappedMore(oracle, at, m, n - 1);
    }
  }

  lemma {:induction false} MintedMore(oracle: nat -> Answer, at: Option<Point>, m: nat, n: nat)
    requires m <= n
    ensures Minted(oracle, at, n).Some? ==> Minted(oracle, at, m).Some?
    decreases n
  {
    hide Plain;
    if m < n {
      MintedMore(oracle, at, m, n - 1);
    }
  }

  function SpaceBuilt(oracle: nat -> Answer, at: Option<Point>): (p: Option<Point>)
    ensures p.Some? ==> at.Some? && p.value.slots == at.value.slots + 2
  {
    Plain(oracle, Plain(oracle, Plain(oracle, at, 1), 1), 0)
  }

  function ThreadBuilt(oracle: nat -> Answer, at: Option<Point>, install: bool): (p: Option<Point>)
    ensures p.Some? ==> at.Some? && at.value.slots + 4 <= p.value.slots <= at.value.slots + 10
  {
    var stack := Mapped(oracle, Plain(oracle, at, 1));
    var buffer := Mapped(oracle, Plain(oracle, stack, 1));
    var thread := Plain(oracle, Plain(oracle, Plain(oracle, buffer, 1), 0), 0);
    ThreadBound(oracle, thread, install)
  }

  function ThreadBound(oracle: nat -> Answer, at: Option<Point>, install: bool): (p: Option<Point>)
    ensures p.Some? ==> at.Some? && p.value.slots == at.value.slots + 1
  {
    var handled := if install then Plain(oracle, at, 0) else at;
    Plain(oracle, Plain(oracle, Plain(oracle, handled, 1), 0), 0)
  }

  function Minted(oracle: nat -> Answer, at: Option<Point>, n: nat): (p: Option<Point>)
    ensures p.Some? ==> at.Some? && p.value.slots == at.value.slots
    decreases n
  {
    if n == 0 then at else Plain(oracle, Minted(oracle, at, n - 1), 0)
  }

  /** Everything before the resume, if the kernel grants it. */
  function Granted(oracle: nat -> Answer, r: Request): (p: Option<Point>)
    ensures p.Some? ==> p.value.slots <= 6 + 3 * (3 + |r.extras|)
  {
    var mapped := AllMapped(oracle, SpaceBuilt(oracle, Some(Point(0, 0))), 1 + |r.extras|);
    Minted(oracle, ThreadBuilt(oracle, mapped, r.faultInstall), r.endow.count)
  }

  /** With up to three extra frames the required 24 slots are always enough. */
  lemma SlotsSuffice(oracle: nat -> Answer, r: Request)
    requires |r.extras| <= 3 && Granted(oracle, r).Some?
    ensures Granted(oracle, r).value.slots <= SCRATCH_SLOTS
  {
  }

  /** Back to a mark taken earlier. */
  function Rollback(l: Ledger, count: nat, dropped: nat): Ledger {
    if count > |l.entries| || dropped > l.dropped then l else Ledger(l.entries[..count], dropped)
  }

  class Child {
    const req: Request
    // the kernel's side
    var staged: set<nat>      // scratch slots holding a capability
    var mapped: set<nat>      // caller frames mapped by this call
    var mints: seq<Mint>      // what the child's CNode holds
    var runnable: bool
    ghost var deleted: set<nat>     // slots deleted by this call
    ghost var unmapped: set<nat>    // frames unmapped by this call
    // the caller's side
    var next: nat
    var contentMapped: bool
    var extraMapped: nat
    var ledger: Ledger
    var calls: nat

    constructor (req: Request, ledger: Ledger)
      requires Sound(req)
      ensures this.req == req && this.ledger == ledger && Blank()
    {
      this.req, this.ledger := req, ledger;
      staged, mapped, mints, runnable, deleted, unmapped := {}, {}, [], false, {}, {};
      next, contentMapped, extraMapped, calls := req.scratchBase, false, 0, 0;
    }

    ghost function Here(): Point
      reads this`next, this`calls
    {
      Point(calls, if next >= req.scratchBase then next - req.scratchBase else 0)
    }

    /** The kernel grants this much and the scratch slots hold it. */
    ghost predicate Reaches(p: Option<Point>) { p.Some? && p.value.slots <= req.scratchCount }

    /** Nothing built yet, or everything torn down again. */
    ghost predicate Blank()
      reads this
    {
      Tidy() && staged == {} && mapped == {} && mints == [] && !runnable && next == req.scratchBase
    }

    /** The cursor says exactly which scratch slots are staged, and nothing of the
        parent's outside them is ever deleted. */
    ghost predicate Tidy()
      reads this`staged, this`mapped, this`deleted, this`unmapped, this`next, this`contentMapped, this`extraMapped
    {
      && Sound(req) && req.scratchBase <= next <= req.scratchBase + req.scratchCount
      && (forall s :: s in staged <==> req.scratchBase <= s < next)
      && (forall s | s in deleted :: req.scratchBase <= s < req.scratchBase + req.scratchCount)
      && extraMapped <= |req.extras|
      && (forall f | f in mapped :: (contentMapped && f == req.content) || f in req.extras[..extraMapped])
      && (forall f | f in unmapped :: f == req.content || f in req.extras)
    }

    lemma Orderly()
      requires Tidy()
      ensures Sound(req) && req.scratchBase <= next && Here() == Point(calls, next - req.scratchBase)
      ensures next - req.scratchBase <= req.scratchCount
    {
    }

    /** One object retyped into the next scratch slot; a refusal gives the slot back. */
    method RetypeOne(oracle: nat -> Answer) returns (ok: bool)
      requires Tidy()
      modifies this`staged, this`next, this`calls
      ensures Tidy() && next == old(next) + if ok then 1 else 0
      ensures ok <==> Reaches(Plain(oracle, Some(old(Here())), 1))
      ensures ok ==> Some(Here()) == Plain(oracle, Some(old(Here())), 1)
    {
      if next >= req.scratchBase + req.scratchCount {
        return false;
      }
      var slot := next;
      next := next + 1;
      var a := oracle(calls);
      calls := calls + 1;
      if a != Fine {
        next := next - 1;
        return false;
      }
      staged := staged + {slot};
      return true;
    }

    /** One kernel call without an object of its own. */
    method Call(oracle: nat -> Answer) returns (ok: bool)
      modifies this`calls
      ensures ok <==> Plain(oracle, Some(old(Here())), 0).Some?
      ensures ok ==> Some(Here()) == Plain(oracle, Some(old(Here())), 0)
    {
      ok := oracle(calls) == Fine;
      calls := calls + 1;
    }

    /** aos_pt_map_retrying: missing tables are supplied level by level. */
    method MapRetrying(oracle: nat -> Answer) returns (ok: bool)
      requires Tidy()
      modifies this`staged, this`next, this`calls
      ensures Tidy() && next >= old(next)
      ensures ok <==> Reaches(Mapped(oracle, Some(old(Here()))))
      ensures ok ==> Some(Here()) == Mapped(oracle, Some(old(Here())))
    {
      hide Tidy, Missing, Here;
      Orderly();
      for attempt := 0 to MAX_PT_LEVELS
        invariant Tidy() && next == old(next) + attempt && calls == old(calls) + 3 * attempt && attempt < MAX_PT_LEVELS
        invariant Missing(oracle, old(calls), MAX_PT_LEVELS - 1)
               == More(Missing(oracle, calls, MAX_PT_LEVELS - 1 - attempt), attempt)
      {
        MissingIs(oracle, calls, MAX_PT_LEVELS - 1 - attempt);
        var a := oracle(calls);
        calls := calls + 1;
        if a == Fine {
          Orderly();
          return true;
        }
        if a != FailedLookup || attempt + 1 == MAX_PT_LEVELS {
          return false;
        }
        var supplied := SupplyTable(oracle);
        if !supplied {
          return false;
        }
      }
      return false;
    }

    /** One page table retyped and placed. */
    method SupplyTable(oracle: nat -> Answer) returns (ok: bool)
      requires Tidy()
      modifies this`staged, this`next, this`calls
      ensures Tidy() && next >= old(next)
      ensures ok <==> old(next) < req.scratchBase + req.scratchCount
                      && oracle(old(calls)) == Fine && oracle(old(calls) + 1) == Fine
      ensures ok ==> next == old(next) + 1 && calls == old(calls) + 2
    {
      Orderly();
      hide Tidy;
      ok := RetypeOne(oracle);
      if !ok {
        return;
      }
      Orderly();
      ok := Call(oracle);
    }

    /** Staged slots deleted in reverse; deleting the CNode destroys the mints in it. */
    method StagingTeardown()
      requires Tidy() && !runnable
      modifies this`staged, this`next, this`mints, this`deleted
      ensures Tidy() && staged == {} && next == req.scratchBase
      ensures old(next) > req.scratchBase || old(mints) == [] ==> mints == []
    {
      while next > req.scratchBase
        invariant Tidy()
        invariant next == req.scratchBase < old(next) ==> mints == []
        invariant old(mints) == [] ==> mints == []
      {
        next := next - 1;
        staged := staged - {next};
        deleted := deleted + {next};
        if next == req.scratchBase {
          mints := [];
        }
      }
    }

    /** fail_teardown: this call's mappings of caller frames undone, then the staging. */
    method FailTeardown()
      requires Tidy() && !runnable && (mints != [] ==> next > req.scratchBase)
      modifies this`staged, this`mapped, this`next, this`mints, this`deleted, this`unmapped, this`contentMapped,
               this`extraMapped
      ensures Blank()
      ensures forall f | f in unmapped ::
                f in old(unmapped) || (old(contentMapped) && f == req.content) || f in req.extras[..old(extraMapped)]
    {
      while extraMapped > 0
        invariant Tidy() && next == old(next) && mints == old(mints)
        invariant extraMapped <= old(extraMapped) && contentMapped == old(contentMapped)
        invariant forall f | f in unmapped :: f in old(unmapped) || f in req.extras[..old(extraMapped)]
        decreases extraMapped
      {
        var f := req.extras[extraMapped - 1];
        Shorter(req.extras, extraMapped);
        assert f == req.extras[..old(extraMapped)][extraMapped - 1];
        mapped, unmapped := mapped - {f}, unmapped + {f};
        extraMapped := extraMapped - 1;
      }
      if contentMapped {
        mapped, unmapped := mapped - {req.content}, unmapped + {req.content};
        contentMapped := false;
      }
      StagingTeardown();
    }

    /** CNode, VSpace and address-space identifier. */
    method BuildSpace(oracle: nat -> Answer) returns (code: Code)
      requires Blank()
      modifies this`staged, this`next, this`calls
      ensures Tidy() && code in {Ok, ErrRetype, ErrAsid}
      ensures code == Ok <==> Reaches(SpaceBuilt(oracle, Some(old(Here()))))
      ensures code == Ok ==> Some(Here()) == SpaceBuilt(oracle, Some(old(Here())))
    {
      var ok := RetypeOne(oracle);
      if !ok { return ErrRetype; }
      ok := RetypeOne(oracle);
      if !ok { return ErrRetype; }
      ok := Call(oracle);
      if !ok { return ErrAsid; }
      return Ok;
    }

    /** The caller's content frame and extra frames. */
    method MapFrames(oracle: nat -> Answer) returns (code: Code)
      requires Tidy() && !contentMapped && extraMapped == 0
      modifies this`staged, this`mapped, this`next, this`contentMapped, this`extraMapped, this`calls
      ensures Tidy() && next >= old(next) && code in {Ok, ErrMap}
      ensures code == Ok <==> Reaches(AllMapped(oracle, Some(old(Here())), 1 + |req.extras|))
      ensures code == Ok ==> Some(Here()) == AllMapped(oracle, Some(old(Here())), 1 + |req.extras|)
      ensures code == Ok ==> mapped == old(mapped) + {req.content} + Elements(req.extras)
    {
      hide Tidy, Elements, Mapped, Here;
      ghost var start, n := Some(Here()), 1 + |req.extras|;
      FirstMapped(oracle, start);
      MappedMore(oracle, start, 1, n);
      var ok := MapRetrying(oracle);
      if !ok { return ErrMap; }
      NoteContent();
      for i := 0 to |req.extras|
        invariant Tidy() && next >= old(next) && contentMapped && extraMapped == i
        invariant Some(Here()) == AllMapped(oracle, start, 1 + i)
        invariant mapped == old(mapped) + {req.content} + Elements(req.extras[..i])
      {
        MappedMore(oracle, start, 1 + (i + 1), n);
        ok := MapRetrying(oracle);
        if !ok { return ErrMap; }
        NoteExtra();
      }
      assert req.extras[..|req.extras|] == req.extras;
      Orderly();
      return Ok;
    }

    method NoteContent()
      requires Tidy() && extraMapped == 0
      modifies this`mapped, this`contentMapped
      ensures Tidy() && contentMapped && mapped == old(mapped) + {req.content} + Elements(req.extras[..0])
    {
      mapped, contentMapped := mapped + {req.content}, true;
    }

    method NoteExtra()
      requires Tidy() && extraMapped < |req.extras|
      modifies this`mapped, this`extraMapped
      ensures Tidy() && extraMapped == old(extraMapped) + 1
      ensures forall s | old(mapped) == s + Elements(req.extras[..old(extraMapped)]) ::
                mapped == s + Elements(req.extras[..extraMapped])
    {
      Longer(req.extras, extraMapped);
      hide Elements;
      mapped, extraMapped := mapped + {req.extras[extraMapped]}, extraMapped + 1;
    }

    /** Stack, IPC buffer, thread, registers without resume, fault handler, scheduling context. */
    method BuildThread(oracle: nat -> Answer) returns (code: Code)
      requires Tidy()
      modifies this`staged, this`next, this`calls
      ensures Tidy() && next >= old(next) && code in {Ok, ErrRetype, ErrMap, ErrConfigure}
      ensures code == Ok <==> Reaches(ThreadBuilt(oracle, Some(old(Here())), req.faultInstall))
      ensures code == Ok ==> Some(Here()) == ThreadBuilt(oracle, Some(old(Here())), req.faultInstall)
    {
      hide Tidy, Here, Plain, Mapped, ThreadBound;
      var ok := RetypeOne(oracle);
      if !ok { return ErrRetype; }
      ok := MapRetrying(oracle);
      if !ok { return ErrMap; }
      ok := RetypeOne(oracle);
      if !ok { return ErrRetype; }
      ok := MapRetrying(oracle);
      if !ok { return ErrMap; }
      ok := RetypeOne(oracle);
      if !ok { return ErrRetype; }
      ok := Call(oracle);
      if !ok { return ErrConfigure; }
      ok := Call(oracle);
      if !ok { return ErrConfigure; }
      code := BindThread(oracle);
    }

    method BindThread(oracle: nat -> Answer) returns (code: Code)
      requires Tidy()
      modifies this`staged, this`next, this`calls
      ensures Tidy() && next >= old(next) && code in {Ok, ErrRetype, ErrConfigure}
      ensures code == Ok <==> Reaches(ThreadBound(oracle, Some(old(Here())), req.faultInstall))
      ensures code == Ok ==> Some(Here()) == ThreadBound(oracle, Some(old(Here())), req.faultInstall)
    {
      hide Tidy, Here, Plain;
      var ok := true;
      if req.faultInstall {
        ok := Call(oracle);
        if !ok { return ErrConfigure; }
      }
      ok := RetypeOne(oracle);
      if !ok { return ErrRetype; }
      ok := Call(oracle);
      if !ok { return ErrConfigure; }
      ok := Call(oracle);
      if !ok { return ErrConfigure; }
      return Ok;
    }

    /** Every endowment minted in order; each success is recorded. */
    method Endow(oracle: nat -> Answer) returns (code: Code, ghost failedAt: nat)
      requires Tidy() && req.cptrs.Some? && req.endow.count <= MAX_CAPS && mints == []
      modifies this`mints, this`ledger, this`calls
      ensures Tidy() && Extends(ledger, old(ledger)) && failedAt <= req.endow.count && code in {Ok, ErrEndow}
      ensures ledger == Reported(old(ledger), req, failedAt)
      ensures code == Ok <==> Minted(oracle, Some(old(Here())), req.endow.count).Some?
      ensures code == Ok ==> Some(Here()) == Minted(oracle, Some(old(Here())), req.endow.count)
      ensures mints == AllMints(req, failedAt) && (code == Ok <==> failedAt == req.endow.count)
    {
      hide MintOf, EntryOf, Recorded, Extends, Tidy, Here, Plain;
      Orderly();
      ExtendsSame(ledger);
      ghost var start := Some(Here());
      failedAt := 0;
      for i := 0 to req.endow.count
        invariant Tidy() && mints == AllMints(req, i) && Extends(ledger, old(ledger)) && failedAt == i
        invariant ledger == Reported(old(ledger), req, i) && Some(Here()) == Minted(oracle, start, i)
      {
        MintedMore(oracle, start, i + 1, req.endow.count);
        var ok := Call(oracle);
        if !ok { return ErrEndow, failedAt; }
        var c := req.endow.caps[i];
        mints := mints + [MintOf(req, i)];
        ExtendsMore(ledger, old(ledger), EntryOf(c, req.badge));
        ledger := Recorded(ledger, EntryOf(c, req.badge));
        failedAt := i + 1;
      }
      return Ok, failedAt;
    }

    /** aos_child_spawn.  The child becomes runnable only with every endowment in place;
        every failing exit but a refused start leaves nothing behind. */
    method Spawn(oracle: nat -> Answer) returns (code: Code)
      requires Blank() && !contentMapped && extraMapped == 0 && calls == 0
      modifies this
      ensures Tidy() && runnable == (code == Ok)
      ensures code in {Ok, ErrStart} <==>
                Valid(req.endow, req.holdings) && req.cptrs.Some? && req.scratchCount >= SCRATCH_SLOTS
                && Reaches(Granted(oracle, req))
      ensures code == Ok <==> Valid(req.endow, req.holdings) && req.cptrs.Some? && req.scratchCount >= SCRATCH_SLOTS
                              && Reaches(Granted(oracle, req)) && oracle(Granted(oracle, req).value.calls) == Fine
      ensures code == ErrValidate <==> !Valid(req.endow, req.holdings) || req.cptrs.None?
      ensures code == ErrScratch <==>
              Valid(req.endow, req.holdings) && req.cptrs.Some? && req.scratchCount < SCRATCH_SLOTS
      ensures code == Ok || code == ErrStart ==>
                && Valid(req.endow, req.holdings) && req.cptrs.Some? && mints == AllMints(req, req.endow.count)
                && mapped == {req.content} + Elements(req.extras)
      ensures code == Ok ==> req.endow.count <= MAX_CAPS && ledger == Reported(old(ledger), req, req.endow.count)
      ensures code != Ok ==> ledger == old(ledger)
      ensures code != Ok && code != ErrStart ==> Blank()
    {
      hide Tidy, Reported, AllMints, Elements, Granted, Extends, Rollback, Valid, Here;
      Orderly();
      var valid := Validate(req.endow, req.holdings);
      if !valid { return ErrValidate; }
      ValidCount(req.endow, req.holdings);
      if req.cptrs.None? { return ErrValidate; }
      if req.scratchCount < SCRATCH_SLOTS { return ErrScratch; }
      var count, dropped := |ledger.entries|, ledger.dropped;
      code := Construct(oracle);
      if code != Ok {
        RolledBack(ledger, old(ledger));
        FailTeardown();
        ledger := Rollback(ledger, count, dropped);
        return;
      }
      var resumed := Call(oracle);
      if !resumed {
        RolledBack(ledger, old(ledger));
        ledger := Rollback(ledger, count, dropped);
        return ErrStart;
      }
      runnable := true;
    }

    /** Everything up to, and not including, the resume. */
    method Construct(oracle: nat -> Answer) returns (code: Code)
      requires Blank() && !contentMapped && extraMapped == 0 && calls == 0
      requires req.cptrs.Some? && req.endow.count <= MAX_CAPS
      modifies this`staged, this`mapped, this`mints, this`next, this`contentMapped, this`extraMapped, this`ledger,
               this`calls
      ensures Tidy() && Extends(ledger, old(ledger)) && (mints != [] ==> next > req.scratchBase)
      ensures code !in {ErrStart, ErrValidate, ErrScratch}
      ensures code == Ok ==>
                && mints == AllMints(req, req.endow.count) && mapped == {req.content} + Elements(req.extras)
                && ledger == Reported(old(ledger), req, req.endow.count)
      ensures code == Ok <==> Reaches(Granted(oracle, req))
      ensures code == Ok ==> Some(Here()) == Granted(oracle, req)
    {
      hide Tidy, Reported, AllMints, Elements, SpaceBuilt, AllMapped, ThreadBuilt, Minted;
      code := BuildSpace(oracle);
      if code != Ok { return; }
      code := MapFrames(oracle);
      if code != Ok { return; }
      code := BuildThread(oracle);
      if code != Ok { return; }
      ghost var failedAt;
      code, failedAt := Endow(oracle);
    }
  }

  /** The ledger only grew since a mark. */
  ghost predicate Extends(l: Ledger, mark: Ledger) { mark.entries <= l.entries && mark.dropped <= l.dropped }

  lemma ExtendsSame(l: Ledger)
    ensures Extends(l, l)
  {
  }

  lemma ExtendsMore(l: Ledger, mark: Ledger, e: Entry)
    requires Extends(l, mark)
    ensures Extends(Recorded(l, e), mark)
  {
  }

  lemma RolledBack(l: Ledger, mark: Ledger)
    requires Extends(l, mark)
    ensures Rollback(l, |mark.entries|, mark.dropped) == mark
  {
  }

  function Elements(s: seq<nat>): set<nat> { set x | x in s }

  lemma Longer(s: seq<nat>, n: nat)
    requires n < |s|
    ensures Elements(s[..n + 1]) == Elements(s[..n]) + {s[n]} && s[n] in s[..n + 1] && s[..n] <= s[..n + 1]
  {
    assert s[..n + 1] == s[..n] + [s[n]];
  }

  /** What a spawned child was given stays within what its parent declared to hold. */
  lemma MintsWithin(r: Request, i: nat)
    requires Sound(r) && r.cptrs.Some? && Valid(r.endow, r.holdings) && i < r.endow.count
    ensures |AllMints(r, r.endow.count)| == r.endow.count
    ensures var m := AllMints(r, r.endow.count)[i];
            && m.source == r.cptrs.value[i] && m.slot == r.childBase + i
            && exists j | 0 <= j < InUse(r.holdings) ::
                 Matches(r.holdings.caps[j], r.endow.caps[i]) && m.rights <= r.holdings.caps[j].rights
  {
    MintAt(r, r.endow.count, i);
    ValidWithin(r.endow, r.holdings, i);
    var j :| 0 <= j < InUse(r.holdings) && Matches(r.holdings.caps[j], r.endow.caps[i])
             && r.endow.caps[i].rights <= r.holdings.caps[j].rights;
    assert Unpack(r.endow.caps[i].rights) <= r.holdings.caps[j].rights;
  }

  lemma {:induction false} MintAt(r: Request, n: nat, i: nat)
    requires Sound(r) && r.cptrs.Some? && i < n <= r.endow.count <= MAX_CAPS
    ensures |AllMints(r, n)| == n && AllMints(r, n)[i] == MintOf(r, i)
    decreases n
  {
    if n > 1 {
      MintAt(r, n - 1, if i < n - 1 then i else 0);
    }
  }

  lemma Shorter(s: seq<nat>, n: nat)
    requires 0 < n <= |s|
    ensures forall x | x in s[..n] :: x == s[n - 1] || x in s[..n - 1]
    ensures s[n - 1] in s
  {
    assert s[..n] == s[..n - 1] + [s[n - 1]];
  }
}
