/** The lease table: slots with generation-tagged ids. */
module CapLease {
  import opened Modular

  const MAX_ACTIVE := 8
  const SLOTS := 0x100
  const GENERATIONS := 0x100_0000

  datatype State = Free | Active | Revoked
  datatype Lease = Lease(id: nat, borrower: nat, rights: nat, state: State)

  type Table = seq<Lease>

  datatype Option<T> = None | Some(value: T) {
    function GetOr(default: T): T { if Some? then value else default }
  }

  /** Slot index in the low byte, generation above it. */
  function MakeId(slot: nat, generation: nat): nat {
    slot % SLOTS + generation % GENERATIONS * SLOTS
  }

  function IdSlot(id: nat): nat { id % SLOTS }

  function IdGen(id: nat): nat { id / SLOTS % GENERATIONS }

  lemma IdParts(slot: nat, generation: nat)
    requires slot < SLOTS
    ensures IdSlot(MakeId(slot, generation)) == slot && IdGen(MakeId(slot, generation)) == generation % GENERATIONS
  {
    var g := generation % GENERATIONS;
    DivModUnique(slot + g * SLOTS, g, slot, SLOTS);
    DivModUnique(slot, 0, slot, SLOTS);
    DivModUnique(g, 0, g, GENERATIONS);
  }

  function Init(): (t: Table) {
    seq(MAX_ACTIVE, i requires 0 <= i => Lease(MakeId(i, 0), 0, 0, Free))
  }

  /** First slot from i on that is not active, or the table's length. */
  function FreeFrom(t: Table, i: nat): (r: nat)
    requires i <= |t|
    ensures i <= r <= |t| && (forall j | i <= j < r :: t[j].state == Active) && (r < |t| ==> t[r].state != Active)
    decreases |t| - i
  {
    if i == |t| || t[i].state != Active then i else FreeFrom(t, i + 1)
  }

  function NextId(t: Table, i: nat): nat
    requires i < |t|
  {
    MakeId(i, IdGen(t[i].id) + if t[i].state == Revoked then 1 else 0)
  }

  function Opened(t: Table, pd: nat, rights: nat): (r: Option<(Table, nat)>) {
    var i := FreeFrom(t, 0);
    if i == |t| then None
    else Some((t[i := Lease(NextId(t, i), pd, rights, Active)], NextId(t, i)))
  }

  function Closed(t: Table, id: nat): (r: Option<Table>) {
    var i := IdSlot(id);
    if i >= |t| || t[i].state != Active || t[i].id != id then None
    else Some(t[i := t[i].(state := Revoked)])
  }

  /** aos_lease_open: the first slot that is not active. */
  method Open(t: Table, pd: nat, rights: nat) returns (r: Option<(Table, nat)>)
    ensures r == Opened(t, pd, rights)
  {
    for i := 0 to |t|
      invariant FreeFrom(t, i) == FreeFrom(t, 0)
    {
      if t[i].state != Active {
        var generation := IdGen(t[i].id);
        if t[i].state == Revoked {
          generation := generation + 1;
        }
        var id := MakeId(i, generation);
        return Some((t[i := Lease(id, pd, rights, Active)], id));
      }
    }
    return None;
  }

  // ---- ids and open counts --------------------------------------------------------

  /** The id of the n-th opening of a slot, counting from one. */
  function IdOf(slot: nat, n: nat): nat
    requires n > 0
  {
    MakeId(slot, n - 1)
  }

  /** Ids repeat exactly every 2^24 openings of the same slot. */
  lemma IdsAgreeIff(s: nat, m: nat, t: nat, n: nat)
    requires s < SLOTS && t < SLOTS && m > 0 && n > 0
    ensures IdOf(s, m) == IdOf(t, n) <==> s == t && m % GENERATIONS == n % GENERATIONS
  {
    IdParts(s, m - 1);
    IdParts(t, n - 1);
    ShiftCong(m, n);
  }

  lemma ShiftCong(m: nat, n: nat)
    requires m > 0 && n > 0
    ensures (m - 1) % GENERATIONS == (n - 1) % GENERATIONS <==> m % GENERATIONS == n % GENERATIONS
  {
  }

  /** opens[i] counts the openings of slot i; the stored id is that of the last one. */
  ghost predicate Counted(t: Table, opens: seq<nat>) {
    && |t| == |opens| == MAX_ACTIVE
    && forall i | 0 <= i < |t| ::
         && (t[i].state == Free <==> opens[i] == 0)
         && t[i].id == MakeId(i, if opens[i] == 0 then 0 else opens[i] - 1)
  }

  lemma CountedSizes(t: Table, opens: seq<nat>)
    requires Counted(t, opens)
    ensures |t| == |opens| == MAX_ACTIVE
  {
  }

  lemma InitCounted()
    ensures Counted(Init(), seq(MAX_ACTIVE, _ => 0))
  {
  }

  /** Opening counts one more and hands out the id of that opening. */
  lemma OpenCounted(t: Table, opens: seq<nat>, pd: nat, rights: nat)
    requires Counted(t, opens) && Opened(t, pd, rights).Some?
    ensures var (t', id) := Opened(t, pd, rights).value;
            var i := FreeFrom(t, 0);
            && i < |t| && t[i].state != Active
            && Counted(t', opens[i := opens[i] + 1]) && id == IdOf(i, opens[i] + 1) && IdSlot(id) == i
            && t' == t[i := Lease(id, pd, rights, Active)]
  {
    hide MakeId, IdGen, IdSlot, FreeFrom;
    var i := FreeFrom(t, 0);
    IdParts(i, if opens[i] == 0 then 0 else opens[i] - 1);
    IdParts(i, opens[i]);
    GenStep(i, opens[i]);
  }

  lemma GenStep(slot: nat, n: nat)
    requires slot < SLOTS
    ensures n > 0 ==> MakeId(slot, (n - 1) % GENERATIONS + 1) == MakeId(slot, n)
    ensures MakeId(slot, 0 % GENERATIONS) == MakeId(slot, 0)
  {
  }

  lemma CloseCounted(t: Table, opens: seq<nat>, id: nat)
    requires Counted(t, opens) && Closed(t, id).Some?
    ensures Counted(Closed(t, id).value, opens)
  {
  }

  /** An id closes the current lease of its slot exactly when it was issued a multiple
      of 2^24 openings ago: never before the generation has gone all the way round. */
  lemma StaleCloseIff(t: Table, opens: seq<nat>, slot: nat, n: nat)
    requires Counted(t, opens) && slot < MAX_ACTIVE && 0 < n <= opens[slot]
    ensures Closed(t, IdOf(slot, n)).Some? <==>
              t[slot].state == Active && (opens[slot] - n) % GENERATIONS == 0
  {
    IdParts(slot, n - 1);
    IdsAgreeIff(slot, n, slot, opens[slot]);
    Multiple(opens[slot], n);
    hide MakeId, IdGen, IdSlot;
  }

  lemma Multiple(m: nat, n: nat)
    requires n <= m
    ensures m % GENERATIONS == n % GENERATIONS <==> (m - n) % GENERATIONS == 0
  {
  }

  /** n openings of the first slot, each closed again. */
  function Cycled(n: nat, pd: nat, rights: nat): Table {
    if n == 0 then Init()
    else
      var t := Cycled(n - 1, pd, rights);
      match Opened(t, pd, rights)
      case None => t
      case Some((u, id)) => Closed(u, id).GetOr(u)
  }

  lemma {:induction false} CycledCounted(n: nat, pd: nat, rights: nat)
    ensures Counted(Cycled(n, pd, rights), seq(MAX_ACTIVE, _ => 0)[0 := n])
    ensures Cycled(n, pd, rights)[0].state != Active
    decreases n
  {
    var opens := seq(MAX_ACTIVE, _ => 0);
    if n == 0 {
      InitCounted();
      assert opens[0 := 0] == opens;
    } else {
      CycledCounted(n - 1, pd, rights);
      var t := Cycled(n - 1, pd, rights);
      assert FreeFrom(t, 0) == 0;
      OpenCounted(t, opens[0 := n - 1], pd, rights);
      assert opens[0 := n - 1][0 := n] == opens[0 := n];
      var (u, id) := Opened(t, pd, rights).value;
      StaleCloseIff(u, opens[0 := n], 0, n);
      CloseCounted(u, opens[0 := n], id);
    }
  }

  /** After 2^24 loans of the first slot, its next one can be closed with the very first id. */
  lemma StaleIdCloses(n: nat, pd: nat, rights: nat)
    requires n == GENERATIONS
    ensures Opened(Init(), pd, rights).Some? && Opened(Cycled(n, pd, rights), pd, rights).Some?
    ensures var first := Opened(Init(), pd, rights).value.1;
            Closed(Opened(Cycled(n, pd, rights), pd, rights).value.0, first).Some?
  {
    var t, opens := Cycled(n, pd, rights), seq(MAX_ACTIVE, _ => 0);
    InitCounted();
    OpenCounted(Init(), opens, pd, rights);
    CycledCounted(n, pd, rights);
    hide Cycled, Counted;
    OpenCounted(t, opens[0 := n], pd, rights);
    assert opens[0 := n][0 := n + 1] == opens[0 := n + 1];
    StaleCloseIff(Opened(t, pd, rights).value.0, opens[0 := n + 1], 0, 1);
  }

  lemma NotStaleSoon(t: Table, opens: seq<nat>, slot: nat, n: nat)
    requires Counted(t, opens) && slot < MAX_ACTIVE && 0 < n < opens[slot] < n + GENERATIONS
    ensures Closed(t, IdOf(slot, n)).None?
  {
    StaleCloseIff(t, opens, slot, n);
  }
}

/** Lending: loan records kept in step with the lease table. */
module CapLend {
  import opened CapLease

  datatype Record = Record(inUse: bool, original: nat, root: nat, depth: nat, leaseId: nat)
  datatype Rights = Rights(grantReply: bool, grant: bool, read: bool, write: bool)
  datatype Code = Ok | ErrRights | ErrLease | ErrMint | ErrNotFound | ErrRevoke | ErrLeaseClose

  const CLEAR := Record(false, 0, 0, 0, 0)

  /** The lender's tables, with two histories: how often each slot was opened, and
      which originals the kernel currently has derivatives of. */
  datatype Book = Book(leases: Table, records: seq<Record>, opens: seq<nat>, lent: set<nat>)

  datatype Op =
    | LendOp(root: nat, original: nat, depth: nat, rights: Rights, badge: nat, minted: bool)
    | RevokeOp(loan: nat, revoked: bool)

  function Start(): Book {
    Book(Init(), seq(MAX_ACTIVE, _ => CLEAR), seq(MAX_ACTIVE, _ => 0), {})
  }

  predicate StrictSubset(r: Rights) { !(r.grantReply && r.grant && r.read && r.write) }

  function Pack(r: Rights): nat {
    (if r.grantReply then 8 else 0) + (if r.grant then 4 else 0) + (if r.read then 2 else 0) + if r.write then 1 else 0
  }

  predicate Holds(r: Record, original: nat) { r.inUse && r.original == original }

  /** First record of a loan of `original`, from i on; first unused record, from i on. */
  function FindFrom(rs: seq<Record>, original: nat, i: nat): (k: nat)
    requires i <= |rs|
    ensures i <= k <= |rs| && (k < |rs| ==> Holds(rs[k], original)) && forall j | i <= j < k :: !Holds(rs[j], original)
    decreases |rs| - i
  {
    if i == |rs| || Holds(rs[i], original) then i else FindFrom(rs, original, i + 1)
  }

  function UnusedFrom(rs: seq<Record>, i: nat): (k: nat)
    requires i <= |rs|
    ensures i <= k <= |rs| && (k < |rs| ==> !rs[k].inUse) && forall j | i <= j < k :: rs[j].inUse
    decreases |rs| - i
  {
    if i == |rs| || !rs[i].inUse then i else UnusedFrom(rs, i + 1)
  }

  function OpensAfter(b: Book): seq<nat> {
    var i := FreeFrom(b.leases, 0);
    if i < |b.opens| then b.opens[i := b.opens[i] + 1] else b.opens
  }

  function Lent(b: Book, op: Op): (Book, Code)
    requires op.LendOp?
  {
    if !StrictSubset(op.rights) then (b, ErrRights)
    else if FindFrom(b.records, op.original, 0) < |b.records| then (b, ErrLease)
    else
      var k := UnusedFrom(b.records, 0);
      if k == |b.records| then (b, ErrLease)
      else
        match Opened(b.leases, op.badge % 0x1_0000_0000, Pack(op.rights))
        case None => (b, ErrLease)
        case Some((leases, id)) =>
          var o := b.(leases := leases, opens := OpensAfter(b));
          if op.minted then
            (o.(records := b.records[k := Record(true, op.original, op.root, op.depth, id)],
                lent := b.lent + {op.original}), Ok)
          else
            match Closed(leases, id)
            case None => (o, ErrMint)
            case Some(closed) => (o.(leases := closed), ErrMint)
  }

  function Withdrawn(b: Book, op: Op): (Book, Code)
    requires op.RevokeOp?
  {
    var k := FindFrom(b.records, op.loan, 0);
    if k == |b.records| then (b, ErrNotFound)
    else if !op.revoked then (b, ErrRevoke)
    else
      var w := b.(lent := b.lent - {op.loan});
      match Closed(b.leases, b.records[k].leaseId)
      case None => (w, ErrLeaseClose)
      case Some(leases) => (w.(leases := leases, records := b.records[k := CLEAR]), Ok)
  }

  function Next(b: Book, op: Op): (Book, Code) {
    if op.LendOp? then Lent(b, op) else Withdrawn(b, op)
  }

  function Run(b: Book, ops: seq<Op>): Book {
    if ops == [] then b else Next(Run(b, ops[..|ops| - 1]), ops[|ops| - 1]).0
  }

  // ---- records and leases stay in bijection -----------------------------------------

  /** Record i stands for the active lease in slot j. */
  ghost predicate Owns(b: Book, i: nat, j: nat) {
    && i < |b.records| && j < |b.leases| && b.records[i].inUse
    && b.leases[j].state == Active && b.leases[j].id == b.records[i].leaseId && IdSlot(b.records[i].leaseId) == j
  }

  function InUse(rs: seq<Record>): (n: nat)
    ensures n <= |rs|
  {
    if rs == [] then 0 else InUse(rs[..|rs| - 1]) + if rs[|rs| - 1].inUse then 1 else 0
  }

  function Actives(t: Table): (n: nat)
    ensures n <= |t|
  {
    if t == [] then 0 else Actives(t[..|t| - 1]) + if t[|t| - 1].state == Active then 1 else 0
  }

  ghost predicate Matched(b: Book) {
    && (forall i: nat | i < |b.records| && b.records[i].inUse :: Owns(b, i, IdSlot(b.records[i].leaseId)))
    && (forall j: nat | j < |b.leases| && b.leases[j].state == Active :: exists i :: Owns(b, i, j))
    && (forall i: nat, k: nat, j: nat | Owns(b, i, j) && Owns(b, k, j) :: i == k)
  }

  ghost predicate Inv(b: Book) {
    && |b.records| == MAX_ACTIVE && Counted(b.leases, b.opens) && Matched(b)
    && Actives(b.leases) == InUse(b.records)
    && (forall i, k | 0 <= i < k < |b.records| && b.records[i].inUse && b.records[k].inUse ::
          b.records[i].original != b.records[k].original)
    && (forall o: nat :: o in b.lent <==> Loaned(b.records, o))
  }

  /** Some record in use is for this original. */
  predicate Loaned(rs: seq<Record>, original: nat) {
    exists i | 0 <= i < |rs| :: Holds(rs[i], original)
  }

  lemma {:induction false} InUseUpdate(rs: seq<Record>, k: nat, r: Record)
    requires k < |rs|
    ensures InUse(rs[k := r]) == InUse(rs) - (if rs[k].inUse then 1 else 0) + if r.inUse then 1 else 0
    decreases |rs|
  {
    var n := |rs| - 1;
    if k < n {
      InUseUpdate(rs[..n], k, r);
      assert rs[k := r][..n] == rs[..n][k := r];
    } else {
      assert rs[k := r][..n] == rs[..n];
    }
  }

  lemma {:induction false} ActivesUpdate(t: Table, k: nat, l: Lease)
    requires k < |t|
    ensures Actives(t[k := l])
            == Actives(t) - (if t[k].state == Active then 1 else 0) + if l.state == Active then 1 else 0
    decreases |t|
  {
    var n := |t| - 1;
    if k < n {
      ActivesUpdate(t[..n], k, l);
      assert t[k := l][..n] == t[..n][k := l];
    } else {
      assert t[k := l][..n] == t[..n];
    }
  }

  lemma {:induction false} AllActive(t: Table)
    requires forall j | 0 <= j < |t| :: t[j].state == Active
    ensures Actives(t) == |t|
    decreases |t|
  {
    if t != [] {
      AllActive(t[..|t| - 1]);
    }
  }

  lemma {:induction false} SomeUnused(rs: seq<Record>, k: nat)
    requires k < |rs| && !rs[k].inUse
    ensures InUse(rs) < |rs|
    decreases |rs|
  {
    if k < |rs| - 1 {
      SomeUnused(rs[..|rs| - 1], k);
    }
  }

  /** A free record always comes with a free lease slot. */
  lemma OpenSucceeds(b: Book, pd: nat, rights: nat)
    requires Inv(b) && UnusedFrom(b.records, 0) < |b.records|
    ensures Opened(b.leases, pd, rights).Some?
  {
    SomeUnused(b.records, UnusedFrom(b.records, 0));
    if FreeFrom(b.leases, 0) == |b.leases| {
      AllActive(b.leases);
    }
  }

  lemma CloseSucceeds(b: Book, k: nat)
    requires Inv(b) && k < |b.records| && b.records[k].inUse
    ensures Closed(b.leases, b.records[k].leaseId).Some?
  {
    assert Owns(b, k, IdSlot(b.records[k].leaseId));
  }

  lemma StartHolds()
    ensures Inv(Start())
  {
    var b := Start();
    InitCounted();
    assert Actives(b.leases) == 0 by { NoneActive(b.leases); }
    assert InUse(b.records) == 0 by { NoneInUse(b.records); }
  }

  lemma {:induction false} NoneActive(t: Table)
    requires forall j | 0 <= j < |t| :: t[j].state != Active
    ensures Actives(t) == 0
    decreases |t|
  {
    if t != [] {
      NoneActive(t[..|t| - 1]);
    }
  }

  lemma {:induction false} NoneInUse(rs: seq<Record>)
    requires forall j | 0 <= j < |rs| :: !rs[j].inUse
    ensures InUse(rs) == 0
    decreases |rs|
  {
    if rs != [] {
      NoneInUse(rs[..|rs| - 1]);
    }
  }

  // ---- every operation keeps it --------------------------------------------------------

  lemma MatchedLend(b: Book, k: nat, i: nat, id: nat, l: Lease, r: Record, b': Book)
    requires Matched(b) && k < |b.records| && !b.records[k].inUse && i < |b.leases| && b.leases[i].state != Active
    requires IdSlot(id) == i && l.state == Active && l.id == id && r.inUse && r.leaseId == id
    requires b'.leases == b.leases[i := l] && b'.records == b.records[k := r]
    ensures Matched(b')
  {
    forall m: nat | m < |b'.records| && b'.records[m].inUse
      ensures Owns(b', m, IdSlot(b'.records[m].leaseId))
    {
      if m != k {
        assert Owns(b, m, IdSlot(b.records[m].leaseId));
      }
    }
    forall j: nat | j < |b'.leases| && b'.leases[j].state == Active
      ensures exists m :: Owns(b', m, j)
    {
      if j == i {
        assert Owns(b', k, j);
      } else {
        var m: nat :| Owns(b, m, j);
        assert Owns(b', m, j);
      }
    }
    forall m: nat, n: nat, j: nat | Owns(b', m, j) && Owns(b', n, j)
      ensures m == n
    {
      assert m != k ==> Owns(b, m, IdSlot(b.records[m].leaseId));
      assert n != k ==> Owns(b, n, IdSlot(b.records[n].leaseId));
    }
  }

  lemma MatchedRevoke(b: Book, k: nat, j: nat, b': Book)
    requires Matched(b) && Owns(b, k, j)
    requires b'.leases == b.leases[j := b.leases[j].(state := Revoked)] && b'.records == b.records[k := CLEAR]
    ensures Matched(b')
  {
    forall m: nat | m < |b'.records| && b'.records[m].inUse
      ensures Owns(b', m, IdSlot(b'.records[m].leaseId))
    {
      assert Owns(b, m, IdSlot(b.records[m].leaseId));
    }
    forall n: nat | n < |b'.leases| && b'.leases[n].state == Active
      ensures exists m :: Owns(b', m, n)
    {
      var m: nat :| Owns(b, m, n);
      assert Owns(b', m, n);
    }
    forall m: nat, n: nat, s: nat | Owns(b', m, s) && Owns(b', n, s)
      ensures m == n
    {
      assert Owns(b, m, s) && Owns(b, n, s);
    }
  }

  lemma MatchedIdle(b: Book, i: nat, l: Lease, b': Book)
    requires Matched(b) && i < |b.leases| && b.leases[i].state != Active && l.state != Active
    requires b'.leases == b.leases[i := l] && b'.records == b.records
    ensures Matched(b')
  {
    forall m: nat | m < |b'.records| && b'.records[m].inUse
      ensures Owns(b', m, IdSlot(b'.records[m].leaseId))
    {
      assert Owns(b, m, IdSlot(b.records[m].leaseId));
    }
    forall n: nat | n < |b'.leases| && b'.leases[n].state == Active
      ensures exists m :: Owns(b', m, n)
    {
      var m: nat :| Owns(b, m, n);
      assert Owns(b', m, n);
    }
    forall m: nat, n: nat, s: nat | Owns(b', m, s) && Owns(b', n, s)
      ensures m == n
    {
      assert Owns(b, m, s) && Owns(b, n, s);
    }
  }

  lemma LoanedPut(rs: seq<Record>, k: nat, r: Record, o: nat)
    requires k < |rs| && !rs[k].inUse && r.inUse
    ensures Loaned(rs[k := r], o) <==> Loaned(rs, o) || o == r.original
  {
    var s := rs[k := r];
    if Loaned(rs, o) {
      var i :| 0 <= i < |rs| && Holds(rs[i], o);
      assert Holds(s[i], o);
    }
    if o == r.original {
      assert Holds(s[k], o);
    }
    if Loaned(s, o) {
      var i :| 0 <= i < |s| && Holds(s[i], o);
      assert i == k || Holds(rs[i], o);
    }
  }

  lemma LoanedClear(rs: seq<Record>, k: nat, o: nat)
    requires k < |rs| && rs[k].inUse
    requires forall i | 0 <= i < |rs| && i != k && rs[i].inUse :: rs[i].original != rs[k].original
    ensures Loaned(rs[k := CLEAR], o) <==> Loaned(rs, o) && o != rs[k].original
  {
    var s := rs[k := CLEAR];
    if Loaned(rs, o) && o != rs[k].original {
      var i :| 0 <= i < |rs| && Holds(rs[i], o);
      assert Holds(s[i], o);
    }
    if Loaned(s, o) {
      var i :| 0 <= i < |s| && Holds(s[i], o);
      assert Holds(rs[i], o);
    }
  }

  /** What a lend that gets as far as the mint does. */
  lemma LendSteps(b: Book, op: Op)
    requires Inv(b) && op.LendOp? && Lent(b, op).1 in {Ok, ErrMint}
    ensures var k, i := UnusedFrom(b.records, 0), FreeFrom(b.leases, 0);
            var id := IdOf(i, b.opens[i] + 1);
            var l := Lease(id, op.badge % 0x1_0000_0000, Pack(op.rights), Active);
            && k < |b.records| && i < |b.leases| && b.leases[i].state != Active && IdSlot(id) == i
            && FindFrom(b.records, op.original, 0) == |b.records|
            && Counted(b.leases[i := l], OpensAfter(b)) && Closed(b.leases[i := l], id).Some?
            && Closed(b.leases[i := l], id).value == b.leases[i := l.(state := Revoked)]
            && Lent(b, op).0 == if op.minted
                 then Book(b.leases[i := l], b.records[k := Record(true, op.original, op.root, op.depth, id)],
                           OpensAfter(b), b.lent + {op.original})
                 else b.(leases := b.leases[i := l.(state := Revoked)], opens := OpensAfter(b))
  {
    OpenCounted(b.leases, b.opens, op.badge % 0x1_0000_0000, Pack(op.rights));
    hide Counted, IdOf, NextId, IdSlot, Matched, Pack;
  }

  lemma LendKeeps(b: Book, op: Op)
    requires Inv(b) && op.LendOp?
    ensures Inv(Lent(b, op).0)
  {
    hide Lent, IdOf, IdSlot, Pack, Counted, Matched, Closed, Actives, InUse;
    var b' := Lent(b, op).0;
    if Lent(b, op).1 in {Ok, ErrMint} {
      LendSteps(b, op);
      CountedSizes(b.leases, b.opens);
      var k, i := UnusedFrom(b.records, 0), FreeFrom(b.leases, 0);
      var id := IdOf(i, b.opens[i] + 1);
      var l := Lease(id, op.badge % 0x1_0000_0000, Pack(op.rights), Active);
      if op.minted {
        LendMinted(b, op, k, i, id, l, b');
      } else {
        CloseCounted(b.leases[i := l], OpensAfter(b), id);
        MatchedIdle(b, i, l.(state := Revoked), b');
        ActivesUpdate(b.leases, i, l.(state := Revoked));
      }
    } else {
      LendRefused(b, op);
    }
  }

  lemma LendRefused(b: Book, op: Op)
    requires Inv(b) && op.LendOp? && Lent(b, op).1 !in {Ok, ErrMint}
    ensures Lent(b, op).0 == b
  {
    hide Inv;
  }

  lemma LendMinted(b: Book, op: Op, k: nat, i: nat, id: nat, l: Lease, b': Book)
    requires Inv(b) && op.LendOp? && k < |b.records| && !b.records[k].inUse && i < |b.leases|
             && b.leases[i].state != Active
    requires IdSlot(id) == i && l.state == Active && l.id == id && FindFrom(b.records, op.original, 0) == |b.records|
    requires b' == Book(b.leases[i := l], b.records[k := Record(true, op.original, op.root, op.depth, id)],
                        OpensAfter(b), b.lent + {op.original})
    requires Counted(b.leases[i := l], OpensAfter(b))
    ensures Inv(b')
  {
    var r := Record(true, op.original, op.root, op.depth, id);
    MatchedLend(b, k, i, id, l, r, b');
    ActivesUpdate(b.leases, i, l);
    InUseUpdate(b.records, k, r);
    forall o: nat
      ensures o in b'.lent <==> Loaned(b'.records, o)
    {
      LoanedPut(b.records, k, r, o);
    }
    assert forall m | 0 <= m < |b.records| :: !Holds(b.records[m], op.original);
    hide Counted, Matched, Loaned;
  }

  lemma WithdrawKeeps(b: Book, op: Op)
    requires Inv(b) && op.RevokeOp?
    ensures Inv(Withdrawn(b, op).0)
  {
    var k := FindFrom(b.records, op.loan, 0);
    if k < |b.records| && op.revoked {
      var id := b.records[k].leaseId;
      var j := IdSlot(id);
      CloseSucceeds(b, k);
      CloseCounted(b.leases, b.opens, id);
      assert Owns(b, k, j);
      var b' := Withdrawn(b, op).0;
      MatchedRevoke(b, k, j, b');
      ActivesUpdate(b.leases, j, b.leases[j].(state := Revoked));
      InUseUpdate(b.records, k, CLEAR);
      forall o: nat
        ensures o in b'.lent <==> Loaned(b'.records, o)
      {
        LoanedClear(b.records, k, o);
      }
      hide Counted, Matched, Loaned;
    }
  }

  /** Over every run records in use and active leases stay in bijection, and the kernel
      holds derivatives of exactly the recorded originals. */
  lemma {:induction false} RunKeeps(ops: seq<Op>)
    ensures Inv(Run(Start(), ops))
    decreases |ops|
  {
    if ops == [] {
      StartHolds();
    } else {
      RunKeeps(ops[..|ops| - 1]);
      hide Inv, Lent, Withdrawn;
      var b, op := Run(Start(), ops[..|ops| - 1]), ops[|ops| - 1];
      if op.LendOp? {
        LendKeeps(b, op);
      } else {
        WithdrawKeeps(b, op);
      }
    }
  }

  /** The close error cannot occur, and a lease error means exactly that the original
      is already on loan or every record is taken. */
  lemma ErrorsReachable(ops: seq<Op>, op: Op)
    ensures Next(Run(Start(), ops), op).1 != ErrLeaseClose
    ensures op.LendOp? && StrictSubset(op.rights) ==>
              var b := Run(Start(), ops);
              Next(b, op).1 == ErrLease <==> Loaned(b.records, op.original) || InUse(b.records) == MAX_ACTIVE
  {
    RunKeeps(ops);
    var b := Run(Start(), ops);
    hide Run, Matched, Counted;
    if op.RevokeOp? {
      var k := FindFrom(b.records, op.loan, 0);
      if k < |b.records| {
        CloseSucceeds(b, k);
      }
    } else if StrictSubset(op.rights) {
      LeaseErrorIff(b, op);
    }
  }

  lemma LeaseErrorIff(b: Book, op: Op)
    requires Inv(b) && op.LendOp? && StrictSubset(op.rights)
    ensures Lent(b, op).1 == ErrLease <==> Loaned(b.records, op.original) || InUse(b.records) == MAX_ACTIVE
  {
    var f, k := FindFrom(b.records, op.original, 0), UnusedFrom(b.records, 0);
    assert f < |b.records| <==> Loaned(b.records, op.original);
    if k == |b.records| {
      AllInUse(b.records);
    } else {
      SomeUnused(b.records, k);
      OpenSucceeds(b, op.badge % 0x1_0000_0000, Pack(op.rights));
    }
    hide Matched, Counted, Opened, Closed, Pack;
  }

  lemma {:induction false} AllInUse(rs: seq<Record>)
    requires forall j | 0 <= j < |rs| :: rs[j].inUse
    ensures InUse(rs) == |rs|
    decreases |rs|
  {
    if rs != [] {
      AllInUse(rs[..|rs| - 1]);
    }
  }

  // ---- the tables in place ---------------------------------------------------------------

  class Lender {
    var leases: Table
    var records: seq<Record>
    ghost var opens: seq<nat>
    ghost var lent: set<nat>

    ghost function View(): Book
      reads this
    {
      Book(leases, records, opens, lent)
    }

    constructor ()
      ensures View() == Start() && Inv(View())
    {
      leases, records := Init(), seq(MAX_ACTIVE, _ => CLEAR);
      opens, lent := seq(MAX_ACTIVE, _ => 0), {};
      new;
      StartHolds();
    }

    method Find(original: nat) returns (k: nat)
      ensures k == FindFrom(records, original, 0)
    {
      for i := 0 to |records|
        invariant FindFrom(records, original, i) == FindFrom(records, original, 0)
      {
        if records[i].inUse && records[i].original == original {
          return i;
        }
      }
      return |records|;
    }

    method FindFree() returns (k: nat)
      ensures k == UnusedFrom(records, 0)
    {
      for i := 0 to |records|
        invariant UnusedFrom(records, i) == UnusedFrom(records, 0)
      {
        if !records[i].inUse {
          return i;
        }
      }
      return |records|;
    }

    /** aos_cap_lend; `minted` is the kernel's answer to the mint. */
    method Lend(root: nat, original: nat, depth: nat, rights: Rights, badge: nat, minted: bool) returns (code: Code)
      modifies this
      ensures (View(), code) == Lent(old(View()), LendOp(root, original, depth, rights, badge, minted))
      ensures old(Inv(View())) ==> Inv(View())
    {
      ghost var op, before := LendOp(root, original, depth, rights, badge, minted), View();
      if old(Inv(View())) {
        LendKeeps(before, op);
      }
      hide Inv;
      if !StrictSubset(rights) {
        return ErrRights;
      }
      var held := Find(original);
      if held < |records| {
        return ErrLease;
      }
      var k := FindFree();
      if k == |records| {
        return ErrLease;
      }
      var grant := Open(leases, badge % 0x1_0000_0000, Pack(rights));
      if grant.None? {
        return ErrLease;
      }
      var id := grant.value.1;
      opens := OpensAfter(before);
      leases := grant.value.0;
      if !minted {
        var closed := Closed(leases, id);
        if closed.Some? {
          leases := closed.value;
        }
        return ErrMint;
      }
      records := records[k := Record(true, original, root, depth, id)];
      lent := lent + {original};
      return Ok;
    }

    /** aos_cap_lend_revoke; `revoked` is the kernel's answer to the revoke. */
    method Revoke(original: nat, revoked: bool) returns (code: Code)
      modifies this
      ensures (View(), code) == Withdrawn(old(View()), RevokeOp(original, revoked))
      ensures old(Inv(View())) ==> Inv(View()) && code != ErrLeaseClose
    {
      ghost var op, before := RevokeOp(original, revoked), View();
      if old(Inv(View())) {
        WithdrawKeeps(before, op);
        var f := FindFrom(records, original, 0);
        if f < |records| {
          CloseSucceeds(before, f);
        }
      }
      hide Inv;
      var k := Find(original);
      if k == |records| {
        return ErrNotFound;
      }
      if !revoked {
        return ErrRevoke;
      }
      lent := lent - {original};
      var closed := Closed(leases, records[k].leaseId);
      if closed.None? {
        return ErrLeaseClose;
      }
      leases, records := closed.value, records[k := CLEAR];
      return Ok;
    }
  }
}
