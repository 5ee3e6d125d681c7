/** The display driver: a one-slot queue in front of two scanout banks. */
module Display {
  import opened Machine
  import opened Modular
  import opened Memory

  const VERSION := 1
  const CHUNK := 65536
  const FRAME_BYTES := 1024 * 768 * 4
  const WORD := 0x1_0000_0000
  const LAST64 := 0xffff_ffff_ffff_ffff

  const BEGIN := 1
  const WRITE := 2
  const PRESENT := 3
  const ABORT := 4

  type Bytes = seq<uint8>

  datatype Status = Ok | Invalid | Busy | Stale | Incomplete | Failed

  datatype Request = Request(version: nat, operation: nat, id: nat, reserved: nat, cookie: nat,
                             width: nat, height: nat, offset: nat, length: nat)
  datatype Response = Response(version: nat, status: Status, id: nat, reserved: nat, cookie: nat, sequence: nat)

  /** The driver's state.  `pending` and `frame` are histories: the bytes accepted since
      the last BEGIN, and the frame last presented. */
  datatype Driver = Driver(
    banks: seq<Bytes>, front: nat, active: bool, failed: bool, cookie: nat, sequence: nat,
    width: nat, height: nat, written: nat, bytes: nat, pending: Bytes, frame: Bytes)

  /** Banks that hold what the histories say: the front one a whole frame, the other
      one the bytes written so far. */
  ghost predicate Kept(d: Driver) {
    && |d.banks| == 2 && d.front < 2 && |d.banks[0]| == |d.banks[1]| >= FRAME_BYTES
    && d.frame <= d.banks[d.front]
    && (d.active ==> && 16 <= d.width <= 1024 && 16 <= d.height <= 768 && d.bytes == d.width * d.height * 4
                     && |d.pending| == d.written <= d.bytes <= FRAME_BYTES
                     && d.pending <= d.banks[1 - d.front])
  }

  function Execute(d: Driver, q: Request, data: Bytes, presented: bool): (Driver, Status)
    requires |d.banks| == 2 && d.front < 2 && |d.banks[0]| == |d.banks[1]| >= FRAME_BYTES && |data| == CHUNK
    requires d.active ==> d.written <= d.bytes <= FRAME_BYTES
  {
    if d.failed then (d, Failed)
    else if q.version != VERSION || q.reserved != 0 then (d, Invalid)
    else if q.operation == BEGIN then
      if d.active then (d, Busy)
      else if q.cookie != 0 || q.offset != 0 || q.length != 0 || q.width < 16 || q.width > 1024
              || q.height < 16 || q.height > 768 || d.cookie == LAST64 || d.sequence == LAST64 then (d, Invalid)
      else
        (d.(cookie := d.cookie + 1, width := q.width, height := q.height, bytes := q.width * q.height * 4,
            written := 0, active := true, pending := []), Ok)
    else if !d.active || q.cookie != d.cookie then (d, Stale)
    else if q.width != 0 || q.height != 0 then (d, Invalid)
    else if q.operation == WRITE then
      if q.offset != d.written || q.length == 0 || q.length > CHUNK || q.length > d.bytes - d.written then (d, Invalid)
      else
        var back := 1 - d.front;
        (d.(banks := d.banks[back := Splice(d.banks[back], d.written, data[..q.length])],
            written := d.written + q.length, pending := d.pending + data[..q.length]), Ok)
    else if q.offset != 0 || q.length != 0 then (d, Invalid)
    else if q.operation == ABORT then (d.(active := false), Ok)
    else if q.operation != PRESENT then (d, Invalid)
    else if d.written != d.bytes then (d, Incomplete)
    else if !presented then (d.(failed := true), Failed)
    else (d.(front := 1 - d.front, sequence := d.sequence + 1, active := false, frame := d.pending), Ok)
  }

  lemma FrameBound(w: nat, h: nat)
    requires w <= 1024 && h <= 768
    ensures w * h * 4 <= FRAME_BYTES
  {
    MulLe(w, 1024, h, 768);
  }

  lemma SplicePrefix(bank: Bytes, p: Bytes, t: Bytes)
    requires p <= bank && |p| + |t| <= |bank|
    ensures p + t <= Splice(bank, |p|, t)
  {
    assert Splice(bank, |p|, t)[..|p| + |t|] == p + t;
  }

  /** No request writes the front bank; it changes only when a complete frame is
      presented, and then becomes exactly the bytes written since BEGIN. */
  lemma ExecuteKeeps(d: Driver, q: Request, data: Bytes, presented: bool)
    requires Kept(d) && |data| == CHUNK
    ensures var (d', status) := Execute(d, q, data, presented);
            && Kept(d') && d'.banks[d.front] == d.banks[d.front]
            && (d'.front == d.front ==> d'.frame == d.frame && d'.sequence == d.sequence)
            && (d'.front != d.front ==>
                  && status == Ok && d.active && |d.pending| == d.bytes == d.width * d.height * 4
                  && d'.frame == d.pending && d'.sequence == d.sequence + 1)
  {
    FrameBound(if q.width <= 1024 then q.width else 0, if q.height <= 768 then q.height else 0);
    if d.active && |d.pending| + q.length <= |d.banks[1 - d.front]| && q.length <= CHUNK {
      SplicePrefix(d.banks[1 - d.front], d.pending, data[..q.length]);
    }
    hide Splice;
  }

  // ---- the shared region ------------------------------------------------------------

  datatype Region = Region(reqHead: nat, reqTail: nat, respHead: nat, respTail: nat,
                           request: Request, response: Response, data: Bytes)

  /** Where the driver is between two of its shared-memory accesses. */
  datatype Serving =
    | Waiting
    | HeadRead(head: nat)                              // request head loaded
    | RequestSeen(head: nat)                           // request tail loaded: one request
    | TailMatched(head: nat)                           // response tail loaded, equal
    | Clear(head: nat)                                 // response head loaded, equal
    | Fetched(head: nat, q: Request)                   // request copied
    | Executed(head: nat, q: Request, status: Status)  // payload copied, request executed
    | Answered(head: nat)                              // response written
    | HeadPublished(head: nat)                         // request slot returned

  /** Where the producer is between two of its own. */
  datatype Sending =
    | Idle
    | TailRead(q: Request, tail: nat)                  // request tail loaded
    | HeadMatched(q: Request, tail: nat)               // request head loaded, equal
    | RespHeadMatched(q: Request, tail: nat)           // response head loaded, equal
    | Free(q: Request, tail: nat)                      // response tail loaded, equal
    | Written(tail: nat)                               // request written
    | RespHeadRead(head: nat)                          // response head loaded
    | ResponseSeen(head: nat)                          // response tail loaded: one response
    | Copied(head: nat)                                // response copied

  /** `sent` is a history: the payload when the outstanding request was published. */
  datatype System = System(region: Region, driver: Driver, serving: Serving, sending: Sending,
                           received: Response, sent: Bytes)

  /** One shared-memory access; a submit, receive or pump starts with its first load. */
  datatype Step =
    | Fill(at: nat, bytes: Bytes)   // producer: payload, only while it owns it
    | Submit(request: Request)
    | Receive
    | Produce                       // producer: its next access
    | Drive(presented: bool)        // driver: its next access

  function Inc(n: nat): nat { (n + 1) % WORD }

  function Next(s: System, step: Step): System
    requires Kept(s.driver) && |s.region.data| == CHUNK
  {
    var r := s.region;
    match step
    case Fill(at, bytes) =>
      if s.sending.Idle? && r.reqTail == r.respHead && at + |bytes| <= CHUNK
      then s.(region := r.(data := Splice(r.data, at, bytes))) else s
    case Submit(q) => if s.sending.Idle? then s.(sending := TailRead(q, r.reqTail)) else s
    case Receive => if s.sending.Idle? then s.(sending := RespHeadRead(r.respHead)) else s
    case Produce => Produced(s)
    case Drive(presented) => Driven(s, presented)
  }

  function Produced(s: System): System {
    var r := s.region;
    match s.sending
    case Idle => s
    case TailRead(q, t) => s.(sending := if r.reqHead == t then HeadMatched(q, t) else Idle)
    case HeadMatched(q, t) => s.(sending := if r.respHead == t then RespHeadMatched(q, t) else Idle)
    case RespHeadMatched(q, t) => s.(sending := if r.respTail == t then Free(q, t) else Idle)
    case Free(q, t) => s.(region := r.(request := q), sending := Written(t))
    case Written(t) => s.(region := r.(reqTail := Inc(t)), sending := Idle, sent := r.data)
    case RespHeadRead(h) => s.(sending := if r.respTail == Inc(h) then ResponseSeen(h) else Idle)
    case ResponseSeen(h) => s.(received := r.response, sending := Copied(h))
    case Copied(h) => s.(region := r.(respHead := Inc(h)), sending := Idle)
  }

  function Driven(s: System, presented: bool): System
    requires Kept(s.driver) && |s.region.data| == CHUNK
  {
    var r := s.region;
    match s.serving
    case Waiting => s.(serving := HeadRead(r.reqHead))
    case HeadRead(h) => s.(serving := if r.reqTail == Inc(h) then RequestSeen(h) else Waiting)
    case RequestSeen(h) => s.(serving := if r.respTail == h then TailMatched(h) else Waiting)
    case TailMatched(h) => s.(serving := if r.respHead == h then Clear(h) else Waiting)
    case Clear(h) => s.(serving := Fetched(h, r.request))
    case Fetched(h, q) =>
      var (d, status) := Execute(s.driver, q, r.data, presented);
      s.(driver := d, serving := Executed(h, q, status))
    case Executed(h, q, status) =>
      s.(region := r.(response := Response(VERSION, status, q.id, 0, s.driver.cookie, s.driver.sequence)),
         serving := Answered(h))
    case Answered(h) => s.(region := r.(reqHead := Inc(h)), serving := HeadPublished(h))
    case HeadPublished(h) => s.(region := r.(respTail := Inc(h)), serving := Waiting)
  }

  /** The phases of the one-slot queue; b is the number of completed exchanges. */
  ghost predicate Empty(r: Region, b: nat) { r.reqHead == r.reqTail == r.respHead == r.respTail == b }
  ghost predicate Requested(r: Region, b: nat) { r.reqHead == r.respHead == r.respTail == b && r.reqTail == Inc(b) }
  ghost predicate Returned(r: Region, b: nat) { r.respHead == r.respTail == b && r.reqHead == r.reqTail == Inc(b) }
  ghost predicate Responded(r: Region, b: nat) { r.respHead == b && r.reqHead == r.reqTail == r.respTail == Inc(b) }

  ghost predicate ServingOk(s: System) {
    var r, b := s.region, s.region.respHead;
    match s.serving
    case Waiting => Empty(r, b) || Requested(r, b) || Responded(r, b)
    case HeadRead(h) => h == r.reqHead && (Empty(r, b) || Requested(r, b) || Responded(r, b))
    case RequestSeen(h) => h == b && Requested(r, b)
    case TailMatched(h) => h == b && Requested(r, b)
    case Clear(h) => h == b && Requested(r, b)
    case Fetched(h, q) => h == b && Requested(r, b) && q == r.request
    case Executed(h, q, _) => h == b && Requested(r, b) && q == r.request
    case Answered(h) => h == b && Requested(r, b)
    case HeadPublished(h) => h == b && Returned(r, b)
  }

  ghost predicate SendingOk(s: System) {
    var r, b := s.region, s.region.respHead;
    match s.sending
    case Idle => true
    case TailRead(_, t) => t == r.reqTail
    case HeadMatched(_, t) => t == r.reqTail == r.reqHead
    case RespHeadMatched(_, t) => t == b && Empty(r, b)
    case Free(_, t) => t == b && Empty(r, b)
    case Written(t) => t == b && Empty(r, b)
    case RespHeadRead(h) => h == b
    case ResponseSeen(h) => h == b && Responded(r, b)
    case Copied(h) => h == b && Responded(r, b) && s.received == r.response
  }

  ghost predicate Inv(s: System) {
    var r, b := s.region, s.region.respHead;
    && Kept(s.driver) && |r.data| == CHUNK && b < WORD && ServingOk(s) && SendingOk(s)
    && (Requested(r, b) ==> r.data == s.sent)
    && (Responded(r, b) || s.serving.Answered? || s.serving.HeadPublished? ==>
          r.response.id == r.request.id && r.response.version == VERSION)
  }

  lemma NextKeeps(s: System, step: Step)
    requires Inv(s)
    ensures Inv(Next(s, step))
  {
    match step
    case Drive(presented) => DrivenKeeps(s, presented);
    case Produce => ProducedKeeps(s);
    case Fill(at, bytes) => hide Kept;
    case Submit(q) => hide Kept;
    case Receive => hide Kept;
  }

  lemma ProducedKeeps(s: System)
    requires Inv(s)
    ensures Inv(Produced(s))
  {
    hide Kept;
    assert Inc(s.region.respHead) != s.region.respHead;
  }

  lemma IncMoves(n: nat)
    requires n < WORD
    ensures Inc(n) != n && Inc(n) < WORD
  {
  }

  lemma InvParts(s: System)
    requires Inv(s)
    ensures Kept(s.driver) && |s.region.data| == CHUNK
  {
  }

  lemma DrivenKeeps(s: System, presented: bool)
    requires Inv(s)
    ensures Inv(Driven(s, presented))
  {
    hide Execute, Kept;
    if s.serving.Fetched? {
      InvParts(s);
      ExecuteKeeps(s.driver, s.serving.q, s.region.data, presented);
    }
    IncMoves(s.region.respHead);
    hide Inc;
  }

  /** Every interleaving of the accesses of the two sides keeps the queue and the banks in order. */
  function Run(s: System, steps: seq<Step>): (t: System)
    requires Inv(s)
    ensures Inv(t)
    decreases |steps|
  {
    if steps == [] then s
    else
      var t := Run(s, steps[..|steps| - 1]);
      NextKeeps(t, steps[|steps| - 1]);
      Next(t, steps[|steps| - 1])
  }

  /** In every reachable state at most one exchange is outstanding; while the driver holds a
      request, it is the published one and so is the payload, up to the answer; and the
      front bank holds one whole frame. */
  lemma RunSafe(s: System, steps: seq<Step>)
    requires Inv(s)
    ensures var t := Run(s, steps);
            && (t.region.reqTail == t.region.respHead || t.region.reqTail == Inc(t.region.respHead))
            && (t.serving.Fetched? || t.serving.Executed? ==>
                  t.region.data == t.sent && t.serving.q == t.region.request)
            && (t.sending.Copied? ==> t.received.id == t.region.request.id)
            && t.driver.frame <= t.driver.banks[t.driver.front]
  {
    hide Run;
  }

  /** No access of either side writes the front bank. */
  lemma FrontUntouched(s: System, step: Step)
    requires Inv(s)
    ensures var d, d' := s.driver, Next(s, step).driver;
            && |d'.banks| == 2 && d'.banks[d.front] == d.banks[d.front]
            && (d'.front != d.front ==> d.active && d'.frame == d.pending && |d'.frame| == d.width * d.height * 4)
  {
    if step.Drive? && s.serving.Fetched? {
      ExecuteKeeps(s.driver, s.serving.q, s.region.data, step.presented);
    }
    hide Execute, Splice;
  }

  // ---- one whole exchange -------------------------------------------------------------

  /** The producer is idle and nothing is outstanding; the driver may be polling. */
  ghost predicate Ready(s: System) {
    Inv(s) && s.sending.Idle? && Empty(s.region, s.region.respHead)
  }

  function Reply(d: Driver, status: Status, id: nat): Response {
    Response(VERSION, status, id, 0, d.cookie, d.sequence)
  }

  /** How far the exchange is that the producer began.  `moves` are the device's answers given
      with each access the driver has spent on it; the sixth executes the request. */
  datatype Stage = Opening | Open(moves: seq<bool>) | Closed(presented: bool)

  const SERVED := 9  // accesses from a first load to the published answer

  function StageNext(s: System, stage: Stage, step: Step): Stage {
    match stage
    case Opening =>
      if step.Produce? && s.sending.Written? then Open(if s.serving.HeadRead? then [false] else []) else Opening
    case Open(moves) =>
      if step.Drive? then Open(moves + [step.presented])
      else if step.Produce? && s.sending.Copied? then Closed(|moves| > 5 && moves[5])
      else stage
    case Closed(_) => stage
  }

  /** Accesses the driver has made since it last waited. */
  function Position(v: Serving): nat {
    match v
    case Waiting => 0
    case HeadRead(_) => 1
    case RequestSeen(_) => 2
    case TailMatched(_) => 3
    case Clear(_) => 4
    case Fetched(_, _) => 5
    case Executed(_, _, _) => 6
    case Answered(_) => 7
    case HeadPublished(_) => 8
  }

  ghost predicate Submitting(s: System, q: Request, b: nat) {
    match s.sending
    case TailRead(r, t) => r == q && t == b
    case HeadMatched(r, t) => r == q && t == b
    case RespHeadMatched(r, t) => r == q && t == b
    case Free(r, t) => r == q && t == b
    case Written(t) => s.region.request == q && t == b
    case _ => false
  }

  ghost predicate Looking(v: Sending) { v.Idle? || v.RespHeadRead? || v.ResponseSeen? || v.Copied? }

  /** The driver n accesses into the request: polling again once it has answered. */
  ghost predicate Placed(s: System, b: nat, n: nat) {
    && Position(s.serving) == (if n < SERVED then n else (n - SERVED) % 2)
    && (n < 8 ==> Requested(s.region, b)) && (n >= SERVED ==> Responded(s.region, b))
  }

  /** The queue is at `stage` of an exchange of q that found driver d and the payload `data`. */
  ghost predicate At(s: System, b: nat, d: Driver, q: Request, data: Bytes, stage: Stage) {
    && Inv(s) && Kept(d) && |data| == CHUNK && s.region.data == data && b < WORD
    && match stage
       case Opening => Empty(s.region, b) && s.driver == d && Submitting(s, q, b)
       case Open(moves) =>
         var n := |moves|;
         var (e, status) := Execute(d, q, data, n > 5 && moves[5]);
         && s.region.respHead == b && s.region.request == q && Looking(s.sending) && Placed(s, b, n)
         && s.driver == (if n > 5 then e else d)
         && (n == 6 ==> s.serving.status == status)
         && (n > 6 ==> s.region.response == Reply(e, status, q.id))
       case Closed(presented) =>
         var (e, status) := Execute(d, q, data, presented);
         && Empty(s.region, Inc(b)) && s.driver == e && s.received == Reply(e, status, q.id)
         && (s.sending.Idle? || s.sending.RespHeadRead?)
  }

  predicate Moves(step: Step) { step.Receive? || step.Produce? || step.Drive? }

  lemma OpeningStep(s: System, b: nat, d: Driver, q: Request, data: Bytes, step: Step)
    requires At(s, b, d, q, data, Opening) && Moves(step)
    ensures At(Next(s, step), b, d, q, data, StageNext(s, Opening, step))
  {
    hide Kept, Execute;
    NextKeeps(s, step);
    IncMoves(b);
  }

  lemma ProduceOpen(s: System, b: nat, d: Driver, q: Request, data: Bytes, moves: seq<bool>)
    requires At(s, b, d, q, data, Open(moves))
    ensures At(Produced(s), b, d, q, data, StageNext(s, Open(moves), Produce))
  {
    hide Kept, Execute;
    ProducedKeeps(s);
    IncMoves(b);
  }

  lemma DriveOpen(s: System, b: nat, d: Driver, q: Request, data: Bytes, moves: seq<bool>, presented: bool)
    requires At(s, b, d, q, data, Open(moves))
    ensures At(Driven(s, presented), b, d, q, data, Open(moves + [presented]))
  {
    var n := |moves|;
    if n < 5 {
      DriveFinds(s, b, d, q, data, moves, presented);
    } else if n == 5 {
      DriveExecutes(s, b, d, q, data, moves, presented);
    } else if n < SERVED {
      DriveAnswers(s, b, d, q, data, moves, presented);
    } else {
      DrivePolls(s, b, d, q, data, moves, presented);
    }
  }

  lemma DriveFinds(s: System, b: nat, d: Driver, q: Request, data: Bytes, moves: seq<bool>, presented: bool)
    requires At(s, b, d, q, data, Open(moves)) && |moves| < 5
    ensures At(Driven(s, presented), b, d, q, data, Open(moves + [presented]))
  {
    hide Kept, Execute;
    DrivenKeeps(s, presented);
    IncMoves(b);
  }

  lemma DriveExecutes(s: System, b: nat, d: Driver, q: Request, data: Bytes, moves: seq<bool>, presented: bool)
    requires At(s, b, d, q, data, Open(moves)) && |moves| == 5
    ensures At(Driven(s, presented), b, d, q, data, Open(moves + [presented]))
  {
    hide Kept, Execute;
    DrivenKeeps(s, presented);
    IncMoves(b);
  }

  lemma DriveAnswers(s: System, b: nat, d: Driver, q: Request, data: Bytes, moves: seq<bool>, presented: bool)
    requires At(s, b, d, q, data, Open(moves)) && 5 < |moves| < SERVED
    ensures At(Driven(s, presented), b, d, q, data, Open(moves + [presented]))
  {
    hide Kept, Execute;
    DrivenKeeps(s, presented);
    IncMoves(b);
  }

  lemma DrivePolls(s: System, b: nat, d: Driver, q: Request, data: Bytes, moves: seq<bool>, presented: bool)
    requires At(s, b, d, q, data, Open(moves)) && |moves| >= SERVED
    ensures At(Driven(s, presented), b, d, q, data, Open(moves + [presented]))
  {
    hide Kept, Execute;
    DrivenKeeps(s, presented);
    IncMoves(b);
  }

  lemma ClosedStep(s: System, b: nat, d: Driver, q: Request, data: Bytes, presented: bool, step: Step)
    requires At(s, b, d, q, data, Closed(presented)) && Moves(step)
    ensures At(Next(s, step), b, d, q, data, Closed(presented))
  {
    hide Kept, Execute;
    NextKeeps(s, step);
    IncMoves(b);
    IncMoves(Inc(b));
  }

  lemma StageStep(s: System, b: nat, d: Driver, q: Request, data: Bytes, stage: Stage, step: Step)
    requires At(s, b, d, q, data, stage) && Moves(step)
    ensures At(Next(s, step), b, d, q, data, StageNext(s, stage, step))
  {
    match stage
    case Opening => OpeningStep(s, b, d, q, data, step); hide At;
    case Closed(p) => ClosedStep(s, b, d, q, data, p, step); hide At;
    case Open(moves) =>
      if step.Produce? {
        ProduceOpen(s, b, d, q, data, moves);
      } else if step.Drive? {
        DriveOpen(s, b, d, q, data, moves, step.presented);
      } else {
        NextKeeps(s, step);
        hide Execute, Kept;
      }
  }

  ghost function StageOf(s: System, stage: Stage, steps: seq<Step>): Stage
    requires Inv(s)
    decreases |steps|
  {
    if steps == [] then stage
    else
      var n := |steps| - 1;
      StageNext(Run(s, steps[..n]), StageOf(s, stage, steps[..n]), steps[n])
  }

  lemma {:induction false} StageRun(s: System, b: nat, d: Driver, q: Request, data: Bytes,
                                    stage: Stage, steps: seq<Step>)
    requires At(s, b, d, q, data, stage) && forall i | 0 <= i < |steps| :: Moves(steps[i])
    ensures At(Run(s, steps), b, d, q, data, StageOf(s, stage, steps))
    decreases |steps|
  {
    hide At, Next, StageNext;
    AtInv(s, b, d, q, data, stage);
    if steps != [] {
      var n := |steps| - 1;
      StageRun(s, b, d, q, data, stage, steps[..n]);
      StageStep(Run(s, steps[..n]), b, d, q, data, StageOf(s, stage, steps[..n]), steps[n]);
    }
  }

  lemma AtInv(s: System, b: nat, d: Driver, q: Request, data: Bytes, stage: Stage)
    requires At(s, b, d, q, data, stage)
    ensures Inv(s) && Kept(s.driver) && |s.region.data| == CHUNK
  {
  }

  /** The request was executed once, on the payload it was submitted with, and answered. */
  ghost predicate Completed(s: System, q: Request, t: System, presented: bool)
    requires Kept(s.driver) && |s.region.data| == CHUNK
  {
    var (e, status) := Execute(s.driver, q, s.region.data, presented);
    t.driver == e && t.received == Reply(e, status, q.id) && Empty(t.region, Inc(s.region.respHead))
  }

  ghost predicate Performed(s: System, q: Request, t: System, presented: bool)
    requires Kept(s.driver) && |s.region.data| == CHUNK
  {
    t.driver == Execute(s.driver, q, s.region.data, presented).0
  }

  /** A request submitted to an empty queue, then any receives and any accesses of the two
      sides in any order: the payload stays, the request is executed at most once, and if
      the producer has taken an answer it is the answer to that one execution. */
  lemma Exchanged(s: System, q: Request, steps: seq<Step>)
    requires Ready(s) && forall i | 0 <= i < |steps| :: Moves(steps[i])
    ensures Kept(s.driver) && |s.region.data| == CHUNK
    ensures var t, b := Run(s, [Submit(q)] + steps), s.region.respHead;
            && t.region.data == s.region.data && t.region.respHead in {b, Inc(b)}
            && (t.region.respHead == Inc(b) ==> exists presented :: Completed(s, q, t, presented))
            && (t.driver == s.driver || exists presented :: Performed(s, q, t, presented))
  {
    hide Run, Kept, Execute;
    InvParts(s);
    var b, d, data := s.region.respHead, s.driver, s.region.data;
    RunFirst(s, Submit(q), steps);
    Begun(s, q);
    var s1 := Next(s, Submit(q));
    StageRun(s1, b, d, q, data, Opening, steps);
    var t, stage := Run(s1, steps), StageOf(s1, Opening, steps);
    IncMoves(b);
    match stage
    case Opening =>
    case Open(moves) => assert t.driver == s.driver || Performed(s, q, t, |moves| > 5 && moves[5]);
    case Closed(presented) => assert Completed(s, q, t, presented) && Performed(s, q, t, presented);
  }

  lemma Begun(s: System, q: Request)
    requires Ready(s)
    ensures Inv(Next(s, Submit(q)))
    ensures At(Next(s, Submit(q)), s.region.respHead, s.driver, q, s.region.data, Opening)
  {
    hide Kept, Execute;
    NextKeeps(s, Submit(q));
  }

  lemma {:induction false} RunAppend(s: System, a: seq<Step>, b: seq<Step>)
    requires Inv(s)
    ensures Run(s, a + b) == Run(Run(s, a), b)
    decreases |b|
  {
    hide Next, Inv;
    if b == [] {
      assert a + b == a;
    } else {
      var n := |b| - 1;
      assert (a + b)[..|a + b| - 1] == a + b[..n] && (a + b)[|a + b| - 1] == b[n];
      RunAppend(s, a, b[..n]);
    }
  }

  lemma RunFirst(s: System, step: Step, steps: seq<Step>)
    requires Inv(s)
    ensures Kept(s.driver) && |s.region.data| == CHUNK && Inv(Next(s, step))
    ensures Run(s, [step] + steps) == Run(Next(s, step), steps)
  {
    hide Next, Inv;
    InvParts(s);
    NextKeeps(s, step);
    RunAppend(s, [step], steps);
    assert [step][..0] == [] && Run(s, []) == s;
  }

  // ---- what the driver does between two accesses of the producer ---------------------------

  function Drives(moves: seq<bool>): seq<Step> { seq(|moves|, i requires 0 <= i < |moves| => Drive(moves[i])) }

  lemma DrivesMore(moves: seq<bool>)
    requires moves != []
    ensures var n := |moves| - 1;
            Drives(moves)[..n] == Drives(moves[..n]) && Drives(moves)[n] == Drive(moves[n])
            && |Drives(moves)| == |moves| && moves == moves[..n] + [moves[n]]
  {
  }

  /** The driver has loaded the request head and not yet the tail. */
  predicate Lead(s: System) { s.serving.HeadRead? }

  predicate Odd(n: nat) { n % 2 == 1 }

  /** On an empty queue the driver only polls. */
  lemma {:induction false} Polls(s: System, moves: seq<bool>)
    requires Inv(s) && Empty(s.region, s.region.respHead)
    ensures var t := Run(s, Drives(moves));
            t == s.(serving := t.serving) && Lead(t) == Odd(|moves| + if Lead(s) then 1 else 0)
    decreases |moves|
  {
    hide Next, Inv, Empty;
    if moves == [] {
      assert Drives(moves) == [];
    } else {
      var n := |moves| - 1;
      Polls(s, moves[..n]);
      DrivesMore(moves);
      Poll(Run(s, Drives(moves[..n])), moves[n]);
    }
  }

  lemma Poll(s: System, presented: bool)
    requires Inv(s) && Empty(s.region, s.region.respHead)
    ensures Kept(s.driver) && |s.region.data| == CHUNK
    ensures var t := Next(s, Drive(presented));
            t == s.(serving := if Lead(s) then Waiting else HeadRead(s.region.respHead))
  {
    hide Kept, Execute;
    IncMoves(s.region.respHead);
  }

  /** Steps of the producer's copy loop and of the driver meanwhile. */
  predicate Copying(step: Step) { step.Fill? || step.Drive? }

  function Fills(steps: seq<Step>): seq<Step> {
    if steps == [] then []
    else Fills(steps[..|steps| - 1]) + if steps[|steps| - 1].Fill? then [steps[|steps| - 1]] else []
  }

  function Others(steps: seq<Step>): seq<Step> {
    if steps == [] then []
    else Others(steps[..|steps| - 1]) + if steps[|steps| - 1].Fill? then [] else [steps[|steps| - 1]]
  }

  lemma FillKeeps(s: System, fill: Step)
    requires Ready(s) && fill.Fill?
    ensures Kept(s.driver) && |s.region.data| == CHUNK && Ready(Next(s, fill))
    ensures Next(s, fill) == s.(region := s.region.(data := Next(s, fill).region.data))
  {
    hide Execute, Kept;
    InvParts(s);
    NextKeeps(s, fill);
  }

  lemma PollKeeps(s: System, presented: bool)
    requires Ready(s)
    ensures Kept(s.driver) && |s.region.data| == CHUNK && Ready(Next(s, Drive(presented)))
  {
    hide Next, Inv;
    Poll(s, presented);
    NextKeeps(s, Drive(presented));
  }

  lemma FillPoll(s: System, fill: Step, presented: bool)
    requires Ready(s) && fill.Fill?
    ensures Kept(s.driver) && |s.region.data| == CHUNK
    ensures Ready(Next(s, fill)) && Ready(Next(s, Drive(presented)))
    ensures Kept(Next(s, fill).driver) && |Next(s, fill).region.data| == CHUNK
    ensures var t := Next(s, Drive(presented));
            Kept(t.driver) && |t.region.data| == CHUNK && Next(Next(s, fill), Drive(presented)) == Next(t, fill)
  {
    FillKeeps(s, fill);
    PollKeeps(s, presented);
    Poll(s, presented);
    Poll(Next(s, fill), presented);
    hide Execute, Kept, Inv, Splice, Driven;
  }

  lemma {:induction false} FillPast(s: System, polls: seq<Step>, fill: Step)
    requires Ready(s) && fill.Fill? && forall i | 0 <= i < |polls| :: polls[i].Drive?
    ensures Kept(s.driver) && |s.region.data| == CHUNK && Ready(Next(s, fill)) && Ready(Run(s, polls))
    ensures var t := Run(s, polls);
            Kept(t.driver) && |t.region.data| == CHUNK && Next(t, fill) == Run(Next(s, fill), polls)
    decreases |polls|
  {
    hide Next, Inv, Empty;
    FillKeeps(s, fill);
    if polls != [] {
      var n := |polls| - 1;
      FillPast(s, polls[..n], fill);
      FillPoll(Run(s, polls[..n]), fill, polls[n].presented);
      assert polls[n] == Drive(polls[n].presented);
    }
  }

  /** It does not matter when the driver polls while the producer fills the payload. */
  lemma {:induction false} FillsFirst(s: System, steps: seq<Step>)
    requires Ready(s) && forall i | 0 <= i < |steps| :: Copying(steps[i])
    ensures forall i | 0 <= i < |Fills(steps)| :: Fills(steps)[i].Fill?
    ensures forall i | 0 <= i < |Others(steps)| :: Others(steps)[i].Drive?
    ensures Ready(Run(s, Fills(steps))) && Run(s, steps) == Run(Run(s, Fills(steps)), Others(steps))
    decreases |steps|
  {
    hide Next, Inv, Empty;
    if steps != [] {
      var n := |steps| - 1;
      var last, fills, others := steps[n], Fills(steps[..n]), Others(steps[..n]);
      FillsFirst(s, steps[..n]);
      var f := Run(s, fills);
      if last.Fill? {
        FillPast(f, others, last);
        assert (fills + [last])[..|fills|] == fills;
        assert others + [] == others;
      } else {
        assert fills + [] == fills;
        assert (others + [last])[..|others|] == others;
      }
    }
  }

  /** On an open exchange every access of the driver counts. */
  lemma {:induction false} DrivesOpen(s: System, b: nat, d: Driver, q: Request, data: Bytes,
                                      before: seq<bool>, moves: seq<bool>)
    requires At(s, b, d, q, data, Open(before))
    ensures Inv(s)
    ensures var t := Run(s, Drives(moves));
            At(t, b, d, q, data, Open(before + moves)) && t.sending == s.sending
    decreases |moves|
  {
    hide At, Next;
    AtInv(s, b, d, q, data, Open(before));
    if moves == [] {
      assert Drives(moves) == [] && before + moves == before;
    } else {
      var n := |moves| - 1;
      DrivesOpen(s, b, d, q, data, before, moves[..n]);
      DrivesMore(moves);
      var t := Run(s, Drives(moves[..n]));
      StageStep(t, b, d, q, data, Open(before + moves[..n]), Drive(moves[n]));
      AtInv(t, b, d, q, data, Open(before + moves[..n]));
      DriveSends(t, moves[n]);
      assert before + moves[..n] + [moves[n]] == before + moves;
    }
  }

  lemma DriveSends(s: System, presented: bool)
    requires Kept(s.driver) && |s.region.data| == CHUNK
    ensures Next(s, Drive(presented)).sending == s.sending
  {
    hide Execute, Kept;
  }

  // ---- the accesses of a submit and of a receive ---------------------------------------------

  /** Accesses of a submit made so far. */
  function Submits(v: Sending): nat {
    match v
    case TailRead(_, _) => 1
    case HeadMatched(_, _) => 2
    case RespHeadMatched(_, _) => 3
    case Free(_, _) => 4
    case Written(_) => 5
    case _ => 0
  }

  lemma SubmitGoesOn(s: System, b: nat, d: Driver, q: Request, data: Bytes)
    requires At(s, b, d, q, data, Opening)
    ensures var t, n := Produced(s), Submits(s.sending);
            && 0 < n && t.serving == s.serving
            && (n < 5 ==> At(t, b, d, q, data, Opening) && Submits(t.sending) == n + 1)
            && (n == 5 ==> At(t, b, d, q, data, Open(if Lead(s) then [false] else [])) && t.sending.Idle?)
  {
    OpeningStep(s, b, d, q, data, Produce);
    hide Kept, Execute, Inc;
  }

  lemma LooksAtHead(s: System, b: nat, d: Driver, q: Request, data: Bytes, moves: seq<bool>)
    requires At(s, b, d, q, data, Open(moves)) && s.sending.Idle?
    ensures var t := Next(s, Receive); At(t, b, d, q, data, Open(moves)) && t.sending == RespHeadRead(b)
  {
    StageStep(s, b, d, q, data, Open(moves), Receive);
    hide Kept, Execute;
  }

  lemma LooksAtTail(s: System, b: nat, d: Driver, q: Request, data: Bytes, moves: seq<bool>)
    requires At(s, b, d, q, data, Open(moves)) && s.sending.RespHeadRead?
    ensures var t := Produced(s);
            && At(t, b, d, q, data, Open(moves))
            && t.sending == if |moves| >= SERVED then ResponseSeen(b) else Idle
  {
    ProduceOpen(s, b, d, q, data, moves);
    hide Kept, Execute;
    IncMoves(b);
  }

  lemma Copies(s: System, b: nat, d: Driver, q: Request, data: Bytes, moves: seq<bool>)
    requires At(s, b, d, q, data, Open(moves)) && s.sending.ResponseSeen?
    ensures var t := Produced(s); At(t, b, d, q, data, Open(moves)) && t.sending == Copied(b)
  {
    ProduceOpen(s, b, d, q, data, moves);
    hide Kept, Execute;
  }

  lemma Takes(s: System, b: nat, d: Driver, q: Request, data: Bytes, moves: seq<bool>)
    requires At(s, b, d, q, data, Open(moves)) && s.sending.Copied?
    ensures |moves| >= SERVED
    ensures var t := Produced(s);
            && At(t, b, d, q, data, Closed(moves[5])) && t.sending.Idle?
            && Lead(t) == Odd(|moves| - SERVED)
  {
    IncMoves(b);
    ProduceOpen(s, b, d, q, data, moves);
    hide Kept, Execute;
  }
}

/** Forwarding the selected rectangle of a guest's surface to the display. */
module DisplayProducer {
  import opened Memory
  import opened Surfaces
  import opened Display

  /** What the producer last forwarded, and its count of the driver's frames. */
  datatype Producer = Producer(last: Selection, sequence: nat, driverSequence: nat, id: nat, failed: bool)

  // ---- what accepted requests do ------------------------------------------------------

  lemma BeginOk(d: Driver, q: Request, data: Bytes, presented: bool)
    requires Kept(d) && |data| == CHUNK && q.operation == BEGIN && Execute(d, q, data, presented).1 == Ok
    ensures var d' := Execute(d, q, data, presented).0;
            && d'.active && !d'.failed && d'.written == 0 && d'.pending == [] && d'.sequence == d.sequence
            && d'.bytes == q.width * q.height * 4 && 16 <= q.width <= 1024 && 16 <= q.height <= 768
  {
    hide Splice;
  }

  lemma WriteOk(d: Driver, q: Request, data: Bytes, presented: bool)
    requires Kept(d) && |data| == CHUNK && q.operation == WRITE && Execute(d, q, data, presented).1 == Ok
    ensures var d' := Execute(d, q, data, presented).0;
            && d'.active && !d'.failed && d'.cookie == d.cookie && d'.sequence == d.sequence && d'.bytes == d.bytes
            && q.length <= CHUNK && d'.pending == d.pending + data[..q.length]
            && d'.written == d.written + q.length && q.offset == d.written
  {
    hide Splice;
  }

  lemma PresentOk(d: Driver, q: Request, data: Bytes, presented: bool)
    requires Kept(d) && |data| == CHUNK && q.operation == PRESENT && Execute(d, q, data, presented).1 == Ok
    ensures var d' := Execute(d, q, data, presented).0;
            && !d'.active && !d'.failed && d'.frame == d.pending && d'.sequence == d.sequence + 1
            && d'.front == 1 - d.front && d.written == d.bytes
  {
    hide Splice;
  }

  /** The producer's checks of the answer to request q. */
  predicate Checks(answer: (Driver, Status), q: Request, sequence: nat) {
    && answer.1 == Status.Ok && answer.0.cookie != 0 && (q.cookie == 0 || answer.0.cookie == q.cookie)
    && answer.0.sequence == sequence + if q.operation == PRESENT then 1 else 0
  }

  lemma BeginChecks(d: Driver, q: Request, data: Bytes, presented: bool)
    requires Kept(d) && |data| == CHUNK && !d.active && !d.failed && d.sequence != LAST64
    requires q == Request(VERSION, BEGIN, q.id, 0, 0, q.width, q.height, 0, 0)
    requires 16 <= q.width <= 1024 && 16 <= q.height <= 768
    ensures Checks(Execute(d, q, data, presented), q, d.sequence) <==> d.cookie != LAST64
  {
    hide Splice;
  }

  lemma WriteChecks(d: Driver, q: Request, data: Bytes, presented: bool)
    requires Kept(d) && |data| == CHUNK && d.active && !d.failed && d.cookie != 0
    requires q == Request(VERSION, WRITE, q.id, 0, d.cookie, 0, 0, d.written, q.length)
    requires 0 < q.length <= CHUNK && d.written + q.length <= d.bytes
    ensures Checks(Execute(d, q, data, presented), q, d.sequence)
  {
    hide Splice;
  }

  lemma PresentChecks(d: Driver, q: Request, data: Bytes, presented: bool)
    requires Kept(d) && |data| == CHUNK && d.active && !d.failed && d.cookie != 0 && d.written == d.bytes
    requires q == Request(VERSION, PRESENT, q.id, 0, d.cookie, 0, 0, 0, 0)
    ensures Checks(Execute(d, q, data, presented), q, d.sequence) <==> presented
  {
    hide Splice;
  }

  const LAST32 := 0xffff_ffff

  /** Exchanges for one picture: BEGIN, its chunks, PRESENT. */
  function Exchanges(bytes: nat): (n: nat)
    ensures n >= 2
  {
    2 + (bytes + (CHUNK - 1)) / CHUNK
  }

  // ---- when an exchange is answered in time -------------------------------------------

  /** What the driver does before each access of the producer in one exchange: that many
      accesses of its own, each with what the device would answer to a present. */
  type Schedule = nat -> seq<bool>

  const SUBMITS := 6     // accesses of a submit
  const ATTEMPTS := 100  // receives tried, of two accesses each until one finds the answer

  function Between(s: Schedule, from: nat, to: nat): seq<bool>
    decreases to
  {
    if to <= from then [] else Between(s, from, to - 1) + s(to - 1)
  }

  /** The access a polling driver has ready for the request when it is published. */
  function Opened(s: Schedule, lead: bool): seq<bool> {
    if Odd(|Between(s, 0, SUBMITS)| + if lead then 1 else 0) then [false] else []
  }

  /** The driver's accesses on the request before access number `to` of the producer is over. */
  function Spent(s: Schedule, lead: bool, to: nat): seq<bool> { Opened(s, lead) + Between(s, SUBMITS, to) }

  /** Attempt a finds the answer: the driver has published it before the tail is loaded. */
  predicate Found(s: Schedule, lead: bool, a: nat) { |Spent(s, lead, SUBMITS + 2 * a + 2)| >= SERVED }

  /** The first attempt from a on that finds the answer, or ATTEMPTS. */
  function Look(s: Schedule, lead: bool, a: nat): (k: nat)
    requires a <= ATTEMPTS
    ensures a <= k <= ATTEMPTS && (k < ATTEMPTS ==> Found(s, lead, k)) && forall j | a <= j < k :: !Found(s, lead, j)
    decreases ATTEMPTS - a
  {
    if a == ATTEMPTS || Found(s, lead, a) then a else Look(s, lead, a + 1)
  }

  predicate Arrives(s: Schedule, lead: bool) { Look(s, lead, 0) < ATTEMPTS }

  /** The device's answer to the one execution. */
  function Shows(s: Schedule, lead: bool): bool
    requires Arrives(s, lead)
  {
    Spent(s, lead, SUBMITS + 2 * Look(s, lead, 0) + 2)[5]
  }

  /** Whether the driver is between its two polling loads when the exchange is over. */
  function LeadAfter(s: Schedule, lead: bool): bool
    requires Arrives(s, lead)
  {
    var k := SUBMITS + 2 * Look(s, lead, 0) + 2;
    SpentGrows(s, lead, k, k + 2);
    Odd(|Spent(s, lead, k + 2)| - SERVED)
  }

  lemma {:induction false} SpentGrows(s: Schedule, lead: bool, k: nat, n: nat)
    requires k <= n
    ensures |Spent(s, lead, k)| <= |Spent(s, lead, n)|
    decreases n
  {
    if k != n {
      SpentGrows(s, lead, k, n - 1);
    }
  }

  /** An exchange is answered in time exactly when the driver has made nine accesses on it,
      the load it had ready included, before the last attempt loads the tail. */
  lemma ArrivesIff(s: Schedule, lead: bool)
    ensures Arrives(s, lead) <==> |Spent(s, lead, SUBMITS + 2 * ATTEMPTS)| >= SERVED
  {
    hide Spent;
    var k := Look(s, lead, 0);
    if k < ATTEMPTS {
      SpentGrows(s, lead, SUBMITS + 2 * k + 2, SUBMITS + 2 * ATTEMPTS);
    } else {
      assert !Found(s, lead, ATTEMPTS - 1);
    }
  }

  /** n exchanges in a row may be numbered and are answered in time, and the device shows
      the frame in the last. */
  predicate Delivered(plan: nat -> Schedule, lead: bool, id: nat, n: nat)
    requires n > 0
    decreases n
  {
    && id < LAST32 && Arrives(plan(id), lead)
    && if n == 1 then Shows(plan(id), lead) else Delivered(plan, LeadAfter(plan(id), lead), id + 1, n - 1)
  }

  /** The device shows whatever it is given. */
  ghost predicate Willing(s: Schedule) { forall k: nat, i: nat | i < |s(k)| :: s(k)[i] }

  lemma {:induction false} AllShown(s: Schedule, k: nat, n: nat)
    requires Willing(s)
    ensures forall i | 0 <= i < |Between(s, k, n)| :: Between(s, k, n)[i]
    decreases n
  {
    if k < n {
      AllShown(s, k, n - 1);
      var m := |Between(s, k, n - 1)|;
      forall i | 0 <= i < |Between(s, k, n)|
        ensures Between(s, k, n)[i]
      {
        assert i >= m ==> Between(s, k, n)[i] == s(n - 1)[i - m];
      }
    }
  }

  /** A driver that makes nine accesses while the producer looks for the answer, and a
      device that shows the frame, deliver every picture there are numbers for. */
  lemma {:induction false} PromptDelivers(plan: nat -> Schedule, lead: bool, id: nat, n: nat)
    requires n > 0 && id + n <= LAST32 && Willing(plan(id + n - 1))
    requires forall k | id <= k < id + n :: |Between(plan(k), SUBMITS, SUBMITS + 2 * ATTEMPTS)| >= SERVED
    ensures Delivered(plan, lead, id, n)
    decreases n
  {
    hide Between, Look, LeadAfter;
    ArrivesIff(plan(id), lead);
    if n == 1 {
      var k := SUBMITS + 2 * Look(plan(id), lead, 0) + 2;
      AllShown(plan(id), SUBMITS, k);
    } else {
      PromptDelivers(plan, LeadAfter(plan(id), lead), id + 1, n - 1);
    }
  }

  function SelectedFrom(surfaces: seq<Surface>, handle: nat, i: nat): (k: nat)
    requires i <= |surfaces|
    ensures i <= k <= |surfaces| && (k < |surfaces| ==> surfaces[k].handle == handle)
    ensures forall j | i <= j < k :: surfaces[j].handle != handle
    decreases |surfaces| - i
  {
    if i == |surfaces| || surfaces[i].handle == handle then i else SelectedFrom(surfaces, handle, i + 1)
  }

  function Choice(surfaces: seq<Surface>, handle: nat): (k: nat)
    ensures k <= |surfaces|
  {
    if handle == 0 then |surfaces| else SelectedFrom(surfaces, handle, 0)
  }

  /** Nothing selected, nothing flipped yet, or nothing new since the last frame. */
  predicate NothingNew(p: Producer, surfaces: seq<Surface>, sel: Selection) {
    var k := Choice(surfaces, sel.handle);
    k == |surfaces| || surfaces[k].sequence == 0 || (p.last == sel && p.sequence == surfaces[k].sequence)
  }

  /** A rectangle the display can take, within the surface. */
  predicate Showable(s: Surface, sel: Selection) {
    s.committed != [] && s.width <= MAX_WIDTH && s.height <= MAX_HEIGHT && 16 <= sel.width && 16 <= sel.height
    && sel.x + sel.width <= s.width && sel.y + sel.height <= s.height
  }

  /** There is a frame to send. */
  predicate Tries(p: Producer, surfaces: seq<Surface>, sel: Selection) {
    !p.failed && !NothingNew(p, surfaces, sel) && Showable(surfaces[Choice(surfaces, sel.handle)], sel)
    && p.driverSequence != LAST64
  }

  class Forwarder {
    var sys: System
    var p: Producer

    constructor (sys: System)
      requires Ready(sys) && !sys.driver.active && !sys.driver.failed && sys.driver.sequence == 0
      ensures this.sys == sys && Agree() && !p.failed
    {
      this.sys := sys;
      p := Producer(Selection(0, 0, 0, 0, 0), 0, 0, 0, false);
    }

    /** Until the producer has failed the queue is empty and both frame counts agree. */
    ghost predicate Agree()
      reads this
    {
      && Inv(sys) && p.id <= LAST32
      && (!p.failed ==>
            Ready(sys) && !sys.driver.active && !sys.driver.failed && sys.driver.sequence == p.driverSequence)
    }

    /** Access number k of the producer, after whatever the driver does before it. */
    method Turn(s: Schedule, k: nat, step: Step)
      requires Inv(sys)
      modifies this`sys
      ensures var mid := Run(old(sys), Drives(s(k)));
              Inv(mid) && Kept(mid.driver) && |mid.region.data| == CHUNK && sys == Next(mid, step)
    {
      hide Next, Inv;
      sys := Run(sys, Drives(s(k)));
      InvParts(sys);
      sys := Next(sys, step);
    }

    /** aos_display_submit on an empty queue. */
    method Submit(q: Request, s: Schedule)
      requires Ready(sys)
      modifies this`sys
      ensures At(sys, old(sys.region.respHead), old(sys.driver), q, old(sys.region.data),
                 Open(Opened(s, Lead(old(sys)))))
      ensures sys.sending.Idle?
    {
      hide At, Ready, Inv, Run, Next, Kept, Execute, Odd, Produced;
      ghost var b, d, data, lead := sys.region.respHead, sys.driver, sys.region.data, Lead(sys);
      PollsReady(sys, s(0));
      Begun(Run(sys, Drives(s(0))), q);
      BegunSends(Run(sys, Drives(s(0))), q);
      OddFirst(s, lead);
      Turn(s, 0, Step.Submit(q));
      for k := 1 to SUBMITS - 1
        invariant At(sys, b, d, q, data, Opening) && Submits(sys.sending) == k
        invariant Lead(sys) == Odd(|Between(s, 0, k)| + if lead then 1 else 0)
      {
        SubmitTurn(sys, b, d, q, data, s(k));
        OddMore(s, k, lead);
        Turn(s, k, Produce);
      }
      SubmitTurn(sys, b, d, q, data, s(5));
      OddMore(s, 5, lead);
      Turn(s, 5, Produce);
    }

    /** aos_display_receive, its first access being number k of the exchange. */
    method Receive(s: Schedule, k: nat, ghost b: nat, ghost d: Driver, ghost q: Request, ghost data: Bytes,
                   ghost before: seq<bool>)
      returns (found: bool)
      requires At(sys, b, d, q, data, Open(before)) && sys.sending.Idle?
      modifies this`sys
      ensures var moves := before + Between(s, k, k + 2);
              && (found <==> |moves| >= SERVED) && sys.sending.Idle?
              && (!found ==> At(sys, b, d, q, data, Open(moves)))
              && (found ==> At(sys, b, d, q, data, Closed(moves[5])))
      ensures var all := before + Between(s, k, k + 4);
              found ==> |all| >= SERVED && Lead(sys) == Odd(|all| - SERVED)
    {
      hide At, Inv, Run, Next, Kept, Execute, Odd, Produced;
      BetweenFour(s, k, before);
      var m1 := before + s(k);
      DrivesOpen(sys, b, d, q, data, before, s(k));
      LooksAtHead(Run(sys, Drives(s(k))), b, d, q, data, m1);
      Turn(s, k, Step.Receive);
      DrivesOpen(sys, b, d, q, data, m1, s(k + 1));
      LooksAtTail(Run(sys, Drives(s(k + 1))), b, d, q, data, m1 + s(k + 1));
      ProduceIs(Run(sys, Drives(s(k + 1))));
      Turn(s, k + 1, Produce);
      if !sys.sending.ResponseSeen? {
        return false;
      }
      ghost var m2 := m1 + s(k + 1);
      DrivesOpen(sys, b, d, q, data, m2, s(k + 2));
      Copies(Run(sys, Drives(s(k + 2))), b, d, q, data, m2 + s(k + 2));
      ProduceIs(Run(sys, Drives(s(k + 2))));
      Turn(s, k + 2, Produce);
      ghost var m3 := m2 + s(k + 2);
      DrivesOpen(sys, b, d, q, data, m3, s(k + 3));
      Takes(Run(sys, Drives(s(k + 3))), b, d, q, data, m3 + s(k + 3));
      ProduceIs(Run(sys, Drives(s(k + 3))));
      Turn(s, k + 3, Produce);
      return true;
    }

    /** The exchange callback: submit, then look for the answer a hundred times at most. */
    method Converse(q: Request, s: Schedule) returns (found: bool)
      requires Ready(sys)
      modifies this`sys
      ensures Inv(sys) && Kept(old(sys.driver)) && |old(sys.region.data)| == CHUNK
      ensures found <==> Arrives(s, Lead(old(sys)))
      ensures found ==> Ready(sys) && sys.region.data == old(sys.region.data)
      ensures found ==> Completed(old(sys), q, sys, Shows(s, Lead(old(sys))))
      ensures found ==> Lead(sys) == LeadAfter(s, Lead(old(sys)))
    {
      hide At, Ready, Inv, Run, Next, Kept, Execute, Odd, Spent, Completed, Look, Shows, LeadAfter, Between;
      ghost var b, d, data, lead := sys.region.respHead, sys.driver, sys.region.data, Lead(sys);
      ReadyInv(sys);
      Submit(q, s);
      SpentFirst(s, lead);
      found := false;
      for a := 0 to ATTEMPTS
        invariant At(sys, b, d, q, data, Open(Spent(s, lead, SUBMITS + 2 * a))) && sys.sending.Idle?
        invariant !found && Look(s, lead, 0) == Look(s, lead, a)
      {
        var k := SUBMITS + 2 * a;
        SpentMore(s, lead, k, k + 2);
        SpentMore(s, lead, k, k + 4);
        LookStep(s, lead, a);
        found := Receive(s, k, b, d, q, data, Spent(s, lead, k));
        if found {
          FoundAt(s, lead, a);
          Over(old(sys), sys, q, Shows(s, lead));
          AtInv(sys, b, d, q, data, Closed(Shows(s, lead)));
          return;
        }
      }
      LookStep(s, lead, 0);
      AtInv(sys, b, d, q, data, Open(Spent(s, lead, SUBMITS + 2 * ATTEMPTS)));
    }

    /** One exchange: it is answered in time and its answer checks, or it fails. */
    method Exchange(q: Request, s: Schedule) returns (ok: bool, cookie: nat)
      requires Ready(sys) && p.id <= LAST32
      modifies this
      ensures Inv(sys) && p == old(p).(id := if old(p.id) == LAST32 then LAST32 else old(p.id) + 1)
      ensures ok <==> var r, lead := q.(version := VERSION, id := p.id), Lead(old(sys));
                      && old(p.id) < LAST32 && Arrives(s, lead)
                      && Checks(Execute(old(sys.driver), r, old(sys.region.data), Shows(s, lead)), r, p.driverSequence)
      ensures ok ==> Ready(sys) && sys.region.data == old(sys.region.data) && cookie == sys.driver.cookie != 0
      ensures ok ==> (sys.driver, Ok) == Execute(old(sys.driver), q.(version := VERSION, id := p.id),
                                                 old(sys.region.data), Shows(s, Lead(old(sys))))
      ensures ok ==> sys.driver.sequence == p.driverSequence + if q.operation == PRESENT then 1 else 0
      ensures ok ==> Lead(sys) == LeadAfter(s, Lead(old(sys)))
    {
      ok, cookie := false, 0;
      hide Run, Kept, Inv, Ready, Execute, Arrives, Shows, LeadAfter, Empty;
      ReadyInv(sys);
      if p.id == LAST32 {
        return;
      }
      p := p.(id := p.id + 1);
      var request := q.(version := VERSION, id := p.id);
      var found := Converse(request, s);
      if !found {
        return;
      }
      var r := sys.received;
      if r.version != VERSION || r.id != request.id || r.reserved != 0 || r.status != Status.Ok || r.cookie == 0
         || (q.cookie != 0 && r.cookie != q.cookie) {
        return;
      }
      if r.sequence != p.driverSequence + (if q.operation == PRESENT then 1 else 0) {
        return;
      }
      return true, r.cookie;
    }

    /** aos_display_forward.  A result of 1 leaves the front bank equal to the selected
        rectangle row by row and both frame counts one higher; 0 changes nothing; -1 changes
        nothing or retires the producer for good. */
    method Forward(surfaces: seq<Surface>, sel: Selection, plan: nat -> Schedule) returns (result: int)
      requires Agree() && forall i | 0 <= i < |surfaces| :: Pixels(surfaces[i])
      modifies this
      ensures Agree()
      ensures result == 0 <==> !old(p.failed) && NothingNew(old(p), surfaces, sel)
      ensures result == 1 <==> Tries(old(p), surfaces, sel) && old(sys.driver.cookie) != LAST64
                               && Delivered(plan, Lead(old(sys)), old(p.id), Exchanges(sel.width * sel.height * 4))
      ensures result in {-1, 0, 1} && (p.failed <==> old(p.failed) || (Tries(old(p), surfaces, sel) && result != 1))
      ensures !Tries(old(p), surfaces, sel) ==> sys == old(sys) && p == old(p)
      ensures result == 1 ==>
                exists i | 0 <= i < |surfaces| ::
                  && surfaces[i].handle == sel.handle && Inside(surfaces[i], sel)
                  && Picture(surfaces[i], sel) <= sys.driver.banks[sys.driver.front]
                  && sys.driver.sequence == p.driverSequence == old(p.driverSequence) + 1
                  && !p.failed && p.last == sel && p.sequence == surfaces[i].sequence
    {
      if p.failed {
        return -1;
      }
      var i := Selected(surfaces, sel.handle);
      if i == |surfaces| || surfaces[i].sequence == 0 {
        return 0;
      }
      var s := surfaces[i];
      if p.last == sel && p.sequence == s.sequence {
        return 0;
      }
      if s.committed == [] || s.width > MAX_WIDTH || s.height > MAX_HEIGHT || sel.width < 16 || sel.height < 16
         || sel.x > s.width || sel.width > s.width - sel.x || sel.y > s.height || sel.height > s.height - sel.y
         || p.driverSequence == LAST64 {
        return -1;
      }
      var sent := Send(s, sel, plan);
      if !sent {
        p := p.(failed := true);
        return -1;
      }
      p := p.(driverSequence := p.driverSequence + 1, last := sel, sequence := s.sequence);
      return 1;
    }

    method Selected(surfaces: seq<Surface>, handle: nat) returns (i: nat)
      ensures i == Choice(surfaces, handle)
    {
      if handle == 0 {
        return |surfaces|;
      }
      i := 0;
      while i < |surfaces| && surfaces[i].handle != handle
        invariant i <= |surfaces| && SelectedFrom(surfaces, handle, 0) == SelectedFrom(surfaces, handle, i)
      {
        i := i + 1;
      }
    }

    /** BEGIN, the chunked WRITEs, and PRESENT. */
    method Send(s: Surface, sel: Selection, plan: nat -> Schedule) returns (ok: bool)
      requires Agree() && !p.failed && Inside(s, sel) && Showable(s, sel) && p.driverSequence != LAST64
      modifies this
      ensures Inv(sys) && p == old(p).(id := p.id) && p.id <= LAST32
      ensures ok <==> old(sys.driver.cookie) != LAST64
                      && Delivered(plan, Lead(old(sys)), old(p.id), Exchanges(sel.width * sel.height * 4))
      ensures ok ==> Ready(sys) && !sys.driver.active && !sys.driver.failed
                     && sys.driver.sequence == p.driverSequence + 1
                     && Picture(s, sel) <= sys.driver.banks[sys.driver.front]
    {
      hide Execute, Picture, Inv, Kept, Inside, Left, Arrives, Shows, LeadAfter, Delivered, Ready, Exchanges;
      var bytes, offset := sel.width * sel.height * 4, 0;
      PictureSize(s, sel);
      LeftAt(bytes);
      var cookie;
      ghost var lead, id := Lead(sys), p.id;
      DeliveredStep(plan, lead, id, Exchanges(bytes));
      ok, cookie := Begin(s, sel, plan(p.id));
      if !ok {
        return;
      }
      while offset < bytes
        invariant ok && Taken(sys, p, cookie, Picture(s, sel), offset) && p == old(p).(id := p.id) && p.id <= LAST32
        invariant bytes == |Picture(s, sel)| && old(sys.driver.cookie) != LAST64
        invariant Delivered(plan, lead, id, Exchanges(bytes))
             <==> Delivered(plan, Lead(sys), p.id, Left(bytes - offset))
        decreases bytes - offset
      {
        var count := if bytes - offset > CHUNK then CHUNK else bytes - offset;
        LeftAt(bytes - offset);
        DeliveredStep(plan, Lead(sys), p.id, Left(bytes - offset));
        ok, cookie := SendChunk(s, sel, cookie, offset, count, plan(p.id));
        if !ok {
          return;
        }
        offset := offset + count;
      }
      LeftAt(0);
      DeliveredStep(plan, Lead(sys), p.id, 1);
      ok := Finish(cookie, Picture(s, sel), plan(p.id));
    }

    method Begin(s: Surface, sel: Selection, sched: Schedule) returns (ok: bool, cookie: nat)
      requires Agree() && !p.failed && Inside(s, sel) && Showable(s, sel) && p.driverSequence != LAST64
      modifies this
      ensures Inv(sys) && p == old(p).(id := if old(p.id) == LAST32 then LAST32 else old(p.id) + 1)
      ensures ok <==> old(p.id) < LAST32 && Arrives(sched, Lead(old(sys))) && old(sys.driver.cookie) != LAST64
      ensures ok ==> Taken(sys, p, cookie, Picture(s, sel), 0) && Lead(sys) == LeadAfter(sched, Lead(old(sys)))
    {
      var q := Request(0, BEGIN, 0, 0, 0, sel.width, sel.height, 0, 0);
      ghost var d, data, lead := sys.driver, sys.region.data, Lead(sys);
      ghost var shown := Arrives(sched, lead) && Shows(sched, lead);
      PictureSize(s, sel);
      hide Execute, Picture, Inv, Kept, Arrives, Shows, LeadAfter;
      ReadyInv(sys);
      ok, cookie := Exchange(q, sched);
      BeginChecks(d, q.(version := VERSION, id := p.id), data, shown);
      if ok {
        BeginOk(d, q.(version := VERSION, id := p.id), data, shown);
      }
    }

    method SendChunk(s: Surface, sel: Selection, cookie: nat, offset: nat, count: nat, sched: Schedule)
      returns (ok: bool, cookie': nat)
      requires Inside(s, sel) && Taken(sys, p, cookie, Picture(s, sel), offset)
      requires 0 < count <= CHUNK && offset + count <= |Picture(s, sel)| && p.id <= LAST32
      modifies this
      ensures Inv(sys) && p == old(p).(id := if old(p.id) == LAST32 then LAST32 else old(p.id) + 1)
      ensures ok <==> old(p.id) < LAST32 && Arrives(sched, Lead(old(sys)))
      ensures ok ==> cookie' == cookie && Taken(sys, p, cookie, Picture(s, sel), offset + count)
      ensures ok ==> Lead(sys) == LeadAfter(sched, Lead(old(sys)))
    {
      hide Execute, Picture, Inv, Kept, Arrives, Shows, LeadAfter;
      FillChunk(s, sel, offset, count);
      var q := Request(0, WRITE, 0, 0, cookie, 0, 0, offset, count);
      ghost var d, data, lead := sys.driver, sys.region.data, Lead(sys);
      ghost var shown := Arrives(sched, lead) && Shows(sched, lead);
      ReadyInv(sys);
      ok, cookie' := Exchange(q, sched);
      WriteChecks(d, q.(version := VERSION, id := p.id), data, shown);
      if ok {
        WriteOk(d, q.(version := VERSION, id := p.id), data, shown);
        var picture := Picture(s, sel);
        assert picture[..offset] + picture[offset..offset + count] == picture[..offset + count];
      }
    }

    method Finish(cookie: nat, ghost picture: Bytes, sched: Schedule) returns (ok: bool)
      requires Taken(sys, p, cookie, picture, |picture|) && p.id <= LAST32
      modifies this
      ensures Inv(sys) && p == old(p).(id := if old(p.id) == LAST32 then LAST32 else old(p.id) + 1)
      ensures ok <==> old(p.id) < LAST32 && Arrives(sched, Lead(old(sys))) && Shows(sched, Lead(old(sys)))
      ensures ok ==> Ready(sys) && !sys.driver.active && !sys.driver.failed
                     && sys.driver.sequence == p.driverSequence + 1
                     && picture <= sys.driver.banks[sys.driver.front]
    {
      hide Execute, Inv, Kept, Arrives, Shows, LeadAfter;
      var q := Request(0, PRESENT, 0, 0, cookie, 0, 0, 0, 0);
      ghost var d, data, lead := sys.driver, sys.region.data, Lead(sys);
      ghost var shown := Arrives(sched, lead) && Shows(sched, lead);
      ReadyInv(sys);
      var answer;
      ok, answer := Exchange(q, sched);
      PresentChecks(d, q.(version := VERSION, id := p.id), data, shown);
      if ok {
        PresentOk(d, q.(version := VERSION, id := p.id), data, shown);
        assert picture[..|picture|] == picture;
        ReadyInv(sys);
        FrameShown(sys.driver);
      }
    }

    /** The inner copy loop: pieces of rows, up to one chunk of the rectangle. */
    method FillChunk(s: Surface, sel: Selection, offset: nat, count: nat)
      requires Ready(sys) && Inside(s, sel) && count <= CHUNK && offset + count <= |Picture(s, sel)|
      modifies this`sys
      ensures Ready(sys) && sys.driver == old(sys.driver) && sys.serving == old(sys.serving)
      ensures sys.region.data[..count] == Picture(s, sel)[offset..offset + count]
    {
      assert sel.width > 0;
      hide Ready, Inv, Picture, Offset, Piece, Kept, Inside;
      ReadyInv(sys);
      PictureSize(s, sel);
      ghost var picture := Picture(s, sel);
      var rb := sel.width * 4;
      var copied := 0;
      while copied < count
        invariant copied <= count && Ready(sys) && sys.driver == old(sys.driver) && |sys.region.data| == CHUNK
        invariant sys.serving == old(sys.serving)
        invariant sys.region.data[..copied] == picture[offset..offset + copied]
      {
        var at := offset + copied;
        var row, column := Place(at, rb, sel.height);
        var part := if rb - column > count - copied then count - copied else rb - column;
        FillPiece(s, sel, row, column, part, copied, offset);
        copied := copied + part;
      }
    }

    /** One memcpy of part of a row. */
    method FillPiece(s: Surface, sel: Selection, row: nat, column: nat, part: nat, copied: nat, offset: nat)
      requires Ready(sys) && |sys.region.data| == CHUNK && copied + part <= CHUNK
      requires Inside(s, sel) && row < sel.height && column + part <= sel.width * 4
      requires offset + copied == Offset(row, sel.width * 4) + column && offset + copied <= |Picture(s, sel)|
      requires sys.region.data[..copied] == Picture(s, sel)[offset..offset + copied]
      modifies this`sys
      ensures Ready(sys) && sys.driver == old(sys.driver) && |sys.region.data| == CHUNK
      ensures sys.serving == old(sys.serving)
      ensures offset + copied + part <= |Picture(s, sel)|
      ensures sys.region.data[..copied + part] == Picture(s, sel)[offset..offset + copied + part]
    {
      hide Ready, Inv, Picture, Offset, Piece, Kept, Inside;
      PieceOf(s, sel, row, column, part);
      var piece := Piece(s, sel, row, column, part);
      Filled(sys, copied, piece);
      Grown(sys.region.data, copied, piece, Picture(s, sel), offset);
      sys := Next(sys, Fill(copied, piece));
    }
  }

  /** Exchanges left with n bytes of the picture to send: its chunks and PRESENT. */
  function Left(n: nat): (k: nat)
    ensures k > 0
  {
    1 + (n + (CHUNK - 1)) / CHUNK
  }

  lemma LeftAt(n: nat)
    ensures Exchanges(n) == 1 + Left(n) && Left(0) == 1
    ensures n > 0 ==> Left(n) == 1 + Left(n - if n > CHUNK then CHUNK else n) && Left(n) > 1
  {
  }

  lemma PollsReady(s: System, moves: seq<bool>)
    requires Ready(s)
    ensures Inv(s)
    ensures var t := Run(s, Drives(moves));
            && Ready(t) && t.region == s.region && t.driver == s.driver
            && Lead(t) == Odd(|moves| + if Lead(s) then 1 else 0)
  {
    hide Inv, Odd;
    Polls(s, moves);
  }

  lemma BegunSends(s: System, q: Request)
    requires Ready(s)
    ensures Kept(s.driver) && |s.region.data| == CHUNK
    ensures Submits(Next(s, Step.Submit(q)).sending) == 1 && Lead(Next(s, Step.Submit(q))) == Lead(s)
  {
    hide Kept;
  }

  lemma ProduceIs(s: System)
    requires Inv(s)
    ensures Kept(s.driver) && |s.region.data| == CHUNK && Next(s, Produce) == Produced(s)
  {
    hide Produced, Kept;
  }

  /** One more access of a submit, after the driver's polls. */
  lemma SubmitTurn(s: System, b: nat, d: Driver, q: Request, data: Bytes, moves: seq<bool>)
    requires At(s, b, d, q, data, Opening)
    ensures Inv(s)
    ensures var mid := Run(s, Drives(moves));
            var lead, n := Odd(|moves| + if Lead(s) then 1 else 0), Submits(s.sending);
            && Kept(mid.driver) && |mid.region.data| == CHUNK
            && var t := Next(mid, Produce);
               && Lead(mid) == lead && 0 < n
               && (n < 5 ==> At(t, b, d, q, data, Opening) && Submits(t.sending) == n + 1 && Lead(t) == lead)
               && (n == 5 ==> At(t, b, d, q, data, Open(if lead then [false] else [])) && t.sending.Idle?)
  {
    hide Kept, Execute, Odd, Run, Produced;
    Polls(s, moves);
    var mid := Run(s, Drives(moves));
    InvParts(mid);
    SubmitGoesOn(mid, b, d, q, data);
    ProduceIs(mid);
  }

  lemma OddFirst(s: Schedule, lead: bool)
    ensures Odd(|Between(s, 0, 1)| + if lead then 1 else 0) == Odd(|s(0)| + if lead then 1 else 0)
  {
    assert Between(s, 0, 0) == [];
  }

  lemma OddMore(s: Schedule, k: nat, lead: bool)
    ensures var n, m := if lead then 1 else 0, |Between(s, 0, k)|;
            Odd(|Between(s, 0, k + 1)| + n) == Odd(|s(k)| + if Odd(m + n) then 1 else 0)
  {
  }

  lemma BetweenFour(s: Schedule, k: nat, before: seq<bool>)
    ensures before + Between(s, k, k + 2) == before + s(k) + s(k + 1)
    ensures before + Between(s, k, k + 4) == before + s(k) + s(k + 1) + s(k + 2) + s(k + 3)
  {
    assert Between(s, k, k) == [];
    assert Between(s, k, k + 1) == s(k);
    assert Between(s, k, k + 2) == s(k) + s(k + 1);
    assert Between(s, k, k + 3) == s(k) + s(k + 1) + s(k + 2);
  }

  lemma SpentFirst(s: Schedule, lead: bool)
    ensures Spent(s, lead, SUBMITS) == Opened(s, lead)
  {
  }

  lemma {:induction false} BetweenJoin(s: Schedule, i: nat, j: nat, k: nat)
    requires i <= j <= k
    ensures Between(s, i, k) == Between(s, i, j) + Between(s, j, k)
    decreases k
  {
    if j == k {
      assert Between(s, j, k) == [];
    } else {
      BetweenJoin(s, i, j, k - 1);
      assert Between(s, i, j) + (Between(s, j, k - 1) + s(k - 1)) == Between(s, i, j) + Between(s, j, k - 1) + s(k - 1);
    }
  }

  lemma SpentMore(s: Schedule, lead: bool, k: nat, n: nat)
    requires SUBMITS <= k <= n
    ensures Spent(s, lead, n) == Spent(s, lead, k) + Between(s, k, n)
  {
    hide Between, Opened;
    BetweenJoin(s, SUBMITS, k, n);
    var o, m := Opened(s, lead), Between(s, SUBMITS, k);
    assert o + (m + Between(s, k, n)) == o + m + Between(s, k, n);
  }

  lemma LookStep(s: Schedule, lead: bool, a: nat)
    requires a < ATTEMPTS
    ensures Look(s, lead, a) == if |Spent(s, lead, SUBMITS + 2 * a + 2)| >= SERVED then a else Look(s, lead, a + 1)
    ensures Look(s, lead, ATTEMPTS) == ATTEMPTS
  {
    hide Spent;
  }

  /** What attempt a = Look(s, lead, 0) leaves, in the words of the schedule. */
  lemma FoundAt(s: Schedule, lead: bool, a: nat)
    requires a < ATTEMPTS && Look(s, lead, 0) == Look(s, lead, a)
    requires |Spent(s, lead, SUBMITS + 2 * a + 2)| >= SERVED
    ensures Arrives(s, lead) && Shows(s, lead) == Spent(s, lead, SUBMITS + 2 * a + 2)[5]
    ensures |Spent(s, lead, SUBMITS + 2 * a + 4)| >= SERVED
    ensures LeadAfter(s, lead) == Odd(|Spent(s, lead, SUBMITS + 2 * a + 4)| - SERVED)
  {
    hide Spent, Look, Odd;
    LookStep(s, lead, a);
    SpentGrows(s, lead, SUBMITS + 2 * a + 2, SUBMITS + 2 * a + 4);
  }

  lemma DeliveredStep(plan: nat -> Schedule, lead: bool, id: nat, n: nat)
    requires n > 0
    ensures Delivered(plan, lead, id, n) ==> id < LAST32 && Arrives(plan(id), lead)
    ensures id < LAST32 && Arrives(plan(id), lead) ==>
              Delivered(plan, lead, id, n) ==
              if n == 1 then Shows(plan(id), lead) else Delivered(plan, LeadAfter(plan(id), lead), id + 1, n - 1)
  {
    hide Arrives, Shows, LeadAfter;
  }

  lemma Over(s: System, t: System, q: Request, presented: bool)
    requires Kept(s.driver) && |s.region.data| == CHUNK && t.sending.Idle?
    requires At(t, s.region.respHead, s.driver, q, s.region.data, Closed(presented))
    ensures Ready(t) && t.region.data == s.region.data && Completed(s, q, t, presented)
  {
    hide Kept, Execute, Inv;
  }

  method Place(at: nat, rb: nat, h: nat) returns (row: nat, column: nat)
    requires rb > 0 && at < Offset(h, rb)
    ensures row < h && column < rb && at == Offset(row, rb) + column
  {
    row, column := at / rb, at % rb;
    RowSplit(at, rb, h);
  }

  /** The driver has taken the first `offset` bytes of the picture. */
  ghost predicate Taken(sys: System, p: Producer, cookie: nat, picture: Bytes, offset: nat) {
    var d := sys.driver;
    && Ready(sys) && !p.failed && d.active && !d.failed && d.cookie == cookie != 0 && d.sequence == p.driverSequence
    && offset <= |picture| == d.bytes && d.written == offset && d.pending == picture[..offset]
  }

  lemma Filled(s: System, at: nat, bytes: Bytes)
    requires Ready(s) && at + |bytes| <= CHUNK
    ensures Kept(s.driver) && |s.region.data| == CHUNK
    ensures var t := Next(s, Fill(at, bytes));
            && Ready(t) && t.driver == s.driver && t.serving == s.serving
            && t.region.data == Splice(s.region.data, at, bytes)
  {
    NextKeeps(s, Fill(at, bytes));
    hide Kept, Execute, Splice;
  }

  lemma Grown(data: Bytes, n: nat, piece: Bytes, picture: Bytes, offset: nat)
    requires n + |piece| <= |data| && offset + n + |piece| <= |picture|
    requires data[..n] == picture[offset..offset + n] && picture[offset + n..offset + n + |piece|] == piece
    ensures Splice(data, n, piece)[..n + |piece|] == picture[offset..offset + n + |piece|]
  {
    assert Splice(data, n, piece)[..n + |piece|] == data[..n] + piece;
    assert picture[offset..offset + n + |piece|] == picture[offset..offset + n] + piece;
  }

  /** A surface has room for its pixels, or no storage at all. */
  predicate Pixels(s: Surface) { s.committed == [] || Holds(s.committed, s.width, s.height) }

  lemma FrameShown(d: Driver)
    requires Kept(d)
    ensures |d.banks| == 2 && d.front < 2 && d.frame <= d.banks[d.front]
  {
  }

  lemma ReadyInv(s: System)
    requires Ready(s)
    ensures Inv(s) && Kept(s.driver) && |s.region.data| == CHUNK
  {
  }
}
