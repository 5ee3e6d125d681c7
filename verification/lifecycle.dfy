/** The guest lifecycle protocol and its callbacks. */
module Lifecycle {
  datatype State = Creating | Binding | Ready | Booting | Running | Suspended | Dead | Destroying
  datatype Reply = Ok | BadOsType | BadState | BadGuestId | DeadGuest | NotReady

  datatype Opcode =
    | Create(osMatches: bool)
    | Boot(valid: bool)
    | Suspend(valid: bool)
    | Resume(valid: bool)
    | Destroy(valid: bool)

  /** A callback the runtime made, and its answer. */
  datatype Event =
    | Started(ok: bool)
    | Stopped(ok: bool)
    | Resumed(ok: bool)
    | Quiesced
    | TornDown(ok: bool)
    | Reset(ok: bool)

  /** Which callbacks a VMM supplies. */
  datatype Ops = Ops(start: bool, suspend: bool, resume: bool, quiesce: bool, teardown: bool, reset: bool)

  /** What the callbacks will answer; a successful start leaves the started flag as `running`. */
  datatype Answers = Answers(start: bool, running: bool, suspend: bool, resume: bool, teardown: bool, reset: bool)

  datatype Runtime = Runtime(state: State, started: bool, log: seq<Event>)

  function Log(r: Runtime, e: Event): Runtime { r.(log := r.log + [e]) }

  /** CREATE: only a reset brings a dead slot back. */
  function OnCreate(r: Runtime, ops: Ops, osMatches: bool, a: Answers): (Runtime, Reply) {
    if !osMatches then (r, BadOsType)
    else if r.state == Destroying then (r, BadState)
    else if r.state == Dead && !ops.reset then (r, DeadGuest)
    else if r.state == Dead && !a.reset then (Log(r, Reset(false)), NotReady)
    else
      var n := if r.state == Dead then Log(r, Reset(true)).(started := false, state := Ready) else r;
      if n.state != Ready || n.started then (n, BadState) else (n, Ok)
  }

  function OnBoot(r: Runtime, ops: Ops, valid: bool, a: Answers): (Runtime, Reply) {
    if !valid then (r, BadGuestId)
    else if r.state == Dead then (r, DeadGuest)
    else if r.state != Ready && r.state != Running then (r, BadState)
    else if r.started then (r.(state := Running), Ok)
    else if !ops.start then (r, NotReady)
    else if !a.start then (Log(r, Started(false)), NotReady)
    else (Log(r, Started(true)).(state := Running, started := a.running), Ok)
  }

  function OnSuspend(r: Runtime, ops: Ops, valid: bool, a: Answers): (Runtime, Reply) {
    if !valid then (r, BadGuestId)
    else if r.state == Dead then (r, DeadGuest)
    else if !r.started || (r.state != Running && r.state != Suspended) then (r, BadState)
    else if r.state == Suspended then (r, Ok)
    else if !ops.suspend then (r, NotReady)
    else if !a.suspend then (Log(r, Stopped(false)), NotReady)
    else
      var n := Log(r, Stopped(true));
      ((if ops.quiesce then Log(n, Quiesced) else n).(state := Suspended), Ok)
  }

  function OnResume(r: Runtime, ops: Ops, valid: bool, a: Answers): (Runtime, Reply) {
    if !valid then (r, BadGuestId)
    else if r.state == Dead then (r, DeadGuest)
    else if !r.started || (r.state != Running && r.state != Suspended) then (r, BadState)
    else if r.state == Running then (r, Ok)
    else if !ops.resume then (r, NotReady)
    else if !a.resume then (Log(r, Resumed(false)), NotReady)
    else (Log(r, Resumed(true)).(state := Running), Ok)
  }

  /** DESTROY: stop, enter Destroying, and only then tear down. */
  function OnDestroy(r: Runtime, ops: Ops, valid: bool, a: Answers): (Runtime, Reply) {
    if !valid then (r, BadGuestId)
    else if r.state == Dead then (r, Ok)
    else
      var live := r.state != Suspended && r.state != Destroying;
      if live && !ops.suspend then (r, NotReady)
      else if live && !a.suspend then (Log(r, Stopped(false)), NotReady)
      else
        var n := if !live then r
                 else if ops.quiesce then Log(Log(r, Stopped(true)), Quiesced)
                 else Log(r, Stopped(true));
        var d := n.(state := Destroying);
        if ops.teardown && !a.teardown then (Log(d, TornDown(false)), NotReady)
        else ((if ops.teardown then Log(d, TornDown(true)) else d).(started := false, state := Dead), Ok)
  }

  function Rpc(r: Runtime, ops: Ops, op: Opcode, a: Answers): (Runtime, Reply) {
    match op
    case Create(m) => OnCreate(r, ops, m, a)
    case Boot(v) => OnBoot(r, ops, v, a)
    case Suspend(v) => OnSuspend(r, ops, v, a)
    case Resume(v) => OnResume(r, ops, v, a)
    case Destroy(v) => OnDestroy(r, ops, v, a)
  }

  datatype Restart = RestartFailed | RestartWait | RestartRunning

  /** One step of a guest-requested restart: destroy, recreate, boot. */
  function RestartStep(r: Runtime, ops: Ops, a: Answers): (Runtime, Restart) {
    if !ops.suspend || !ops.teardown || !ops.reset || !ops.start then (r, RestartFailed)
    else
      var (d, dr) := if r.state == Running || r.state == Destroying then Rpc(r, ops, Destroy(true), a) else (r, Ok);
      if dr != Ok then (d, RestartWait)
      else
        var (c, cr) := if d.state == Dead then Rpc(d, ops, Create(true), a) else (d, Ok);
        if cr != Ok || c.state != Ready then (c, RestartFailed)
        else
          var (b, br) := Rpc(c, ops, Boot(true), a);
          if br != Ok || b.state != Running || !b.started then (b, RestartFailed) else (b, RestartRunning)
  }

  datatype Call = Request(op: Opcode, a: Answers) | RestartCall(answers: Answers)

  function Next(r: Runtime, ops: Ops, call: Call): Runtime {
    match call
    case Request(op, a) => Rpc(r, ops, op, a).0
    case RestartCall(a) => RestartStep(r, ops, a).0
  }

  function Run(r: Runtime, ops: Ops, calls: seq<Call>): Runtime {
    if calls == [] then r else Next(Run(r, ops, calls[..|calls| - 1]), ops, calls[|calls| - 1])
  }

  // ---- nothing runs between a teardown attempt and a successful reset -----------------------

  predicate Touches(e: Event) { e.Started? || e.Stopped? || e.Resumed? }

  /** A teardown was attempted and no reset has succeeded since. */
  function Condemned(log: seq<Event>): bool {
    log != [] && var e := log[|log| - 1];
    e.TornDown? || (e != Reset(true) && Condemned(log[..|log| - 1]))
  }

  /** No start, suspend or resume callback was made while condemned. */
  ghost predicate Quiet(log: seq<Event>) {
    forall i | 0 <= i < |log| && Touches(log[i]) :: !Condemned(log[..i])
  }

  ghost predicate Inv(r: Runtime) {
    Quiet(r.log) && (Condemned(r.log) ==> r.state == Destroying || r.state == Dead)
  }

  lemma Logged(r: Runtime, e: Event)
    requires Quiet(r.log) && (Touches(e) ==> !Condemned(r.log))
    ensures Quiet(Log(r, e).log)
    ensures Condemned(Log(r, e).log) == (e.TornDown? || (e != Reset(true) && Condemned(r.log)))
  {
    var log := r.log + [e];
    assert log[..|r.log|] == r.log;
    forall i | 0 <= i < |log| && Touches(log[i])
      ensures !Condemned(log[..i])
    {
      if i < |r.log| {
        assert log[..i] == r.log[..i];
      }
    }
  }

  lemma RpcKeeps(r: Runtime, ops: Ops, op: Opcode, a: Answers)
    requires Inv(r)
    ensures Inv(Rpc(r, ops, op, a).0)
  {
    hide Inv, OnCreate, OnBoot, OnSuspend, OnResume, OnDestroy;
    match op
    case Create(m) => CreateKeeps(r, ops, m, a);
    case Boot(v) => BootKeeps(r, ops, v, a);
    case Suspend(v) => SuspendKeeps(r, ops, v, a);
    case Resume(v) => ResumeKeeps(r, ops, v, a);
    case Destroy(v) => DestroyKeeps(r, ops, v, a);
  }

  lemma CreateKeeps(r: Runtime, ops: Ops, osMatches: bool, a: Answers)
    requires Inv(r)
    ensures Inv(OnCreate(r, ops, osMatches, a).0)
  {
    hide Quiet, Condemned;
    Logged(r, Reset(a.reset));
  }

  lemma BootKeeps(r: Runtime, ops: Ops, valid: bool, a: Answers)
    requires Inv(r)
    ensures Inv(OnBoot(r, ops, valid, a).0)
  {
    hide Quiet, Condemned;
    if !Condemned(r.log) {
      Logged(r, Started(a.start));
    }
  }

  lemma SuspendKeeps(r: Runtime, ops: Ops, valid: bool, a: Answers)
    requires Inv(r)
    ensures Inv(OnSuspend(r, ops, valid, a).0)
  {
    hide Quiet, Condemned;
    if !Condemned(r.log) {
      Logged(r, Stopped(a.suspend));
      Logged(Log(r, Stopped(a.suspend)), Quiesced);
    }
  }

  lemma ResumeKeeps(r: Runtime, ops: Ops, valid: bool, a: Answers)
    requires Inv(r)
    ensures Inv(OnResume(r, ops, valid, a).0)
  {
    hide Quiet, Condemned;
    if !Condemned(r.log) {
      Logged(r, Resumed(a.resume));
    }
  }

  lemma DestroyKeeps(r: Runtime, ops: Ops, valid: bool, a: Answers)
    requires Inv(r)
    ensures Inv(OnDestroy(r, ops, valid, a).0)
  {
    hide Quiet, Condemned;
    if valid && r.state != Dead {
      var live := r.state != Suspended && r.state != Destroying;
      var n := r;
      if live {
        Logged(r, Stopped(a.suspend));
        Logged(Log(r, Stopped(a.suspend)), Quiesced);
        n := if ops.quiesce then Log(Log(r, Stopped(true)), Quiesced) else Log(r, Stopped(true));
      }
      if !live || a.suspend {
        Logged(n.(state := Destroying), TornDown(a.teardown));
      }
    }
  }

  lemma NextKeeps(r: Runtime, ops: Ops, call: Call)
    requires Inv(r)
    ensures Inv(Next(r, ops, call))
  {
    hide Rpc, Inv;
    match call
    case Request(op, a) => RpcKeeps(r, ops, op, a);
    case RestartCall(a) =>
      RpcKeeps(r, ops, Destroy(true), a);
      var d := if r.state == Running || r.state == Destroying then Rpc(r, ops, Destroy(true), a).0 else r;
      RpcKeeps(d, ops, Create(true), a);
      var c := if d.state == Dead then Rpc(d, ops, Create(true), a).0 else d;
      RpcKeeps(c, ops, Boot(true), a);
  }

  /** In every run, with whatever the callbacks answer. */
  lemma {:induction false} RunQuiet(state: State, started: bool, ops: Ops, calls: seq<Call>)
    ensures Inv(Run(Runtime(state, started, []), ops, calls))
    decreases |calls|
  {
    if calls != [] {
      RunQuiet(state, started, ops, calls[..|calls| - 1]);
      NextKeeps(Run(Runtime(state, started, []), ops, calls[..|calls| - 1]), ops, calls[|calls| - 1]);
      hide Inv, Next;
    }
  }

  /** The same, said of any two callbacks of a run: between a teardown attempt and a
      start, suspend or resume there is a reset that succeeded. */
  lemma ResetBetween(state: State, started: bool, ops: Ops, calls: seq<Call>, i: nat, k: nat)
    requires var log := Run(Runtime(state, started, []), ops, calls).log;
             i < k < |log| && log[i].TornDown? && Touches(log[k])
    ensures var log := Run(Runtime(state, started, []), ops, calls).log;
            exists j :: i < j < k && log[j] == Reset(true)
  {
    RunQuiet(state, started, ops, calls);
    var log := Run(Runtime(state, started, []), ops, calls).log;
    hide Run;
    assert !Condemned(log[..k]);
    var j := LastReset(log[..k], i);
  }

  lemma {:induction false} LastReset(log: seq<Event>, i: nat) returns (j: nat)
    requires i < |log| && log[i].TornDown? && !Condemned(log)
    ensures i < j < |log| && log[j] == Reset(true)
    decreases |log|
  {
    var n := |log| - 1;
    if log[n] == Reset(true) {
      j := n;
    } else {
      j := LastReset(log[..n], i);
    }
  }

  // ---- stops and resumes alternate ------------------------------------------------------------

  /** A stop has succeeded and no start, resume or reset since. */
  function Paused(log: seq<Event>): bool {
    log != [] && var e := log[|log| - 1];
    e == Stopped(true) || (e !in {Started(true), Resumed(true), Reset(true)} && Paused(log[..|log| - 1]))
  }

  /** Resumes are attempted only while paused, starts and stops only while not. */
  ghost predicate Paired(log: seq<Event>) {
    forall i | 0 <= i < |log| && Touches(log[i]) :: log[i].Resumed? == Paused(log[..i])
  }

  ghost predicate Steady(r: Runtime) {
    && Paired(r.log) && r.state in {Ready, Running, Suspended, Destroying, Dead}
    && (r.state == Suspended ==> Paused(r.log)) && (r.state in {Ready, Running} ==> !Paused(r.log))
  }

  lemma PairedLog(r: Runtime, e: Event)
    requires Paired(r.log) && (Touches(e) ==> e.Resumed? == Paused(r.log))
    ensures Paired(Log(r, e).log)
    ensures Paused(Log(r, e).log) ==
              (e == Stopped(true) || (e !in {Started(true), Resumed(true), Reset(true)} && Paused(r.log)))
  {
    var log := r.log + [e];
    assert log[..|r.log|] == r.log;
    forall i | 0 <= i < |log| && Touches(log[i])
      ensures log[i].Resumed? == Paused(log[..i])
    {
      if i < |r.log| {
        assert log[..i] == r.log[..i];
      }
    }
  }

  lemma RpcSteady(r: Runtime, ops: Ops, op: Opcode, a: Answers)
    requires Steady(r)
    ensures Steady(Rpc(r, ops, op, a).0)
  {
    hide Paired, Paused;
    match op
    case Create(m) => PairedLog(r, Reset(a.reset));
    case Boot(v) =>
      if r.state in {Ready, Running} {
        PairedLog(r, Started(a.start));
      }
    case Suspend(v) =>
      if r.state == Running {
        PairedLog(r, Stopped(a.suspend));
        PairedLog(Log(r, Stopped(a.suspend)), Quiesced);
      }
    case Resume(v) =>
      if r.state == Suspended {
        PairedLog(r, Resumed(a.resume));
      }
    case Destroy(v) => DestroySteady(r, ops, v, a);
  }

  lemma DestroySteady(r: Runtime, ops: Ops, valid: bool, a: Answers)
    requires Steady(r)
    ensures Steady(OnDestroy(r, ops, valid, a).0)
  {
    hide Paired, Paused;
    if valid && r.state != Dead {
      var live := r.state != Suspended && r.state != Destroying;
      var n := r;
      if live {
        PairedLog(r, Stopped(a.suspend));
        PairedLog(Log(r, Stopped(a.suspend)), Quiesced);
        n := if ops.quiesce then Log(Log(r, Stopped(true)), Quiesced) else Log(r, Stopped(true));
      }
      if !live || a.suspend {
        PairedLog(n.(state := Destroying), TornDown(a.teardown));
      }
    }
  }

  lemma NextSteady(r: Runtime, ops: Ops, call: Call)
    requires Steady(r)
    ensures Steady(Next(r, ops, call))
  {
    hide Rpc, Steady;
    match call
    case Request(op, a) => RpcSteady(r, ops, op, a);
    case RestartCall(a) =>
      RpcSteady(r, ops, Destroy(true), a);
      var d := if r.state == Running || r.state == Destroying then Rpc(r, ops, Destroy(true), a).0 else r;
      RpcSteady(d, ops, Create(true), a);
      var c := if d.state == Dead then Rpc(d, ops, Create(true), a).0 else d;
      RpcSteady(c, ops, Boot(true), a);
  }

  /** In every run a guest is resumed only while stopped, and stopped or started only while
      not, whatever the callbacks answer. */
  lemma {:induction false} RunPaired(ops: Ops, calls: seq<Call>)
    ensures Steady(Run(Runtime(Ready, false, []), ops, calls))
    decreases |calls|
  {
    if calls != [] {
      RunPaired(ops, calls[..|calls| - 1]);
      NextSteady(Run(Runtime(Ready, false, []), ops, calls[..|calls| - 1]), ops, calls[|calls| - 1]);
      hide Steady, Next;
    }
  }

  // ---- the runtime in place -------------------------------------------------------------------

  class Vmm {
    var state: State
    var started: bool
    ghost var log: seq<Event>
    const ops: Ops

    constructor (ops: Ops)
      ensures View() == Runtime(Ready, false, []) && this.ops == ops && Inv(View())
    {
      this.ops, state, started, log := ops, Ready, false, [];
    }

    ghost function View(): Runtime
      reads this
    {
      Runtime(state, started, log)
    }

    /** aos_guest_vmm_lifecycle_rpc. */
    method Handle(op: Opcode, a: Answers) returns (reply: Reply)
      modifies this
      ensures (View(), reply) == Rpc(old(View()), ops, op, a)
      ensures old(Inv(View())) ==> Inv(View())
    {
      hide Inv, OnCreate, OnBoot, OnSuspend, OnResume, OnDestroy, View;
      if old(Inv(View())) {
        RpcKeeps(View(), ops, op, a);
      }
      match op
      case Create(osMatches) => reply := DoCreate(osMatches, a);
      case Boot(valid) => reply := DoBoot(valid, a);
      case Suspend(valid) => reply := DoSuspend(valid, a);
      case Resume(valid) => reply := DoResume(valid, a);
      case Destroy(valid) => reply := DoDestroy(valid, a);
    }

    method DoCreate(osMatches: bool, a: Answers) returns (reply: Reply)
      modifies this
      ensures (View(), reply) == OnCreate(old(View()), ops, osMatches, a)
    {
      if !osMatches { return BadOsType; }
      if state == Destroying { return BadState; }
      if state == Dead {
        if !ops.reset { return DeadGuest; }
        log := log + [Reset(a.reset)];
        if !a.reset { return NotReady; }
        started, state := false, Ready;
      }
      if state != Ready || started { return BadState; }
      return Ok;
    }

    method DoBoot(valid: bool, a: Answers) returns (reply: Reply)
      modifies this
      ensures (View(), reply) == OnBoot(old(View()), ops, valid, a)
    {
      if !valid { return BadGuestId; }
      if state == Dead { return DeadGuest; }
      if state != Ready && state != Running { return BadState; }
      if !started {
        if !ops.start { return NotReady; }
        log := log + [Started(a.start)];
        if !a.start { return NotReady; }
        started := a.running;
      }
      state := Running;
      return Ok;
    }

    method DoSuspend(valid: bool, a: Answers) returns (reply: Reply)
      modifies this
      ensures (View(), reply) == OnSuspend(old(View()), ops, valid, a)
    {
      if !valid { return BadGuestId; }
      if state == Dead { return DeadGuest; }
      if !started || (state != Running && state != Suspended) { return BadState; }
      if state != Suspended {
        if !ops.suspend { return NotReady; }
        log := log + [Stopped(a.suspend)];
        if !a.suspend { return NotReady; }
        if ops.quiesce { log := log + [Quiesced]; }
        state := Suspended;
      }
      return Ok;
    }

    method DoResume(valid: bool, a: Answers) returns (reply: Reply)
      modifies this
      ensures (View(), reply) == OnResume(old(View()), ops, valid, a)
    {
      if !valid { return BadGuestId; }
      if state == Dead { return DeadGuest; }
      if !started || (state != Running && state != Suspended) { return BadState; }
      if state == Suspended {
        if !ops.resume { return NotReady; }
        log := log + [Resumed(a.resume)];
        if !a.resume { return NotReady; }
      }
      state := Running;
      return Ok;
    }

    method DoDestroy(valid: bool, a: Answers) returns (reply: Reply)
      modifies this
      ensures (View(), reply) == OnDestroy(old(View()), ops, valid, a)
    {
      if !valid { return BadGuestId; }
      if state != Dead {
        if state != Suspended && state != Destroying {
          if !ops.suspend { return NotReady; }
          log := log + [Stopped(a.suspend)];
          if !a.suspend { return NotReady; }
          if ops.quiesce { log := log + [Quiesced]; }
        }
        state := Destroying;
        if ops.teardown {
          log := log + [TornDown(a.teardown)];
          if !a.teardown { return NotReady; }
        }
        started, state := false, Dead;
      }
      return Ok;
    }
  }
}

/** Ordered work done by callbacks that may fail and be retried. */
module Retries {
  /** One attempt and its answer. */
  datatype Try<T> = Try(action: T, ok: bool)

  function Successes<T>(log: seq<Try<T>>): seq<T> {
    if log == [] then []
    else
      var n := |log| - 1;
      Successes(log[..n]) + if log[n].ok then [log[n].action] else []
  }

  /** Every attempt is of the first action of the plan that has not succeeded yet. */
  ghost predicate Follows<T>(log: seq<Try<T>>, plan: seq<T>) {
    forall i | 0 <= i < |log| :: Successes(log[..i]) + [log[i].action] <= plan
  }

  /** One call's attempts: all succeed, or it stops at the first that does not. */
  ghost predicate Grew<T>(before: seq<Try<T>>, after: seq<Try<T>>, passed: bool) {
    && before <= after
    && (forall i | |before| <= i < |after| :: after[i].ok || (i == |after| - 1 && !passed))
    && (!passed ==> |after| > |before| && !after[|after| - 1].ok)
  }

  lemma GrewOn<T>(a: seq<Try<T>>, b: seq<Try<T>>, c: seq<Try<T>>, passed: bool)
    requires Grew(a, b, true) && Grew(b, c, passed)
    ensures Grew(a, c, passed)
  {
    forall i | |a| <= i < |c|
      ensures c[i].ok || (i == |c| - 1 && !passed)
    {
      if i < |b| {
        assert c[i] == b[i];
      }
    }
  }

  lemma Extend<T>(log: seq<Try<T>>, plan: seq<T>, action: T, ok: bool)
    requires Follows(log, plan) && Successes(log) + [action] <= plan
    ensures Follows(log + [Try(action, ok)], plan)
    ensures Successes(log + [Try(action, ok)]) == Successes(log) + if ok then [action] else []
  {
    var all := log + [Try(action, ok)];
    assert all[..|log|] == log;
    forall i | 0 <= i < |all|
      ensures Successes(all[..i]) + [all[i].action] <= plan
    {
      if i < |log| {
        assert all[..i] == log[..i];
      }
    }
  }

  /** Whatever the plan starts with and does not contain action a was done before a. */
  lemma AllBefore<T>(s: seq<T>, a: T, d: seq<T>, plan: seq<T>)
    requires s + [a] <= plan && d <= plan && a !in d
    ensures d <= s
  {
    assert plan[|s|] == (s + [a])[|s|] == a;
    assert plan[..|d|] == d;
    assert |d| <= |s|;
    assert forall k | 0 <= k < |d| :: d[k] == plan[k] && (s + [a])[k] == s[k] && (s + [a])[k] == plan[k];
  }

  /** In a plan without repetitions an action attempted at step i has all earlier actions
      of the plan behind it, and none of them is ever attempted again. */
  lemma EarlierDone<T>(log: seq<Try<T>>, plan: seq<T>, i: nat, k: nat)
    requires Follows(log, plan) && i < |log| && k < |plan| && log[i].action == plan[k]
    requires forall a, b | 0 <= a < b < |plan| :: plan[a] != plan[b]
    ensures Successes(log[..i]) == plan[..k]
    ensures forall j, m | i < j < |log| && 0 <= m < |plan| && log[j].action == plan[m] :: k <= m
  {
    forall j, m | i < j < |log| && 0 <= m < |plan| && log[j].action == plan[m]
      ensures k <= m
    {
      NeverBack(log, plan, i, k, j, m);
    }
    DoneAt(log, plan, i, k);
  }

  lemma {:induction false} Longer<T>(log: seq<Try<T>>, i: nat, j: nat)
    requires i <= j <= |log|
    ensures |Successes(log[..i])| <= |Successes(log[..j])|
    decreases j
  {
    if i != j {
      Longer(log, i, j - 1);
      assert log[..j][..j - 1] == log[..j - 1];
    }
  }

  lemma NeverBack<T>(log: seq<Try<T>>, plan: seq<T>, i: nat, k: nat, j: nat, m: nat)
    requires Follows(log, plan) && i <= j < |log| && k < |plan| && m < |plan|
    requires log[i].action == plan[k] && log[j].action == plan[m]
    requires forall a, b | 0 <= a < b < |plan| :: plan[a] != plan[b]
    ensures k <= m
  {
    DoneAt(log, plan, i, k);
    DoneAt(log, plan, j, m);
    Longer(log, i, j);
  }

  lemma DoneAt<T>(log: seq<Try<T>>, plan: seq<T>, i: nat, k: nat)
    requires Follows(log, plan) && i < |log| && k < |plan| && log[i].action == plan[k]
    requires forall a, b | 0 <= a < b < |plan| :: plan[a] != plan[b]
    ensures Successes(log[..i]) == plan[..k]
  {
    var s := Successes(log[..i]);
    assert s + [log[i].action] <= plan;
    assert plan[|s|] == (s + [log[i].action])[|s|] == log[i].action;
    assert |s| == k;
    assert s == (s + [log[i].action])[..k] == plan[..k];
  }
}

/** Resumable teardown of a guest's devices and memory. */
module Teardown {
  import opened Retries

  datatype Device = Net | Block | Serial | Input | Graphics
  datatype Action = Detach(device: Device) | RevokeQueue(pool: nat) | RevokeGraphics(pool: nat)
                  | RevokeExecution | ReleaseRam | ReleasePaging

  /** Build-time composition of the guest. */
  datatype Build = Build(input: bool, graphics: bool, firmwareReset: bool)

  const GRAPHICS_POOLS := 13

  function QueuePools(b: Build): nat { if b.input then 4 else 3 }

  datatype Progress = Progress(
    quiesced: bool, net: bool, block: bool, serial: bool, input: bool, graphics: bool,
    queuePools: nat, graphicsPools: nat, execution: bool, ram: bool, paging: bool)

  function Queues(n: nat): seq<Action> { if n == 0 then [] else Queues(n - 1) + [RevokeQueue(n - 1)] }

  function Pools(n: nat): seq<Action> { if n == 0 then [] else Pools(n - 1) + [RevokeGraphics(n - 1)] }

  function When(c: bool, a: Action): seq<Action> { if c then [a] else [] }

  /** The actions that have succeeded, given the progress flags. */
  function Done(b: Build, p: Progress): seq<Action> {
    Devices(b, p) + Queues(p.queuePools) + Pools(p.graphicsPools) + Memory(b, p)
  }

  function Devices(b: Build, p: Progress): seq<Action> {
    When(p.net, Detach(Net)) + When(p.block, Detach(Block)) + When(p.serial, Detach(Serial))
    + When(p.input && b.input, Detach(Input)) + When(p.graphics && b.graphics, Detach(Graphics))
  }

  function Memory(b: Build, p: Progress): seq<Action> {
    When(p.execution, RevokeExecution) + When(p.ram, ReleaseRam) + When(p.paging && !b.firmwareReset, ReleasePaging)
  }

  function Finished(b: Build): Progress {
    var pools := if b.graphics then GRAPHICS_POOLS else 0;
    Progress(true, true, true, true, true, true, QueuePools(b), pools, true, true, true)
  }

  /** Everything a teardown must do, in order: all devices, then pools, execution, RAM, paging. */
  function Plan(b: Build): seq<Action> { Done(b, Finished(b)) }

  /** Later stages only after earlier ones. */
  predicate Ordered(b: Build, p: Progress) {
    && (p.net ==> p.quiesced) && (p.block ==> p.net) && (p.serial ==> p.block) && (p.input ==> p.serial)
    && (p.graphics ==> p.input) && (p.queuePools > 0 ==> p.graphics) && p.queuePools <= QueuePools(b)
    && (p.graphicsPools > 0 ==> p.queuePools == QueuePools(b))
    && p.graphicsPools <= (if b.graphics then GRAPHICS_POOLS else 0)
    && (p.execution ==> p.queuePools == QueuePools(b) && p.graphics)
    && (p.execution ==> p.graphicsPools == if b.graphics then GRAPHICS_POOLS else 0)
    && (p.ram ==> p.execution) && (p.paging ==> p.ram)
  }

  /** The stage after progress p, and the callback it takes, if any. */
  function Advance(b: Build, p: Progress): Progress {
    if !p.quiesced then p.(quiesced := true)
    else if !p.net then p.(net := true)
    else if !p.block then p.(block := true)
    else if !p.serial then p.(serial := true)
    else if !p.input then p.(input := true)
    else if !p.graphics then p.(graphics := true)
    else if p.queuePools < QueuePools(b) then p.(queuePools := p.queuePools + 1)
    else if b.graphics && p.graphicsPools < GRAPHICS_POOLS then p.(graphicsPools := p.graphicsPools + 1)
    else if !p.execution then p.(execution := true)
    else if !p.ram then p.(ram := true)
    else p.(paging := true)
  }

  function Callback(b: Build, p: Progress): seq<Action> {
    if !p.quiesced then []
    else if !p.net then [Detach(Net)]
    else if !p.block then [Detach(Block)]
    else if !p.serial then [Detach(Serial)]
    else if !p.input then When(b.input, Detach(Input))
    else if !p.graphics then When(b.graphics, Detach(Graphics))
    else if p.queuePools < QueuePools(b) then [RevokeQueue(p.queuePools)]
    else if b.graphics && p.graphicsPools < GRAPHICS_POOLS then [RevokeGraphics(p.graphicsPools)]
    else if !p.execution then [RevokeExecution]
    else if !p.ram then [ReleaseRam]
    else When(!b.firmwareReset, ReleasePaging)
  }

  lemma AdvanceDone(b: Build, p: Progress)
    requires Ordered(b, p) && !p.paging
    ensures Ordered(b, Advance(b, p)) && Done(b, Advance(b, p)) == Done(b, p) + Callback(b, p)
  {
    if !p.graphics {
      DevicesStep(b, p);
      NoQueues();
      NoPools();
      hide Devices, Memory, Queues, Pools, Callback;
      InFirst(Devices(b, p), Callback(b, p));
    } else if !p.execution {
      PoolsStep(b, p);
    } else {
      MemoryStep(b, p);
      hide Devices, Memory, Queues, Pools, Callback;
      InLast(Devices(b, p) + Queues(p.queuePools) + Pools(p.graphicsPools), Memory(b, p), Callback(b, p));
    }
  }

  lemma InFirst(d: seq<Action>, c: seq<Action>)
    ensures (d + c) + [] + [] + [] == (d + [] + [] + []) + c
  {
  }

  lemma InSecond(d: seq<Action>, q: seq<Action>, c: seq<Action>)
    ensures d + (q + c) + [] + [] == (d + q + [] + []) + c
  {
  }

  lemma InThird(d: seq<Action>, q: seq<Action>, g: seq<Action>, c: seq<Action>)
    ensures d + q + (g + c) + [] == (d + q + g + []) + c
    ensures d + q + g + c == (d + q + g + []) + c
  {
  }

  lemma InLast(x: seq<Action>, m: seq<Action>, c: seq<Action>)
    ensures x + (m + c) == (x + m) + c
  {
  }

  lemma PoolsStep(b: Build, p: Progress)
    requires Ordered(b, p) && p.graphics && !p.execution
    ensures Ordered(b, Advance(b, p)) && Done(b, Advance(b, p)) == Done(b, p) + Callback(b, p)
  {
    hide Devices, Memory, Queues, Pools, When;
    var p' := Advance(b, p);
    SameDevices(b, p);
    MemoryNone(b, p);
    MemoryNone(b, p');
    var d, q, g := Devices(b, p), Queues(p.queuePools), Pools(p.graphicsPools);
    NoPools();
    QueueStep(p.queuePools);
    PoolStep(p.graphicsPools);
    if p.queuePools < QueuePools(b) {
      InSecond(d, q, Callback(b, p));
    } else {
      InThird(d, q, g, Callback(b, p));
    }
  }

  lemma SameDevices(b: Build, p: Progress)
    requires Ordered(b, p) && p.graphics
    ensures Devices(b, Advance(b, p)) == Devices(b, p)
  {
    hide When;
  }

  lemma MemoryNone(b: Build, p: Progress)
    ensures !p.execution && !p.ram && !p.paging ==> Memory(b, p) == []
    ensures p.execution && !p.ram && !p.paging ==> Memory(b, p) == [RevokeExecution]
  {
  }

  lemma DevicesStep(b: Build, p: Progress)
    requires Ordered(b, p) && !p.graphics
    ensures Devices(b, Advance(b, p)) == Devices(b, p) + Callback(b, p)
    ensures Memory(b, p) == [] && Memory(b, Advance(b, p)) == [] && p.queuePools == 0 && p.graphicsPools == 0
  {
  }

  lemma MemoryStep(b: Build, p: Progress)
    requires Ordered(b, p) && p.execution && !p.paging
    ensures Memory(b, Advance(b, p)) == Memory(b, p) + Callback(b, p) && Devices(b, Advance(b, p)) == Devices(b, p)
  {
  }

  lemma NoQueues()
    ensures Queues(0) == []
  {
  }

  lemma NoPools()
    ensures Pools(0) == []
  {
  }

  lemma QueueStep(n: nat)
    ensures Queues(n + 1) == Queues(n) + [RevokeQueue(n)]
  {
  }

  lemma PoolStep(n: nat)
    ensures Pools(n + 1) == Pools(n) + [RevokeGraphics(n)]
  {
  }

  function Remaining(b: Build, p: Progress): nat
    requires Ordered(b, p)
  {
    (if p.quiesced then 0 else 1) + (if p.net then 0 else 1) + (if p.block then 0 else 1) + (if p.serial then 0 else 1)
    + (if p.input then 0 else 1) + (if p.graphics then 0 else 1) + (QueuePools(b) - p.queuePools)
    + ((if b.graphics then GRAPHICS_POOLS else 0) - p.graphicsPools)
    + (if p.execution then 0 else 1) + (if p.ram then 0 else 1) + (if p.paging then 0 else 1)
  }

  /** Whatever is done is a prefix of the plan, and the next callback continues it. */
  lemma {:induction false} OnPlan(b: Build, p: Progress)
    requires Ordered(b, p)
    ensures Done(b, p) <= Plan(b) && (p.paging ==> p == Finished(b))
    ensures !p.paging ==> Done(b, p) + Callback(b, p) <= Plan(b)
    decreases Remaining(b, p)
  {
    if !p.paging {
      AdvanceDone(b, p);
      OnPlan(b, Advance(b, p));
      hide Done, Callback;
    }
  }

  class Machine {
    const build: Build
    var p: Progress
    ghost var log: seq<Try<Action>>

    constructor (build: Build)
      ensures this.build == build && Valid() && log == []
    {
      this.build := build;
      p := Progress(false, false, false, false, false, false, 0, 0, false, false, false);
      log := [];
    }

    ghost predicate Valid()
      reads this
    {
      Ordered(build, p) && Follows(log, Plan(build)) && Successes(log) == Done(build, p)
    }

    /** One callback, attempted when it is the next of the plan. */
    method Stage(action: Action, ok: bool) returns (passed: bool)
      requires Valid() && !p.paging && Callback(build, p) == [action]
      modifies this
      ensures Valid() && passed == ok && p == if ok then Advance(build, old(p)) else old(p)
      ensures log == old(log) + [Try(action, ok)] && Grew(old(log), log, ok)
    {
      hide Done, Ordered, Follows, Plan, Callback, Advance, Successes;
      OnPlan(build, p);
      AdvanceDone(build, p);
      Extend(log, Plan(build), action, ok);
      log := log + [Try(action, ok)];
      if ok {
        p := Advance(build, p);
      }
      return ok;
    }

    /** A stage the build leaves out passes without a callback. */
    method Skip()
      requires Valid() && !p.paging && Callback(build, p) == []
      modifies this
      ensures Valid() && p == Advance(build, old(p)) && log == old(log)
    {
      AdvanceDone(build, p);
      hide Done, Follows, Plan;
      p := Advance(build, p);
    }

    /** aos_guest_teardown_step: it may stop anywhere and be called again; it is complete
        exactly when every action of the plan has succeeded. */
    method Step(ramSize: nat, console: bool, block: bool, graphics: bool, answers: nat -> bool) returns (done: bool)
      requires Valid()
      modifies this
      ensures Valid() && old(log) <= log
      ensures done <==> ramSize != 0 && Successes(log) == Plan(build) && p.paging
      ensures ramSize != 0 && (old(p.quiesced) || (console && block && (build.graphics ==> graphics))) ==>
                Grew(old(log), log, done) && ((forall k: nat :: answers(k)) ==> done)
      ensures ramSize == 0 || !(old(p.quiesced) || (console && block && (build.graphics ==> graphics))) ==>
                p == old(p) && log == old(log)
    {
      hide Done, Follows, Plan;
      done := false;
      if ramSize == 0 {
        return;
      }
      if !p.quiesced {
        if !console || !block || (build.graphics && !graphics) {
          return;
        }
        Skip();
      }
      var passed := DetachDevices(answers);
      if !passed {
        return;
      }
      ghost var detached := log;
      passed := RevokePools(answers);
      GrewOn(old(log), detached, log, passed);
      if !passed {
        return;
      }
      ghost var revoked := log;
      done := ReleaseMemory(answers);
      GrewOn(old(log), revoked, log, done);
      if done {
        OnPlan(build, p);
        FinishedPlan(build);
      }
    }

    method DetachDevices(answers: nat -> bool) returns (passed: bool)
      requires Valid() && p.quiesced
      modifies this
      ensures Valid() && Grew(old(log), log, passed) && p.quiesced && (passed <==> p.graphics)
              && (!passed ==> !p.paging)
      ensures (forall k: nat :: answers(k)) ==> passed
    {
      hide Done, Follows, Plan;
      passed := DetachQueues(answers);
      if !passed {
        return;
      }
      ghost var queues := log;
      passed := DetachOptional(answers);
      GrewOn(old(log), queues, log, passed);
    }

    method DetachQueues(answers: nat -> bool) returns (passed: bool)
      requires Valid() && p.quiesced
      modifies this
      ensures Valid() && Grew(old(log), log, passed) && p.quiesced && (passed <==> p.serial)
      ensures (forall k: nat :: answers(k)) ==> passed
    {
      hide Done, Follows, Plan;
      passed := false;
      if !p.net {
        var ok := Stage(Detach(Net), answers(0));
        if !ok { return; }
      }
      if !p.block {
        var ok := Stage(Detach(Block), answers(1));
        if !ok { return; }
      }
      if !p.serial {
        var ok := Stage(Detach(Serial), answers(2));
        if !ok { return; }
      }
      return true;
    }

    method DetachOptional(answers: nat -> bool) returns (passed: bool)
      requires Valid() && p.quiesced && p.serial
      modifies this
      ensures Valid() && Grew(old(log), log, passed) && p.quiesced && (passed <==> p.graphics)
      ensures (forall k: nat :: answers(k)) ==> passed
    {
      hide Done, Follows, Plan;
      passed := false;
      if !p.input {
        if build.input {
          var ok := Stage(Detach(Input), answers(3));
          if !ok { return; }
        } else {
          Skip();
        }
      }
      if !p.graphics {
        if build.graphics {
          var ok := Stage(Detach(Graphics), answers(4));
          if !ok { return; }
        } else {
          Skip();
        }
      }
      return true;
    }

    method RevokePools(answers: nat -> bool) returns (passed: bool)
      requires Valid() && p.quiesced && p.graphics
      modifies this
      ensures Valid() && Grew(old(log), log, passed) && ((forall k: nat :: answers(k)) ==> passed)
      ensures passed <==>
              p.queuePools == QueuePools(build) && p.graphicsPools == if build.graphics then GRAPHICS_POOLS else 0
      ensures p.graphics && p.quiesced && (!passed ==> !p.paging)
    {
      hide Done, Follows, Plan, Callback, Advance;
      passed := RevokeQueues(answers);
      if !passed {
        return;
      }
      ghost var queues := log;
      passed := RevokeGraphicsPools(answers);
      GrewOn(old(log), queues, log, passed);
    }

    method RevokeQueues(answers: nat -> bool) returns (passed: bool)
      requires Valid() && p.quiesced && p.graphics
      modifies this
      ensures Valid() && Grew(old(log), log, passed) && ((forall k: nat :: answers(k)) ==> passed)
      ensures (passed <==> p.queuePools == QueuePools(build)) && p.graphics && p.quiesced
    {
      hide Done, Follows, Plan;
      passed := false;
      while p.queuePools < QueuePools(build)
        invariant Valid() && Grew(old(log), log, true) && p.graphics && p.quiesced
        decreases QueuePools(build) - p.queuePools
      {
        var ok := Stage(RevokeQueue(p.queuePools), answers(5 + p.queuePools));
        if !ok { return; }
      }
      return true;
    }

    method RevokeGraphicsPools(answers: nat -> bool) returns (passed: bool)
      requires Valid() && p.quiesced && p.graphics && p.queuePools == QueuePools(build)
      modifies this
      ensures Valid() && Grew(old(log), log, passed) && ((forall k: nat :: answers(k)) ==> passed)
      ensures passed <==> p.graphicsPools == if build.graphics then GRAPHICS_POOLS else 0
      ensures p.graphics && p.quiesced && p.queuePools == QueuePools(build) && (!passed ==> !p.paging)
    {
      hide Done, Follows, Plan;
      passed := false;
      if build.graphics {
        while p.graphicsPools < GRAPHICS_POOLS
          invariant Valid() && Grew(old(log), log, true) && p.graphics && p.quiesced
                    && p.queuePools == QueuePools(build)
          decreases GRAPHICS_POOLS - p.graphicsPools
        {
          var ok := Stage(RevokeGraphics(p.graphicsPools), answers(9 + p.graphicsPools));
          if !ok { return; }
        }
      }
      return true;
    }

    method ReleaseMemory(answers: nat -> bool) returns (passed: bool)
      requires Valid() && p.quiesced && p.graphics && p.queuePools == QueuePools(build)
      requires p.graphicsPools == if build.graphics then GRAPHICS_POOLS else 0
      modifies this
      ensures Valid() && Grew(old(log), log, passed) && (passed <==> p.paging)
      ensures (forall k: nat :: answers(k)) ==> passed
    {
      hide Done, Follows, Plan;
      passed := false;
      if !p.execution {
        var ok := Stage(RevokeExecution, answers(22));
        if !ok { return; }
      }
      ghost var executed := log;
      passed := ReleaseGuest(answers);
      GrewOn(old(log), executed, log, passed);
    }

    /** RAM, then paging unless the firmware keeps it. */
    method ReleaseGuest(answers: nat -> bool) returns (passed: bool)
      requires Valid() && p.execution && p.quiesced && p.graphics
      modifies this
      ensures Valid() && Grew(old(log), log, passed) && (passed <==> p.paging)
      ensures (forall k: nat :: answers(k)) ==> passed
    {
      hide Done, Follows, Plan;
      passed := false;
      if !p.ram {
        var ok := Stage(ReleaseRam, answers(23));
        if !ok { return; }
      }
      if !p.paging {
        if !build.firmwareReset {
          var ok := Stage(ReleasePaging, answers(24));
          if !ok { return; }
        } else {
          Skip();
        }
      }
      return true;
    }
  }

  predicate Enabled(b: Build, d: Device) { (d == Input ==> b.input) && (d == Graphics ==> b.graphics) }

  /** Pools, execution, RAM and paging are touched only after every device has detached. */
  lemma MemoryLast(b: Build, log: seq<Try<Action>>, i: nat, d: Device)
    requires Follows(log, Plan(b)) && i < |log| && !log[i].action.Detach? && Enabled(b, d)
    ensures Detach(d) in Successes(log[..i])
  {
    hide Plan, Devices, Successes;
    DevicesFirst(b);
    DeviceListed(b, d);
    AllBefore(Successes(log[..i]), log[i].action, Devices(b, Finished(b)), Plan(b));
  }

  lemma DevicesFirst(b: Build)
    ensures Devices(b, Finished(b)) <= Plan(b)
    ensures forall k | 0 <= k < |Devices(b, Finished(b))| :: Devices(b, Finished(b))[k].Detach?
  {
    var d, rest := Devices(b, Finished(b)), Queues(QueuePools(b));
    hide Queues, Pools, Memory;
  }

  lemma DeviceListed(b: Build, d: Device)
    requires Enabled(b, d)
    ensures Detach(d) in Devices(b, Finished(b))
  {
    var l := Devices(b, Finished(b));
    match d
    case Net => assert l[0] == Detach(Net);
    case Block => assert l[1] == Detach(Block);
    case Serial => assert l[2] == Detach(Serial);
    case Input => assert l[3] == Detach(Input);
    case Graphics => assert l[|l| - 1] == Detach(Graphics);
  }

  lemma {:induction false} QueuesAre(n: nat)
    ensures |Queues(n)| == n && forall k | 0 <= k < n :: Queues(n)[k] == RevokeQueue(k)
    decreases n
  {
    if n > 0 {
      QueuesAre(n - 1);
    }
  }

  lemma {:induction false} PoolsAre(n: nat)
    ensures |Pools(n)| == n && forall k | 0 <= k < n :: Pools(n)[k] == RevokeGraphics(k)
    decreases n
  {
    if n > 0 {
      PoolsAre(n - 1);
    }
  }

  lemma DevicesDistinct(b: Build)
    ensures forall i, j | 0 <= i < j < |Devices(b, Finished(b))| ::
              Devices(b, Finished(b))[i] != Devices(b, Finished(b))[j]
  {
  }

  lemma MemoryIs(b: Build)
    ensures var m := Memory(b, Finished(b));
            && (forall k | 0 <= k < |m| :: m[k] in {RevokeExecution, ReleaseRam, ReleasePaging})
            && forall i, j | 0 <= i < j < |m| :: m[i] != m[j]
  {
  }

  /** Two lists without repetitions and without a common element, one after the other. */
  lemma JoinDistinct(a: seq<Action>, c: seq<Action>)
    requires (forall i, j | 0 <= i < j < |a| :: a[i] != a[j]) && (forall i, j | 0 <= i < j < |c| :: c[i] != c[j])
    requires forall i, j | 0 <= i < |a| && 0 <= j < |c| :: a[i] != c[j]
    ensures forall i, j | 0 <= i < j < |a + c| :: (a + c)[i] != (a + c)[j]
  {
  }

  /** The plan repeats nothing, so each of its actions succeeds once. */
  lemma PlanDistinct(b: Build)
    ensures forall i, j | 0 <= i < j < |Plan(b)| :: Plan(b)[i] != Plan(b)[j]
  {
    var f := Finished(b);
    var d, q, g, m := Devices(b, f), Queues(f.queuePools), Pools(f.graphicsPools), Memory(b, f);
    DevicesFirst(b);
    DevicesDistinct(b);
    QueuesAre(f.queuePools);
    PoolsAre(f.graphicsPools);
    MemoryIs(b);
    hide Devices, Queues, Pools, Memory;
    JoinDistinct(d, q);
    JoinDistinct(d + q, g);
    JoinDistinct(d + q + g, m);
  }

  lemma FinishedPlan(b: Build)
    ensures Done(b, Finished(b)) == Plan(b)
  {
  }
}

/** Reconstruction of a guest: publish after every step, or clean up for good. */
module Recreate {
  import opened Retries

  const STEPS := 17
  const BACKENDS := 5
  const RELEASES := 5
  const LAST32 := 0xffff_ffff

  datatype Action = Detach(backend: nat) | Release(resource: nat)

  /** The backend a step works on; BACKENDS when it works on none. */
  function Owner(step: nat): nat {
    if step == 5 || step == 6 then 0
    else if step == 7 || step == 8 then 1
    else if step == 9 || step == 10 then 2
    else if step == 11 || step == 12 then 3
    else if 13 <= step <= 15 then 4
    else BACKENDS
  }

  /** A step runs unless its backend is left out. */
  predicate Runs(enabled: set<nat>, step: nat) { Owner(step) < BACKENDS ==> Owner(step) in enabled }

  /** Backends touched by the first n steps. */
  function Touched(enabled: set<nat>, n: nat): set<nat> {
    if n == 0 then {}
    else if Owner(n - 1) < BACKENDS && Owner(n - 1) in enabled then Touched(enabled, n - 1) + {Owner(n - 1)}
    else Touched(enabled, n - 1)
  }

  /** Step f is the first that runs and fails. */
  predicate FailsAt(enabled: set<nat>, answers: nat -> bool, f: nat) {
    f < STEPS && Runs(enabled, f) && !answers(f) && forall k: nat | k < f && Runs(enabled, k) :: answers(k)
  }

  /** Detaches of the attempted backends below n, and the first n releases. */
  function Detaches(a: set<nat>, n: nat): seq<Action> {
    if n == 0 then [] else Detaches(a, n - 1) + if n - 1 in a then [Detach(n - 1)] else []
  }

  function Releases(n: nat): seq<Action> { if n == 0 then [] else Releases(n - 1) + [Release(n - 1)] }

  /** Every attempted backend detached, then everything released. */
  function Plan(a: set<nat>): seq<Action> { Detaches(a, BACKENDS) + Releases(RELEASES) }

  lemma {:induction false} DetachesGrow(a: set<nat>, m: nat, n: nat)
    requires m <= n
    ensures Detaches(a, m) <= Detaches(a, n)
    ensures (forall k | m <= k < n :: k !in a) ==> Detaches(a, m) == Detaches(a, n)
    decreases n
  {
    if m < n {
      DetachesGrow(a, m, n - 1);
    }
  }

  lemma {:induction false} ReleasesGrow(m: nat, n: nat)
    requires m <= n
    ensures Releases(m) <= Releases(n)
    decreases n
  {
    if m < n {
      ReleasesGrow(m, n - 1);
    }
  }

  lemma NextDetach(a: set<nat>, cut: nat, i: nat)
    requires cut <= i < BACKENDS && i in a && forall k | cut <= k < i :: k !in a
    ensures Detaches(a, cut) + [Detach(i)] == Detaches(a, i + 1) <= Plan(a)
  {
    DetachesGrow(a, cut, i);
    DetachesGrow(a, i + 1, BACKENDS);
  }

  lemma NoReleases(d: seq<Action>)
    ensures d + Releases(0) == d
  {
  }

  lemma NextRelease(a: set<nat>, n: nat)
    requires n < RELEASES
    ensures Detaches(a, BACKENDS) + Releases(n) + [Release(n)] == Detaches(a, BACKENDS) + Releases(n + 1) <= Plan(a)
  {
    ReleasesGrow(n + 1, RELEASES);
    hide Detaches;
    assert Releases(n + 1) == Releases(n) + [Release(n)];
  }

  class State {
    var generation: nat
    var attempted: set<nat>
    var releaseNext: nat
    var failed: bool
    var cleanupPending: bool
    ghost var retires: nat         // how often the old guest was told to retire
    ghost var published: nat       // how often a guest was published
    ghost var tried: set<nat>      // backends attempted by the run that failed
    ghost var cut: nat             // backends below this are detached
    ghost var log: seq<Try<Action>>

    constructor ()
      ensures Valid() && !failed && published == 0 && generation == 0
    {
      generation, attempted, releaseNext, failed, cleanupPending := 0, {}, 0, false, false;
      retires, published, tried, cut, log := 0, 0, {}, 0, [];
    }

    /** Cleanup follows its plan, one success each; it is pending until the plan is done. */
    ghost predicate Valid()
      reads this
    {
      && generation <= LAST32 && releaseNext <= RELEASES && cut <= BACKENDS
      && (!failed ==> !cleanupPending && attempted == {} && log == [])
      && (failed ==>
            && Follows(log, Plan(tried)) && (forall x | x in tried :: x < BACKENDS)
            && (forall x :: x in attempted <==> x in tried && x >= cut)
            && (releaseNext > 0 ==> cut == BACKENDS)
            && Successes(log) == Detaches(tried, cut) + Releases(releaseNext)
            && (!cleanupPending ==> Successes(log) == Plan(tried)))
    }

    method Cleanup(answers: nat -> bool) returns (done: bool)
      requires Valid()
      modifies this`attempted, this`releaseNext, this`cleanupPending, this`cut, this`log, this`retires
      ensures Valid() && Grew(old(log), log, done) && ((forall k: nat :: answers(k)) ==> done)
      ensures done <==> !cleanupPending
      ensures done && failed ==> Successes(log) == Plan(tried)
      ensures retires == old(retires) + if old(cleanupPending) then 1 else 0
    {
      hide Plan, Detaches, Releases, Follows, Successes;
      if !cleanupPending {
        return true;
      }
      retires := retires + 1;
      done := DetachAll(answers);
      if !done {
        return;
      }
      ghost var detached := log;
      done := ReleaseAll(answers);
      GrewOn(old(log), detached, log, done);
    }

    method DetachAll(answers: nat -> bool) returns (done: bool)
      requires Valid() && failed && cleanupPending
      modifies this`attempted, this`cut, this`log
      ensures Valid() && Grew(old(log), log, done) && (done ==> cut == BACKENDS && attempted == {})
      ensures (forall k: nat :: answers(k)) ==> done
    {
      hide Plan, Detaches, Releases, Follows, Successes;
      for i := 0 to BACKENDS
        invariant Valid() && Grew(old(log), log, true) && forall x | x in attempted :: x >= i
      {
        if i in attempted {
          var ok := TryDetach(i, answers(i));
          if !ok {
            return false;
          }
        }
      }
      AllDetached();
      return true;
    }

    /** With nothing left to detach the cut may be taken as complete. */
    ghost method AllDetached()
      requires Valid() && failed && attempted == {}
      modifies this`cut
      ensures Valid() && cut == BACKENDS
    {
      DetachesGrow(tried, cut, BACKENDS);
      hide Plan, Detaches, Releases, Follows, Successes;
      cut := BACKENDS;
    }

    method TryDetach(i: nat, ok: bool) returns (passed: bool)
      requires Valid() && failed && cleanupPending && i in attempted && forall x | x in attempted :: x >= i
      modifies this`attempted, this`cut, this`log
      ensures Valid() && passed == ok && log == old(log) + [Try(Detach(i), ok)]
      ensures attempted == old(attempted) - if ok then {i} else {}
    {
      hide Plan, Detaches, Releases, Follows, Successes;
      assert i in tried && i >= cut && i < BACKENDS;
      assert forall k | cut <= k < i :: k !in tried;
      NextDetach(tried, cut, i);
      NoReleases(Detaches(tried, cut));
      NoReleases(Detaches(tried, i + 1));
      assert releaseNext == 0;
      Extend(log, Plan(tried), Detach(i), ok);
      log := log + [Try(Detach(i), ok)];
      if ok {
        attempted, cut := attempted - {i}, i + 1;
      }
      return ok;
    }

    method ReleaseAll(answers: nat -> bool) returns (done: bool)
      requires Valid() && failed && cleanupPending && cut == BACKENDS && attempted == {}
      modifies this`releaseNext, this`cleanupPending, this`log
      ensures Valid() && Grew(old(log), log, done) && (done <==> !cleanupPending)
      ensures (done ==> Successes(log) == Plan(tried)) && ((forall k: nat :: answers(k)) ==> done)
    {
      hide Detaches, Releases, Follows, Successes;
      while releaseNext < RELEASES
        invariant Valid() && Grew(old(log), log, true) && cleanupPending && releaseNext <= RELEASES && cut == BACKENDS
                  && attempted == {}
        decreases RELEASES - releaseNext
      {
        NextRelease(tried, releaseNext);
        var ok := answers(BACKENDS + releaseNext);
        Extend(log, Plan(tried), Release(releaseNext), ok);
        log := log + [Try(Release(releaseNext), ok)];
        if !ok {
          return false;
        }
        releaseNext := releaseNext + 1;
      }
      cleanupPending := false;
      return true;
    }

    /** A failed step: the attempted backends become the cleanup plan. */
    method Fail(cleanups: nat -> bool)
      requires !failed && log == [] && releaseNext == 0 && generation <= LAST32
               && forall x | x in attempted :: x < BACKENDS
      modifies this
      ensures Valid() && failed && published == old(published) && generation == old(generation)
      ensures tried == old(attempted) && ((forall k: nat :: cleanups(k)) ==> !cleanupPending)
    {
      hide Plan, Detaches, Releases, Follows, Successes;
      failed, cleanupPending := true, true;
      tried, cut := attempted, 0;
      Begun(attempted);
      var cleaned := Cleanup(cleanups);
    }

    /** aos_arm_recreate_run: publishes exactly when every enabled step succeeded; a failed
        attempt never publishes and no later run can. */
    method Run(enabled: set<nat>, answers: nat -> bool, cleanups: nat -> bool) returns (ok: bool)
      requires Valid()
      modifies this
      ensures Valid() && old(log) <= log
      ensures ok <==> (forall b | b in enabled :: b < BACKENDS) && !old(failed) && old(generation) != LAST32
                      && forall i: nat | i < STEPS && Runs(enabled, i) :: answers(i)
      ensures ok ==> !failed && published == old(published) + 1 && generation == old(generation) + 1
      ensures !ok ==> published == old(published)
      ensures !ok && failed == old(failed) ==> generation == old(generation) && log == old(log)
      ensures failed && !old(failed) ==>
                generation == old(generation) + 1 && ((forall k: nat :: cleanups(k)) ==> !cleanupPending)
                && exists f: nat :: FailsAt(enabled, answers, f) && tried == Touched(enabled, f + 1)
    {
      hide Plan, Detaches, Releases, Follows, Successes;
      if (exists b | b in enabled :: b >= BACKENDS) || failed || cleanupPending || attempted != {}
         || generation == LAST32
      {
        return false;
      }
      generation, releaseNext := generation + 1, 0;
      for i := 0 to STEPS
        invariant !failed && !cleanupPending && log == [] && releaseNext == 0 && published == old(published)
        invariant generation == old(generation) + 1 <= LAST32 && cut <= BACKENDS
        invariant attempted == Touched(enabled, i) && forall x | x in attempted :: x < BACKENDS
        invariant forall k: nat | k < i && Runs(enabled, k) :: answers(k)
      {
        if Owner(i) < BACKENDS {
          if Owner(i) !in enabled {
            continue;
          }
          attempted := attempted + {Owner(i)};
        }
        if !answers(i) {
          assert FailsAt(enabled, answers, i) && attempted == Touched(enabled, i + 1);
          Fail(cleanups);
          return false;
        }
      }
      published := published + 1;
      attempted := {};
      return true;
    }
  }

  lemma {:induction false} DetachesAre(a: set<nat>, n: nat)
    ensures forall x: nat :: Detach(x) in Detaches(a, n) <==> x < n && x in a
    ensures forall k | 0 <= k < |Detaches(a, n)| :: Detaches(a, n)[k].Detach?
    ensures forall i, j | 0 <= i < j < |Detaches(a, n)| :: Detaches(a, n)[i] != Detaches(a, n)[j]
    decreases n
  {
    if n > 0 {
      DetachesAre(a, n - 1);
      var prev := Detaches(a, n - 1);
      assert forall k | 0 <= k < |prev| :: prev[k] in prev;
    }
  }

  lemma {:induction false} ReleasesAre(n: nat)
    ensures |Releases(n)| == n && forall k | 0 <= k < n :: Releases(n)[k] == Release(k)
    decreases n
  {
    if n > 0 {
      ReleasesAre(n - 1);
    }
  }

  /** Over any number of retries, no resource is released before every attempted backend
      has detached. */
  lemma ReleaseLast(a: set<nat>, log: seq<Try<Action>>, i: nat, b: nat)
    requires Follows(log, Plan(a)) && i < |log| && log[i].action.Release? && b in a && b < BACKENDS
    ensures Detach(b) in Successes(log[..i])
  {
    DetachesAre(a, BACKENDS);
    hide Detaches, Releases, Successes;
    assert Detaches(a, BACKENDS) <= Plan(a);
    hide Plan;
    AllBefore(Successes(log[..i]), log[i].action, Detaches(a, BACKENDS), Plan(a));
  }

  /** The plan repeats nothing, so each of its actions succeeds once. */
  lemma PlanDistinct(a: set<nat>)
    ensures forall i, j | 0 <= i < j < |Plan(a)| :: Plan(a)[i] != Plan(a)[j]
  {
    DetachesAre(a, BACKENDS);
    ReleasesAre(RELEASES);
    hide Detaches, Releases;
    var d, r := Detaches(a, BACKENDS), Releases(RELEASES);
    forall i, j | 0 <= i < j < |Plan(a)|
      ensures Plan(a)[i] != Plan(a)[j]
    {
      assert j < |d| || Plan(a)[j] == r[j - |d|];
      assert i < |d| || Plan(a)[i] == r[i - |d|];
    }
  }

  lemma Begun(a: set<nat>)
    ensures Successes<Action>([]) == Detaches(a, 0) + Releases(0) && Follows([], Plan(a))
  {
  }
}
