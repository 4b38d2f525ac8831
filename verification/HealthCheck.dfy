/** The crash, reconnect and replay protocol of `sc_plugins.c` as a state machine: the
    plugin's init and periodic health check, one step at a time, interleaved with VPP
    crashing and restarting and with configuration changes. */
module HealthCheck {

  /** What VOM holds, and what a VPP process has been told. */
  type Config = map<string, string>

  datatype Edit = Put(key: string, value: string) | Del(key: string)

  function Edited(config: Config, edit: Edit): Config {
    match edit
    case Put(key, value) => config[key := value]
    case Del(key) => config - {key}
  }

  /** A VPP incarnation. The kernel never gives two of them the same pid. */
  datatype Vpp = Down | Up(pid: nat, applied: Config)

  /** Where the plugin is; `now` is the check's `vpp_pid_now`, negative for an error. */
  datatype Phase =
    | Starting                // before HW::connect in sr_plugin_init_cb
    | Populating              // connected, before OM::populate
    | Initialising            // populated, before the pid is recorded
    | InitFailed              // sr_plugin_init_cb returned SR_ERR_DISCONNECT
    | Idle                    // between health checks
    | Comparing(now: int)     // pid read
    | Disconnecting(now: int) // pids differ
    | Connecting(now: int)    // disconnected, in the connect loop
    | Replaying(now: int)     // connected again
    | Recording(now: int)     // replayed

  datatype State = State(
    vpp: Vpp,
    used: set<nat>,       // pids handed out so far
    conn: set<nat>,       // the incarnation HW is connected to: at most one
    om: Config,           // the VOM database
    pidStart: int,        // vpp_pid_start
    phase: Phase,
    misread: bool)        // whether the running check failed to read the pid

  datatype Step =
    | Crash
    | Restart(pid: nat, boot: Config)
    | Change(edit: Edit, taken: bool) // `taken` unless VPP, if connected, refuses it
    | InitConnect | InitPopulate | InitRecord | InitRecordError(err: int)
    | ReadPid | ReadPidError(err: int)
    | Compare | Disconnect | ConnectRefused | Connect | Replay | Record

  /** HW is connected to the process that is alive. */
  predicate Live(s: State) {
    s.vpp.Up? && s.vpp.pid in s.conn
  }

  /** `get_vpp_pid` when /proc can be read: the pid, or -ESRCH. */
  const ESRCH := 3

  function LivePid(s: State): int {
    if s.vpp.Up? then s.vpp.pid else -ESRCH
  }

  predicate Enabled(s: State, step: Step) {
    match step
    case Crash => s.vpp.Up?
    case Restart(pid, _) => s.vpp.Down? && pid !in s.used
    case Change(_, _) => !s.phase.Starting? && !s.phase.Populating? && !s.phase.InitFailed?
    case InitConnect => s.phase.Starting? && s.vpp.Up?
    case InitPopulate => s.phase.Populating?
    case InitRecord => s.phase.Initialising?
    case InitRecordError(err) => s.phase.Initialising? && err < 0
    case ReadPid => s.phase.Idle?
    case ReadPidError(err) => s.phase.Idle? && err < 0
    case Compare => s.phase.Comparing?
    case Disconnect => s.phase.Disconnecting?
    case ConnectRefused => s.phase.Connecting?
    case Connect => s.phase.Connecting? && s.vpp.Up?
    case Replay => s.phase.Replaying?
    case Record => s.phase.Recording?
  }

  function Next(s: State, step: Step): State
    requires Enabled(s, step)
  {
    match step
    case Crash => s.(vpp := Down)
    case Restart(pid, boot) => s.(vpp := Up(pid, boot), used := s.used + {pid})
    case Change(edit, taken) =>
      // Reaches VPP only over a live connection; VOM keeps it in any case.
      s.(om := Edited(s.om, edit),
         vpp := if Live(s) && taken then s.vpp.(applied := Edited(s.vpp.applied, edit)) else s.vpp)
    case InitConnect => s.(conn := {s.vpp.pid}, phase := Populating)
    case InitPopulate =>
      // Reads back what VPP is running; nothing arrives when VPP is gone.
      s.(om := if Live(s) then s.vpp.applied else s.om, phase := Initialising)
    case InitRecord => s.(pidStart := LivePid(s), phase := if s.vpp.Up? then Idle else InitFailed)
    case InitRecordError(err) => s.(pidStart := err, phase := InitFailed)
    case ReadPid => s.(phase := Comparing(LivePid(s)), misread := false)
    case ReadPidError(err) => s.(phase := Comparing(err), misread := true)
    case Compare =>
      s.(phase := if s.phase.now == s.pidStart then Idle else Disconnecting(s.phase.now))
    case Disconnect => s.(conn := {}, phase := Connecting(s.phase.now))
    case ConnectRefused => s
    case Connect => s.(conn := {s.vpp.pid}, phase := Replaying(s.phase.now))
    case Replay =>
      s.(vpp := if Live(s) then s.vpp.(applied := s.om) else s.vpp, phase := Recording(s.phase.now))
    case Record => s.(pidStart := s.phase.now, phase := Idle)
  }

  /** A boot of the machine: no connection yet, VPP up or not. */
  predicate Init(s: State) {
    && s.phase == Starting
    && s.conn == {}
    && (s.vpp.Up? ==> s.vpp.pid in s.used)
  }

  /** A run is its start state and the steps taken. */
  predicate CanRun(s: State, steps: seq<Step>)
    decreases |steps|
  {
    steps == [] || (Enabled(s, steps[0]) && CanRun(Next(s, steps[0]), steps[1..]))
  }

  function Run(s: State, steps: seq<Step>): State
    requires CanRun(s, steps)
    decreases |steps|
  {
    if steps == [] then s else Run(Next(s, steps[0]), steps[1..])
  }

  // ----- the safety property

  /** The live process is connected and runs exactly the VOM database. */
  predicate Synced(s: State) {
    Live(s) && s.vpp.applied == s.om
  }

  /** The plugin takes the live process to be the one it last configured. */
  predicate Trusted(s: State) {
    s.vpp.Up? && s.vpp.pid == s.pidStart
  }

  /** Connected during init, with the pid not yet recorded. */
  predicate InWindow(s: State) {
    s.phase.Populating? || s.phase.Initialising?
  }

  /** The plugin has finished its init without an error. */
  predicate Running(s: State) {
    !s.phase.Starting? && !InWindow(s) && !s.phase.InitFailed?
  }

  /** A health check that found the pid changed. */
  predicate Recovering(s: State) {
    s.phase.Disconnecting? || s.phase.Connecting? || s.phase.Replaying? || s.phase.Recording?
  }

  /** A check that could not read the pid and has disconnected all the same. */
  predicate Blind(s: State) {
    s.misread && (s.phase.Connecting? || s.phase.Replaying? || s.phase.Recording?)
  }

  /** The live process is the one this check read. */
  predicate NowUp(s: State)
    requires Recovering(s)
  {
    s.vpp.Up? && s.vpp.pid == s.phase.now
  }

  /** What every step but a crash during init keeps. */
  predicate Linked(s: State) {
    && (s.vpp.Up? ==> s.vpp.pid in s.used)
    && (InWindow(s) ==> Live(s))
    && (Running(s) ==>
          && (s.pidStart >= 0 ==> s.pidStart in s.used)
          && (Recovering(s) || s.phase.Comparing? ==> s.phase.now >= 0 ==> s.phase.now in s.used)
          && (Trusted(s) ==> Live(s) || Blind(s))
          && (s.phase.Comparing? && !s.misread && s.phase.now != s.pidStart ==> !Trusted(s))
          && (Recovering(s) && !s.misread ==> !Trusted(s))
          && (Recovering(s) && s.misread ==> s.phase.now < 0)
          && (s.phase.Comparing? && s.misread ==> s.phase.now < 0)
          && (s.phase.Replaying? && NowUp(s) ==> Live(s))
          && (s.phase.Recording? && NowUp(s) ==> Live(s)))
  }

  /** And what every step keeps that is no change refused by VPP either. */
  predicate Inv(s: State) {
    && Linked(s)
    && (s.phase.Initialising? ==> Synced(s))
    && (Running(s) && Trusted(s) ==> Synced(s) || Blind(s))
    && (s.phase.Recording? && NowUp(s) ==> Synced(s))
  }

  lemma {:induction false} StepKeepsLinked(s: State, step: Step)
    requires Linked(s) && Enabled(s, step)
    requires !(InWindow(s) && step.Crash?)
    ensures Linked(Next(s, step))
  {
  }

  lemma {:induction false} StepKeepsInv(s: State, step: Step)
    requires Inv(s) && Enabled(s, step)
    requires !(InWindow(s) && step.Crash?) && (step.Change? ==> step.taken)
    ensures Inv(Next(s, step))
  {
    StepKeepsLinked(s, step);
  }

  /** No crash between connecting and recording the pid in `sr_plugin_init_cb`. */
  predicate Calm(s: State, steps: seq<Step>)
    requires CanRun(s, steps)
    decreases |steps|
  {
    steps == [] || (!(InWindow(s) && steps[0].Crash?) && Calm(Next(s, steps[0]), steps[1..]))
  }

  /** VPP refuses no change. */
  predicate AllTaken(steps: seq<Step>) {
    forall i :: 0 <= i < |steps| && steps[i].Change? ==> steps[i].taken
  }

  lemma {:induction false} RunKeepsInv(s: State, steps: seq<Step>)
    requires Inv(s) && CanRun(s, steps) && Calm(s, steps) && AllTaken(steps)
    ensures Inv(Run(s, steps))
    decreases |steps|
  {
    if steps != [] {
      StepKeepsInv(s, steps[0]);
      RunKeepsInv(Next(s, steps[0]), steps[1..]);
    }
  }

  /** The property: whenever the live process is the one the plugin recorded, it is
      connected and configured as VOM says. */
  predicate Safe(s: State) {
    Running(s) && Trusted(s) ==> Synced(s)
  }

  predicate SafeThroughout(s: State, steps: seq<Step>)
    requires CanRun(s, steps)
    decreases |steps|
  {
    Safe(s) && (steps == [] || SafeThroughout(Next(s, steps[0]), steps[1..]))
  }

  /** The plugin drops the connection to the process it configured, for want of its pid. */
  predicate BlindDisconnect(s: State, step: Step) {
    step.Disconnect? && s.misread && Trusted(s)
  }

  predicate NoBlindDisconnect(s: State, steps: seq<Step>)
    requires CanRun(s, steps)
    decreases |steps|
  {
    steps == [] || (!BlindDisconnect(s, steps[0]) && NoBlindDisconnect(Next(s, steps[0]), steps[1..]))
  }

  /** VPP refuses a change that would change something. */
  predicate Refusal(s: State, step: Step) {
    step.Change? && !step.taken && Edited(s.om, step.edit) != s.om
  }

  /** The pid of a live process is recorded though a change was refused since it was
      configured. */
  predicate StaleRecord(s: State, step: Step) {
    && !Synced(s)
    && ((step.Record? && s.phase.Recording? && NowUp(s)) || (step.InitRecord? && s.vpp.Up?))
  }

  /** The steps that break the property. */
  predicate Breaks(s: State, step: Step) {
    || BlindDisconnect(s, step)
    || (Running(s) && Trusted(s) && Refusal(s, step))
    || StaleRecord(s, step)
  }

  predicate Unbroken(s: State, steps: seq<Step>)
    requires CanRun(s, steps)
    decreases |steps|
  {
    steps == [] || (!Breaks(s, steps[0]) && Unbroken(Next(s, steps[0]), steps[1..]))
  }

  /** What all others keep. */
  predicate Sighted(s: State) {
    Linked(s) && Safe(s) && (Blind(s) ==> !Trusted(s))
  }

  lemma {:induction false} StepKeepsSight(s: State, step: Step)
    requires Sighted(s) && Enabled(s, step)
    requires !(InWindow(s) && step.Crash?) && !Breaks(s, step)
    ensures Sighted(Next(s, step))
  {
    StepKeepsLinked(s, step);
  }

  lemma {:induction false} BrokenIsUnsafe(s: State, step: Step)
    requires Safe(s) && Enabled(s, step) && Breaks(s, step)
    ensures !Safe(Next(s, step))
  {
  }

  lemma {:induction false} SafetyFrom(s: State, steps: seq<Step>)
    requires Sighted(s) && CanRun(s, steps) && Calm(s, steps)
    ensures SafeThroughout(s, steps) <==> Unbroken(s, steps)
    decreases |steps|
  {
    if steps != [] {
      var s1 := Next(s, steps[0]);
      if Breaks(s, steps[0]) {
        BrokenIsUnsafe(s, steps[0]);
      } else {
        StepKeepsSight(s, steps[0]);
        SafetyFrom(s1, steps[1..]);
      }
    }
  }

  /** In every run without a crash during init the property holds throughout if and only
      if no check that failed to read the pid disconnects the process recorded, VPP refuses
      no change while recorded, and none between its configuration and the recording that
      is not made up for by then. */
  lemma {:induction false} Safety(s: State, steps: seq<Step>)
    requires Init(s) && CanRun(s, steps) && Calm(s, steps)
    ensures SafeThroughout(s, steps) <==> Unbroken(s, steps)
  {
    SafetyFrom(s, steps);
  }

  lemma {:induction false} TakenFrom(s: State, steps: seq<Step>)
    requires Inv(s) && CanRun(s, steps) && Calm(s, steps) && AllTaken(steps)
    ensures Unbroken(s, steps) <==> NoBlindDisconnect(s, steps)
    decreases |steps|
  {
    if steps != [] {
      StepKeepsInv(s, steps[0]);
      TakenFrom(Next(s, steps[0]), steps[1..]);
    }
  }

  /** Where VPP refuses nothing, the failed reads alone decide. */
  lemma {:induction false} SafetyAllTaken(s: State, steps: seq<Step>)
    requires Init(s) && CanRun(s, steps) && Calm(s, steps) && AllTaken(steps)
    ensures SafeThroughout(s, steps) <==> NoBlindDisconnect(s, steps)
  {
    Safety(s, steps);
    TakenFrom(s, steps);
  }

  /** Such a run exists: a failed read alone, with no crash anywhere, disconnects a
      process that is still recorded as configured. */
  lemma {:induction false} MisreadBreaksSync() returns (s: State, steps: seq<Step>)
    ensures Init(s) && CanRun(s, steps) && Calm(s, steps)
    ensures Crash !in steps && AllTaken(steps) && Running(Run(s, steps))
    ensures Trusted(Run(s, steps)) && !Synced(Run(s, steps))
  {
    s := State(Up(1, map[]), {1}, {}, map[], 0, Starting, false);
    var s1 := Next(s, InitConnect);
    var s2 := Next(s1, InitPopulate);
    var s3 := Next(s2, InitRecord);
    var s4 := Next(s3, ReadPidError(-2));
    var s5 := Next(s4, Compare);
    steps := RunStep(s5, Disconnect, []);
    steps := RunStep(s4, Compare, steps);
    steps := RunStep(s3, ReadPidError(-2), steps);
    steps := RunStep(s2, InitRecord, steps);
    steps := RunStep(s1, InitPopulate, steps);
    steps := RunStep(s, InitConnect, steps);
  }

  /** And so does one where VPP, never crashing and always found, refuses a change. */
  lemma {:induction false} RefusalBreaksSync() returns (s: State, steps: seq<Step>)
    ensures Init(s) && CanRun(s, steps) && Calm(s, steps) && NoBlindDisconnect(s, steps)
    ensures Crash !in steps && Running(Run(s, steps))
    ensures Trusted(Run(s, steps)) && Live(Run(s, steps)) && !Synced(Run(s, steps))
  {
    s := State(Up(1, map[]), {1}, {}, map[], 0, Starting, false);
    var s1 := Next(s, InitConnect);
    var s2 := Next(s1, InitPopulate);
    var s3 := Next(s2, InitRecord);
    var refused := Change(Put("mtu", "9000"), false);
    assert "mtu" in Edited(s3.om, refused.edit) && "mtu" !in s3.om;
    steps := RunStep(s3, refused, []);
    steps := RunStep(s2, InitRecord, steps);
    steps := RunStep(s1, InitPopulate, steps);
    steps := RunStep(s, InitConnect, steps);
  }

  /** One more step in front of a run. */
  lemma {:induction false} RunStep(s: State, step: Step, rest: seq<Step>) returns (steps: seq<Step>)
    requires Enabled(s, step) && !step.Crash?
    requires CanRun(Next(s, step), rest) && Calm(Next(s, step), rest)
    ensures steps == [step] + rest && CanRun(s, steps) && Calm(s, steps)
    ensures Run(s, steps) == Run(Next(s, step), rest)
    ensures !BlindDisconnect(s, step) && NoBlindDisconnect(Next(s, step), rest) ==> NoBlindDisconnect(s, steps)
  {
    steps := [step] + rest;
    assert steps[1..] == rest;
  }

  // ----- a crash during init

  /** The process HW connected to during init is gone. */
  predicate Lost(s: State) {
    InWindow(s) && !Live(s) && s.conn <= s.used
  }

  /** Everything up to, but not including, the recording of the pid. */
  predicate Unrecorded(steps: seq<Step>) {
    forall i :: 0 <= i < |steps| ==> !steps[i].InitRecord? && !steps[i].InitRecordError?
  }

  lemma {:induction false} LostStaysLost(s: State, steps: seq<Step>)
    requires Lost(s) && CanRun(s, steps) && Unrecorded(steps)
    ensures Lost(Run(s, steps))
    decreases |steps|
  {
    if steps != [] {
      LostStaysLost(Next(s, steps[0]), steps[1..]);
    }
  }

  lemma {:induction false} InitWindow(s: State, steps: seq<Step>)
    requires Linked(s) && (s.phase.Starting? || InWindow(s)) && s.conn <= s.used
    requires CanRun(s, steps) && Unrecorded(steps)
    ensures var s' := Run(s, steps);
      && (s'.phase.Starting? || InWindow(s'))
      && (if Calm(s, steps) then Linked(s') else Lost(s'))
    decreases |steps|
  {
    if steps != [] {
      var s1 := Next(s, steps[0]);
      if InWindow(s) && steps[0].Crash? {
        LostStaysLost(s1, steps[1..]);
      } else {
        StepKeepsLinked(s, steps[0]);
        InitWindow(s1, steps[1..]);
      }
    }
  }

  /** When init records a live pid, that process is connected if and only if VPP did not
      crash between the connection and the recording; and configured too, if it refused no
      change until then. */
  lemma {:induction false} InitExact(s: State, steps: seq<Step>)
    requires Init(s) && CanRun(s, steps) && Unrecorded(steps)
    requires Run(s, steps).phase.Initialising? && Run(s, steps).vpp.Up?
    ensures var s' := Next(Run(s, steps), InitRecord);
      && Running(s') && Trusted(s') && (Live(s') <==> Calm(s, steps))
      && (AllTaken(steps) ==> (Synced(s') <==> Calm(s, steps)))
      && (!Calm(s, steps) ==> Stuck(s'))
  {
    InitWindow(s, steps);
    if Calm(s, steps) && AllTaken(steps) {
      RunKeepsInv(s, steps);
    }
  }

  /** The recorded process is alive without a connection, and the check in progress, if
      there is one, will find nothing amiss. */
  predicate Stuck(s: State) {
    && Trusted(s) && !Live(s)
    && (s.phase.Idle? || s.phase == Comparing(s.pidStart))
  }

  /** What a crash during init leaves behind lasts through any number of health checks
      and configuration changes: until VPP crashes again or a pid read fails. */
  lemma {:induction false} StuckPersists(s: State, steps: seq<Step>)
    requires Stuck(s) && CanRun(s, steps)
    requires forall i :: 0 <= i < |steps| ==> !steps[i].Crash? && !steps[i].ReadPidError?
    ensures Stuck(Run(s, steps))
    decreases |steps|
  {
    if steps != [] {
      assert !steps[0].Crash? && !steps[0].ReadPidError?;
      StuckPersists(Next(s, steps[0]), steps[1..]);
    }
  }

  /** A failed read repairs it: the check that cannot find the recorded process connects
      to it and replays the configuration. */
  lemma {:induction false} MisreadRepairs(s: State, err: int) returns (steps: seq<Step>)
    requires Stuck(s) && s.phase.Idle? && err < 0
    ensures steps == [ReadPidError(err), Compare, Disconnect, Connect, Replay, Record]
    ensures CanRun(s, steps) && Run(s, steps).phase.Idle? && Synced(Run(s, steps))
  {
    var s1 := Next(s, ReadPidError(err));
    var s2 := Next(s1, Compare);
    var s3 := Next(s2, Disconnect);
    var s4 := Next(s3, Connect);
    var s5 := Next(s4, Replay);
    steps := RunStep(s5, Record, []);
    steps := RunStep(s4, Replay, steps);
    steps := RunStep(s3, Connect, steps);
    steps := RunStep(s2, Disconnect, steps);
    steps := RunStep(s1, Compare, steps);
    steps := RunStep(s, ReadPidError(err), steps);
  }

  /** Init records the live pid, -ESRCH if there is none, or the error of a failed read; and
      it fails if and only if that is negative. */
  lemma {:induction false} InitOutcome(s: State, step: Step)
    requires s.phase.Initialising? && Enabled(s, step) && (step.InitRecord? || step.InitRecordError?)
    ensures var s' := Next(s, step);
      && s'.pidStart == (if step.InitRecordError? then step.err else if s.vpp.Up? then s.vpp.pid else -3)
      && s'.phase == if s'.pidStart < 0 then InitFailed else Idle
  {
  }

  /** After a failed init nothing of the plugin runs any more. */
  lemma {:induction false} FailedInitIsFinal(s: State, steps: seq<Step>)
    requires s.phase.InitFailed? && CanRun(s, steps)
    ensures forall i :: 0 <= i < |steps| ==> steps[i].Crash? || steps[i].Restart?
    ensures var s' := Run(s, steps);
      s'.phase.InitFailed? && s'.conn == s.conn && s'.om == s.om && s'.pidStart == s.pidStart
    decreases |steps|
  {
    if steps != [] {
      FailedInitIsFinal(Next(s, steps[0]), steps[1..]);
      assert forall i :: 1 <= i < |steps| ==> steps[i] == steps[1..][i - 1];
    }
  }

  // ----- what may happen, and to whom

  /** Nothing keeps VPP from crashing or coming back at any point, nor the configuration
      from changing once VOM is populated, and VPP from refusing the change. */
  lemma {:induction false} AnythingBetween(s: State, pid: nat, boot: Config, edit: Edit, taken: bool)
    ensures s.vpp.Up? ==> Enabled(s, Crash)
    ensures s.vpp.Down? && pid !in s.used ==> Enabled(s, Restart(pid, boot))
    ensures Running(s) || s.phase.Initialising? ==> Enabled(s, Change(edit, taken))
  {
  }

  /** A crash loses the process, and a new one starts with what it boots with, under a pid
      of its own, connected to nothing. A change reaches VOM in one key, and so it does VPP
      if that takes it over a live connection. */
  lemma {:induction false} StepEffects(s: State, step: Step)
    requires Enabled(s, step) && (s.vpp.Up? ==> s.vpp.pid in s.used) && s.conn <= s.used
    ensures step.Crash? ==> Next(s, step).vpp == Down
    ensures step.Restart? ==>
      var s' := Next(s, step);
      s'.vpp == Up(step.pid, step.boot) && step.pid !in s.used && step.pid in s'.used && !Live(s')
    ensures step.Change? ==>
      var s' := Next(s, step);
      && ChangedAt(s.om, s'.om, step.edit)
      && if Live(s) && step.taken
         then s'.vpp.Up? && s'.vpp.pid == s.vpp.pid && ChangedAt(s.vpp.applied, s'.vpp.applied, step.edit)
         else s'.vpp == s.vpp
  {
  }

  /** One key is as the edit says, all others as before. */
  predicate ChangedAt(before: Config, after: Config, edit: Edit) {
    && (edit.Put? ==> edit.key in after && after[edit.key] == edit.value)
    && (edit.Del? ==> edit.key !in after)
    && (forall k :: k in before && k != edit.key ==> k in after && after[k] == before[k])
    && (forall k :: k in after && k != edit.key ==> k in before)
  }

  /** What VPP runs changes only when it crashes or comes back, and over a live connection;
      VOM only with a change and when it is populated; the connection only where the plugin
      connects and disconnects; and the pid is recorded only by init and at the end of a
      check. */
  lemma {:induction false} OnlyBy(s: State, step: Step)
    requires Enabled(s, step)
    ensures var s' := Next(s, step);
      && (s'.vpp != s.vpp ==> step.Crash? || step.Restart? || (Live(s) && (step.Change? || step.Replay?)))
      && (s'.om != s.om ==> step.Change? || (step.InitPopulate? && Live(s)))
      && (s'.conn != s.conn ==> step.InitConnect? || step.Connect? || step.Disconnect?)
      && (s'.pidStart != s.pidStart ==> step.InitRecord? || step.InitRecordError? || step.Record?)
      && s.used <= s'.used
  {
  }

  // ----- convergence

  predicate Steady(step: Step) {
    !step.Crash? && !step.Restart? && !step.ReadPidError? && (step.Change? ==> step.taken)
  }

  predicate AllSteady(steps: seq<Step>) {
    forall i :: 0 <= i < |steps| ==> Steady(steps[i])
  }

  /** A check of a process that stays up, after its pid was read; `lost` if the process
      was recorded without being connected. */
  predicate Converging(s: State, pid: nat, lost: bool) {
    && s.vpp.Up? && s.vpp.pid == pid
    && if lost then Stuck(s)
       else
         match s.phase
         case Idle => s.pidStart == pid && Synced(s)
         case Comparing(now) => now == pid && (s.pidStart == pid ==> Synced(s))
         case Disconnecting(now) => now == pid
         case Connecting(now) => now == pid
         case Replaying(now) => now == pid && Live(s)
         case Recording(now) => now == pid && Synced(s)
         case _ => false
  }

  lemma {:induction false} ConvergingKept(s: State, steps: seq<Step>, pid: nat, lost: bool)
    requires Converging(s, pid, lost) && CanRun(s, steps)
    requires AllSteady(steps)
    ensures Converging(Run(s, steps), pid, lost)
    decreases |steps|
  {
    if steps != [] {
      assert Steady(steps[0]);
      ConvergingKept(Next(s, steps[0]), steps[1..], pid, lost);
    }
  }

  /** In any run without refusals, crashes during init included, a process the plugin is
      connected to has VOM's configuration, but while it is being populated from or replayed to. */
  predicate LiveInv(s: State) {
    && (s.vpp.Up? ==> s.vpp.pid in s.used) && s.conn <= s.used
    && (Live(s) && !s.phase.Populating? && !s.phase.Replaying? ==> Synced(s))
  }

  lemma {:induction false} RunKeepsLiveInv(s: State, steps: seq<Step>)
    requires LiveInv(s) && CanRun(s, steps) && AllTaken(steps)
    ensures LiveInv(Run(s, steps))
    decreases |steps|
  {
    if steps != [] {
      RunKeepsLiveInv(Next(s, steps[0]), steps[1..]);
    }
  }

  /** If one VPP process stays up throughout a health check then, whatever came before,
      the check ends with that process recorded. It is connected and configured then if it
      was when recorded before or was not recorded; and not, if it was recorded without a
      connection, which takes a crash during init. Unless VPP had refused a change those
      are all the cases. */
  lemma {:induction false} Convergence(s: State, before: seq<Step>, check: seq<Step>)
    requires Init(s) && CanRun(s, before)
    requires var s1 := Run(s, before);
      && s1.phase.Idle? && s1.vpp.Up?
      && CanRun(s1, check) && check != [] && check[0].ReadPid?
      && AllSteady(check)
      && Run(s1, check).phase.Idle?
    ensures var s1, s2 := Run(s, before), Run(Run(s, before), check);
      && s2.vpp.Up? && s2.vpp.pid == s1.vpp.pid == s2.pidStart
      && ((Trusted(s1) ==> Synced(s1)) ==> Synced(s2))
      && (Trusted(s1) && !Live(s1) ==> !Synced(s2))
      && (AllTaken(before) ==>
            && (Synced(s2) <==> (Trusted(s1) ==> Live(s1)))
            && (Calm(s, before) ==> Synced(s2)))
  {
    var s1 := Run(s, before);
    if Trusted(s1) && !Live(s1) {
      ConvergingKept(Next(s1, check[0]), check[1..], s1.vpp.pid, true);
    } else if Trusted(s1) ==> Synced(s1) {
      ConvergingKept(Next(s1, check[0]), check[1..], s1.vpp.pid, false);
    } else {
      PidKept(s1, check);
    }
    if AllTaken(before) {
      RunKeepsLiveInv(s, before);
      if Calm(s, before) {
        RunKeepsInv(s, before);
      }
    }
  }

  /** A check of the recorded process leaves it recorded. */
  lemma {:induction false} PidKept(s: State, steps: seq<Step>)
    requires Trusted(s) && CanRun(s, steps) && (s.phase.Idle? || s.phase == Comparing(s.pidStart))
    requires AllSteady(steps)
    ensures var s' := Run(s, steps);
      s'.vpp.Up? && s'.vpp.pid == s.vpp.pid && s'.pidStart == s.pidStart
    decreases |steps|
  {
    if steps != [] {
      assert Steady(steps[0]);
      PidKept(Next(s, steps[0]), steps[1..]);
    }
  }

  /** The steps that finish a check while VPP is up. */
  function Remaining(s: State): seq<Step> {
    match s.phase
    case Comparing(now) =>
      if now == s.pidStart then [Compare] else [Compare, Disconnect, Connect, Replay, Record]
    case Disconnecting(_) => [Disconnect, Connect, Replay, Record]
    case Connecting(_) => [Connect, Replay, Record]
    case Replaying(_) => [Replay, Record]
    case Recording(_) => [Record]
    case _ => []
  }

  /** A check never gets stuck: while VPP is up its own steps take it back to idle. */
  lemma {:induction false} CheckCanFinish(s: State)
    requires Running(s) && s.vpp.Up?
    ensures CanRun(s, Remaining(s)) && Run(s, Remaining(s)).phase.Idle?
    decreases |Remaining(s)|
  {
    if Remaining(s) != [] {
      var s1 := Next(s, Remaining(s)[0]);
      assert Remaining(s)[1..] == Remaining(s1);
      CheckCanFinish(s1);
    }
  }

  // ----- the health check as a program

  /** What happens without the plugin's doing. */
  predicate Environment(step: Step) {
    step.Crash? || step.Restart? || step.Change?
  }

  /** The plugin's own steps among those taken. */
  function Own(steps: seq<Step>): seq<Step> {
    if steps == [] then []
    else
      var last := steps[|steps| - 1];
      Own(steps[..|steps| - 1]) + if Environment(last) then [] else [last]
  }

  /** The pid a check goes by: the live one, or the error of a failed read. */
  function PidRead(s: State, read: Step): int {
    if read.ReadPidError? then read.err else LivePid(s)
  }

  /** `n` refused attempts to connect. */
  function Refused(n: nat): seq<Step> {
    seq(n, _ => ConnectRefused)
  }

  /** The plugin's steps in a check that found the pid changed, so far as it gets. */
  function RecoverySteps(refusals: nat, done: bool): seq<Step> {
    [Disconnect] + Refused(refusals) + if done then [Connect, Replay, Record] else []
  }

  /** One turn of the connect loop: what happens before, and whether VPP, though up, does
      not accept. */
  datatype Attempt = Attempt(before: seq<Step>, refused: bool)

  /** What happens between the steps of a check. */
  datatype Interference = Interference(
    afterRead: seq<Step>, afterCompare: seq<Step>, attempts: seq<Attempt>,
    afterConnect: seq<Step>, afterReplay: seq<Step>)

  /** Runs can be extended at the end. */
  lemma {:induction false} RunSnoc(s: State, steps: seq<Step>, step: Step)
    requires CanRun(s, steps) && Enabled(Run(s, steps), step)
    ensures CanRun(s, steps + [step])
    ensures Run(s, steps + [step]) == Next(Run(s, steps), step)
    decreases |steps|
  {
    if steps == [] {
      assert [] + [step] == [step] && [step][1..] == [];
    } else {
      assert (steps + [step])[1..] == steps[1..] + [step];
      RunSnoc(Next(s, steps[0]), steps[1..], step);
    }
  }

  lemma {:induction false} OwnSnoc(steps: seq<Step>, step: Step)
    ensures Own(steps + [step]) == Own(steps) + if Environment(step) then [] else [step]
  {
    assert (steps + [step])[..|steps|] == steps;
  }

  class Plugin {
    var state: State
    ghost var start: State
    ghost var taken: seq<Step>

    ghost predicate Valid()
      reads this
    {
      CanRun(start, taken) && Run(start, taken) == state
    }

    constructor (s: State)
      ensures Valid() && state == s
    {
      state, start, taken := s, s, [];
    }

    method Take(step: Step)
      requires Valid() && Enabled(state, step)
      modifies this
      ensures Valid() && start == old(start)
      ensures state == Next(old(state), step)
      ensures Own(taken) == Own(old(taken)) + if Environment(step) then [] else [step]
    {
      RunSnoc(start, taken, step);
      OwnSnoc(taken, step);
      state := Next(state, step);
      taken := taken + [step];
    }

    /** Lets the environment take those of some steps that are its own and can be taken. */
    method Disturb(steps: seq<Step>)
      requires Valid()
      modifies this
      ensures Valid() && start == old(start) && Own(taken) == Own(old(taken))
      ensures state.phase == old(state).phase && state.pidStart == old(state).pidStart
      ensures state.misread == old(state).misread
      ensures steps == [] ==> state == old(state)
      ensures old(Live(state)) && AllSteady(steps) ==> Live(state)
      ensures old(Synced(state)) && AllSteady(steps) ==> Synced(state)
    {
      for i := 0 to |steps|
        invariant Valid() && start == old(start) && Own(taken) == Own(old(taken))
        invariant state.phase == old(state).phase && state.pidStart == old(state).pidStart
        invariant state.misread == old(state).misread
        invariant steps == [] ==> state == old(state)
        invariant old(Live(state)) && (forall j :: 0 <= j < i ==> Steady(steps[j])) ==> Live(state)
        invariant old(Synced(state)) && (forall j :: 0 <= j < i ==> Steady(steps[j])) ==> Synced(state)
      {
        if Environment(steps[i]) && Enabled(state, steps[i]) {
          Take(steps[i]);
        }
      }
    }

    /** `while (HW::connect() != true)`, watched for so many attempts. */
    method ConnectLoop(attempts: seq<Attempt>) returns (connected: bool, ghost refusals: nat)
      requires Valid() && state.phase.Connecting?
      modifies this
      ensures Valid() && start == old(start) && state.pidStart == old(state).pidStart
      ensures Own(taken) == Own(old(taken)) + Refused(refusals) + if connected then [Connect] else []
      ensures state.phase
        == if connected then Replaying(old(state).phase.now) else Connecting(old(state).phase.now)
      ensures connected ==> Live(state)
      ensures !connected ==> refusals == |attempts|
    {
      refusals, connected := 0, false;
      var i := 0;
      while i < |attempts|
        invariant 0 <= i <= |attempts| && refusals == i
        invariant Valid() && start == old(start) && state.pidStart == old(state).pidStart
        invariant state.phase == old(state).phase
        invariant Own(taken) == Own(old(taken)) + Refused(refusals)
      {
        Disturb(attempts[i].before);
        if state.vpp.Up? && !attempts[i].refused {
          Take(Connect);
          connected := true;
          return;
        }
        Take(ConnectRefused);
        assert Refused(refusals) + [ConnectRefused] == Refused(refusals + 1);
        refusals := refusals + 1;
        i := i + 1;
      }
    }

    /** Replay, and record the pid the check went by. */
    method Finish(env: Interference)
      requires Valid() && state.phase.Replaying? && Live(state)
      modifies this
      ensures Valid() && start == old(start)
      ensures Own(taken) == Own(old(taken)) + [Replay, Record]
      ensures state.phase.Idle? && state.pidStart == old(state).phase.now
      ensures AllSteady(env.afterConnect) && AllSteady(env.afterReplay) ==> Synced(state)
    {
      Disturb(env.afterConnect);
      Take(Replay);
      Disturb(env.afterReplay);
      Take(Record);
    }

    /** Disconnect, reconnect, replay, and record the pid the check went by. */
    method Recover(env: Interference) returns (done: bool, ghost refusals: nat)
      requires Valid() && state.phase.Disconnecting?
      modifies this
      ensures Valid() && start == old(start)
      ensures Own(taken) == Own(old(taken)) + RecoverySteps(refusals, done)
      ensures done ==> state.phase.Idle? && state.pidStart == old(state).phase.now
      ensures !done ==> state.phase == Connecting(old(state).phase.now) && refusals == |env.attempts|
      ensures done && AllSteady(env.afterConnect) && AllSteady(env.afterReplay) ==> Synced(state)
    {
      Take(Disconnect);
      done, refusals := ConnectLoop(env.attempts);
      if done {
        Finish(env);
      }
    }

    /** `sr_plugin_health_check_cb`, with VPP crashing, coming back and refusing, and the
        configuration changing, between any two of its steps. The steps it takes are those
        of one check, in order, and it either finds the pid it recorded, or is still in the
        connect loop when the watch ends, or comes through with the pid it read recorded;
        and then with the live process connected and configured, unless VPP crashed or
        refused something after the connection. */
    method HealthCheckCb(read: Step, env: Interference) returns (done: bool, ghost refusals: nat)
      requires Valid() && state.phase.Idle?
      requires read.ReadPid? || (read.ReadPidError? && read.err < 0)
      modifies this
      ensures Valid() && start == old(start)
      ensures var now, before := PidRead(old(state), read), old(state).pidStart;
        if now == before then
          && done && state.phase.Idle? && state.pidStart == before
          && Own(taken) == Own(old(taken)) + [read, Compare]
          && (env.afterRead == [] ==> state == old(state).(misread := read.ReadPidError?))
        else
          && Own(taken) == Own(old(taken)) + [read, Compare] + RecoverySteps(refusals, done)
          && (done ==> state.phase.Idle? && state.pidStart == now)
          && (!done ==> state.phase == Connecting(now) && refusals == |env.attempts|)
          && (done && AllSteady(env.afterConnect) && AllSteady(env.afterReplay) ==> Synced(state))
    {
      Take(read);
      Disturb(env.afterRead);
      Take(Compare);
      assert Own(taken) == Own(old(taken)) + [read, Compare];
      if state.phase.Idle? {
        return true, 0;
      }
      Disturb(env.afterCompare);
      done, refusals := Recover(env);
    }
  }
}
