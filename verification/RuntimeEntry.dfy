/**
 One supervised runtime: the entry its launcher, its monitor thread and its readers share,
 and every interleaving of the steps those threads take on it.
 */
module RuntimeEntry {
  import opened Common

  const MAX_BUFFERED_STDOUT_FRAMES: nat := 256
  const OUTPUT_CHANNEL_CAPACITY: nat := 64

  type Bytes = seq<byte>

  /** The bytes of "ALFRED_RUNTIME_READY ". */
  const LEGACY_READY_PREFIX: Bytes :=
    [65, 76, 70, 82, 69, 68, 95, 82, 85, 78, 84, 73, 77, 69, 95, 82, 69, 65, 68, 89, 32]

  datatype Lifecycle = Starting | Ready | Stopping | Exited | Failed {
    predicate Terminal() { Exited? || Failed? }
  }

  datatype Kind =
    | CleanExit | GracefulStop | ForcedStop | CancelledStop | DeadlineStop | StartupFailure | Crash

  datatype ErrorCode =
    | StartupTimeout | StartupCancelled | StartupFailed | ReadinessHandshakeFailed
    | OutputLimitExceeded | DeadlineExceeded | RuntimeCrashed

  datatype Termination = Termination(kind: Kind, exitCode: Option<int>)

  datatype StopReason = NoReason | Requested | Cancelled | StartupTimedOut | DeadlineReached

  datatype Policy = TypedFramesFailClosed | LogsDropOldest

  datatype Readiness = StdoutLineEquals(expected: Bytes) | HttpLoopback {
    predicate Accepts(frame: Bytes) { StdoutLineEquals? && frame == expected }
  }

  // ----- the entry

  datatype EntryState = EntryState(
    lifecycle: Lifecycle,
    termination: Option<Termination>,
    failure: Option<ErrorCode>,
    stdout: seq<Bytes>,
    stop: StopReason)

  const NEW_ENTRY := EntryState(Starting, None, None, [], NoReason)

  function SetReady(e: EntryState): EntryState {
    if e.lifecycle == Starting then e.(lifecycle := Ready) else e
  }

  function SetStopping(e: EntryState): EntryState {
    if e.lifecycle.Terminal() then e else e.(lifecycle := Stopping)
  }

  function Finish(e: EntryState, outcome: Outcome): EntryState {
    e.(lifecycle := outcome.lifecycle, termination := Some(outcome.termination), failure := outcome.failure)
  }

  /** First reason wins: a compare-and-swap from "none". */
  function RequestStop(e: EntryState, reason: StopReason): EntryState {
    if e.stop == NoReason then e.(stop := reason) else e
  }

  predicate PushAccepted(e: EntryState, policy: Policy) {
    |e.stdout| != MAX_BUFFERED_STDOUT_FRAMES || policy == LogsDropOldest
  }

  function PushStdout(e: EntryState, frame: Bytes, policy: Policy): EntryState {
    if |e.stdout| != MAX_BUFFERED_STDOUT_FRAMES then e.(stdout := e.stdout + [frame])
    else if policy == LogsDropOldest then e.(stdout := e.stdout[1..] + [frame])
    else e
  }

  function PopStdout(e: EntryState): EntryState {
    if e.stdout == [] then e else e.(stdout := e.stdout[1..])
  }

  /** The entry as the object its threads share; every method is one locked region. */
  class RuntimeEntry {
    var lifecycle: Lifecycle
    var termination: Option<Termination>
    var failure: Option<ErrorCode>
    var stdout: seq<Bytes>
    var stop: StopReason

    ghost function State(): EntryState
      reads this
    {
      EntryState(lifecycle, termination, failure, stdout, stop)
    }

    constructor ()
      ensures State() == NEW_ENTRY
    {
      lifecycle, termination, failure, stdout, stop := Starting, None, None, [], NoReason;
    }

    method Push(frame: Bytes, policy: Policy) returns (accepted: bool)
      modifies this`stdout
      ensures accepted == PushAccepted(old(State()), policy)
      ensures State() == PushStdout(old(State()), frame, policy)
    {
      if |stdout| == MAX_BUFFERED_STDOUT_FRAMES {
        match policy
        case TypedFramesFailClosed => return false;
        case LogsDropOldest => stdout := stdout[1..];
      }
      stdout := stdout + [frame];
      accepted := true;
    }

    method Pop() returns (frame: Option<Bytes>)
      modifies this`stdout
      ensures State() == PopStdout(old(State()))
      ensures frame == if old(stdout) == [] then None else Some(old(stdout)[0])
    {
      if stdout == [] {
        frame := None;
      } else {
        frame, stdout := Some(stdout[0]), stdout[1..];
      }
    }
  }

  // ----- the threads

  datatype StreamEvent = StdoutFrame(frame: Bytes) | StdoutOversized | StderrLine | StderrOversized

  datatype Outcome = Outcome(lifecycle: Lifecycle, termination: Termination, failure: Option<ErrorCode>)

  /** Why the monitor is on its way out. */
  datatype Ending =
    | ByStop(reason: StopReason, wasStarting: bool, graceful: bool, code: Option<int>)
    | ByExit(code: Option<int>)
    | ByFailure(error: ErrorCode, kind: Kind)

  /** The last drain: still waiting for the readers, or emptying what is left. */
  datatype Drain = Drain(final: bool, failure: Option<ErrorCode>)

  const NEW_DRAIN := Drain(false, None)

  /** Where the monitor thread stands. */
  datatype Monitor =
    | Receiving | Probing | CheckingCancel | CheckingStartup | CheckingDeadline | CheckingStop | Polling
    | EnteringStop(reason: StopReason)
    | AwaitingExit(reason: StopReason, wasStarting: bool)
    | Draining(ending: Ending, drain: Drain)
    | Pushing(frame: Bytes, resume: Monitor)
    | Concluding(ending: Ending, failure: Option<ErrorCode>, sampled: bool)
    | Finished

  datatype Launcher = AwaitingStartup | HasHandle | Refusing(code: ErrorCode) | Refused(code: ErrorCode)

  datatype Probe = NotListening | Healthy | Rejected

  datatype Poll = StillRunning | Gone(code: Option<int>) | Broken

  /** The bounded channel from the readers, whether its receiver is there, and what went through it. */
  datatype Pipe = Pipe(
    channel: seq<StreamEvent>, readersDone: bool, open: bool, emitted: seq<StreamEvent>, received: seq<StreamEvent>)

  /**
   History: what has happened to the entry and to its frames so far. `drainedAll` says the readers were done when
   the channel was last seen empty, `truncated` that the diagnostic about an unfinished reader was written.
   */
  datatype Past = Past(
    accepted: seq<Bytes>, taken: seq<int>, lost: bool, finishes: nat, wasReady: bool, drainedAll: bool, truncated: bool)

  datatype State = State(
    policy: Policy, readiness: Readiness,
    entry: EntryState, monitor: Monitor, launcher: Launcher,
    pipe: Pipe, past: Past)

  function Init(policy: Policy, readiness: Readiness): State {
    State(policy, readiness, NEW_ENTRY, Receiving, AwaitingStartup,
          Pipe([], false, true, [], []), Past([], [], false, 0, false, false, false))
  }

  /** The steps of the reader threads, the monitor (events, loop, ending) and the owner of the launch. */
  datatype Step =
    | ByReader(reader: ReaderStep) | ByEvent(event: EventStep) | ByLoop(loop: LoopStep) | ByEnding(end: EndStep)
    | ByOwner(owner: OwnerStep)

  datatype ReaderStep = Emit(event: StreamEvent) | ReadersFinish

  datatype EventStep = Receive | Push

  datatype LoopStep =
    | NothingToReceive | ProbeHealth(probe: Probe)
    | CheckCancel(cancelled: bool) | CheckStartup(expired: bool) | CheckDeadline(expired: bool) | CheckStop
    | PollProcess(poll: Poll)

  datatype EndStep =
    | EnterStop | PollStopping(poll: Poll) | GiveUpWaiting(code: Option<int>)
    | StopDrainWait | SeeEmpty | SampleReaders | Conclude(forced: Option<int>) | DropReceiver

  datatype OwnerStep =
    | ReadFrame | LaunchSeesReady | LaunchSeesTerminal | LaunchTimesOut | LaunchRefuses | RequestByOwner

  predicate Legacy(frame: Bytes) {
    LEGACY_READY_PREFIX <= frame
  }

  /** Only the main loop and the drain after an exit look for the readiness line. */
  predicate LooksForReadiness(m: Monitor) {
    m.Receiving? || (m.Draining? && m.ending.ByExit?)
  }

  predicate CanReceive(m: Monitor) {
    m.Receiving? || m.AwaitingExit? || m.Draining?
  }

  /** What the monitor does once an event has been handled with the given verdict. */
  function AfterEvent(m: Monitor, verdict: Option<ErrorCode>, lifecycle: Lifecycle): Monitor {
    if verdict.None? then m
    else match m
      case Receiving =>
        Draining(ByFailure(verdict.value, if lifecycle == Ready then Crash else StartupFailure), NEW_DRAIN)
      case Draining(ending, drain) => Draining(ending, drain.(failure := verdict))
      case _ => m
  }

  /** The event leaves the channel. */
  function Take(pipe: Pipe): Pipe
    requires pipe.channel != []
  {
    pipe.(channel := pipe.channel[1..], received := pipe.received + [pipe.channel[0]])
  }

  predicate BecomesReady(s: State, frame: Bytes) {
    s.entry.lifecycle == Starting && LooksForReadiness(s.monitor) && s.readiness.Accepts(frame)
  }

  function DoReceive(s: State): State
    requires s.pipe.channel != []
  {
    var pipe := Take(s.pipe);
    if s.monitor.Draining? && s.monitor.drain.failure.Some? then s.(pipe := pipe, past := s.past.(lost := true))
    else match s.pipe.channel[0]
      case StdoutFrame(frame) =>
        if Legacy(frame) then s.(pipe := pipe)
        else if BecomesReady(s, frame) then
          s.(pipe := pipe, monitor := Pushing(frame, s.monitor), entry := SetReady(s.entry),
             past := s.past.(wasReady := true))
        else s.(pipe := pipe, monitor := Pushing(frame, s.monitor))
      case StdoutOversized =>
        if s.policy == LogsDropOldest then s.(pipe := pipe)
        else s.(pipe := pipe, monitor := AfterEvent(s.monitor, Some(OutputLimitExceeded), s.entry.lifecycle),
                past := s.past.(lost := true))
      case _ => s.(pipe := pipe)
  }

  function DoPush(s: State): State
    requires s.monitor.Pushing?
  {
    var frame, resume := s.monitor.frame, s.monitor.resume;
    if PushAccepted(s.entry, s.policy) then
      s.(entry := PushStdout(s.entry, frame, s.policy), monitor := resume,
         past := s.past.(accepted := s.past.accepted + [frame]))
    else
      s.(monitor := AfterEvent(resume, Some(OutputLimitExceeded), s.entry.lifecycle), past := s.past.(lost := true))
  }

  function DoProbe(s: State, probe: Probe): State {
    match probe
    case NotListening => s.(monitor := CheckingCancel)
    case Healthy =>
      s.(monitor := CheckingCancel, entry := SetReady(s.entry),
         past := s.past.(wasReady := s.past.wasReady || s.entry.lifecycle == Starting))
    case Rejected =>
      s.(monitor := Draining(ByFailure(ReadinessHandshakeFailed, StartupFailure), NEW_DRAIN))
  }

  function DoPoll(s: State, poll: Poll): State {
    match poll
    case StillRunning => s.(monitor := Receiving)
    case Gone(code) => s.(monitor := Draining(ByExit(code), NEW_DRAIN))
    case Broken => s.(monitor := Draining(ByFailure(RuntimeCrashed, Crash), NEW_DRAIN))
  }

  function StopOutcome(reason: StopReason, wasStarting: bool, graceful: bool, code: Option<int>): Outcome
    requires reason != NoReason
  {
    match reason
    case Requested => Outcome(Exited, Termination(if graceful then GracefulStop else ForcedStop, code), None)
    case Cancelled =>
      if wasStarting then Outcome(Failed, Termination(StartupFailure, code), Some(StartupCancelled))
      else Outcome(Exited, Termination(CancelledStop, code), None)
    case StartupTimedOut => Outcome(Failed, Termination(StartupFailure, code), Some(StartupTimeout))
    case DeadlineReached => Outcome(Failed, Termination(DeadlineStop, code), Some(DeadlineExceeded))
  }

  function ExitOutcome(code: Option<int>, failure: Option<ErrorCode>, lifecycle: Lifecycle): Outcome {
    if failure.Some? then Outcome(Failed, Termination(Crash, code), failure)
    else if lifecycle == Ready then
      if code == Some(0) then Outcome(Exited, Termination(CleanExit, code), None)
      else Outcome(Failed, Termination(Crash, code), Some(RuntimeCrashed))
    else Outcome(Failed, Termination(StartupFailure, code), Some(StartupFailed))
  }

  function EndOutcome(ending: Ending, failure: Option<ErrorCode>, lifecycle: Lifecycle, forced: Option<int>): Outcome
    requires ending.ByStop? ==> ending.reason != NoReason
  {
    match ending
    case ByStop(reason, wasStarting, graceful, code) => StopOutcome(reason, wasStarting, graceful, code)
    case ByExit(code) => ExitOutcome(code, failure, lifecycle)
    case ByFailure(error, kind) => Outcome(Failed, Termination(kind, forced), Some(error))
  }

  function DoConclude(s: State, forced: Option<int>): State
    requires s.monitor.Concluding?
    requires s.monitor.ending.ByStop? ==> s.monitor.ending.reason != NoReason
  {
    s.(entry := Finish(s.entry, EndOutcome(s.monitor.ending, s.monitor.failure, s.entry.lifecycle, forced)),
       monitor := Finished, past := s.past.(finishes := s.past.finishes + 1))
  }

  function DoReadFrame(s: State): State {
    if s.entry.stdout == [] then s
    else
      s.(entry := PopStdout(s.entry),
         past := s.past.(taken := s.past.taken + [|s.past.accepted| - |s.entry.stdout|]))
  }

  /** What a refused launch asks the monitor to do. */
  function RefusalReason(code: ErrorCode): StopReason {
    match code
    case StartupCancelled => Cancelled
    case StartupTimeout => StartupTimedOut
    case _ => Requested
  }

  predicate ReaderEnabled(s: State, step: ReaderStep) {
    step.Emit? ==> !s.pipe.readersDone && s.pipe.open && |s.pipe.channel| < OUTPUT_CHANNEL_CAPACITY
  }

  function NextByReader(s: State, step: ReaderStep): State {
    match step
    case Emit(event) => s.(pipe := s.pipe.(channel := s.pipe.channel + [event], emitted := s.pipe.emitted + [event]))
    case ReadersFinish => s.(pipe := s.pipe.(readersDone := true))
  }

  predicate EventEnabled(s: State, step: EventStep) {
    match step
    case Receive => CanReceive(s.monitor) && s.pipe.channel != []
    case Push => s.monitor.Pushing?
  }

  function NextByEvent(s: State, step: EventStep): State
    requires EventEnabled(s, step)
  {
    match step
    case Receive => DoReceive(s)
    case Push => DoPush(s)
  }

  predicate LoopEnabled(s: State, step: LoopStep) {
    match step
    case NothingToReceive => s.monitor.Receiving? && s.pipe.channel == []
    case ProbeHealth(probe) =>
      s.monitor.Probing? && (s.readiness.StdoutLineEquals? || s.entry.lifecycle != Starting ==> probe == NotListening)
    case CheckCancel(_) => s.monitor.CheckingCancel?
    case CheckStartup(expired) => s.monitor.CheckingStartup? && (s.entry.lifecycle != Starting ==> !expired)
    case CheckDeadline(_) => s.monitor.CheckingDeadline?
    case CheckStop => s.monitor.CheckingStop?
    case PollProcess(_) => s.monitor.Polling?
  }

  function NextByLoop(s: State, step: LoopStep): State {
    match step
    case NothingToReceive => s.(monitor := Probing)
    case ProbeHealth(probe) => DoProbe(s, probe)
    case CheckCancel(cancelled) =>
      s.(monitor := CheckingStartup, entry := if cancelled then RequestStop(s.entry, Cancelled) else s.entry)
    case CheckStartup(expired) =>
      s.(monitor := CheckingDeadline, entry := if expired then RequestStop(s.entry, StartupTimedOut) else s.entry)
    case CheckDeadline(expired) =>
      s.(monitor := CheckingStop, entry := if expired then RequestStop(s.entry, DeadlineReached) else s.entry)
    case CheckStop => s.(monitor := if s.entry.stop == NoReason then Polling else EnteringStop(s.entry.stop))
    case PollProcess(poll) => DoPoll(s, poll)
  }

  predicate EndEnabled(s: State, step: EndStep) {
    match step
    case EnterStop => s.monitor.EnteringStop?
    case PollStopping(poll) => s.monitor.AwaitingExit? && !poll.Broken?
    case GiveUpWaiting(_) => s.monitor.AwaitingExit?
    case StopDrainWait => s.monitor.Draining? && !s.monitor.drain.final
    case SeeEmpty => s.monitor.Draining? && s.monitor.drain.final && s.pipe.channel == []
    case SampleReaders => s.monitor.Concluding? && !s.monitor.sampled
    case Conclude(_) =>
      s.monitor.Concluding? && s.monitor.sampled && (s.monitor.ending.ByStop? ==> s.monitor.ending.reason != NoReason)
    case DropReceiver => s.monitor.Finished? && s.pipe.open
  }

  function NextByEnding(s: State, step: EndStep): State
    requires EndEnabled(s, step)
  {
    match step
    case EnterStop =>
      s.(monitor := AwaitingExit(s.monitor.reason, s.entry.lifecycle == Starting), entry := SetStopping(s.entry))
    case PollStopping(poll) =>
      if poll.StillRunning? then s
      else s.(monitor := Draining(ByStop(s.monitor.reason, s.monitor.wasStarting, true, poll.code), NEW_DRAIN))
    case GiveUpWaiting(code) =>
      s.(monitor := Draining(ByStop(s.monitor.reason, s.monitor.wasStarting, false, code), NEW_DRAIN))
    case StopDrainWait =>
      s.(monitor := s.monitor.(drain := s.monitor.drain.(final := true)))
    case SeeEmpty =>
      s.(monitor := Concluding(s.monitor.ending, s.monitor.drain.failure, false),
         past := s.past.(drainedAll := s.pipe.readersDone))
    case SampleReaders =>
      s.(monitor := s.monitor.(sampled := true), past := s.past.(truncated := !s.pipe.readersDone))
    case Conclude(forced) => DoConclude(s, forced)
    case DropReceiver => s.(pipe := s.pipe.(open := false))
  }

  predicate OwnerEnabled(s: State, step: OwnerStep) {
    match step
    case ReadFrame => true
    case LaunchSeesReady => s.launcher.AwaitingStartup? && s.entry.lifecycle == Ready
    case LaunchSeesTerminal => s.launcher.AwaitingStartup? && s.entry.lifecycle.Terminal()
    case LaunchTimesOut => s.launcher.AwaitingStartup?
    case LaunchRefuses => s.launcher.Refusing?
    case RequestByOwner => s.launcher.HasHandle? || s.launcher.Refused?
  }

  function NextByOwner(s: State, step: OwnerStep): State
    requires OwnerEnabled(s, step)
  {
    match step
    case ReadFrame => DoReadFrame(s)
    case LaunchSeesReady => s.(launcher := HasHandle)
    case LaunchSeesTerminal =>
      s.(launcher := Refusing(if s.entry.failure.Some? then s.entry.failure.value else StartupFailed))
    case LaunchTimesOut => s.(launcher := Refusing(StartupTimeout))
    case LaunchRefuses =>
      s.(launcher := Refused(s.launcher.code), entry := RequestStop(s.entry, RefusalReason(s.launcher.code)))
    case RequestByOwner => s.(entry := RequestStop(s.entry, Requested))
  }

  predicate Enabled(s: State, step: Step) {
    match step
    case ByReader(reader) => ReaderEnabled(s, reader)
    case ByEvent(event) => EventEnabled(s, event)
    case ByLoop(loop) => LoopEnabled(s, loop)
    case ByEnding(end) => EndEnabled(s, end)
    case ByOwner(owner) => OwnerEnabled(s, owner)
  }

  function Next(s: State, step: Step): State
    requires Enabled(s, step)
  {
    match step
    case ByReader(reader) => NextByReader(s, reader)
    case ByEvent(event) => NextByEvent(s, event)
    case ByLoop(loop) => NextByLoop(s, loop)
    case ByEnding(end) => NextByEnding(s, end)
    case ByOwner(owner) => NextByOwner(s, owner)
  }

  // ----- runs

  /** A run: a start state and any sequence of enabled steps, in any interleaving. */
  ghost predicate IsRun(run: seq<State>) {
    && run != []
    && (exists policy, readiness :: run[0] == Init(policy, readiness))
    && forall i :: 0 <= i < |run| - 1 ==> MovesAt(run, i)
  }

  ghost predicate MovesAt(run: seq<State>, i: nat)
    requires i + 1 < |run|
  {
    Moves(run[i], run[i + 1])
  }

  ghost predicate Moves(s: State, t: State) {
    exists step :: Enabled(s, step) && t == Next(s, step)
  }

  // ----- lifecycle

  /** The place an event being pushed was received from. */
  function Context(m: Monitor): Monitor {
    if m.Pushing? then m.resume else m
  }

  predicate InStop(m: Monitor) {
    m.AwaitingExit? || ((m.Draining? || m.Concluding?) && m.ending.ByStop?)
  }

  function StopReasonOf(m: Monitor): StopReason {
    match m
    case EnteringStop(reason) => reason
    case AwaitingExit(reason, _) => reason
    case Draining(ByStop(reason, _, _, _), _) => reason
    case Concluding(ByStop(reason, _, _, _), _, _) => reason
    case _ => NoReason
  }

  predicate SawStarting(m: Monitor) {
    match m
    case AwaitingExit(_, wasStarting) => wasStarting
    case Draining(ByStop(_, wasStarting, _, _), _) => wasStarting
    case Concluding(ByStop(_, wasStarting, _, _), _, _) => wasStarting
    case _ => true
  }

  predicate MonitorShape(s: State) {
    var m := Context(s.monitor);
    && (s.monitor.Pushing? ==> CanReceive(m))
    && (InStop(m) || m.EnteringStop? ==> StopReasonOf(m) != NoReason && StopReasonOf(m) == s.entry.stop)
    && (InStop(m) <==> s.entry.lifecycle == Stopping)
  }

  /** The outcomes a finished entry can show. */
  predicate PossibleOutcome(lifecycle: Lifecycle, kind: Kind, failure: Option<ErrorCode>) {
    match kind
    case CleanExit | GracefulStop | ForcedStop | CancelledStop => lifecycle == Exited && failure == None
    case DeadlineStop => lifecycle == Failed && failure == Some(DeadlineExceeded)
    case StartupFailure =>
      lifecycle == Failed && failure in {Some(StartupTimeout), Some(StartupCancelled), Some(StartupFailed),
                                         Some(ReadinessHandshakeFailed), Some(OutputLimitExceeded)}
    case Crash => lifecycle == Failed && failure in {Some(OutputLimitExceeded), Some(RuntimeCrashed)}
  }

  predicate FailureShape(m: Monitor) {
    match m
    case Draining(ByFailure(error, kind), _) => PossibleOutcome(Failed, kind, Some(error))
    case Draining(_, drain) => drain.failure in {None, Some(OutputLimitExceeded)}
    case Concluding(ByFailure(error, kind), _, _) => PossibleOutcome(Failed, kind, Some(error))
    case Concluding(_, failure, _) => failure in {None, Some(OutputLimitExceeded)}
    case _ => true
  }

  predicate EntryShape(s: State) {
    && (s.entry.lifecycle.Terminal() <==> s.monitor.Finished?)
    && s.past.finishes == (if s.monitor.Finished? then 1 else 0)
    && (s.entry.termination.Some? <==> s.entry.lifecycle.Terminal())
    && (s.entry.failure.Some? <==> s.entry.lifecycle == Failed)
    && (s.entry.termination.Some? ==>
          PossibleOutcome(s.entry.lifecycle, s.entry.termination.value.kind, s.entry.failure))
    && FailureShape(Context(s.monitor))
  }

  /** Who may have asked for a stop, and what that says about readiness. */
  predicate ReadyShape(s: State) {
    var m := Context(s.monitor);
    && (s.entry.lifecycle in {Ready, Exited} ==> s.past.wasReady)
    && (!SawStarting(m) ==> s.past.wasReady)
    && (s.entry.stop == Requested ==> s.past.wasReady || s.entry.lifecycle.Terminal())
    && (s.launcher.HasHandle? ==> s.past.wasReady)
    && (s.launcher.Refusing? ==> s.launcher.code == StartupTimeout || s.entry.lifecycle.Terminal())
    && (s.launcher.Refused? ==> s.entry.stop != NoReason)
  }

  predicate LifeInv(s: State) {
    MonitorShape(s) && EntryShape(s) && ReadyShape(s)
  }

  lemma LifeKeptByReceive(s: State)
    requires EventEnabled(s, Receive) && LifeInv(s)
    ensures LifeInv(DoReceive(s))
  {
    hide Legacy;
    if s.monitor.Draining? && s.monitor.drain.failure.Some? {
      hide PossibleOutcome;
    } else if s.pipe.channel[0].StdoutFrame? {
      hide PossibleOutcome;
    } else if s.pipe.channel[0].StdoutOversized? && s.policy != LogsDropOldest {
      OversizedShape(s.monitor, s.entry.lifecycle);
      hide FailureShape, AfterEvent, PossibleOutcome;
    } else {
      hide PossibleOutcome;
    }
  }

  lemma OversizedShape(m: Monitor, lifecycle: Lifecycle)
    requires CanReceive(m) && FailureShape(m)
    ensures var n := AfterEvent(m, Some(OutputLimitExceeded), lifecycle);
            FailureShape(n) && CanReceive(n) && InStop(n) == InStop(m) && StopReasonOf(n) == StopReasonOf(m)
            && SawStarting(n) == SawStarting(m)
  {
  }

  lemma LifeKeptByPush(s: State)
    requires EventEnabled(s, Push) && LifeInv(s)
    ensures LifeInv(DoPush(s))
  {
    if !PushAccepted(s.entry, s.policy) {
      OversizedShape(s.monitor.resume, s.entry.lifecycle);
      hide FailureShape, AfterEvent, PossibleOutcome;
    }
  }

  lemma LifeKeptByProbe(s: State, probe: Probe)
    requires LoopEnabled(s, ProbeHealth(probe)) && LifeInv(s)
    ensures LifeInv(DoProbe(s, probe))
  {
  }

  lemma LifeKeptByLoop(s: State, step: LoopStep)
    requires LoopEnabled(s, step) && LifeInv(s)
    ensures LifeInv(NextByLoop(s, step))
  {
    if step.ProbeHealth? {
      LifeKeptByProbe(s, step.probe);
    } else if !step.PollProcess? {
      hide PossibleOutcome;
    }
  }

  lemma LifeKeptByConclude(s: State, forced: Option<int>)
    requires EndEnabled(s, Conclude(forced)) && LifeInv(s)
    ensures LifeInv(DoConclude(s, forced))
  {
  }

  lemma LifeKeptByEnding(s: State, step: EndStep)
    requires EndEnabled(s, step) && LifeInv(s)
    ensures LifeInv(NextByEnding(s, step))
  {
    if step.Conclude? {
      LifeKeptByConclude(s, step.forced);
    } else {
      hide PossibleOutcome;
    }
  }

  lemma LifeKeptByOwner(s: State, step: OwnerStep)
    requires OwnerEnabled(s, step) && LifeInv(s)
    ensures LifeInv(NextByOwner(s, step))
  {
    hide PossibleOutcome, FailureShape;
  }

  lemma LifeKept(s: State, step: Step)
    requires Enabled(s, step) && LifeInv(s)
    ensures LifeInv(Next(s, step))
  {
    match step
    case ByReader(reader) => hide PossibleOutcome, FailureShape;
    case ByEvent(Receive) => LifeKeptByReceive(s); hide *;
    case ByEvent(Push) => LifeKeptByPush(s); hide *;
    case ByLoop(loop) => LifeKeptByLoop(s, loop); hide *;
    case ByEnding(end) => LifeKeptByEnding(s, end); hide *;
    case ByOwner(owner) => LifeKeptByOwner(s, owner); hide *;
  }

  // ----- frames

  /** The stdout frames among some events, without the legacy control lines. */
  function Retained(events: seq<StreamEvent>): seq<Bytes> {
    if events == [] then []
    else
      var last := events[|events| - 1];
      Retained(events[..|events| - 1]) +
      if last.StdoutFrame? && !Legacy(last.frame) then [last.frame] else []
  }

  lemma RetainedSnoc(events: seq<StreamEvent>, last: StreamEvent)
    ensures Retained(events + [last]) ==
            Retained(events) + if last.StdoutFrame? && !Legacy(last.frame) then [last.frame] else []
  {
    assert (events + [last])[..|events|] == events;
  }

  function Waiting(m: Monitor): seq<Bytes> {
    if m.Pushing? then [m.frame] else []
  }

  /** How many accepted frames have left the queue, to a reader or by eviction. */
  function Departed(s: State): int {
    |s.past.accepted| - |s.entry.stdout|
  }

  predicate QueueShape(s: State) {
    && |s.entry.stdout| <= MAX_BUFFERED_STDOUT_FRAMES
    && 0 <= Departed(s) && s.entry.stdout == s.past.accepted[Departed(s)..]
    && (forall i :: 0 <= i < |s.past.taken| ==> 0 <= s.past.taken[i] < Departed(s))
    && (forall i, j :: 0 <= i < j < |s.past.taken| ==> s.past.taken[i] < s.past.taken[j])
    && (s.policy == TypedFramesFailClosed ==>
          |s.past.taken| == Departed(s) && forall i :: 0 <= i < |s.past.taken| ==> s.past.taken[i] == i)
  }

  /** Where a frame may have been lost: nowhere under drop-oldest, and only on the way to a failure or a stop. */
  predicate LossAllowed(m: Monitor) {
    || InStop(m)
    || (m.Draining? && (m.ending.ByFailure? || m.drain.failure.Some?))
    || (m.Concluding? && (m.ending.ByFailure? || m.failure.Some?))
    || m.Finished?
  }

  predicate FlowShape(s: State) {
    var m := Context(s.monitor);
    && |s.pipe.channel| <= OUTPUT_CHANNEL_CAPACITY
    && s.pipe.emitted == s.pipe.received + s.pipe.channel
    && (!s.past.lost ==> s.past.accepted + Waiting(s.monitor) == Retained(s.pipe.received))
    && (s.past.lost ==> s.policy == TypedFramesFailClosed && LossAllowed(m))
    && (s.monitor.Pushing? ==> CanReceive(m) && (m.Draining? ==> m.drain.failure.None?))
    && (m.Draining? && m.drain.failure.Some? ==> s.policy == TypedFramesFailClosed)
  }

  predicate DrainShape(s: State) {
    var m := Context(s.monitor);
    && (s.past.drainedAll ==>
          s.pipe.readersDone && s.pipe.channel == [] && (s.monitor.Concluding? || s.monitor.Finished?))
    && (s.monitor.Finished? || s.pipe.open)
    && (s.entry.termination.Some? && s.entry.termination.value.kind == CleanExit ==> !s.past.lost)
    && (s.monitor.Finished? <==> s.entry.termination.Some?)
  }

  predicate FrameInv(s: State) {
    QueueShape(s) && FlowShape(s) && DrainShape(s)
  }

  lemma QueueKeptByPush(s: State)
    requires s.monitor.Pushing? && QueueShape(s)
    ensures QueueShape(DoPush(s))
  {
    hide AfterEvent;
  }

  lemma QueueKeptByRead(s: State)
    requires QueueShape(s)
    ensures QueueShape(DoReadFrame(s))
  {
  }

  predicate SameQueue(s: State, t: State) {
    && t.entry.stdout == s.entry.stdout && t.policy == s.policy
    && t.past.accepted == s.past.accepted && t.past.taken == s.past.taken
  }

  lemma QueueUntouchedByLoop(s: State, step: LoopStep)
    requires LoopEnabled(s, step)
    ensures SameQueue(s, NextByLoop(s, step))
  {
  }

  lemma QueueUntouchedByEnding(s: State, step: EndStep)
    requires EndEnabled(s, step)
    ensures SameQueue(s, NextByEnding(s, step))
  {
    hide StopOutcome, ExitOutcome;
  }

  lemma QueueUntouchedByReceive(s: State)
    requires EventEnabled(s, Receive)
    ensures SameQueue(s, DoReceive(s))
  {
    hide Legacy, AfterEvent;
  }

  lemma QueueKept(s: State, step: Step)
    requires Enabled(s, step) && QueueShape(s)
    ensures QueueShape(Next(s, step))
  {
    match step
    case ByReader(reader) =>
    case ByEvent(Push) => QueueKeptByPush(s); hide DoPush;
    case ByEvent(Receive) => QueueUntouchedByReceive(s); hide DoReceive;
    case ByLoop(loop) => QueueUntouchedByLoop(s, loop); hide NextByLoop;
    case ByEnding(end) => QueueUntouchedByEnding(s, end); hide NextByEnding;
    case ByOwner(owner) => QueueKeptByRead(s); hide DoReadFrame;
  }

  /** Taking an event out of the channel keeps the account of what was sent. */
  lemma TakeConserves(pipe: Pipe)
    requires pipe.channel != [] && pipe.emitted == pipe.received + pipe.channel
    ensures Take(pipe).emitted == Take(pipe).received + Take(pipe).channel
    ensures Retained(Take(pipe).received) ==
            Retained(pipe.received) +
            if pipe.channel[0].StdoutFrame? && !Legacy(pipe.channel[0].frame) then [pipe.channel[0].frame] else []
  {
    RetainedSnoc(pipe.received, pipe.channel[0]);
  }

  predicate GivesFrame(event: StreamEvent) {
    event.StdoutFrame? && !Legacy(event.frame)
  }

  lemma FlowKeptByReceive(s: State)
    requires EventEnabled(s, Receive) && FlowShape(s)
    ensures FlowShape(DoReceive(s))
  {
    hide FlowShape, DoReceive;
    if GivesFrame(s.pipe.channel[0]) {
      FlowKeptByFrame(s);
    } else {
      FlowKeptByOther(s);
    }
  }

  lemma FlowKeptByFrame(s: State)
    requires EventEnabled(s, Receive) && FlowShape(s) && GivesFrame(s.pipe.channel[0])
    ensures FlowShape(DoReceive(s))
  {
    TakeConserves(s.pipe);
    assert |Take(s.pipe).channel| <= OUTPUT_CHANNEL_CAPACITY;
    hide Legacy, Retained, Take, SetReady, BecomesReady;
  }

  lemma FlowKeptByOther(s: State)
    requires EventEnabled(s, Receive) && FlowShape(s) && !GivesFrame(s.pipe.channel[0])
    ensures FlowShape(DoReceive(s))
  {
    TakeConserves(s.pipe);
    assert |Take(s.pipe).channel| <= OUTPUT_CHANNEL_CAPACITY;
    assert Retained(s.pipe.received) + [] == Retained(s.pipe.received);
    hide Legacy, Retained, Take, SetReady, BecomesReady;
  }

  lemma FlowKeptByPush(s: State)
    requires EventEnabled(s, Push) && FlowShape(s)
    ensures FlowShape(DoPush(s))
  {
    hide Retained;
  }

  lemma FlowKeptByLoop(s: State, step: LoopStep)
    requires LoopEnabled(s, step) && FlowShape(s)
    ensures FlowShape(NextByLoop(s, step))
  {
    hide Retained, RequestStop;
  }

  lemma FlowKeptByEnding(s: State, step: EndStep)
    requires EndEnabled(s, step) && FlowShape(s)
    ensures FlowShape(NextByEnding(s, step))
  {
    hide Retained, StopOutcome, ExitOutcome, SetStopping;
  }

  lemma FlowKeptByOwner(s: State, step: OwnerStep)
    requires OwnerEnabled(s, step) && FlowShape(s)
    ensures FlowShape(NextByOwner(s, step))
  {
    hide Retained, RequestStop;
  }

  lemma FlowKept(s: State, step: Step)
    requires Enabled(s, step) && FlowShape(s)
    ensures FlowShape(Next(s, step))
  {
    match step
    case ByReader(reader) => hide Retained;
    case ByEvent(Receive) => FlowKeptByReceive(s); hide *;
    case ByEvent(Push) => FlowKeptByPush(s); hide *;
    case ByLoop(loop) => FlowKeptByLoop(s, loop); hide *;
    case ByEnding(end) => FlowKeptByEnding(s, end); hide *;
    case ByOwner(owner) => FlowKeptByOwner(s, owner); hide *;
  }

  lemma DrainKeptByEvent(s: State, step: EventStep)
    requires EventEnabled(s, step) && FlowShape(s) && DrainShape(s)
    ensures DrainShape(NextByEvent(s, step))
  {
    hide Retained, Legacy;
  }

  lemma DrainKeptByEnding(s: State, step: EndStep)
    requires EndEnabled(s, step) && FailureShape(Context(s.monitor)) && FlowShape(s) && DrainShape(s)
    ensures DrainShape(NextByEnding(s, step))
  {
    hide Retained;
  }

  lemma DrainKept(s: State, step: Step)
    requires Enabled(s, step) && FailureShape(Context(s.monitor)) && FlowShape(s) && DrainShape(s)
    ensures DrainShape(Next(s, step))
  {
    match step
    case ByReader(reader) => hide Retained;
    case ByEvent(event) => DrainKeptByEvent(s, event); hide *;
    case ByLoop(loop) => hide Retained;
    case ByEnding(end) => DrainKeptByEnding(s, end); hide *;
    case ByOwner(owner) => hide Retained;
  }

  lemma FrameKept(s: State, step: Step)
    requires Enabled(s, step) && LifeInv(s) && FrameInv(s)
    ensures FrameInv(Next(s, step))
  {
    QueueKept(s, step);
    FlowKept(s, step);
    DrainKept(s, step);
    hide QueueShape, FlowShape, DrainShape;
  }

  // ----- what holds in every run

  lemma {:induction false} RunInvariants(run: seq<State>, i: nat)
    requires IsRun(run) && i < |run|
    ensures LifeInv(run[i]) && FrameInv(run[i])
  {
    if i == 0 {
      var policy, readiness :| run[0] == Init(policy, readiness);
    } else {
      RunInvariants(run, i - 1);
      assert MovesAt(run, i - 1);
      var step :| Enabled(run[i - 1], step) && run[i] == Next(run[i - 1], step);
      LifeKept(run[i - 1], step);
      FrameKept(run[i - 1], step);
    }
  }

  /** The monitor finishes an entry once, and the terminal record is there exactly when the entry is terminal. */
  lemma FinishedExactlyOnce(run: seq<State>, i: nat)
    requires IsRun(run) && i < |run|
    ensures var s := run[i];
            && (s.entry.lifecycle.Terminal() <==> s.past.finishes == 1) && s.past.finishes <= 1
            && (s.entry.lifecycle.Terminal() <==> s.entry.termination.Some?)
            && (s.entry.lifecycle == Failed <==> s.entry.failure.Some?)
    ensures run[i].entry.termination.Some? ==>
              PossibleOutcome(run[i].entry.lifecycle, run[i].entry.termination.value.kind, run[i].entry.failure)
  {
    RunInvariants(run, i);
    hide PossibleOutcome;
  }

  /** A terminal record stays as it is, and so does a stop reason. */
  predicate VerdictKept(s: EntryState, t: EntryState) {
    && (s.lifecycle.Terminal() ==>
          t.lifecycle == s.lifecycle && t.termination == s.termination && t.failure == s.failure)
    && (s.stop != NoReason ==> t.stop == s.stop)
  }

  lemma MoveKeepsVerdict(s: State, t: State)
    requires Moves(s, t) && LifeInv(s)
    ensures VerdictKept(s.entry, t.entry)
  {
    hide PossibleOutcome, FailureShape, Legacy, AfterEvent;
    var step :| Enabled(s, step) && t == Next(s, step);
  }

  /** Terminal states are absorbing, and the first stop reason is never replaced. */
  lemma {:induction false} VerdictsAreFinal(run: seq<State>, i: nat, j: nat)
    requires IsRun(run) && i <= j < |run|
    ensures VerdictKept(run[i].entry, run[j].entry)
  {
    if i < j {
      VerdictsAreFinal(run, i, j - 1);
      RunInvariants(run, j - 1);
      assert MovesAt(run, j - 1);
      MoveKeepsVerdict(run[j - 1], run[j]);
      hide Moves, LifeInv, FrameInv;
    }
  }

  lemma ReadinessIsSeen(s: State, step: Step)
    requires Enabled(s, step) && LifeInv(s)
    ensures Next(s, step).past.wasReady && !s.past.wasReady ==> Next(s, step).entry.lifecycle == Ready
  {
    hide PossibleOutcome, FailureShape, Legacy, AfterEvent;
  }

  lemma {:induction false} WasReadyMeansReady(run: seq<State>, i: nat)
    requires IsRun(run) && i < |run| && run[i].past.wasReady
    ensures exists k :: 0 <= k <= i && run[k].entry.lifecycle == Ready
  {
    if i > 0 && run[i - 1].past.wasReady {
      WasReadyMeansReady(run, i - 1);
    } else if i > 0 {
      RunInvariants(run, i - 1);
      assert MovesAt(run, i - 1);
      var step :| Enabled(run[i - 1], step) && run[i] == Next(run[i - 1], step);
      ReadinessIsSeen(run[i - 1], step);
    }
  }

  /** An entry that exited, or whose launcher got a handle, was ready at some earlier moment. */
  lemma ExitedWasReady(run: seq<State>, i: nat)
    requires IsRun(run) && i < |run|
    requires run[i].entry.lifecycle == Exited || run[i].launcher.HasHandle?
    ensures exists k :: 0 <= k <= i && run[k].entry.lifecycle == Ready
  {
    RunInvariants(run, i);
    WasReadyMeansReady(run, i);
  }

  /** The frames handed to the reader so far. */
  ghost function Delivered(s: State): seq<Bytes>
    requires QueueShape(s)
  {
    seq(|s.past.taken|, i requires 0 <= i < |s.past.taken| => s.past.accepted[s.past.taken[i]])
  }

  predicate ExitedCleanly(s: State) {
    s.entry.termination.Some? && s.entry.termination.value.kind == CleanExit
  }

  lemma {:induction false} RetainedConcat(a: seq<StreamEvent>, b: seq<StreamEvent>)
    ensures Retained(a + b) == Retained(a) + Retained(b)
    decreases |b|
  {
    assert Retained([]) == [];
    hide Retained, Legacy;
    if b == [] {
      assert a + b == a;
    } else {
      var front, last := b[..|b| - 1], b[|b| - 1];
      RetainedConcat(a, front);
      assert a + b == (a + front) + [last] && b == front + [last];
      RetainedSnoc(a + front, last);
      RetainedSnoc(front, last);
      var x, y := Retained(a), Retained(front);
      var kept := if last.StdoutFrame? && !Legacy(last.frame) then [last.frame] else [];
      assert x + y + kept == x + (y + kept);
    }
  }

  /**
   Under the fail-closed policy nothing accepted is skipped, and nothing received is lost before a failure or
   a stop, nor at a clean exit. A clean exit kept every frame ever sent exactly if none was sent after the
   channel was last seen empty, and surely if the readers were done by then.
   */
  lemma FailClosedHasNoGap(run: seq<State>, i: nat)
    requires IsRun(run) && i < |run| && run[i].policy == TypedFramesFailClosed
    ensures QueueShape(run[i])
    ensures Delivered(run[i]) + run[i].entry.stdout == run[i].past.accepted
    ensures !LossAllowed(Context(run[i].monitor)) ==>
              Delivered(run[i]) + run[i].entry.stdout + Waiting(run[i].monitor) == Retained(run[i].pipe.received)
    ensures ExitedCleanly(run[i]) ==> Delivered(run[i]) + run[i].entry.stdout == Retained(run[i].pipe.received)
    ensures ExitedCleanly(run[i]) ==>
              (Delivered(run[i]) + run[i].entry.stdout == Retained(run[i].pipe.emitted)
               <==> Retained(run[i].pipe.channel) == [])
    ensures ExitedCleanly(run[i]) && run[i].past.drainedAll ==>
              Delivered(run[i]) + run[i].entry.stdout == Retained(run[i].pipe.emitted)
  {
    RunInvariants(run, i);
    var s := run[i];
    assert Delivered(s) == s.past.accepted[..Departed(s)];
    assert s.past.accepted == s.past.accepted[..Departed(s)] + s.past.accepted[Departed(s)..];
    RetainedConcat(s.pipe.received, s.pipe.channel);
    assert Retained([]) == [];
    hide Retained, LifeInv, LossAllowed;
    assert s.monitor.Finished? ==> s.past.accepted + [] == s.past.accepted;
    var got, left := Retained(s.pipe.received), Retained(s.pipe.channel);
    assert got + left == got <==> left == [];
  }

  lemma NothingReceivedAfter(s: State, step: Step)
    requires Enabled(s, step) && (s.monitor.Concluding? || s.monitor.Finished?)
    ensures var t := Next(s, step);
            && (t.monitor.Concluding? || t.monitor.Finished?) && t.pipe.received == s.pipe.received
            && s.pipe.emitted <= t.pipe.emitted
  {
    hide EndOutcome;
  }

  /** Once the channel was seen empty, what it holds is exactly what the readers have sent since. */
  lemma {:induction false} LateIsWhatIsLeft(run: seq<State>, i: nat, j: nat)
    requires IsRun(run) && i < j < |run| && !run[i].monitor.Concluding? && run[i + 1].monitor.Concluding?
    ensures run[j].pipe.received == run[i].pipe.emitted
    ensures run[j].pipe.emitted == run[i].pipe.emitted + run[j].pipe.channel
    ensures run[j].monitor.Concluding? || run[j].monitor.Finished?
  {
    RunInvariants(run, j);
    assert MovesAt(run, j - 1);
    var step :| Enabled(run[j - 1], step) && run[j] == Next(run[j - 1], step);
    if j == i + 1 {
      RunInvariants(run, i);
      ConcludesOnEmpty(run[i], step);
    } else {
      LateIsWhatIsLeft(run, i, j - 1);
      NothingReceivedAfter(run[j - 1], step);
    }
    hide LifeInv, QueueShape, DrainShape, Next;
  }

  lemma ConcludesOnEmpty(s: State, step: Step)
    requires Enabled(s, step) && FrameInv(s) && LifeInv(s)
    requires !s.monitor.Concluding? && Next(s, step).monitor.Concluding?
    ensures Next(s, step).pipe == s.pipe && s.pipe.received == s.pipe.emitted
  {
    hide QueueShape, DrainShape, EntryShape, ReadyShape, Legacy;
    assert step == ByEnding(SeeEmpty) ==> s.pipe.received + [] == s.pipe.received;
  }

  /** Under drop-oldest nothing received is refused, the queue is a suffix of it, and reads go forward. */
  lemma DropOldestKeepsASuffix(run: seq<State>, i: nat)
    requires IsRun(run) && i < |run| && run[i].policy == LogsDropOldest
    ensures var s := run[i];
            && s.past.accepted + Waiting(s.monitor) == Retained(s.pipe.received)
            && 0 <= Departed(s) && s.entry.stdout == s.past.accepted[Departed(s)..]
            && (forall j :: 0 <= j < |s.past.taken| ==> 0 <= s.past.taken[j] < Departed(s))
            && (forall j, k :: 0 <= j < k < |s.past.taken| ==> s.past.taken[j] < s.past.taken[k])
  {
    RunInvariants(run, i);
    hide Retained, LifeInv;
  }

  lemma BoundsHold(run: seq<State>, i: nat)
    requires IsRun(run) && i < |run|
    ensures |run[i].entry.stdout| <= MAX_BUFFERED_STDOUT_FRAMES
    ensures |run[i].pipe.channel| <= OUTPUT_CHANNEL_CAPACITY
    ensures run[i].pipe.emitted == run[i].pipe.received + run[i].pipe.channel
  {
    RunInvariants(run, i);
  }

  // ----- a clean exit that loses a frame

  lemma Extend(run: seq<State>, s: State, step: Step) returns (more: seq<State>, t: State)
    requires IsRun(run) && run[|run| - 1] == s && Enabled(s, step)
    ensures IsRun(more) && more != [] && more[|more| - 1] == t == Next(s, step)
  {
    t := Next(s, step);
    assert Moves(s, t);
    hide Moves, Next, Enabled;
    more := run + [t];
    forall i | 0 <= i < |more| - 1
      ensures MovesAt(more, i)
    {
      assert i < |run| - 1 ==> MovesAt(run, i);
    }
  }

  /** One turn of the monitor loop in which only the process turns out to be gone. */
  lemma LoopUntilGone(run: seq<State>, s: State) returns (more: seq<State>, t: State)
    requires IsRun(run) && run[|run| - 1] == s && s.monitor == Receiving && s.pipe.channel == []
    requires s.entry.stop == NoReason && s.entry.lifecycle == Ready
    ensures IsRun(more) && more != [] && more[|more| - 1] == t
    ensures t == s.(monitor := Draining(ByExit(Some(0)), NEW_DRAIN))
  {
    hide IsRun;
    more, t := Extend(run, s, ByLoop(NothingToReceive));
    more, t := Extend(more, t, ByLoop(ProbeHealth(NotListening)));
    more, t := Extend(more, t, ByLoop(CheckCancel(false)));
    more, t := Extend(more, t, ByLoop(CheckStartup(false)));
    more, t := Extend(more, t, ByLoop(CheckDeadline(false)));
    more, t := Extend(more, t, ByLoop(CheckStop));
    more, t := Extend(more, t, ByLoop(PollProcess(Gone(Some(0)))));
  }

  /** The readiness line arrives and is queued. */
  lemma StartUp(line: Bytes) returns (run: seq<State>, s: State)
    requires !Legacy(line)
    ensures IsRun(run) && run != [] && run[|run| - 1] == s
    ensures s == Init(TypedFramesFailClosed, StdoutLineEquals(line)).(
                   entry := NEW_ENTRY.(lifecycle := Ready, stdout := [line]),
                   pipe := Pipe([], false, true, [StdoutFrame(line)], [StdoutFrame(line)]),
                   past := Past([line], [], false, 0, true, false, false))
  {
    hide Legacy;
    s := Init(TypedFramesFailClosed, StdoutLineEquals(line));
    run := [s];
    assert IsRun(run);
    hide IsRun;
    run, s := Extend(run, s, ByReader(Emit(StdoutFrame(line))));
    run, s := Extend(run, s, ByEvent(Receive));
    run, s := Extend(run, s, ByEvent(Push));
  }

  /** The drain gives up on a reader, sees the channel empty, and only then the reader sends a frame and ends. */
  lemma LateFrame(run: seq<State>, s: State, frame: Bytes) returns (more: seq<State>, t: State)
    requires IsRun(run) && run[|run| - 1] == s && s.monitor == Draining(ByExit(Some(0)), NEW_DRAIN)
    requires s.pipe.channel == [] && s.pipe.open && !s.pipe.readersDone && s.entry.lifecycle == Ready
    ensures IsRun(more) && more != [] && more[|more| - 1] == t
    ensures ExitedCleanly(t) && !t.past.truncated && t.entry.stdout == s.entry.stdout && t.policy == s.policy
    ensures t.past.taken == s.past.taken && t.past.accepted == s.past.accepted
    ensures t.pipe.channel == [StdoutFrame(frame)] && t.pipe.received == s.pipe.received && !t.pipe.open
  {
    hide IsRun;
    more, t := Extend(run, s, ByEnding(StopDrainWait));
    more, t := Extend(more, t, ByEnding(SeeEmpty));
    more, t := Extend(more, t, ByReader(Emit(StdoutFrame(frame))));
    more, t := Extend(more, t, ByReader(ReadersFinish));
    more, t := FinishCleanly(more, t);
  }

  /** Readers are sampled as done, the entry finishes, the receiver goes. */
  lemma FinishCleanly(run: seq<State>, s: State) returns (more: seq<State>, t: State)
    requires IsRun(run) && run[|run| - 1] == s && s.monitor == Concluding(ByExit(Some(0)), None, false)
    requires s.pipe.open && s.pipe.readersDone && s.entry.lifecycle == Ready
    ensures IsRun(more) && more != [] && more[|more| - 1] == t
    ensures ExitedCleanly(t) && !t.past.truncated && t.entry.stdout == s.entry.stdout && t.policy == s.policy
    ensures t.past.taken == s.past.taken && t.past.accepted == s.past.accepted
    ensures t.pipe == s.pipe.(open := false)
  {
    hide IsRun;
    more, t := Extend(run, s, ByEnding(SampleReaders));
    more, t := Extend(more, t, ByEnding(Conclude(None)));
    more, t := Extend(more, t, ByEnding(DropReceiver));
  }

  /** A clean exit under the fail-closed policy can lose a frame, and without the truncation note. */
  lemma CleanExitCanLoseAFrame(line: Bytes, frame: Bytes) returns (run: seq<State>, s: State)
    requires !Legacy(line) && !Legacy(frame)
    ensures IsRun(run) && run != [] && run[|run| - 1] == s && s.policy == TypedFramesFailClosed
    ensures ExitedCleanly(s) && !s.past.truncated && s.past.taken == [] && s.entry.stdout == [line]
    ensures Retained(s.pipe.emitted) == [line, frame]
  {
    hide IsRun, Retained, Legacy;
    run, s := StartUp(line);
    run, s := LoopUntilGone(run, s);
    run, s := LateFrame(run, s, frame);
    RunInvariants(run, |run| - 1);
    SentInOrder(s, line, frame);
  }

  lemma SentInOrder(s: State, line: Bytes, frame: Bytes)
    requires !Legacy(line) && !Legacy(frame) && s.pipe.emitted == s.pipe.received + s.pipe.channel
    requires s.pipe.received == [StdoutFrame(line)] && s.pipe.channel == [StdoutFrame(frame)]
    ensures Retained(s.pipe.emitted) == [line, frame]
  {
    RetainedConcat(s.pipe.received, s.pipe.channel);
    RetainedSnoc([], StdoutFrame(line));
    RetainedSnoc([], StdoutFrame(frame));
    assert [] + [StdoutFrame(line)] == s.pipe.received && [] + [StdoutFrame(frame)] == s.pipe.channel;
  }
}
