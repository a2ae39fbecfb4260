/** What the end of a supervised runtime says, in terms of what was asked of it and seen of its process. */
module RuntimeOutcome {
  import opened Common
  import opened RuntimeEntry

  // ----- the story of a run, told by its steps

  /**
   Who asked for a stop, in order; the last health probe and the last poll of the main loop; the lifecycle when the
   main loop refused output; the reason the monitor stopped for and whether the entry was still starting; what was
   seen of the process after that; whether the drain refused output; the lifecycle the entry ended from.
   */
  datatype Story = Story(
    asked: seq<StopReason>, probe: Option<Probe>, poll: Option<Poll>, overflow: Option<Lifecycle>,
    stop: Option<StopReason>, starting: bool, gone: Option<Option<int>>, gaveUp: Option<Option<int>>,
    drainRefused: bool, endedFrom: Option<Lifecycle>, forced: Option<int>)

  const NO_STORY := Story([], None, None, None, None, false, None, None, false, None, None)

  /** Output the fail-closed policy cannot keep: an oversized frame, or one more than the queue holds. */
  predicate RefusesOutput(s: State, step: EventStep) {
    && s.policy == TypedFramesFailClosed
    && match step
       case Receive =>
         s.pipe.channel != [] && s.pipe.channel[0].StdoutOversized?
         && !(s.monitor.Draining? && s.monitor.drain.failure.Some?)
       case Push => |s.entry.stdout| == MAX_BUFFERED_STDOUT_FRAMES
  }

  function TellEvent(st: Story, s: State, step: EventStep): Story {
    var m := Context(s.monitor);
    if !RefusesOutput(s, step) then st
    else if m.Receiving? then st.(overflow := Some(s.entry.lifecycle))
    else if m.Draining? then st.(drainRefused := true)
    else st
  }

  function TellLoop(st: Story, step: LoopStep): Story {
    match step
    case ProbeHealth(probe) => st.(probe := Some(probe))
    case PollProcess(poll) => st.(poll := Some(poll))
    case CheckCancel(true) => st.(asked := st.asked + [Cancelled])
    case CheckStartup(true) => st.(asked := st.asked + [StartupTimedOut])
    case CheckDeadline(true) => st.(asked := st.asked + [DeadlineReached])
    case _ => st
  }

  function TellEnding(st: Story, s: State, step: EndStep): Story {
    match step
    case EnterStop => st.(stop := Some(s.entry.stop), starting := s.entry.lifecycle == Starting)
    case PollStopping(Gone(code)) => st.(gone := Some(code))
    case GiveUpWaiting(code) => st.(gaveUp := Some(code))
    case Conclude(forced) => st.(endedFrom := Some(s.entry.lifecycle), forced := forced)
    case _ => st
  }

  function TellOwner(st: Story, s: State, step: OwnerStep): Story {
    match step
    case RequestByOwner => st.(asked := st.asked + [Requested])
    case LaunchRefuses =>
      if s.launcher == Refusing(StartupCancelled) then st.(asked := st.asked + [Cancelled])
      else if s.launcher == Refusing(StartupTimeout) then st.(asked := st.asked + [StartupTimedOut])
      else st.(asked := st.asked + [Requested])
    case _ => st
  }

  function Tell(st: Story, s: State, step: Step): Story {
    match step
    case ByReader(_) => st
    case ByEvent(event) => TellEvent(st, s, event)
    case ByLoop(loop) => TellLoop(st, loop)
    case ByEnding(end) => TellEnding(st, s, end)
    case ByOwner(owner) => TellOwner(st, s, owner)
  }

  ghost predicate StepAt(states: seq<State>, steps: seq<Step>, i: nat)
    requires i < |steps| && |states| == |steps| + 1
  {
    Enabled(states[i], steps[i]) && states[i + 1] == Next(states[i], steps[i])
  }

  /** A run with its steps. */
  ghost predicate IsToldRun(states: seq<State>, steps: seq<Step>) {
    && |states| == |steps| + 1 && (exists policy, readiness :: states[0] == Init(policy, readiness))
    && forall i :: 0 <= i < |steps| ==> StepAt(states, steps, i)
  }

  function StoryOf(states: seq<State>, steps: seq<Step>, i: nat): Story
    requires |states| == |steps| + 1 && i < |states|
  {
    if i == 0 then NO_STORY else Tell(StoryOf(states, steps, i - 1), states[i - 1], steps[i - 1])
  }

  /** Every run can be told. */
  lemma {:induction false} EveryRunIsTold(run: seq<State>) returns (steps: seq<Step>)
    requires IsRun(run)
    ensures IsToldRun(run, steps)
  {
    hide Next, Enabled, Init;
    steps := StepsOf(run, |run| - 1);
    assert run[..|run| - 1 + 1] == run;
  }

  lemma {:induction false} StepsOf(run: seq<State>, n: nat) returns (steps: seq<Step>)
    requires IsRun(run) && n < |run|
    ensures |steps| == n && IsToldRun(run[..n + 1], steps)
  {
    hide Next, Enabled, Init;
    if n == 0 {
      steps := [];
    } else {
      var front := StepsOf(run, n - 1);
      assert MovesAt(run, n - 1);
      var step :| Enabled(run[n - 1], step) && run[n] == Next(run[n - 1], step);
      steps := front + [step];
      var states, before := run[..n + 1], run[..n];
      forall i | 0 <= i < |steps|
        ensures StepAt(states, steps, i)
      {
        assert i < |front| ==> StepAt(before, front, i);
      }
    }
  }

  // ----- the monitor stands where the story says

  /** Nothing has ended the main loop. */
  predicate Calm(st: Story) {
    && (st.poll.Some? ==> st.poll.value.StillRunning?) && st.probe != Some(Rejected) && st.overflow.None?
  }

  predicate NotStopped(st: Story) {
    st.stop.None? && st.gone.None? && st.gaveUp.None?
  }

  predicate EndingTold(st: Story, ending: Ending) {
    match ending
    case ByStop(reason, wasStarting, graceful, code) =>
      && Calm(st) && st.stop == Some(reason) && st.starting == wasStarting
      && (if graceful then st.gone == Some(code) && st.gaveUp.None? else st.gaveUp == Some(code) && st.gone.None?)
    case ByExit(code) =>
      NotStopped(st) && st.poll == Some(Gone(code)) && st.probe != Some(Rejected) && st.overflow.None?
    case ByFailure(error, kind) =>
      && NotStopped(st)
      && (|| (st.poll == Some(Broken) && st.probe != Some(Rejected) && st.overflow.None?
              && error == RuntimeCrashed && kind == Crash)
          || (st.probe == Some(Rejected) && (st.poll.Some? ==> st.poll.value.StillRunning?) && st.overflow.None?
              && error == ReadinessHandshakeFailed && kind == StartupFailure)
          || (st.overflow.Some? && (st.poll.Some? ==> st.poll.value.StillRunning?) && st.probe != Some(Rejected)
              && error == OutputLimitExceeded
              && kind == (if st.overflow.value == Ready then Crash else StartupFailure)))
  }

  predicate AskedShape(e: EntryState, st: Story) {
    && e.stop == (if st.asked == [] then NoReason else st.asked[0])
    && forall i :: 0 <= i < |st.asked| ==> st.asked[i] != NoReason
  }

  predicate PlaceTold(m: Monitor, st: Story) {
    match m
    case AwaitingExit(reason, wasStarting) =>
      && Calm(st) && st.stop == Some(reason) && st.starting == wasStarting && st.gone.None? && st.gaveUp.None?
      && !st.drainRefused && st.endedFrom.None?
    case Draining(ending, drain) =>
      EndingTold(st, ending) && (st.drainRefused <==> drain.failure.Some?) && st.endedFrom.None?
    case Concluding(ending, failure, _) =>
      EndingTold(st, ending) && (st.drainRefused <==> failure.Some?) && st.endedFrom.None?
    case Pushing(_, _) => true
    case Finished => true
    case _ => Calm(st) && NotStopped(st) && !st.drainRefused && st.endedFrom.None?
  }

  // ----- what the end says

  predicate EndsWith(e: EntryState, lifecycle: Lifecycle, kind: Kind, failure: Option<ErrorCode>) {
    e.lifecycle == lifecycle && e.termination.Some? && e.termination.value.kind == kind && e.failure == failure
  }

  predicate ExitTold(e: EntryState, st: Story) {
    st.poll.Some? && st.poll.value.Gone? ==>
      && e.termination.Some? && e.termination.value.exitCode == st.poll.value.code
      && (if st.drainRefused then EndsWith(e, Failed, Crash, Some(OutputLimitExceeded))
          else if st.endedFrom != Some(Ready) then EndsWith(e, Failed, StartupFailure, Some(StartupFailed))
          else if st.poll.value.code == Some(0) then EndsWith(e, Exited, CleanExit, None)
          else EndsWith(e, Failed, Crash, Some(RuntimeCrashed)))
  }

  predicate StopTold(e: EntryState, st: Story) {
    st.stop.Some? ==>
      && st.asked != [] && st.stop.value == st.asked[0]
      && (st.gone.Some? || st.gaveUp.Some?) && e.termination.Some?
      && e.termination.value.exitCode == (if st.gone.Some? then st.gone.value else st.gaveUp.value)
      && match st.stop.value
         case Requested => EndsWith(e, Exited, if st.gone.Some? then GracefulStop else ForcedStop, None)
         case Cancelled =>
           if st.starting then EndsWith(e, Failed, StartupFailure, Some(StartupCancelled))
           else EndsWith(e, Exited, CancelledStop, None)
         case StartupTimedOut => EndsWith(e, Failed, StartupFailure, Some(StartupTimeout))
         case DeadlineReached => EndsWith(e, Failed, DeadlineStop, Some(DeadlineExceeded))
         case NoReason => false
  }

  predicate FailureTold(e: EntryState, st: Story) {
    && (st.poll == Some(Broken) ==> EndsWith(e, Failed, Crash, Some(RuntimeCrashed)))
    && (st.probe == Some(Rejected) ==> EndsWith(e, Failed, StartupFailure, Some(ReadinessHandshakeFailed)))
    && (st.overflow.Some? ==>
          EndsWith(e, Failed, if st.overflow == Some(Ready) then Crash else StartupFailure, Some(OutputLimitExceeded)))
  }

  predicate ByItself(st: Story) { st.poll.Some? && st.poll.value.Gone? }

  function Tally(b: bool): nat { if b then 1 else 0 }

  /** One thing, and one thing only, ended it. */
  predicate OneCause(st: Story) {
    Tally(ByItself(st)) + Tally(st.poll == Some(Broken)) + Tally(st.probe == Some(Rejected))
    + Tally(st.overflow.Some?) + Tally(st.stop.Some?) == 1
  }

  predicate EndTold(e: EntryState, st: Story) {
    OneCause(st) && ExitTold(e, st) && StopTold(e, st) && FailureTold(e, st)
  }

  predicate StoryInv(s: State, st: Story) {
    && AskedShape(s.entry, st) && PlaceTold(Context(s.monitor), st)
    && (s.monitor.Finished? ==> EndTold(s.entry, st))
  }

  // ----- every step keeps to the story

  lemma EventsAskNothing(s: State, step: EventStep)
    requires EventEnabled(s, step)
    ensures NextByEvent(s, step).entry.stop == s.entry.stop
  {
    hide Legacy, AfterEvent;
  }

  lemma EndingsAskNothing(s: State, step: EndStep)
    requires EndEnabled(s, step)
    ensures NextByEnding(s, step).entry.stop == s.entry.stop
  {
    hide EndOutcome;
  }

  lemma AskedKept(s: State, step: Step, st: Story)
    requires Enabled(s, step) && AskedShape(s.entry, st)
    ensures AskedShape(Next(s, step).entry, Tell(st, s, step))
  {
    match step {
      case ByReader(_) =>
      case ByEvent(event) => EventsAskNothing(s, event); hide NextByEvent, RefusesOutput;
      case ByLoop(loop) => hide SetReady;
      case ByEnding(end) => EndingsAskNothing(s, end); hide NextByEnding;
      case ByOwner(owner) =>
    }
  }

  lemma PlaceKeptByEvent(s: State, step: EventStep, st: Story)
    requires EventEnabled(s, step) && LifeInv(s) && FlowShape(s) && PlaceTold(Context(s.monitor), st)
    ensures PlaceTold(Context(NextByEvent(s, step).monitor), TellEvent(st, s, step))
  {
    hide Legacy, Retained, SetReady, PushStdout, PossibleOutcome;
  }

  lemma PlaceKeptByLoop(s: State, step: LoopStep, st: Story)
    requires LoopEnabled(s, step) && PlaceTold(Context(s.monitor), st)
    ensures PlaceTold(Context(NextByLoop(s, step).monitor), TellLoop(st, step))
  {
    hide SetReady, RequestStop;
  }

  lemma PlaceKeptByEnding(s: State, step: EndStep, st: Story)
    requires EndEnabled(s, step) && LifeInv(s) && PlaceTold(Context(s.monitor), st)
    ensures PlaceTold(Context(NextByEnding(s, step).monitor), TellEnding(st, s, step))
  {
    hide PossibleOutcome, EndOutcome, SetStopping;
  }

  lemma PlaceKept(s: State, step: Step, st: Story)
    requires Enabled(s, step) && LifeInv(s) && FrameInv(s) && PlaceTold(Context(s.monitor), st)
    ensures PlaceTold(Context(Next(s, step).monitor), Tell(st, s, step))
  {
    match step {
      case ByReader(_) => hide LifeInv, FrameInv, PlaceTold;
      case ByEvent(event) => PlaceKeptByEvent(s, event, st); hide *;
      case ByLoop(loop) => PlaceKeptByLoop(s, loop, st); hide *;
      case ByEnding(end) => PlaceKeptByEnding(s, end, st); hide *;
      case ByOwner(owner) => PlaceKeptByOwner(s, owner, st); hide *;
    }
  }

  /** The owner does not move the monitor, and asking is no part of where it stands. */
  lemma PlaceKeptByOwner(s: State, step: OwnerStep, st: Story)
    requires OwnerEnabled(s, step) && PlaceTold(Context(s.monitor), st)
    ensures PlaceTold(Context(NextByOwner(s, step).monitor), TellOwner(st, s, step))
  {
    hide RequestStop, PopStdout;
    assert NextByOwner(s, step).monitor == s.monitor;
    PlaceIgnoresAsking(Context(s.monitor), st, TellOwner(st, s, step).asked);
    hide PlaceTold, NextByOwner;
  }

  lemma PlaceIgnoresAsking(m: Monitor, st: Story, asked: seq<StopReason>)
    requires PlaceTold(m, st)
    ensures PlaceTold(m, st.(asked := asked))
  {
  }

  lemma ConcludeTells(s: State, forced: Option<int>, st: Story)
    requires EndEnabled(s, Conclude(forced)) && LifeInv(s) && AskedShape(s.entry, st) && PlaceTold(s.monitor, st)
    ensures EndTold(DoConclude(s, forced).entry, TellEnding(st, s, Conclude(forced)))
  {
    match s.monitor.ending {
      case ByStop(_, _, _, _) => StopTells(s, forced, st);
      case ByExit(_) => ExitTells(s, forced, st);
      case ByFailure(_, _) => FailureTells(s, forced, st);
    }
    hide *;
  }

  lemma StopTells(s: State, forced: Option<int>, st: Story)
    requires EndEnabled(s, Conclude(forced)) && LifeInv(s) && AskedShape(s.entry, st) && PlaceTold(s.monitor, st)
    requires s.monitor.ending.ByStop?
    ensures EndTold(DoConclude(s, forced).entry, TellEnding(st, s, Conclude(forced)))
  {
    hide PossibleOutcome, FailureShape, EntryShape, ReadyShape;
  }

  lemma ExitTells(s: State, forced: Option<int>, st: Story)
    requires EndEnabled(s, Conclude(forced)) && LifeInv(s) && AskedShape(s.entry, st) && PlaceTold(s.monitor, st)
    requires s.monitor.ending.ByExit?
    ensures EndTold(DoConclude(s, forced).entry, TellEnding(st, s, Conclude(forced)))
  {
    hide PossibleOutcome, ReadyShape, MonitorShape;
  }

  lemma FailureTells(s: State, forced: Option<int>, st: Story)
    requires EndEnabled(s, Conclude(forced)) && LifeInv(s) && AskedShape(s.entry, st) && PlaceTold(s.monitor, st)
    requires s.monitor.ending.ByFailure?
    ensures EndTold(DoConclude(s, forced).entry, TellEnding(st, s, Conclude(forced)))
  {
    hide PossibleOutcome, ReadyShape, MonitorShape, EntryShape;
  }

  lemma FinishedStays(s: State, step: Step, st: Story)
    requires Enabled(s, step) && s.monitor.Finished? && EndTold(s.entry, st)
    ensures EndTold(Next(s, step).entry, Tell(st, s, step))
  {
    var now := Tell(st, s, step);
    OnlyAskedAndQueue(s, step, st);
    hide OneCause, ExitTold, StopTold, FailureTold, Next, Tell, Enabled;
    EndIgnoresAsking(s.entry, st, now.asked);
    EndIgnoresQueue(s.entry, Next(s, step).entry, now);
  }

  /** After the end only the queue, the stop slot and the list of those who asked can still change. */
  lemma OnlyAskedAndQueue(s: State, step: Step, st: Story)
    requires Enabled(s, step) && s.monitor.Finished?
    ensures Next(s, step).entry.(stop := s.entry.stop, stdout := s.entry.stdout) == s.entry
    ensures var now := Tell(st, s, step); now == st.(asked := now.asked) && st.asked <= now.asked
  {
    hide Legacy, AfterEvent, EndOutcome;
  }

  lemma EndIgnoresAsking(e: EntryState, st: Story, asked: seq<StopReason>)
    requires EndTold(e, st) && st.asked <= asked
    ensures EndTold(e, st.(asked := asked))
  {
    hide EndsWith;
  }

  lemma EndIgnoresQueue(e: EntryState, f: EntryState, st: Story)
    requires EndTold(e, st) && f.(stop := e.stop, stdout := e.stdout) == e
    ensures EndTold(f, st)
  {
    hide OneCause;
  }

  lemma StoryKept(s: State, step: Step, st: Story)
    requires Enabled(s, step) && LifeInv(s) && FrameInv(s) && StoryInv(s, st)
    ensures StoryInv(Next(s, step), Tell(st, s, step))
  {
    AskedKept(s, step, st);
    PlaceKept(s, step, st);
    if s.monitor.Finished? {
      FinishedStays(s, step, st);
    } else if step.ByEnding? && step.end.Conclude? {
      ConcludeTells(s, step.end.forced, st);
    } else {
      OnlyConcludeFinishes(s, step);
    }
    hide LifeInv, FrameInv, AskedShape, PlaceTold, EndTold, Next, Tell;
    assert step.ByEnding? && step.end.Conclude? ==> Next(s, step) == DoConclude(s, step.end.forced);
  }

  lemma OnlyConcludeFinishes(s: State, step: Step)
    requires Enabled(s, step) && FrameInv(s) && !s.monitor.Finished? && !(step.ByEnding? && step.end.Conclude?)
    ensures !Next(s, step).monitor.Finished?
  {
    hide Legacy, Retained, SetReady, PushStdout, QueueShape, DrainShape;
  }

  // ----- over whole runs

  lemma {:induction false} StoryHolds(states: seq<State>, steps: seq<Step>, i: nat)
    requires IsToldRun(states, steps) && i < |states|
    ensures LifeInv(states[i]) && FrameInv(states[i]) && StoryInv(states[i], StoryOf(states, steps, i))
  {
    if i == 0 {
      var policy, readiness :| states[0] == Init(policy, readiness);
    } else {
      StoryHolds(states, steps, i - 1);
      assert StepAt(states, steps, i - 1);
      hide LifeInv, FrameInv, StoryInv, Next, Enabled, Tell;
      LifeKept(states[i - 1], steps[i - 1]);
      FrameKept(states[i - 1], steps[i - 1]);
      StoryKept(states[i - 1], steps[i - 1], StoryOf(states, steps, i - 1));
    }
  }

  /**
   In every run a finished entry says what happened: one cause, and lifecycle, kind of termination, exit code and
   failure code that follow from it.
   */
  lemma EndSaysWhatHappened(states: seq<State>, steps: seq<Step>, i: nat)
    requires IsToldRun(states, steps) && i < |states| && states[i].entry.lifecycle.Terminal()
    ensures EndTold(states[i].entry, StoryOf(states, steps, i))
  {
    StoryHolds(states, steps, i);
    hide IsToldRun, FrameInv, EndTold, PossibleOutcome, StoryOf;
  }

  /** A clean exit: gone with status 0 when the entry was ready and the drain refused nothing, and only then. */
  lemma CleanExitExactly(states: seq<State>, steps: seq<Step>, i: nat)
    requires IsToldRun(states, steps) && i < |states| && states[i].entry.lifecycle.Terminal()
    ensures var st := StoryOf(states, steps, i);
            && states[i].entry.termination.Some?
            && (states[i].entry.termination.value.kind == CleanExit
                <==> st.poll == Some(Gone(Some(0))) && !st.drainRefused && st.endedFrom == Some(Ready))
            && (states[i].entry.termination.value.kind == GracefulStop <==> st.stop == Some(Requested) && st.gone.Some?)
            && (states[i].entry.termination.value.kind == ForcedStop <==> st.stop == Some(Requested) && st.gone.None?)
  {
    EndSaysWhatHappened(states, steps, i);
    hide IsToldRun, StoryOf;
    ByKind(states[i].entry, StoryOf(states, steps, i));
  }

  lemma ByKind(e: EntryState, st: Story)
    requires EndTold(e, st)
    ensures e.termination.Some?
    ensures e.termination.value.kind == CleanExit
       <==> st.poll == Some(Gone(Some(0))) && !st.drainRefused && st.endedFrom == Some(Ready)
    ensures e.termination.value.kind == GracefulStop <==> st.stop == Some(Requested) && st.gone.Some?
    ensures e.termination.value.kind == ForcedStop <==> st.stop == Some(Requested) && st.gone.None?
  {
  }

  // ----- lost output

  /** A frame goes missing with a refusal, or behind one in the same drain, and in no other way. */
  lemma LostExactly(s: State, step: Step)
    requires Enabled(s, step)
    ensures Next(s, step).past.lost
       <==> || s.past.lost
            || (step.ByEvent? && RefusesOutput(s, step.event))
            || (step == ByEvent(Receive) && s.monitor.Draining? && s.monitor.drain.failure.Some?)
  {
    hide Legacy, AfterEvent, EndOutcome, SetReady;
  }

  // ----- readiness

  /** The sign of readiness: the expected line where it is looked for, or a healthy answer. */
  predicate ShowsReady(s: State, step: Step) {
    || step == ByLoop(ProbeHealth(Healthy))
    || (&& step == ByEvent(Receive) && s.readiness.StdoutLineEquals? && !Legacy(s.readiness.expected)
        && s.pipe.channel != [] && s.pipe.channel[0] == StdoutFrame(s.readiness.expected)
        && (s.monitor.Receiving? || (s.monitor.Draining? && s.monitor.ending.ByExit? && s.monitor.drain.failure.None?)))
  }

  /** A starting entry becomes ready with that sign and with no other step. */
  lemma ReadyExactly(s: State, step: Step)
    requires Enabled(s, step) && s.entry.lifecycle == Starting
    ensures Next(s, step).entry.lifecycle == Ready <==> ShowsReady(s, step)
  {
    match step {
      case ByEvent(Receive) => ReadyByReceive(s); hide Legacy, DoReceive, ShowsReady;
      case ByEnding(Conclude(forced)) =>
      case _ => hide Legacy, AfterEvent;
    }
  }

  lemma ReadyByReceive(s: State)
    requires EventEnabled(s, Receive) && s.entry.lifecycle == Starting
    ensures DoReceive(s).entry.lifecycle == Ready <==> ShowsReady(s, ByEvent(Receive))
  {
    hide Legacy, AfterEvent;
  }

  // ----- what the launcher is told

  /** A refused launch names the start-up timeout, or what the finished entry itself says. */
  predicate LauncherTold(s: State) {
    s.launcher.Refusing? || s.launcher.Refused? ==>
      || s.launcher.code == StartupTimeout
      || (s.entry.lifecycle.Terminal()
          && s.launcher.code == (if s.entry.failure.Some? then s.entry.failure.value else StartupFailed))
  }

  lemma LauncherToldKept(s: State, step: Step)
    requires Enabled(s, step) && LifeInv(s) && LauncherTold(s)
    ensures LauncherTold(Next(s, step))
  {
    var t := Next(s, step);
    assert Moves(s, t);
    MoveKeepsVerdict(s, t);
    if !step.ByOwner? {
      OnlyOwnersMoveTheLauncher(s, step);
      hide Moves, LifeInv, Next, Enabled;
    } else {
      hide Moves, LifeInv;
    }
  }

  lemma OnlyOwnersMoveTheLauncher(s: State, step: Step)
    requires Enabled(s, step) && !step.ByOwner?
    ensures Next(s, step).launcher == s.launcher
  {
    hide Legacy, AfterEvent, EndOutcome;
  }

  /** In every run the launcher gets a handle only from a ready entry, and a refusal that matches the entry's end. */
  lemma {:induction false} LauncherIsTold(run: seq<State>, i: nat)
    requires IsRun(run) && i < |run|
    ensures LauncherTold(run[i])
    ensures i + 1 < |run| && run[i + 1].launcher.HasHandle? && !run[i].launcher.HasHandle? ==>
              run[i].entry.lifecycle == Ready
  {
    if i > 0 {
      LauncherIsTold(run, i - 1);
      RunInvariants(run, i - 1);
      assert MovesAt(run, i - 1);
      var step :| Enabled(run[i - 1], step) && run[i] == Next(run[i - 1], step);
      hide LauncherTold, LifeInv, FrameInv, Next, Enabled;
      LauncherToldKept(run[i - 1], step);
    } else {
      var policy, readiness :| run[0] == Init(policy, readiness);
    }
    if i + 1 < |run| {
      assert MovesAt(run, i);
      var step :| Enabled(run[i], step) && run[i + 1] == Next(run[i], step);
      HandleNeedsReady(run[i], step);
    }
  }

  lemma HandleNeedsReady(s: State, step: Step)
    requires Enabled(s, step)
    ensures Next(s, step).launcher.HasHandle? && !s.launcher.HasHandle? ==> s.entry.lifecycle == Ready
  {
    if !step.ByOwner? {
      OnlyOwnersMoveTheLauncher(s, step);
    }
    hide Legacy, AfterEvent, EndOutcome;
  }
}
