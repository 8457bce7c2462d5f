// The hardware scan state machine. Each function on Core is one region the driver runs while holding
// its lock; between regions other threads may run. mac80211 has to be told exactly once, for every
// scan it was allowed to start, that the scan has completed, and exactly once of every scheduled scan that
// it did not stop itself.
module ScanMachine {
  datatype ScanState = Idle | Running | Aborting | Sched | SchedStopping

  // What mac80211 sees: a scan start that returned success, and a scan-completed call.
  datatype Call = Accepted | Completed

  // The same of scheduled scans: a start that returned success; and the end, which is mac80211's own request to
  // stop or the call that tells it so.
  datatype SchedCall = Begun | Ended

  // The fields under the lock, the count of the scan_done completion, and mac80211's view.
  datatype Core = Core(started: bool, state: ScanState, done: nat, log: seq<Call>, sched: seq<SchedCall>)

  // ----- regions under the lock

  datatype Start = Rejected | Failed | Started | StopSchedFirst

  // morse_ops_hw_scan after the state switch: the state is RUNNING until an allocation or the
  // command fails.
  function Launch(c: Core, initOk: bool, cmdOk: bool): (Core, Start) {
    if initOk && cmdOk then (c.(state := Running, log := c.log + [Accepted]), Started)
    else (c.(state := Idle), Failed)
  }

  // morse_ops_hw_scan up to its end, or up to dropping the lock to stop a scheduled scan.
  function HwScan(c: Core, initOk: bool, cmdOk: bool): (Core, Start) {
    if !c.started then (c, Rejected)
    else match c.state
      case Sched => (c, StopSchedFirst)
      case Idle => Launch(c.(done := 0), initOk, cmdOk)
      case _ => (c, Rejected)
  }

  // cancel_hw_scan up to releasing the lock; true when it goes on to wait.
  function BeginCancel(c: Core): (Core, bool) {
    if c.state == Running then (c.(state := Aborting), true) else (c, false)
  }

  // cancel_hw_scan after it gave up: completes whatever the state is now.
  function EndCancel(c: Core): Core {
    c.(log := c.log + [Completed], state := Idle)
  }

  // morse_hw_scan_done_event
  function DoneEvent(c: Core): Core {
    var c' := c.(done := c.done + 1, state := Idle);
    match c.state
    case Idle => c'
    case SchedStopping => c'
    case Sched => c'.(sched := c.sched + [Ended])
    case _ => c'.(log := c.log + [Completed])
  }

  // morse_hw_sched_scan_finish
  function SchedFinish(c: Core): Core {
    if c.state != Sched then c else c.(sched := c.sched + [Ended], done := c.done + 1, state := Idle)
  }

  // morse_hw_scan_finish
  function Finish(c: Core): Core {
    if c.state == Idle || c.state == Sched then c
    else c.(log := c.log + [Completed], done := c.done + 1, state := Idle)
  }

  // morse_ops_sched_scan_start
  function SchedStart(c: Core, initOk: bool, cmdOk: bool): (Core, bool) {
    if c.started && c.state == Idle then
      if initOk && cmdOk then (c.(done := 0, state := Sched, sched := c.sched + [Begun]), true)
      else (c.(done := 0, state := Idle), false)
    else (c, false)
  }

  // mac80211 asks for the end of the scheduled scan it believes is on.
  function StopRequested(c: Core): Core {
    if |c.sched| % 2 == 1 then c.(sched := c.sched + [Ended]) else c
  }

  // morse_hw_stop_sched_scan up to releasing the lock; true when it goes on to wait.
  function BeginStopSched(c: Core): (Core, bool) {
    if c.state == Sched then (c.(state := SchedStopping), true) else (c, false)
  }

  // morse_hw_stop_sched_scan at its end, when the stop was not requested.
  function NotifyStopped(c: Core): Core {
    c.(sched := c.sched + [Ended])
  }

  // morse_hw_stop_sched_scan after it gave up.
  function EndStopSched(c: Core): Core {
    c.(state := Idle)
  }

  // wait_for_completion_timeout, when a completion is there to take.
  function TakeDone(c: Core): Core
    requires c.done > 0
  {
    c.(done := c.done - 1)
  }

  // ----- threads

  // A thread between its regions: about to look whether its stop command failed or the device has been
  // stopped, waiting for scan_done, or past the wait without it and about to take the lock again.
  datatype Wait = Asked(cmdFailed: bool) | Waiting | GaveUp

  // The one mac80211 callback in progress: mac80211 serialises them.
  datatype Callback =
    | NoCallback
    | Cancelling(w: Wait)
    | StoppingSched(w: Wait)          // sched_scan_stop
    | Restarting                      // hw_scan, about to stop a scheduled scan
    | RestartStopping(w: Wait)        // hw_scan, waiting for that stop
    | Notifying                       // hw_scan, about to tell mac80211 of it
    | Relaunching                     // hw_scan, about to take the lock again

  datatype Timeout = NotRunning | TimingOut(w: Wait)

  // armed: the timeout work is queued. leftover: completions that were already there when the last scan
  // started and have not been taken since.
  datatype Sys = Sys(core: Core, callback: Callback, timeout: Timeout, armed: bool, leftover: nat)

  datatype Event =
    | SetStarted(started: bool)
    | OpHwScan(initOk: bool, cmdOk: bool)
    | OpCancel(cmdFailed: bool)
    | OpSchedStart(initOk: bool, cmdOk: bool)
    | OpSchedStop(cmdFailed: bool)
    | TimeoutFires(cmdFailed: bool)
    | ScanDone
    | RestartSchedFinish
    | RestartScanFinish
    | CallbackChecks | CallbackWakes | CallbackGivesUp | CallbackRelocks
    | RestartStops(cmdFailed: bool) | RestartNotifies | Relaunch(initOk: bool, cmdOk: bool)
    | TimeoutChecks | TimeoutWakes | TimeoutGivesUp | TimeoutRelocks

  // Whether to wait is decided once; a stop of the device during the wait does not end it.
  function Checked(w: Wait, c: Core): Wait
    requires w.Asked?
  {
    if w.cmdFailed || !c.started then GaveUp else Waiting
  }

  predicate WaitMayEnd(w: Wait, c: Core) {
    w.Waiting? && c.done > 0
  }

  predicate WaitMayFail(w: Wait, c: Core) {
    w.Waiting? && c.done == 0
  }

  function CallbackWait(cb: Callback): Wait
    requires cb.Cancelling? || cb.StoppingSched? || cb.RestartStopping?
  {
    match cb case Cancelling(w) => w case StoppingSched(w) => w case RestartStopping(w) => w
  }

  function WithWait(cb: Callback, w: Wait): Callback
    requires cb.Cancelling? || cb.StoppingSched? || cb.RestartStopping?
  {
    match cb case Cancelling(_) => Cancelling(w) case StoppingSched(_) => StoppingSched(w)
             case RestartStopping(_) => RestartStopping(w)
  }

  predicate CallbackBlocked(s: Sys) {
    s.callback.Cancelling? || s.callback.StoppingSched? || s.callback.RestartStopping?
  }

  // Which steps can happen. A cancel callback first waits for the timeout work to be out of the way.
  predicate Enabled(s: Sys, e: Event) {
    match e
    case SetStarted(_) | ScanDone | RestartSchedFinish | RestartScanFinish => true
    case OpHwScan(_, _) | OpSchedStart(_, _) | OpSchedStop(_) => s.callback.NoCallback?
    case OpCancel(_) => s.callback.NoCallback? && s.timeout.NotRunning?
    case TimeoutFires(_) => s.armed && s.timeout.NotRunning?
    case CallbackChecks => CallbackBlocked(s) && CallbackWait(s.callback).Asked?
    case CallbackWakes => CallbackBlocked(s) && WaitMayEnd(CallbackWait(s.callback), s.core)
    case CallbackGivesUp => CallbackBlocked(s) && WaitMayFail(CallbackWait(s.callback), s.core)
    case CallbackRelocks => CallbackBlocked(s) && CallbackWait(s.callback).GaveUp?
    case RestartStops(_) => s.callback.Restarting?
    case RestartNotifies => s.callback.Notifying?
    case Relaunch(_, _) => s.callback.Relaunching?
    case TimeoutChecks => s.timeout.TimingOut? && s.timeout.w.Asked?
    case TimeoutWakes => s.timeout.TimingOut? && WaitMayEnd(s.timeout.w, s.core)
    case TimeoutGivesUp => s.timeout.TimingOut? && WaitMayFail(s.timeout.w, s.core)
    case TimeoutRelocks => s.timeout.TimingOut? && s.timeout.w.GaveUp?
  }

  // The callback once its wait is over, one way or the other.
  function AfterWait(cb: Callback): Callback {
    if cb.RestartStopping? then Notifying else NoCallback
  }

  // A completion taken while the scan is on is one that was left over.
  function AfterTake(s: Sys): nat {
    if Active(s.core) && s.leftover > 0 then s.leftover - 1 else s.leftover
  }

  function Next(s: Sys, e: Event): Sys
    requires Enabled(s, e)
  {
    match e
    case SetStarted(on) => s.(core := s.core.(started := on))
    case OpHwScan(initOk, cmdOk) =>
      var (c, r) := HwScan(s.core, initOk, cmdOk);
      s.(core := c, armed := s.armed || r == Started, leftover := if r == Started then 0 else s.leftover,
         callback := if r == StopSchedFirst then Restarting else NoCallback)
    case RestartStops(cmdFailed) =>
      var (c, waits) := BeginStopSched(s.core);
      s.(core := c, callback := if waits then RestartStopping(Asked(cmdFailed)) else Relaunching)
    case RestartNotifies => s.(core := NotifyStopped(s.core), callback := Relaunching)
    case Relaunch(initOk, cmdOk) =>
      var (c, r) := Launch(s.core, initOk, cmdOk);
      s.(core := c, armed := s.armed || r == Started, leftover := if r == Started then c.done else s.leftover,
         callback := NoCallback)
    case OpCancel(cmdFailed) =>
      var (c, waits) := BeginCancel(s.core);
      s.(core := c, armed := false, callback := if waits then Cancelling(Asked(cmdFailed)) else NoCallback)
    case TimeoutFires(cmdFailed) =>
      var (c, waits) := BeginCancel(s.core);
      s.(core := c, armed := false, timeout := if waits then TimingOut(Asked(cmdFailed)) else NotRunning)
    case OpSchedStart(initOk, cmdOk) => s.(core := SchedStart(s.core, initOk, cmdOk).0)
    case OpSchedStop(cmdFailed) =>
      var (c, waits) := BeginStopSched(StopRequested(s.core));
      s.(core := c, callback := if waits then StoppingSched(Asked(cmdFailed)) else NoCallback)
    case ScanDone => s.(core := DoneEvent(s.core), armed := false)
    case RestartSchedFinish => s.(core := SchedFinish(s.core))
    case RestartScanFinish =>
      s.(core := Finish(s.core), armed := s.armed && (s.core.state == Idle || s.core.state == Sched))
    case CallbackChecks => s.(callback := WithWait(s.callback, Checked(CallbackWait(s.callback), s.core)))
    case CallbackWakes =>
      s.(core := TakeDone(s.core), callback := AfterWait(s.callback), leftover := AfterTake(s))
    case CallbackGivesUp => s.(callback := WithWait(s.callback, GaveUp))
    case CallbackRelocks =>
      var c := if s.callback.Cancelling? then EndCancel(s.core) else EndStopSched(s.core);
      s.(core := c, callback := AfterWait(s.callback))
    case TimeoutChecks => s.(timeout := TimingOut(Checked(s.timeout.w, s.core)))
    case TimeoutWakes => s.(core := TakeDone(s.core), timeout := NotRunning, leftover := AfterTake(s))
    case TimeoutGivesUp => s.(timeout := TimingOut(GaveUp))
    case TimeoutRelocks => s.(core := EndCancel(s.core), timeout := NotRunning)
  }

  // ----- what mac80211 is owed

  predicate Active(c: Core) {
    c.state == Running || c.state == Aborting
  }

  // Starts and completions alternate, beginning with a start, and one completion is owed exactly
  // while a scan is running or aborting.
  ghost predicate Balanced(c: Core) {
    && (forall i :: 0 <= i < |c.log| ==> c.log[i] == if i % 2 == 0 then Accepted else Completed)
    && (Active(c) <==> |c.log| % 2 == 1)
  }

  // The steps that complete a scan nobody is owed: a cancel that gave up and finds, when it has the
  // lock again, that its scan is already over; and a forced finish while a scheduled scan is stopping.
  predicate Spurious(s: Sys, e: Event) {
    || (e.CallbackRelocks? && s.callback.Cancelling? && !Active(s.core))
    || (e.TimeoutRelocks? && !Active(s.core))
    || (e.RestartScanFinish? && s.core.state == SchedStopping)
  }

  // Which states a callback under way can find, and when completions can be there.
  predicate Inv(s: Sys) {
    && (s.callback.Cancelling? ==> s.core.state == Aborting || s.core.state == Idle)
    && (s.callback.StoppingSched? || s.callback.RestartStopping? ==> s.core.state == SchedStopping || s.core.state == Idle)
    && (s.callback.Restarting? ==> s.core.state == Sched || s.core.state == Idle)
    && (s.callback.Notifying? || s.callback.Relaunching? ==> s.core.state == Idle)
    && (s.core.state == SchedStopping ==> s.callback.StoppingSched? || s.callback.RestartStopping?)
    && (s.core.state == Sched || s.core.state == SchedStopping ==> s.core.done == 0)
    && (Active(s.core) ==> s.core.done == s.leftover)
  }

  lemma {:induction false} InvKept(s: Sys, e: Event)
    requires Inv(s) && Enabled(s, e)
    ensures Inv(Next(s, e))
  {}

  // What a step tells mac80211, and whether a scan is on before and after it.
  lemma {:induction false} LogStep(s: Sys, e: Event)
    requires Inv(s) && Enabled(s, e)
    ensures var c, c' := s.core, Next(s, e).core;
            if Spurious(s, e) then c'.log == c.log + [Completed] && !Active(c) && !Active(c')
            else || (c'.log == c.log && (Active(c') <==> Active(c)))
                 || (c'.log == c.log + [Accepted] && !Active(c) && Active(c'))
                 || (c'.log == c.log + [Completed] && Active(c) && !Active(c'))
  {}

  // A step keeps the account balanced exactly when it is not spurious.
  lemma {:induction false} StepBalances(s: Sys, e: Event)
    requires Inv(s) && Enabled(s, e) && Balanced(s.core)
    ensures Balanced(Next(s, e).core) <==> !Spurious(s, e)
  {
    LogStep(s, e);
    CallBalances(s.core, Next(s, e).core);
  }

  lemma {:induction false} CallBalances(c: Core, c': Core)
    requires Balanced(c)
    ensures c'.log == c.log && (Active(c') <==> Active(c)) ==> Balanced(c')
    ensures c'.log == c.log + [Accepted] && !Active(c) && Active(c') ==> Balanced(c')
    ensures c'.log == c.log + [Completed] && !Active(c') ==> (Balanced(c') <==> Active(c))
  {
    if c'.log == c.log + [Completed] && !Active(c) {
      assert c'.log[|c.log|] == Completed;
    }
  }

  // Scheduled scans begin and end in turn, and one is on for mac80211 exactly while the state is SCHED or
  // hw_scan is busy stopping it.
  ghost predicate SchedBalanced(s: Sys) {
    && (forall i :: 0 <= i < |s.core.sched| ==> s.core.sched[i] == if i % 2 == 0 then Begun else Ended)
    && (|s.core.sched| % 2 == 1 <==> s.core.state == Sched || s.callback.RestartStopping? || s.callback.Notifying?)
  }

  // The step that ends a scheduled scan behind mac80211's back: a timeout that gave up and finds that its
  // scan is over and a scheduled scan has begun since.
  predicate SchedLost(s: Sys, e: Event) {
    e.TimeoutRelocks? && s.core.state == Sched
  }

  lemma {:induction false} StepBalancesSched(s: Sys, e: Event)
    requires Inv(s) && Enabled(s, e) && SchedBalanced(s)
    ensures SchedBalanced(Next(s, e)) <==> !SchedLost(s, e)
  {}

  // ----- runs

  ghost predicate Legal(s: Sys, events: seq<Event>)
    decreases |events|
  {
    |events| > 0 ==> Enabled(s, events[0]) && Legal(Next(s, events[0]), events[1..])
  }

  ghost function Run(s: Sys, events: seq<Event>): Sys
    requires Legal(s, events)
    decreases |events|
  {
    if |events| == 0 then s else Run(Next(s, events[0]), events[1..])
  }

  ghost predicate AlwaysBalanced(s: Sys, events: seq<Event>)
    requires Legal(s, events)
    decreases |events|
  {
    Balanced(s.core) && (|events| > 0 ==> AlwaysBalanced(Next(s, events[0]), events[1..]))
  }

  ghost predicate NeverSpurious(s: Sys, events: seq<Event>)
    requires Legal(s, events)
    decreases |events|
  {
    |events| > 0 ==> !Spurious(s, events[0]) && NeverSpurious(Next(s, events[0]), events[1..])
  }

  // Over every run, each accepted scan is completed exactly once, and none is completed that was not
  // owed, if and only if the run has no spurious step.
  lemma {:induction false} CompletedExactlyOnce(s: Sys, events: seq<Event>)
    requires Legal(s, events) && Inv(s) && Balanced(s.core)
    ensures AlwaysBalanced(s, events) <==> NeverSpurious(s, events)
    ensures NeverSpurious(s, events) ==> Balanced(Run(s, events).core)
    decreases |events|
  {
    if |events| > 0 {
      InvKept(s, events[0]);
      StepBalances(s, events[0]);
      if Balanced(Next(s, events[0]).core) {
        CompletedExactlyOnce(Next(s, events[0]), events[1..]);
      }
    }
  }

  lemma {:induction false} RunKeepsInv(s: Sys, events: seq<Event>)
    requires Legal(s, events) && Inv(s)
    ensures Inv(Run(s, events))
    decreases |events|
  {
    if |events| > 0 {
      InvKept(s, events[0]);
      RunKeepsInv(Next(s, events[0]), events[1..]);
    }
  }

  ghost predicate AlwaysSchedBalanced(s: Sys, events: seq<Event>)
    requires Legal(s, events)
    decreases |events|
  {
    SchedBalanced(s) && (|events| > 0 ==> AlwaysSchedBalanced(Next(s, events[0]), events[1..]))
  }

  ghost predicate NeverSchedLost(s: Sys, events: seq<Event>)
    requires Legal(s, events)
    decreases |events|
  {
    |events| > 0 ==> !SchedLost(s, events[0]) && NeverSchedLost(Next(s, events[0]), events[1..])
  }

  // Over every run, each scheduled scan that mac80211 was allowed to start ends for it exactly once, by its own
  // request or by being told, if and only if no scheduled scan is lost.
  lemma {:induction false} SchedEndedExactlyOnce(s: Sys, events: seq<Event>)
    requires Legal(s, events) && Inv(s) && SchedBalanced(s)
    ensures AlwaysSchedBalanced(s, events) <==> NeverSchedLost(s, events)
    ensures NeverSchedLost(s, events) ==> SchedBalanced(Run(s, events))
    ensures NeverSpurious(s, events) ==> NeverSchedLost(s, events)
    decreases |events|
  {
    if |events| > 0 {
      InvKept(s, events[0]);
      StepBalancesSched(s, events[0]);
      if SchedBalanced(Next(s, events[0])) {
        SchedEndedExactlyOnce(Next(s, events[0]), events[1..]);
      }
    }
  }

  // In every run the stopping of a scheduled scan, woken or not, leaves the state IDLE, so that the next scan
  // can start; and outside of it the state is never SCHED_STOPPING.
  lemma {:induction false} StopLeavesIdle(started: bool, events: seq<Event>, e: Event)
    requires Legal(Initial(started), events) && Enabled(Run(Initial(started), events), e)
    ensures var s := Run(Initial(started), events);
            && ((s.callback.StoppingSched? || s.callback.RestartStopping?) && (e.CallbackWakes? || e.CallbackRelocks?) ==>
                  Next(s, e).core.state == Idle)
            && (s.core.state == SchedStopping ==> s.callback.StoppingSched? || s.callback.RestartStopping?)
  {
    RunKeepsInv(Initial(started), events);
  }

  // In every run a cancel or timeout that waits for a scan which is still on is woken only by a completion left
  // over from before that scan; a scan started from IDLE has none, so its cancel is woken only when it is over.
  lemma {:induction false} WokenBeforeEndOnlyByLeftover(started: bool, events: seq<Event>)
    requires Legal(Initial(started), events)
    ensures var s := Run(Initial(started), events);
            CancelPending(s) && CancelWait(s).Waiting? && Active(s.core) ==>
              (WaitMayEnd(CancelWait(s), s.core) <==> s.leftover > 0)
  {
    RunKeepsInv(Initial(started), events);
  }

  // Outside of a scan, hw_scan begins one exactly when the device is started, the state is IDLE and nothing
  // fails; and it clears what is left over. Likewise for scheduled scans.
  lemma {:induction false} StartsExactlyFromIdle(s: Sys, initOk: bool, cmdOk: bool)
    requires s.callback.NoCallback? && !Active(s.core)
    ensures var t, ok := Next(s, OpHwScan(initOk, cmdOk)), s.core.started && s.core.state == Idle && initOk && cmdOk;
            && (Active(t.core) <==> ok) && (ok ==> t.leftover == 0 && t.core.done == 0 && t.armed)
            && (!ok ==> t.core.state == s.core.state)
    ensures var t, ok := Next(s, OpSchedStart(initOk, cmdOk)), s.core.started && s.core.state == Idle && initOk && cmdOk;
            && (ok ==> t.core.state == Sched && t.core.done == 0) && (!ok ==> t.core.state == s.core.state)
  {}

  // A start that had to stop a scheduled scan first goes on to begin a scan exactly when nothing fails; it keeps
  // the completions that are there.
  lemma {:induction false} RelaunchStarts(s: Sys, initOk: bool, cmdOk: bool)
    requires s.callback.Relaunching? && Inv(s)
    ensures var t := Next(s, Relaunch(initOk, cmdOk));
            && t.callback.NoCallback? && t.core.done == s.core.done
            && t.core.state == (if initOk && cmdOk then Running else Idle)
            && (initOk && cmdOk ==> t.armed && t.leftover == s.core.done)
  {}

  // Whatever ends a scan or a scheduled scan by an event or a restart raises the completion once, for a
  // thread that may be waiting for it.
  lemma {:induction false} EndsAreSignalled(s: Sys, e: Event)
    requires e.ScanDone? || e.RestartScanFinish? || e.RestartSchedFinish?
    ensures var t := Next(s, e);
            && (s.core.state != Idle && t.core.state == Idle ==> t.core.done == s.core.done + 1)
            && (e.ScanDone? ==> t.core.state == Idle && t.core.done == s.core.done + 1)
            && (e.RestartSchedFinish? ==> t.core.state != Sched)
            && (e.RestartScanFinish? ==> t.core.state == Idle || t.core.state == Sched)
  {}

  // morse_hw_scan_init, with nothing else going on.
  function Initial(started: bool): Sys {
    Sys(Core(started, Idle, 0, [], []), NoCallback, NotRunning, false, 0)
  }

  lemma {:induction false} InitialIsBalanced(started: bool)
    ensures Inv(Initial(started)) && TimelyInv(Initial(started))
    ensures Balanced(Initial(started).core) && SchedBalanced(Initial(started))
  {}

  // ----- an environment in which no step is spurious

  // The wait of the cancel in progress, if there is one: the cancel callback and the timeout work
  // never overlap.
  predicate CancelPending(s: Sys) {
    s.callback.Cancelling? || s.timeout.TimingOut?
  }

  function CancelWait(s: Sys): Wait
    requires CancelPending(s)
  {
    if s.callback.Cancelling? then s.callback.w else s.timeout.w
  }

  // The cancel has given up, or will as soon as it looks.
  predicate BoundToGiveUp(w: Wait, c: Core) {
    w.GaveUp? || (w.Asked? && (w.cmdFailed || !c.started))
  }

  // A scan does not end under a cancel that is bound to give up; the device is not stopped between the end of
  // a scan and the check of the cancel that asked for it; a new scan does not start while the timeout work
  // has yet to notice that its own is over; and a forced finish does not fall into the stopping of a
  // scheduled scan. A restart, in particular, may end a scan that a cancel waits for.
  predicate Timely(s: Sys, e: Event) {
    && (CancelPending(s) && (e.ScanDone? || e.RestartScanFinish?) ==> !BoundToGiveUp(CancelWait(s), s.core))
    && (CancelPending(s) && e == SetStarted(false) ==> Active(s.core) || !CancelWait(s).Asked?)
    && (s.timeout.TimingOut? && (e.OpHwScan? || e.OpSchedStart?) ==> Active(s.core))
    && (e.RestartScanFinish? ==> s.core.state != SchedStopping)
  }

  ghost predicate AlwaysTimely(s: Sys, events: seq<Event>)
    requires Legal(s, events)
    decreases |events|
  {
    |events| > 0 ==> Timely(s, events[0]) && AlwaysTimely(Next(s, events[0]), events[1..])
  }

  predicate TimelyInv(s: Sys) {
    && (s.armed ==> Active(s.core))
    && (s.callback.Cancelling? ==> s.timeout.NotRunning? && !s.armed)
    && (s.timeout.TimingOut? ==> !s.armed && s.callback.NoCallback? && (s.core.state == Aborting || s.core.state == Idle))
    && (CancelPending(s) && !Active(s.core) ==> !BoundToGiveUp(CancelWait(s), s.core) && s.core.done > 0)
    && ((s.callback.StoppingSched? || s.callback.RestartStopping?) && s.core.state == Idle ==> s.core.done > 0)
  }

  lemma {:induction false} TimelyStep(s: Sys, e: Event)
    requires Inv(s) && TimelyInv(s) && Enabled(s, e) && Timely(s, e)
    ensures TimelyInv(Next(s, e)) && !Spurious(s, e)
  {}

  // In a timely environment every accepted scan is completed exactly once, however it ends, and every
  // scheduled scan ends exactly once.
  lemma {:induction false} TimelyRunsComplete(s: Sys, events: seq<Event>)
    requires Legal(s, events) && Inv(s) && TimelyInv(s) && AlwaysTimely(s, events)
    requires Balanced(s.core) && SchedBalanced(s)
    ensures NeverSpurious(s, events) && AlwaysBalanced(s, events) && AlwaysSchedBalanced(s, events)
    ensures Balanced(Run(s, events).core) && SchedBalanced(Run(s, events))
    decreases |events|
  {
    if |events| > 0 {
      InvKept(s, events[0]);
      TimelyStep(s, events[0]);
      StepBalances(s, events[0]);
      StepBalancesSched(s, events[0]);
      TimelyRunsComplete(Next(s, events[0]), events[1..]);
    }
    CompletedExactlyOnce(s, events);
    SchedEndedExactlyOnce(s, events);
  }

  lemma {:induction false} Extend(s: Sys, events: seq<Event>, e: Event)
    requires Legal(s, events) && Enabled(Run(s, events), e)
    ensures Legal(s, events + [e]) && Run(s, events + [e]) == Next(Run(s, events), e)
    ensures AlwaysTimely(s, events + [e]) <==> AlwaysTimely(s, events) && Timely(Run(s, events), e)
    decreases |events|
  {
    if |events| == 0 {
      assert events + [e] == [e];
    } else {
      assert (events + [e])[1..] == events[1..] + [e];
      Extend(Next(s, events[0]), events[1..], e);
    }
  }

  const INITIAL := Initial(true)

  // A run from the start that ends in s.
  ghost predicate Reaches(events: seq<Event>, s: Sys) {
    Legal(INITIAL, events) && Run(INITIAL, events) == s
  }

  // Three more steps.
  lemma {:induction false} ThenThree(events: seq<Event>, s: Sys, e1: Event, e2: Event, e3: Event)
    returns (more: seq<Event>)
    requires Reaches(events, s) && Enabled(s, e1) && Enabled(Next(s, e1), e2) && Enabled(Next(Next(s, e1), e2), e3)
    ensures Reaches(more, Next(Next(Next(s, e1), e2), e3))
    ensures AlwaysTimely(INITIAL, events) && Timely(s, e1) && Timely(Next(s, e1), e2) && Timely(Next(Next(s, e1), e2), e3)
            ==> AlwaysTimely(INITIAL, more)
  {
    Extend(INITIAL, events, e1);
    Extend(INITIAL, events + [e1], e2);
    Extend(INITIAL, events + [e1] + [e2], e3);
    more := events + [e1] + [e2] + [e3];
  }

  // A scan whose cancel, or whose timeout, is waiting for it.
  const CANCEL_WAITS := Sys(Core(true, Aborting, 0, [Accepted], []), Cancelling(Waiting), NotRunning, false, 0)
  const TIMEOUT_WAITS := Sys(Core(true, Aborting, 0, [Accepted], []), NoCallback, TimingOut(Waiting), false, 0)

  lemma {:induction false} CancelComesToWait() returns (events: seq<Event>)
    ensures Reaches(events, CANCEL_WAITS) && AlwaysTimely(INITIAL, events)
  {
    events := ThenThree([], INITIAL, OpHwScan(true, true), OpCancel(false), CallbackChecks);
  }

  lemma {:induction false} TimeoutComesToWait() returns (events: seq<Event>)
    ensures Reaches(events, TIMEOUT_WAITS)
  {
    events := ThenThree([], INITIAL, OpHwScan(true, true), TimeoutFires(false), TimeoutChecks);
  }

  // A restart that ends a scan under a waiting cancel is timely: the cancel is woken though the device has
  // been stopped, and the scan is completed once.
  lemma {:induction false} RestartUnderCancel() returns (events: seq<Event>)
    ensures Reaches(events, Sys(Core(false, Idle, 0, [Accepted, Completed], []), NoCallback, NotRunning, false, 0))
    ensures AlwaysTimely(INITIAL, events)
  {
    events := CancelComesToWait();
    events := ThenThree(events, CANCEL_WAITS, SetStarted(false), RestartScanFinish, CallbackWakes);
  }

  // The races are real. A done event between a cancel's failed wait and its re-lock has the scan
  // completed twice,
  lemma {:induction false} LateDoneCompletesTwice() returns (events: seq<Event>)
    ensures Reaches(events, Sys(Core(true, Idle, 1, [Accepted, Completed, Completed], []), NoCallback, NotRunning, false, 0))
  {
    events := CancelComesToWait();
    events := ThenThree(events, CANCEL_WAITS, CallbackGivesUp, ScanDone, CallbackRelocks);
  }

  // so does one between the timeout's failed wait and its re-lock,
  lemma {:induction false} LateDoneAfterTimeout() returns (events: seq<Event>)
    ensures Reaches(events, Sys(Core(true, Idle, 1, [Accepted, Completed, Completed], []), NoCallback, NotRunning, false, 0))
  {
    events := TimeoutComesToWait();
    events := ThenThree(events, TIMEOUT_WAITS, TimeoutGivesUp, ScanDone, TimeoutRelocks);
  }

  // and a forced finish while a scheduled scan is stopping completes a scan nobody started.
  lemma {:induction false} FinishWhileStoppingCompletesNothing() returns (events: seq<Event>)
    ensures Reaches(events, Sys(Core(true, Idle, 1, [Completed], [Begun, Ended]), StoppingSched(Asked(false)),
                                NotRunning, false, 0))
  {
    events := ThenThree([], INITIAL, OpSchedStart(true, true), OpSchedStop(false), RestartScanFinish);
  }

  // A timeout that gave up ends a scheduled scan that has begun since without telling mac80211.
  const SCHED_AFTER_TIMEOUT :=
    Sys(Core(true, Sched, 0, [Accepted, Completed], [Begun]), NoCallback, TimingOut(GaveUp), false, 0)

  lemma {:induction false} SchedBeginsAfterTimeout() returns (events: seq<Event>)
    ensures Reaches(events, SCHED_AFTER_TIMEOUT)
  {
    events := TimeoutComesToWait();
    events := ThenThree(events, TIMEOUT_WAITS, TimeoutGivesUp, ScanDone, OpSchedStart(true, true));
  }

  lemma {:induction false} TimeoutLosesSched() returns (events: seq<Event>)
    ensures Reaches(events, SCHED_AFTER_TIMEOUT) && Enabled(SCHED_AFTER_TIMEOUT, TimeoutRelocks)
    ensures var t := Next(SCHED_AFTER_TIMEOUT, TimeoutRelocks); t.core.state == Idle && t.core.sched == [Begun]
  {
    events := SchedBeginsAfterTimeout();
  }

  // A completion left over from the stopping of a scheduled scan, which the start that asked for the stop
  // does not clear, wakes the cancel of the new scan while that is still on.
  const STOP_FAILED := Sys(Core(true, SchedStopping, 0, [], [Begun]), RestartStopping(Asked(true)), NotRunning, false, 0)
  const STOPPED_LATE := Sys(Core(true, Idle, 1, [], [Begun]), Notifying, NotRunning, false, 0)
  const NEW_SCAN := Sys(Core(true, Aborting, 1, [Accepted], [Begun, Ended]), Cancelling(Asked(false)), NotRunning, false, 1)

  lemma {:induction false} StopFails() returns (events: seq<Event>)
    ensures Reaches(events, STOP_FAILED)
  {
    events := ThenThree([], INITIAL, OpSchedStart(true, true), OpHwScan(true, true), RestartStops(true));
  }

  lemma {:induction false} StopsLate() returns (events: seq<Event>)
    ensures Reaches(events, STOPPED_LATE)
  {
    events := StopFails();
    events := ThenThree(events, STOP_FAILED, CallbackChecks, ScanDone, CallbackRelocks);
  }

  lemma {:induction false} NewScanStarts() returns (events: seq<Event>)
    ensures Reaches(events, NEW_SCAN)
  {
    events := StopsLate();
    events := ThenThree(events, STOPPED_LATE, RestartNotifies, Relaunch(true, true), OpCancel(false));
  }

  lemma {:induction false} LeftoverWakesCancel() returns (events: seq<Event>, s: Sys)
    ensures Reaches(events, s) && Active(s.core) && s.callback.Cancelling? && Enabled(s, CallbackWakes)
  {
    events := NewScanStarts();
    s := Next(NEW_SCAN, CallbackChecks);
    Extend(INITIAL, events, CallbackChecks);
    events := events + [CallbackChecks];
  }

  // ----- the driver's regions, as it runs them

  const ENODEV := 19
  const EBUSY := 16
  const ENOMEM := 12

  class HwScanContext {
    var started: bool
    var state: ScanState
    var done: nat
    ghost var log: seq<Call>
    ghost var sched: seq<SchedCall>

    ghost function View(): Core
      reads this
    {
      Core(started, state, done, log, sched)
    }

    // morse_hw_scan_init
    constructor (on: bool)
      ensures View() == Initial(on).core
    {
      started, state, done, log, sched := on, Idle, 0, [], [];
    }

    // ieee80211_scan_completed
    method ScanCompleted()
      modifies this`log
      ensures log == old(log) + [Completed]
    {
      log := log + [Completed];
    }

    // ieee80211_sched_scan_stopped; also the end of morse_hw_stop_sched_scan, when the stop was not requested.
    method SchedScanStopped()
      modifies this`sched
      ensures View() == NotifyStopped(old(View()))
    {
      sched := sched + [Ended];
    }

    // morse_ops_hw_scan once the state is RUNNING; cmdRet is what sending the scan command returned.
    method LaunchScan(initOk: bool, cmdRet: int) returns (ret: int)
      modifies this`state, this`log
      ensures View() == Launch(old(View()), initOk, cmdRet == 0).0
      ensures ret == if !initOk then -ENOMEM else cmdRet
    {
      state := Running;
      if !initOk {
        state := Idle;
        return -ENOMEM;
      }
      ret := cmdRet;
      if ret != 0 {
        state := Idle;
        return;
      }
      log := log + [Accepted];
    }

    // morse_ops_hw_scan; stopFirst when the lock is dropped to stop a scheduled scan, after which the
    // start goes on with LaunchScan.
    method OpsHwScan(initOk: bool, cmdRet: int) returns (ret: int, stopFirst: bool)
      modifies this
      ensures (View(), stopFirst) ==
                var (c, r) := HwScan(old(View()), initOk, cmdRet == 0); (c, r == StopSchedFirst)
      ensures !stopFirst ==> (ret == 0 <==> log == old(log) + [Accepted])
    {
      ret, stopFirst := 0, false;
      if !started {
        return -ENODEV, false;
      }
      match state {
        case Sched =>
          return 0, true;
        case Idle =>
          done := 0;
          ret := LaunchScan(initOk, cmdRet);
        case _ =>
          ret := -EBUSY;
      }
    }

    // cancel_hw_scan, first region
    method CancelBegin() returns (wait: bool)
      modifies this`state
      ensures (View(), wait) == BeginCancel(old(View()))
    {
      match state {
        case Running =>
          state := Aborting;
          wait := true;
        case _ =>
          wait := false;
      }
    }

    // What cancel_hw_scan and morse_hw_stop_sched_scan look at, without the lock, before they wait.
    method MayWait(cmdRet: int) returns (wait: bool)
      ensures Checked(Asked(cmdRet != 0), View()) == if wait then Waiting else GaveUp
    {
      if cmdRet != 0 {
        return false;
      }
      wait := started;
    }

    // cancel_hw_scan, second region
    method CancelEnd()
      modifies this`state, this`log
      ensures View() == EndCancel(old(View()))
    {
      ScanCompleted();
      state := Idle;
    }

    // morse_hw_scan_done_event
    method ScanDoneEvent()
      modifies this
      ensures View() == DoneEvent(old(View()))
    {
      match state {
        case Idle =>
        case SchedStopping =>
          state := Idle;
        case Sched =>
          state := Idle;
          SchedScanStopped();
        case _ =>
          state := Idle;
          ScanCompleted();
      }
      done := done + 1;
    }

    // morse_hw_sched_scan_finish
    method FinishSched()
      modifies this
      ensures View() == SchedFinish(old(View()))
    {
      if state != Sched {
        return;
      }
      SchedScanStopped();
      done := done + 1;
      state := Idle;
    }

    // morse_hw_scan_finish
    method FinishScan()
      modifies this
      ensures View() == Finish(old(View()))
    {
      if state == Idle || state == Sched {
        return;
      }
      ScanCompleted();
      done := done + 1;
      state := Idle;
    }

    // morse_ops_sched_scan_start
    method OpsSchedStart(initOk: bool, cmdRet: int) returns (ret: int)
      modifies this
      ensures (View(), ret == 0) == SchedStart(old(View()), initOk, cmdRet == 0)
    {
      if !started {
        return -ENODEV;
      }
      match state {
        case Idle =>
          state := Sched;
          done := 0;
        case _ =>
          return -EBUSY;
      }
      if !initOk {
        state := Idle;
        return -ENOMEM;
      }
      ret := cmdRet;
      if ret != 0 {
        state := Idle;
        return;
      }
      sched := sched + [Begun];
    }

    // morse_hw_stop_sched_scan, first region; `requested` when mac80211 asks for it.
    method StopSchedBegin(requested: bool) returns (wait: bool)
      modifies this`state, this`sched
      ensures (View(), wait) == BeginStopSched(if requested then StopRequested(old(View())) else old(View()))
    {
      if requested && |sched| % 2 == 1 {
        sched := sched + [Ended];
      }
      match state {
        case Sched =>
          state := SchedStopping;
          wait := true;
        case _ =>
          wait := false;
      }
    }

    // morse_hw_stop_sched_scan, second region
    method StopSchedEnd()
      modifies this`state
      ensures View() == EndStopSched(old(View()))
    {
      state := Idle;
    }
  }
}
