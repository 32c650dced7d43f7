/**
 * The smart-plug controller of SmartPlugApp: the monitoring session, the
 * per-tick automation decision with its debounce, the manual toggle and the
 * flags that keep the two apart.
 *
 * Each operation is first given as a function on a `State` value (the
 * specification), then as a method of the class `SmartPlugApp` that updates
 * the fields in place and is proved to follow that function. Network calls,
 * battery and process readings arrive as parameters.
 */
module Controller {
  import opened Wrappers
  import Apps
  import Policy

  // ---------------------------------------------------------------------
  // State and outcomes
  // ---------------------------------------------------------------------

  /**
   * The fields SmartPlugApp keeps between operations. `lastAppRunning` is None
   * until the first tick has looked at the processes (the source starts it as an
   * empty list, which never equals a boolean).
   */
  datatype State = State(
    running: bool,
    manualOverride: bool,
    toggleInProgress: bool,
    lastPlugState: Option<bool>,
    lastAppRunning: Option<bool>)

  /** The state an operation leaves and what it reports. */
  datatype Step<R> = Step(next: State, out: R)

  /** Automation is suspended only while a manual toggle is in flight. */
  ghost predicate Inv(s: State) {
    s.manualOverride ==> s.toggleInProgress
  }

  const Initial: State := State(false, false, false, None, None)

  /** Python's `xs[i]`: negative indices count from the end; None is an IndexError. */
  function PyIndex<T>(xs: seq<T>, i: int): (r: Option<T>)
    ensures r.Some? <==> -|xs| <= i < |xs|
    ensures r.Some? ==> r.value in xs
    ensures 0 <= i < |xs| ==> r == Some(xs[i])
    ensures -|xs| <= i < 0 ==> r == Some(xs[|xs| + i])
  {
    if 0 <= i < |xs| then Some(xs[i])
    else if -|xs| <= i < 0 then Some(xs[|xs| + i])
    else None
  }

  // ---------------------------------------------------------------------
  // Starting and stopping monitoring
  // ---------------------------------------------------------------------

  /** start_monitoring: only a stopped controller starts a session. */
  function StartStep(s: State): (r: Step<bool>)
    ensures r.out == !s.running
    ensures r.next == s.(running := true)
  {
    if s.running then Step(s, false) else Step(s.(running := true), true)
  }

  /** stop_monitoring: ends the loop and lifts any manual override. */
  function StopStep(s: State): (t: State)
    ensures !t.running && !t.manualOverride
    ensures t.toggleInProgress == s.toggleInProgress
    ensures t.lastPlugState == s.lastPlugState && t.lastAppRunning == s.lastAppRunning
    ensures Inv(s) ==> Inv(t)
  {
    s.(running := false, manualOverride := false)
  }

  /** How the start of control_smart_plug ends. */
  datatype SessionStart =
    | NotFound          // discovery failed
    | BadNumber         // the plug number field is not an integer: ValueError ends the task
    | NoSockets         // the device has no child sockets
    | BadIndex          // plug_number is out of range: IndexError ends the task
    | Ready(isOn: bool) // the session polls this socket, found in this state

  /**
   * The start of control_smart_plug, given what discovery returned (the
   * sockets' power states, or None) and the plug number field as `int()` reads
   * it (None when it raises ValueError). Only a session that
   * reaches its socket touches the state, and then only to record the socket's
   * state when nothing was recorded yet. No outcome clears `running`.
   */
  function OpenStep(s: State, plug: Option<seq<bool>>, plugNumber: Option<int>): (r: Step<SessionStart>)
    ensures r.out.Ready? <==>
              plug.Some? && plugNumber.Some? && plug.value != [] && PyIndex(plug.value, plugNumber.value).Some?
    ensures r.out.Ready? ==> Some(r.out.isOn) == PyIndex(plug.value, plugNumber.value)
    ensures r.out == NotFound <==> plug.None?
    ensures r.out == BadNumber <==> plug.Some? && plugNumber.None?
    ensures r.out == BadIndex <==>
              plug.Some? && plugNumber.Some? && plug.value != [] && PyIndex(plug.value, plugNumber.value).None?
    ensures r.out == NoSockets <==> plug.Some? && plugNumber.Some? && plug.value == []
    ensures r.next.running == s.running && r.next.manualOverride == s.manualOverride
    ensures r.next.toggleInProgress == s.toggleInProgress && r.next.lastAppRunning == s.lastAppRunning
    ensures s.lastPlugState.Some? ==> r.next.lastPlugState == s.lastPlugState
    ensures s.lastPlugState.None? && r.out.Ready? ==> r.next.lastPlugState == Some(r.out.isOn)
    ensures !r.out.Ready? ==> r.next == s
  {
    match plug
    case None => Step(s, NotFound)
    case Some(children) =>
      if plugNumber.None? then Step(s, BadNumber)
      else if children == [] then Step(s, NoSockets)
      else match PyIndex(children, plugNumber.value)
        case None => Step(s, BadIndex)
        case Some(isOn) =>
          Step(if s.lastPlugState.None? then s.(lastPlugState := Some(isOn)) else s, Ready(isOn))
  }

  // ---------------------------------------------------------------------
  // One tick of the automation loop
  // ---------------------------------------------------------------------

  /**
   * What one tick reads: the configuration as it is at that tick, the socket's
   * state after refreshing it (None when the refresh raised), the battery level
   * (None when there is no battery), the running processes' names, and whether
   * the power command, if one is sent, succeeds.
   */
  datatype TickInput = TickInput(
    threshold: int,
    apps: seq<string>,
    outlet: Option<bool>,
    battery: Option<int>,
    processes: seq<Option<string>>,
    commandOk: bool)

  datatype TickResult =
    | Stopped                   // `running` is false: the loop has ended
    | Suspended                 // manual override: the tick only sleeps
    | RefreshFailed             // refreshing the socket raised
    | NoBattery                 // no battery information
    | Held(desired: bool)       // the decision sends nothing
    | Sent(on: bool, ok: bool)  // a power command was sent; ok when it did not raise

  /**
   * One pass of the `while self.running` body. A command is sent only when the
   * desired state differs both from the socket's state and from the last state
   * the automation itself set; only a command that succeeds records its state.
   */
  ghost function TickStep(s: State, t: TickInput): (r: Step<TickResult>)
    ensures Inv(s) ==> Inv(r.next)
    ensures r.next.running == s.running && r.next.manualOverride == s.manualOverride
    ensures r.next.toggleInProgress == s.toggleInProgress
    ensures (!s.running || s.manualOverride || t.outlet.None? || t.battery.None?) ==> r.next == s
    ensures r.out.Sent? ==>
              && s.running && !s.manualOverride
              && t.outlet == Some(!r.out.on)
              && s.lastPlugState != Some(r.out.on)
    ensures r.out.Sent? && r.out.ok ==> r.next.lastPlugState == Some(r.out.on)
    ensures !(r.out.Sent? && r.out.ok) ==> r.next.lastPlugState == s.lastPlugState
    ensures r.out == Stopped <==> !s.running
    ensures s.running && s.manualOverride ==> r.out == Suspended
    ensures s.running && !s.manualOverride && t.outlet.None? ==> r.out == RefreshFailed
    ensures s.running && !s.manualOverride && t.outlet.Some? && t.battery.None? ==> r.out == NoBattery
    ensures s.running && !s.manualOverride && t.outlet.Some? && t.battery.Some? ==>
              var appRunning := Apps.MonitoredAppRunning(t.apps, t.processes);
              var desired := Policy.DesiredState(appRunning, t.battery.value, t.threshold, t.outlet.value);
              && r.next.lastAppRunning == Some(appRunning)
              && (r.out.Sent? <==> desired != t.outlet.value && s.lastPlugState != Some(desired))
              && (r.out.Sent? ==> r.out.on == desired && r.out.ok == t.commandOk)
              && (!r.out.Sent? ==> r.out == Held(desired))
  {
    if !s.running then Step(s, Stopped)
    else if s.manualOverride then Step(s, Suspended)
    else if t.outlet.None? then Step(s, RefreshFailed)
    else if t.battery.None? then Step(s, NoBattery)
    else
      var isOn := t.outlet.value;
      var appRunning := Apps.MonitoredAppRunning(t.apps, t.processes);
      var seen := s.(lastAppRunning := Some(appRunning));
      var desired := Policy.DesiredState(appRunning, t.battery.value, t.threshold, isOn);
      if desired != isOn && s.lastPlugState != Some(desired) then
        if t.commandOk then Step(seen.(lastPlugState := Some(desired)), Sent(desired, true))
        else Step(seen, Sent(desired, false))
      else Step(seen, Held(desired))
  }

  /**
   * The loop: ticks one after another for as long as `running` holds. It
   * gives one result per tick it ran, and it stops early only once `running`
   * is false.
   */
  ghost function Run(s: State, ticks: seq<TickInput>): (r: Step<seq<TickResult>>)
    ensures |r.out| <= |ticks|
    ensures |r.out| < |ticks| ==> !r.next.running
    ensures !s.running ==> r == Step(s, [])
    decreases |ticks|
  {
    if ticks == [] || !s.running then Step(s, [])
    else
      var first := TickStep(s, ticks[0]);
      var rest := Run(first.next, ticks[1..]);
      Step(rest.next, [first.out] + rest.out)
  }

  // ---------------------------------------------------------------------
  // The manual toggle
  // ---------------------------------------------------------------------

  /** How far the socket commands of a toggle got. */
  datatype CommandStage =
    | ReadFailed     // refreshing the socket raised before any command
    | SendFailed     // turn_on / turn_off raised
    | ConfirmFailed  // the command went out, the refresh after it raised
    | Done           // everything succeeded

  /**
   * What the device side of a toggle did. `plugNumber` is the plug number field
   * as `int()` reads it, None when it raises ValueError.
   */
  datatype ToggleRun =
    | Unreachable  // discovery or its refresh raised
    | Reached(children: seq<bool>, plugNumber: Option<int>, stage: CommandStage)

  /** The socket a reached toggle addresses, if the number parses and indexes a child. */
  function Target(run: ToggleRun): (t: Option<bool>)
    ensures t.Some? <==> run.Reached? && run.plugNumber.Some? && PyIndex(run.children, run.plugNumber.value).Some?
    ensures t.Some? ==> t == PyIndex(run.children, run.plugNumber.value)
  {
    if run.Reached? && run.plugNumber.Some? then PyIndex(run.children, run.plugNumber.value) else None
  }

  datatype ToggleReport =
    | Busy                             // another toggle is in flight
    | NoChildren                       // the device has no child sockets
    | Failed(requested: Option<bool>)  // an exception; the command asked for, if any
    | Switched(on: bool)               // the socket was switched to `on`

  /** toggle_manual, lines before its first await: refuse while a toggle is in flight. */
  function BeginToggleStep(s: State): (r: Step<bool>)
    ensures r.out == !s.toggleInProgress
    ensures !r.out ==> r.next == s
    ensures r.out ==> r.next == s.(toggleInProgress := true, manualOverride := true)
    ensures Inv(r.next)
  {
    if s.toggleInProgress then Step(s, false)
    else Step(s.(toggleInProgress := true, manualOverride := true), true)
  }

  /**
   * What the device part of toggle_manual reports. The command asked for is
   * always the opposite of the socket's state as read at the start.
   */
  function ToggleReportOf(run: ToggleRun): (rep: ToggleReport)
    ensures rep != Busy
    ensures rep == NoChildren <==> run.Reached? && run.plugNumber.Some? && run.children == []
    ensures rep.Switched? <==> Target(run).Some? && run.stage.Done?
    ensures rep.Switched? ==> Target(run) == Some(!rep.on)
    ensures Target(run).Some? && (run.stage.SendFailed? || run.stage.ConfirmFailed?) ==>
              rep == Failed(Some(!Target(run).value))
    ensures run.Unreachable? || (run.Reached? && run.plugNumber.None?) ==> rep == Failed(None)
    ensures run.Reached? && run.children != [] && Target(run).None? ==> rep == Failed(None)
    ensures Target(run).Some? && run.stage.ReadFailed? ==> rep == Failed(None)
    ensures rep.Failed? && rep.requested.Some? ==>
              && (run.stage.SendFailed? || run.stage.ConfirmFailed?)
              && Target(run) == Some(!rep.requested.value)
  {
    match run
    case Unreachable => Failed(None)
    case Reached(children, plugNumber, stage) =>
      if plugNumber.None? then Failed(None)
      else if children == [] then NoChildren
      else match PyIndex(children, plugNumber.value)
        case None => Failed(None)
        case Some(isOn) =>
          if stage.ReadFailed? then Failed(None)
          else if stage.Done? then Switched(!isOn)
          else Failed(Some(!isOn))
  }

  /** The rest of toggle_manual: the `finally` clears both flags whatever happened. */
  function FinishToggleStep(s: State, run: ToggleRun): (r: Step<ToggleReport>)
    ensures !r.next.toggleInProgress && !r.next.manualOverride
    ensures r.next.running == s.running
    ensures r.next.lastPlugState == s.lastPlugState && r.next.lastAppRunning == s.lastAppRunning
    ensures r.out == ToggleReportOf(run)
  {
    Step(s.(toggleInProgress := false, manualOverride := false), ToggleReportOf(run))
  }

  /** A whole toggle_manual call with nothing interleaved. */
  function ToggleStep(s: State, run: ToggleRun): (r: Step<ToggleReport>)
    ensures s.toggleInProgress ==> r == Step(s, Busy)
    ensures !s.toggleInProgress ==> !r.next.toggleInProgress && !r.next.manualOverride
    ensures !s.toggleInProgress ==> r.out == ToggleReportOf(run)
    ensures r.next.running == s.running && r.next.lastPlugState == s.lastPlugState
    ensures r.next.lastAppRunning == s.lastAppRunning
  {
    var begin := BeginToggleStep(s);
    if !begin.out then Step(s, Busy) else FinishToggleStep(begin.next, run)
  }

  // ---------------------------------------------------------------------
  // Properties over several operations
  // ---------------------------------------------------------------------

  /** Fault isolation: failed refreshes, missing battery or failed commands never end a session. */
  lemma {:induction false} SessionSurvivesFailures(s: State, ticks: seq<TickInput>)
    requires s.running
    ensures Run(s, ticks).next.running
    ensures |Run(s, ticks).out| == |ticks|
    ensures forall i :: 0 <= i < |ticks| ==> Run(s, ticks).out[i] != Stopped
    decreases |ticks|
  {
    if ticks != [] {
      SessionSurvivesFailures(TickStep(s, ticks[0]).next, ticks[1..]);
    }
  }

  /** While a manual override is set, ticks only sleep: no command, no state change. */
  lemma {:induction false} OverrideSuspendsTicks(s: State, ticks: seq<TickInput>)
    requires s.manualOverride
    ensures Run(s, ticks).next == s
    ensures forall i :: 0 <= i < |Run(s, ticks).out| ==> Run(s, ticks).out[i] == Suspended
    decreases |ticks|
  {
    if ticks != [] && s.running {
      OverrideSuspendsTicks(s, ticks[1..]);
    }
  }

  /** The states of the commands that succeeded, in order. */
  function ConfirmedStates(results: seq<TickResult>): seq<bool>
    decreases |results|
  {
    if results == [] then []
    else
      var rest := ConfirmedStates(results[1..]);
      if results[0].Sent? && results[0].ok then [results[0].on] + rest else rest
  }

  /** Each state differs from the one before it, the first from `last`. */
  ghost predicate Alternating(last: Option<bool>, states: seq<bool>)
    decreases |states|
  {
    states == [] || (last != Some(states[0]) && Alternating(Some(states[0]), states[1..]))
  }

  /** The recorded plug state is the last confirmed command, or what it was before. */
  lemma {:induction false} RecordedStateIsLastConfirmed(s: State, ticks: seq<TickInput>)
    ensures var r := Run(s, ticks);
            var c := ConfirmedStates(r.out);
            r.next.lastPlugState == if c == [] then s.lastPlugState else Some(c[|c| - 1])
    decreases |ticks|
  {
    if ticks != [] && s.running {
      var first := TickStep(s, ticks[0]);
      RecordedStateIsLastConfirmed(first.next, ticks[1..]);
    }
  }

  /**
   * The debounce makes the automation's successful commands alternate: it never
   * confirms the same state twice in a row, even when the socket was switched by
   * hand in between.
   */
  lemma {:induction false} ConfirmedCommandsAlternate(s: State, ticks: seq<TickInput>)
    ensures Alternating(s.lastPlugState, ConfirmedStates(Run(s, ticks).out))
    decreases |ticks|
  {
    if ticks != [] && s.running {
      var first := TickStep(s, ticks[0]);
      var rest := Run(first.next, ticks[1..]);
      ConfirmedCommandsAlternate(first.next, ticks[1..]);
      assert Run(s, ticks).out == [first.out] + rest.out;
      assert ([first.out] + rest.out)[1..] == rest.out;
    }
  }

  /** A tick whose readings lie in the hold band, with no monitored app running. */
  ghost predicate InHoldBand(t: TickInput) {
    && t.outlet.Some? && t.battery.Some?
    && t.threshold <= t.battery.value < 100
    && !Apps.MonitoredAppRunning(t.apps, t.processes)
  }

  /** While the battery stays in the hold band and no app runs, the automation switches nothing. */
  lemma {:induction false} HoldBandSendsNothing(s: State, ticks: seq<TickInput>)
    requires forall i :: 0 <= i < |ticks| ==> InHoldBand(ticks[i])
    ensures Run(s, ticks).next.lastPlugState == s.lastPlugState
    ensures forall i :: 0 <= i < |Run(s, ticks).out| ==> !Run(s, ticks).out[i].Sent?
    decreases |ticks|
  {
    if ticks != [] && s.running {
      var first := TickStep(s, ticks[0]);
      var rest := ticks[1..];
      assert forall i :: 0 <= i < |rest| ==> rest[i] == ticks[i + 1];
      HoldBandSendsNothing(first.next, rest);
      assert !first.out.Sent?;
    }
  }

  /** Every state the automation maintains satisfies the flag invariant. */
  lemma {:induction false} RunKeepsInv(s: State, ticks: seq<TickInput>)
    requires Inv(s)
    ensures Inv(Run(s, ticks).next)
    ensures Run(s, ticks).next.toggleInProgress == s.toggleInProgress
    decreases |ticks|
  {
    if ticks != [] && s.running {
      RunKeepsInv(TickStep(s, ticks[0]).next, ticks[1..]);
    }
  }

  // ---------------------------------------------------------------------
  // The controller object
  // ---------------------------------------------------------------------

  class SmartPlugApp {
    var running: bool
    var manualOverride: bool
    var toggleInProgress: bool
    var lastPlugState: Option<bool>
    var lastAppRunning: Option<bool>

    function Snapshot(): State
      reads this
    {
      State(running, manualOverride, toggleInProgress, lastPlugState, lastAppRunning)
    }

    ghost predicate Valid()
      reads this
    {
      Inv(Snapshot())
    }

    constructor ()
      ensures Valid() && Snapshot() == Initial
    {
      running := false;
      manualOverride := false;
      toggleInProgress := false;
      lastPlugState := None;
      lastAppRunning := None;
    }

    method StartMonitoring() returns (started: bool)
      requires Valid()
      modifies this
      ensures Valid()
      ensures Step(Snapshot(), started) == StartStep(old(Snapshot()))
    {
      started := !running;
      if started {
        running := true;
      }
    }

    method StopMonitoring()
      requires Valid()
      modifies this
      ensures Valid()
      ensures Snapshot() == StopStep(old(Snapshot()))
    {
      running := false;
      manualOverride := false;
    }

    method OpenSession(plug: Option<seq<bool>>, plugNumber: Option<int>) returns (r: SessionStart)
      requires Valid()
      modifies this
      ensures Valid()
      ensures Step(Snapshot(), r) == OpenStep(old(Snapshot()), plug, plugNumber)
    {
      if plug.None? {
        return NotFound;
      }
      if plugNumber.None? {
        return BadNumber;
      }
      var children := plug.value;
      if children == [] {
        return NoSockets;
      }
      var child := PyIndex(children, plugNumber.value);
      if child.None? {
        return BadIndex;
      }
      if lastPlugState.None? {
        lastPlugState := Some(child.value);
      }
      r := Ready(child.value);
    }

    method Tick(t: TickInput) returns (r: TickResult)
      requires Valid()
      modifies this
      ensures Valid()
      ensures Step(Snapshot(), r) == TickStep(old(Snapshot()), t)
    {
      if !running {
        return Stopped;
      }
      if manualOverride {
        return Suspended;
      }
      if t.outlet.None? {
        return RefreshFailed;
      }
      var isOn := t.outlet.value;
      if t.battery.None? {
        return NoBattery;
      }
      var appRunning := Apps.IsAppRunning(t.apps, t.processes);
      lastAppRunning := Some(appRunning);
      var desired := Policy.DesiredState(appRunning, t.battery.value, t.threshold, isOn);
      if desired != isOn && lastPlugState != Some(desired) {
        if t.commandOk {
          lastPlugState := Some(desired);
        }
        r := Sent(desired, t.commandOk);
      } else {
        r := Held(desired);
      }
    }

    /** The `while self.running` loop over the ticks it gets to run. */
    method Monitor(ticks: seq<TickInput>) returns (results: seq<TickResult>)
      requires Valid()
      modifies this
      ensures Valid()
      ensures Step(Snapshot(), results) == Run(old(Snapshot()), ticks)
    {
      results := [];
      var i := 0;
      assert ticks[0..] == ticks;
      assert [] + Run(Snapshot(), ticks).out == Run(Snapshot(), ticks).out;
      while i < |ticks| && running
        invariant 0 <= i <= |ticks|
        invariant Valid()
        invariant Run(old(Snapshot()), ticks)
                  == Step(Run(Snapshot(), ticks[i..]).next, results + Run(Snapshot(), ticks[i..]).out)
      {
        ghost var before := Snapshot();
        var r := Tick(ticks[i]);
        assert ticks[i..][1..] == ticks[i + 1..];
        ghost var rest := Run(Snapshot(), ticks[i + 1..]);
        assert Run(before, ticks[i..]) == Step(rest.next, [r] + rest.out);
        assert results + ([r] + rest.out) == (results + [r]) + rest.out;
        results := results + [r];
        i := i + 1;
      }
      assert Run(Snapshot(), ticks[i..]) == Step(Snapshot(), []);
      assert results + [] == results;
    }

    method BeginToggle() returns (accepted: bool)
      requires Valid()
      modifies this
      ensures Valid()
      ensures Step(Snapshot(), accepted) == BeginToggleStep(old(Snapshot()))
    {
      if toggleInProgress {
        return false;
      }
      toggleInProgress := true;
      manualOverride := true;
      accepted := true;
    }

    method FinishToggle(run: ToggleRun) returns (rep: ToggleReport)
      requires Valid()
      modifies this
      ensures Valid()
      ensures Step(Snapshot(), rep) == FinishToggleStep(old(Snapshot()), run)
    {
      match run {
        case Unreachable =>
          rep := Failed(None);
        case Reached(children, plugNumber, stage) =>
          if plugNumber.None? {
            rep := Failed(None);
          } else if children == [] {
            rep := NoChildren;
          } else {
            var child := PyIndex(children, plugNumber.value);
            if child.None? || stage.ReadFailed? {
              rep := Failed(None);
            } else {
              var desired := !child.value;
              rep := if stage.Done? then Switched(desired) else Failed(Some(desired));
            }
          }
      }
      toggleInProgress := false;
      manualOverride := false;
    }

    method ToggleManual(run: ToggleRun) returns (rep: ToggleReport)
      requires Valid()
      modifies this
      ensures Valid()
      ensures Step(Snapshot(), rep) == ToggleStep(old(Snapshot()), run)
    {
      var accepted := BeginToggle();
      if !accepted {
        return Busy;
      }
      rep := FinishToggle(run);
    }
  }
}
