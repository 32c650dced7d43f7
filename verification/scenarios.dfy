/**
 * Concrete runs of the controller that show its behaviour end to end.
 */
module Scenarios {
  import opened Wrappers
  import opened Controller

  const Monitored: seq<string> := ["chrome.exe"]

  function Quiet(outlet: Option<bool>, battery: int): TickInput {
    TickInput(20, Monitored, outlet, Some(battery), [Some("explorer.exe"), None], true)
  }

  function WithApp(outlet: Option<bool>, battery: int): TickInput {
    TickInput(20, Monitored, outlet, Some(battery), [Some("CHROME.EXE")], true)
  }

  lemma QuietHasNoApp()
    ensures !Apps.MonitoredAppRunning(Monitored, [Some("explorer.exe"), None])
  {
    assert Apps.Lower("explorer.exe") != Apps.Lower(Monitored[0]);
  }

  lemma WithAppHasApp()
    ensures Apps.MonitoredAppRunning(Monitored, [Some("CHROME.EXE")])
  {
    var lowered := Apps.Lower("CHROME.EXE");
    assert lowered == "chrome.exe" by {
      forall i | 0 <= i < 10 ensures lowered[i] == "chrome.exe"[i] {
      }
    }
    assert Apps.Lower(Monitored[0]) == "chrome.exe";
    assert Apps.IsMonitored(Monitored, [Some("CHROME.EXE")][0]);
  }

  lemma StripTypedNames()
    ensures Apps.Strip("chrome.exe") == "chrome.exe"
    ensures Apps.Strip(" notepad.exe") == "notepad.exe"
  {
    assert Apps.Stripped("chrome.exe");
    assert Apps.TrimLeft(" notepad.exe") == Apps.TrimLeft(" notepad.exe"[1..]);
    assert " notepad.exe"[1..] == "notepad.exe";
    assert Apps.Stripped("notepad.exe");
  }

  /** The settings field "chrome.exe, notepad.exe" saves both names, the second stripped. */
  lemma TypedAppList(text: string)
    requires text == "chrome.exe, notepad.exe"
    ensures Apps.ParseApps(text) == ["chrome.exe", "notepad.exe"]
  {
    StripTypedNames();
    assert text == "chrome.exe" + "," + " notepad.exe";
    TwoFields(text, "chrome.exe", " notepad.exe");
  }

  /** Two comma-free, non-blank fields joined by a comma save as their two stripped names. */
  lemma TwoFields(text: string, a: string, b: string)
    requires text == a + "," + b && ',' !in a && ',' !in b
    requires Apps.Strip(a) != "" && Apps.Strip(b) != ""
    ensures Apps.ParseApps(text) == [Apps.Strip(a), Apps.Strip(b)]
  {
    Apps.ParseAppend(a, b);
    Apps.ParseField(a);
    Apps.ParseField(b);
  }

  /**
   * Threshold 20 and no monitored app: 15% switches the socket on, 100% switches
   * it off, a monitored app at 50% switches it on again although 50% lies in the
   * hold band; a failed refresh is logged and the next tick still runs.
   */
  lemma BatteryCycle()
    ensures
      var s := Initial.(running := true, lastPlugState := Some(false));
      var ticks := [Quiet(Some(false), 15), Quiet(Some(true), 100), WithApp(Some(false), 50),
                    Quiet(None, 50), WithApp(Some(true), 50)];
      Run(s, ticks).out == [Sent(true, true), Sent(false, true), Sent(true, true), RefreshFailed, Held(true)]
  {
    QuietHasNoApp();
    WithAppHasApp();
  }

  /**
   * The automation switched the socket on; the user then switches it off by
   * hand. With the battery low the automation wants it on again, but the
   * debounce compares with the last state the automation set, which is still
   * "on", so nothing is sent.
   */
  lemma ManualOffIsNotUndone()
    ensures
      var s := Initial.(running := true, lastPlugState := Some(true));
      var toggled := ToggleStep(s, Reached([true, false], Some(0), Done));
      && toggled.out == Switched(false)
      && TickStep(toggled.next, Quiet(Some(false), 10)).out == Held(true)
  {
    QuietHasNoApp();
  }

  /**
   * Stopping monitoring while a manual toggle is still in flight lifts the
   * override; once monitoring is started again, a tick sends a command while the
   * toggle has not finished.
   */
  lemma StopDuringToggle()
    ensures
      var s := Initial.(running := true, lastPlugState := Some(false));
      var begun := BeginToggleStep(s);
      var restarted := StartStep(StopStep(begun.next));
      var tick := TickStep(restarted.next, Quiet(Some(false), 10));
      && begun.out && restarted.out
      && tick.next.toggleInProgress
      && tick.out == Sent(true, true)
  {
    QuietHasNoApp();
  }
}
