/**
 * The automation's decision: which power state the outlet should have,
 * given whether a monitored app runs, the battery level and the outlet's
 * present state.
 */
module Policy {

  /**
   * The priority chain of control_smart_plug: a running app forces ON; else a
   * battery below the threshold forces ON; else a full battery (100 or more)
   * forces OFF; else the outlet keeps its present state (the hold band).
   */
  function DesiredState(appRunning: bool, battery: int, threshold: int, isOn: bool): (on: bool)
    ensures appRunning ==> on
    ensures !appRunning && battery < threshold ==> on
    ensures !appRunning && threshold <= battery && battery >= 100 ==> !on
    ensures !appRunning && threshold <= battery < 100 ==> on == isOn
    ensures on <==> appRunning || battery < threshold || (battery < 100 && isOn)
  {
    if appRunning then true
    else if battery < threshold then true
    else if battery >= 100 then false
    else isOn
  }

  /** More charge never asks for more power: the decision is antitone in the battery level. */
  lemma DesiredAntitone(appRunning: bool, b1: int, b2: int, threshold: int, isOn: bool)
    requires b1 <= b2
    ensures DesiredState(appRunning, b2, threshold, isOn) ==> DesiredState(appRunning, b1, threshold, isOn)
  {
  }

}
