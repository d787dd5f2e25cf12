/**
 * The XDM `EnvironmentType` enumeration and its construction from the
 * run mode reported by the host system.
 */
module EnvironmentTypes {
  import opened Common

  /** The five environment kinds; each one's raw value is its lower-case name. */
  datatype EnvironmentType = Browser | Application | Iot | External | Widget

  /** The string each case encodes to (Swift's `rawValue`). */
  function RawValue(e: EnvironmentType): (raw: string)
    ensures raw != []
  {
    match e
    case Browser => "browser"
    case Application => "application"
    case Iot => "iot"
    case External => "external"
    case Widget => "widget"
  }

  /**
   * The run mode that denotes an environment, for the two environments a
   * run mode can denote at all: an app is "Application", an app extension
   * (a widget) is "Extension". This is the reference the mapping is checked against.
   */
  function RunModeOf(e: EnvironmentType): (runMode: Option<string>)
    ensures runMode.Some? <==> e == Application || e == Widget
  {
    match e
    case Application => Some("Application")
    case Widget => Some("Extension")
    case _ => None
  }

  /**
   * `EnvironmentType.from(runMode:)`: exact, case-sensitive match of the run
   * mode; every other input, `nil` included, has no environment.
   */
  function FromRunMode(runMode: Option<string>): (env: Option<EnvironmentType>)
    ensures env == Some(Application) <==> runMode == Some("Application")
    ensures env == Some(Widget) <==> runMode == Some("Extension")
    ensures env.None? <==> runMode != Some("Application") && runMode != Some("Extension")
  {
    if runMode == Some("Application") then Some(Application)
    else if runMode == Some("Extension") then Some(Widget)
    else None
  }

  /** `from` never produces `.browser`, `.iot` or `.external`. */
  lemma FromRunModeRange(runMode: Option<string>)
    ensures FromRunMode(runMode) != Some(Browser)
    ensures FromRunMode(runMode) != Some(Iot)
    ensures FromRunMode(runMode) != Some(External)
  {
  }

  /**
   * `FromRunMode` and `RunModeOf` are inverse to each other: a run mode
   * maps to an environment exactly when it is that environment's run mode.
   */
  lemma FromRunModeInvertsRunModeOf(runMode: Option<string>, e: EnvironmentType)
    ensures FromRunMode(runMode) == Some(e) <==> RunModeOf(e).Some? && runMode == RunModeOf(e)
  {
  }

  /**
   * `from` is not the inverse of `rawValue`: no raw value is a run mode,
   * because raw values are lower case and the matching is case-sensitive.
   */
  lemma RawValueIsNoRunMode(e: EnvironmentType)
    ensures FromRunMode(Some(RawValue(e))) == None
  {
  }
}
