/** The battery indicator of the status bar: how a battery reading is shown.
    A reading is the level as an integer percentage, whether the device is
    charging, and whether the browser exposes the battery at all. */
module BatteryStatus {

  datatype BatteryInfo = BatteryInfo(level: int, charging: bool, supported: bool)

  /** The text colour class of the indicator. */
  datatype Color = Gray | Green | Yellow | Red

  /** The icon drawn in front of the reading. */
  datatype Icon = Plug | BatteryLow | Battery

  /** The text after the icon: "N/A", or the level followed by "%". */
  datatype Label = NotAvailable | Percent(level: int)

  /** What the component renders: colour, icon, label and whether the
      "(Charging)" note is shown. */
  datatype Indicator = Indicator(color: Color, icon: Icon, text: Label, chargingNote: bool)

  /** The state the component starts in, before the battery is queried. */
  const Initial := BatteryInfo(0, false, false)

  /** Low-battery threshold: at or below it the reading is alarming. */
  const LowThreshold := 20

  /** Medium threshold: above the low one and at or below this one the reading is a warning. */
  const MediumThreshold := 50

  /** The colour of a supported reading: charging wins, then the two thresholds. */
  function ColorOf(charging: bool, level: int): (c: Color)
    ensures c != Gray
    ensures c == Red <==> !charging && level <= LowThreshold
    ensures c == Yellow <==> !charging && LowThreshold < level <= MediumThreshold
    ensures c == Green <==> charging || MediumThreshold < level
  {
    if charging then Green
    else if level <= LowThreshold then Red
    else if level <= MediumThreshold then Yellow
    else Green
  }

  /** The icon of a supported reading: a plug while charging, the low-battery
      icon at or below the low threshold, the plain battery otherwise. */
  function IconOf(charging: bool, level: int): (i: Icon)
    ensures i == Plug <==> charging
    ensures i == BatteryLow <==> !charging && level <= LowThreshold
  {
    if charging then Plug
    else if level <= LowThreshold then BatteryLow
    else Battery
  }

  /** The whole indicator. An unsupported battery shows a grey plain battery
      and "N/A"; a supported one shows its colour, icon, level and the
      charging note. */
  function Render(b: BatteryInfo): (v: Indicator)
    ensures !b.supported ==> v == Indicator(Gray, Battery, NotAvailable, false)
    ensures b.supported ==> v.text == Percent(b.level) && v.chargingNote == b.charging
    ensures b.supported ==> v.color == ColorOf(b.charging, b.level) && v.icon == IconOf(b.charging, b.level)
  {
    if !b.supported then Indicator(Gray, Battery, NotAvailable, false)
    else Indicator(ColorOf(b.charging, b.level), IconOf(b.charging, b.level), Percent(b.level), b.charging)
  }

  /** An unsupported battery looks the same whatever its level and charging flag. */
  lemma UnsupportedIgnoresReading(b: BatteryInfo, b': BatteryInfo)
    requires !b.supported && !b'.supported
    ensures Render(b) == Render(b') && Render(b).text == NotAvailable
  {
  }

  /** Before the first reading arrives the indicator shows "N/A". */
  lemma InitialShowsNotAvailable()
    ensures Render(Initial).text == NotAvailable && Render(Initial).icon == Battery
  {
  }

  /** On a supported reading, the colour is red exactly when the icon is the
      low-battery one: both use the same charging-first, at-most-20 test. */
  lemma RedIffLowIcon(b: BatteryInfo)
    requires b.supported
    ensures Render(b).color == Red <==> Render(b).icon == BatteryLow
  {
  }

  /** While charging, the level does not matter: green with a plug. */
  lemma ChargingIgnoresLevel(b: BatteryInfo)
    requires b.supported && b.charging
    ensures Render(b).color == Green && Render(b).icon == Plug && Render(b).chargingNote
  {
  }

  /** How alarming a colour is: green 0, yellow 1, red 2. */
  function Severity(c: Color): nat {
    match c
    case Gray => 0
    case Green => 0
    case Yellow => 1
    case Red => 2
  }

  /** When not charging, a lower level is never shown less alarmingly than a higher one. */
  lemma SeverityAntitone(l1: int, l2: int)
    requires l1 <= l2
    ensures Severity(ColorOf(false, l1)) >= Severity(ColorOf(false, l2))
  {
  }
}
