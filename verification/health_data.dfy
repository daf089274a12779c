/** The health-data screen: the threshold alerts raised for each reading that
    arrives from the sensor, and the decisions taken when connecting to the
    sensor and when the link reports a change of state. */
module HealthData {
  import opened JavaLang

  // ---------------------------------------------------------------------------
  // Readings
  // ---------------------------------------------------------------------------

  /** A Java `float`, as far as comparisons can tell: a finite value, one of
      the infinities, or NaN, which compares false with everything. */
  datatype Float = Finite(value: real) | PositiveInfinity | NegativeInfinity | NaN

  /** `x > c` for a float `x` and a finite constant `c`. */
  predicate Above(x: Float, c: real) {
    match x
    case Finite(v) => v > c
    case PositiveInfinity => true
    case NegativeInfinity => false
    case NaN => false
  }

  /** `x < c` for a float `x` and a finite constant `c`. */
  predicate Below(x: Float, c: real) {
    match x
    case Finite(v) => v < c
    case PositiveInfinity => false
    case NegativeInfinity => true
    case NaN => false
  }

  /** One message from the sensor, once decoded. */
  datatype Reading = Reading(pulse: Int, temperature: Float, humidity: Float)

  const MAX_PULSE: int := 100
  const MIN_PULSE: int := 60
  const MAX_TEMP: real := 37.5
  const MIN_TEMP: real := 36.0
  const MAX_HUMIDITY: real := 70.0
  const MIN_HUMIDITY: real := 30.0

  // ---------------------------------------------------------------------------
  // Classification
  // ---------------------------------------------------------------------------

  datatype Band = Normal | High | Low

  /** Above the maximum is high; otherwise below the minimum is low. */
  function BandOf(above: bool, below: bool): Band {
    if above then High else if below then Low else Normal
  }

  /** The pulse band; the bounds are inclusive. */
  function PulseBand(pulse: int): (b: Band)
    ensures b == Normal <==> MIN_PULSE <= pulse <= MAX_PULSE
    ensures b == High <==> pulse > MAX_PULSE
    ensures b == Low <==> pulse < MIN_PULSE
  {
    BandOf(pulse > MAX_PULSE, pulse < MIN_PULSE)
  }

  /** The band of a float between two inclusive bounds; NaN is never out of
      band because every comparison with it is false. */
  function FloatBand(x: Float, lo: real, hi: real): (b: Band)
    requires lo <= hi
    ensures b == Normal <==> x.NaN? || (x.Finite? && lo <= x.value <= hi)
    ensures b == High <==> x.PositiveInfinity? || (x.Finite? && x.value > hi)
    ensures b == Low <==> x.NegativeInfinity? || (x.Finite? && x.value < lo)
  {
    BandOf(Above(x, hi), Below(x, lo))
  }

  datatype Bands = Bands(pulse: Band, temperature: Band, humidity: Band)

  const ALL_NORMAL: Bands := Bands(Normal, Normal, Normal)

  function Classify(r: Reading): Bands {
    Bands(PulseBand(r.pulse),
          FloatBand(r.temperature, MIN_TEMP, MAX_TEMP),
          FloatBand(r.humidity, MIN_HUMIDITY, MAX_HUMIDITY))
  }

  // ---------------------------------------------------------------------------
  // The alert text
  // ---------------------------------------------------------------------------

  /** The fragment one metric contributes: nothing when it is normal. */
  function Fragment(metric: string, b: Band): string {
    match b
    case High => "High " + metric + "! "
    case Low => "Low " + metric + "! "
    case Normal => ""
  }

  /** The fragments in their fixed order: pulse, temperature, humidity. */
  function AlertText(b: Bands): string {
    Fragment("pulse", b.pulse) + Fragment("temperature", b.temperature) + Fragment("humidity", b.humidity)
  }

  predicate StartsWith(s: string, prefix: string) {
    |prefix| <= |s| && s[..|prefix|] == prefix
  }

  /** Reads one metric's fragment off the front of `s`, if there is one. */
  function ReadFragment(metric: string, s: string): (Band, string) {
    var high := "High " + metric + "! ";
    var low := "Low " + metric + "! ";
    if StartsWith(s, high) then (High, s[|high|..])
    else if StartsWith(s, low) then (Low, s[|low|..])
    else (Normal, s)
  }

  /** Recovers the three bands from an alert text; `None` when something is
      left over. */
  function ParseAlert(s: string): Option<Bands> {
    var (p, s1) := ReadFragment("pulse", s);
    var (t, s2) := ReadFragment("temperature", s1);
    var (h, s3) := ReadFragment("humidity", s2);
    if s3 == "" then Some(Bands(p, t, h)) else None
  }

  /** Reading a fragment followed by `rest` gives the band back, provided
      `rest` does not itself start like a fragment of this metric. */
  lemma ReadFragmentAfter(metric: string, b: Band, rest: string)
    requires !StartsWith(rest, "High " + metric + "! ")
    requires !StartsWith(rest, "Low " + metric + "! ")
    ensures ReadFragment(metric, Fragment(metric, b) + rest) == (b, rest)
  {
    var s := Fragment(metric, b) + rest;
    var high := "High " + metric + "! ";
    var low := "Low " + metric + "! ";
    match b
    case High =>
      assert s[..|high|] == high;
      assert s[|high|..] == rest;
    case Low =>
      assert s[..|low|] == low;
      assert s[|low|..] == rest;
      assert s[0] == 'L';
      assert !StartsWith(s, high) by { assert high[0] == 'H'; }
    case Normal =>
      assert s == rest;
  }

  /** What follows the pulse fragment never looks like a pulse fragment. */
  lemma AfterPulse(t: Band, h: Band)
    ensures !StartsWith(Fragment("temperature", t) + Fragment("humidity", h), "High pulse! ")
    ensures !StartsWith(Fragment("temperature", t) + Fragment("humidity", h), "Low pulse! ")
  {
    var s := Fragment("temperature", t) + Fragment("humidity", h);
    if |s| >= 5 {
      if t == High || (t == Normal && h == High) {
        assert s[5] != 'p';
      } else if t == Low || (t == Normal && h == Low) {
        assert s[0] == 'L' && s[4] != 'p';
      }
    }
  }

  /** What follows the temperature fragment never looks like one. */
  lemma AfterTemperature(h: Band)
    ensures !StartsWith(Fragment("humidity", h), "High temperature! ")
    ensures !StartsWith(Fragment("humidity", h), "Low temperature! ")
  {
    var s := Fragment("humidity", h);
    if h == High {
      assert s[5] != "High temperature! "[5];
    } else if h == Low {
      assert s[4] != "Low temperature! "[4];
    }
  }

  /** The alert text determines the bands: no two classifications give the
      same message, so each metric contributes at most one fragment and the
      fragments cannot be confused with one another. */
  lemma {:induction false} AlertTextRoundTrip(b: Bands)
    ensures ParseAlert(AlertText(b)) == Some(b)
  {
    var tail := Fragment("temperature", b.temperature) + Fragment("humidity", b.humidity);
    AfterPulse(b.temperature, b.humidity);
    ReadFragmentAfter("pulse", b.pulse, tail);
    assert AlertText(b) == Fragment("pulse", b.pulse) + tail;
    AfterTemperature(b.humidity);
    ReadFragmentAfter("temperature", b.temperature, Fragment("humidity", b.humidity));
    ReadFragmentAfter("humidity", b.humidity, "");
    assert Fragment("humidity", b.humidity) + "" == Fragment("humidity", b.humidity);
  }

  /** The alert text is empty exactly when every metric is normal. */
  lemma AlertTextEmptyIff(b: Bands)
    ensures AlertText(b) == "" <==> b == ALL_NORMAL
  {
    if b != ALL_NORMAL {
      assert |AlertText(b)| > 0;
    }
  }

  // ---------------------------------------------------------------------------
  // Reacting to a reading
  // ---------------------------------------------------------------------------

  const ALERT_PREFIX: string := "ALERT: "

  datatype ThresholdCheck = ThresholdCheck(toast: Option<string>, status: string)

  /** `checkThresholds`: with anything out of band the alert is toasted and
      shown as the status; with everything normal the status is left alone. */
  function CheckThresholds(r: Reading, status: string): (c: ThresholdCheck)
    ensures Classify(r) == ALL_NORMAL ==> c == ThresholdCheck(None, status)
    ensures Classify(r) != ALL_NORMAL ==>
              && c.toast.Some?
              && c.status == ALERT_PREFIX + c.toast.value
              && ParseAlert(c.toast.value) == Some(Classify(r))
  {
    var message := AlertText(Classify(r));
    AlertTextEmptyIff(Classify(r));
    AlertTextRoundTrip(Classify(r));
    if |message| > 0 then ThresholdCheck(Some(message), ALERT_PREFIX + message)
    else ThresholdCheck(None, status)
  }

  /** A NaN temperature or humidity never raises an alert for that metric. */
  lemma NaNNeverAlerts(r: Reading, status: string)
    requires r.temperature.NaN? && r.humidity.NaN? && MIN_PULSE <= r.pulse <= MAX_PULSE
    ensures CheckThresholds(r, status).status == status
  {
  }

  /** The part of the screen a reading changes: the last decoded reading and
      the status line. */
  datatype ScreenState = ScreenState(current: Option<Reading>, status: string)

  const FORMAT_ERROR: string := "Data format error"

  /** `onDataReceived`, given what the JSON decoder made of the payload
      (`None` when it threw a syntax error). A failed decode keeps the
      previous reading. */
  function OnDataReceived(s: ScreenState, decoded: Option<Reading>): (t: ScreenState)
    ensures decoded.None? ==> t == ScreenState(s.current, FORMAT_ERROR)
    ensures decoded.Some? ==> t.current == decoded
    ensures decoded.Some? ==> t.status == CheckThresholds(decoded.value, s.status).status
  {
    match decoded
    case None => ScreenState(s.current, FORMAT_ERROR)
    case Some(r) => ScreenState(Some(r), CheckThresholds(r, s.status).status)
  }

  // ---------------------------------------------------------------------------
  // Connecting to the sensor
  // ---------------------------------------------------------------------------

  /** The one device the screen connects to. */
  const DEVICE_ADDRESS: string := "00:11:22:33:44:55"

  /** The radio as the screen finds it; `deviceFound` is whether a device
      object for the address was obtained. */
  datatype Adapter = NoAdapter | AdapterDisabled | AdapterEnabled(deviceFound: bool)

  /** The status line set, and the address a connect was issued to, if any. */
  datatype ConnectStep = ConnectStep(status: string, connectTo: Option<string>)

  /** `connectToArduinoDevice`; `serviceBound` is whether the link service
      reference is set. */
  function ConnectToDevice(adapter: Adapter, serviceBound: bool): (c: ConnectStep)
    ensures c.connectTo.Some? <==> adapter == AdapterEnabled(true) && serviceBound
    ensures c.connectTo.Some? ==> c.connectTo.value == DEVICE_ADDRESS
    ensures adapter == NoAdapter ==> c.status == "Bluetooth not supported"
    ensures adapter == AdapterDisabled ==> c.status == "Please enable Bluetooth"
    ensures adapter.AdapterEnabled? && c.connectTo.None? ==> c.status == "Device not found"
    ensures c.connectTo.Some? ==> c.status == "Connecting to device..."
  {
    match adapter
    case NoAdapter => ConnectStep("Bluetooth not supported", None)
    case AdapterDisabled => ConnectStep("Please enable Bluetooth", None)
    case AdapterEnabled(deviceFound) =>
      if deviceFound && serviceBound then ConnectStep("Connecting to device...", Some(DEVICE_ADDRESS))
      else ConnectStep("Device not found", None)
  }

  /** `onConnectionStatusChanged`: a lost link is reported and, when the
      service reference is set, a new connect attempt is made at once, whose
      status line replaces the report; a connected link never reconnects. */
  function OnConnectionStatusChanged(isConnected: bool, adapter: Adapter,
                                     serviceBound: bool): (c: ConnectStep)
    ensures isConnected ==> c == ConnectStep("Connected to Arduino device", None)
    ensures !isConnected && !serviceBound ==>
              c == ConnectStep("Disconnected - attempting to reconnect", None)
    ensures !isConnected && serviceBound ==> c == ConnectToDevice(adapter, true)
  {
    if isConnected then ConnectStep("Connected to Arduino device", None)
    else
      var reported := ConnectStep("Disconnected - attempting to reconnect", None);
      if serviceBound then ConnectToDevice(adapter, serviceBound) else reported
  }

  /** A link state change as delivered to the screen, with the radio state at
      that moment. */
  datatype LinkEvent = LinkEvent(isConnected: bool, adapter: Adapter)

  /** How many connect requests a run of link events issues. */
  function ConnectRequests(events: seq<LinkEvent>, serviceBound: bool): nat {
    if events == [] then 0
    else
      var e := events[|events| - 1];
      ConnectRequests(events[..|events| - 1], serviceBound)
        + (if OnConnectionStatusChanged(e.isConnected, e.adapter, serviceBound).connectTo.Some? then 1 else 0)
  }

  /** How many of the events report a lost link. */
  function Disconnections(events: seq<LinkEvent>): nat {
    if events == [] then 0
    else Disconnections(events[..|events| - 1]) + (if events[|events| - 1].isConnected then 0 else 1)
  }

  /** Retrying is unbounded: with the service bound and the device reachable,
      every reported loss of the link issues exactly one new connect request,
      with no back-off and no limit on attempts. */
  lemma {:induction false} EveryLossRetried(events: seq<LinkEvent>)
    requires forall i :: 0 <= i < |events| ==> events[i].adapter == AdapterEnabled(true)
    ensures ConnectRequests(events, true) == Disconnections(events)
  {
    if events != [] {
      EveryLossRetried(events[..|events| - 1]);
    }
  }

  /** Without the service reference no event ever issues a connect request. */
  lemma {:induction false} UnboundNeverConnects(events: seq<LinkEvent>)
    ensures ConnectRequests(events, false) == 0
  {
    if events != [] {
      UnboundNeverConnects(events[..|events| - 1]);
    }
  }
}
