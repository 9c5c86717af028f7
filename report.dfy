/**
  The immutable snapshot that the calculator produces
  (Sources/PerformanceReport.swift).
 */
module Report {
  import opened Wrappers

  /** Swift's `UInt64`. */
  newtype UInt64 = x: int | 0 <= x < 0x1_0000_0000_0000_0000

  /** The operating system's thermal-pressure level as `ProcessInfo` reports it. */
  datatype OsThermalState =
    | OsNominal
    | OsFair
    | OsSerious
    | OsCritical
      /** A level that this version of the code does not know about. */
    | OsUnrecognized(code: int)

  datatype ThermalState = Nominal | Fair | Serious | Critical | Unknown {
    /** The `String` raw value of each case. */
    function RawValue(): string {
      match this
      case Nominal => "Nominal"
      case Fair => "Fair"
      case Serious => "Serious"
      case Critical => "Critical"
      case Unknown => "Unknown"
    }
  }

  /** The `CaseIterable` list of thermal states, in declaration order. */
  const ThermalAllCases: seq<ThermalState> := [Nominal, Fair, Serious, Critical, Unknown]

  /**
    `ThermalState.init(thermalState:)`: each known OS level maps to the case of
    the same name, and the `@unknown default` branch sends everything else to
    `Unknown`.
   */
  function FromOs(level: OsThermalState): (s: ThermalState)
    ensures s == Unknown <==> level.OsUnrecognized?
  {
    match level
    case OsNominal => Nominal
    case OsFair => Fair
    case OsSerious => Serious
    case OsCritical => Critical
    case OsUnrecognized(_) => Unknown
  }

  /** The `init?(rawValue:)` that a `String`-backed enum gets from the compiler. */
  function FromRawValue(raw: string): (r: Option<ThermalState>)
    ensures r.Some? ==> r.value.RawValue() == raw
    ensures r.None? ==> forall s: ThermalState :: s.RawValue() != raw
  {
    if raw == "Nominal" then Some(Nominal)
    else if raw == "Fair" then Some(Fair)
    else if raw == "Serious" then Some(Serious)
    else if raw == "Critical" then Some(Critical)
    else if raw == "Unknown" then Some(Unknown)
    else None
  }

  /** Known OS levels keep their names; distinct known levels stay distinct. */
  lemma FromOsInjectiveOnKnown(a: OsThermalState, b: OsThermalState)
    requires !a.OsUnrecognized? && !b.OsUnrecognized?
    ensures FromOs(a) != Unknown
    ensures FromOs(a) == FromOs(b) <==> a == b
  {
  }

  /** The raw values are five distinct strings, and decoding a raw value gives back its case. */
  lemma RawValueRoundTrip(s: ThermalState, t: ThermalState)
    ensures FromRawValue(s.RawValue()) == Some(s)
    ensures s.RawValue() == t.RawValue() ==> s == t
  {
  }

  /** Every thermal state is listed exactly once in `allCases`. */
  lemma AllCasesComplete(s: ThermalState)
    ensures s in ThermalAllCases
    ensures forall i, j :: 0 <= i < j < |ThermalAllCases| ==> ThermalAllCases[i] != ThermalAllCases[j]
  {
  }

  /** `MemoryUsage` carries `used` and `total` as given; `used <= total` is not enforced. */
  datatype MemoryUsage = MemoryUsage(used: UInt64, total: UInt64)

  /**
    A report as the calculator assembles it.  The random `uuid` is not part
    of the model.
   */
  datatype PerformanceReport = PerformanceReport(
    cpuUsage: real,
    memoryUsage: MemoryUsage,
    fps: int,
    thermalState: ThermalState)
}
