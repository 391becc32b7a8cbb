/**
 The simulation specification record (`picoquic_ns_spec_t`) as far as the
 spec-file parser fills it, the field tags of `spec_param_enum`, and a
 uniform field accessor used to state "nothing else changes".
 */
module SimSpec {
  import opened CText
  import ConnectionId

  /** The registry's opaque reference to a congestion-control algorithm. */
  datatype CcHandle = CcHandle(registryIndex: nat)

  /** An owned C string: NULL or a heap copy of the text. */
  type Text = Option<string>

  /** `spec_param_enum` without `e_error` (a failed classification is a `None`). */
  datatype Field =
    | MainStartTime | BackgroundStartTime | MainScenarioText | BackgroundScenarioText
    | MainCcAlgo | MainCcOptions | BackgroundCcAlgo | BackgroundCcOptions
    | NbConnections | MainTargetTime | DataRateInGbps | Latency | Jitter
    | QueueDelayMax | L4sMax | Icid | QlogDir | QperfLog | MediaStatsStart
    | MediaExcluded | MediaLatencyAverage | MediaLatencyMax

  datatype Spec = Spec(
    mainStartTime: U64,
    backgroundStartTime: U64,
    mainScenarioText: Text,
    backgroundScenarioText: Text,
    mainCcAlgo: Option<CcHandle>,
    mainCcOptions: Text,
    backgroundCcAlgo: Option<CcHandle>,
    backgroundCcOptions: Text,
    nbConnections: int,
    mainTargetTime: U64,
    dataRateInGbps: real,
    latency: U64,
    jitter: U64,
    queueDelayMax: U64,
    l4sMax: U64,
    icid: ConnectionId.Cid,
    qlogDir: Text,
    qperfLog: Text,
    mediaStatsStart: U64,
    mediaExcluded: Text,
    mediaLatencyAverage: U64,
    mediaLatencyMax: U64)

  /** The value held by one field, tagged with its C type. */
  datatype Value =
    | U64Val(u: U64)
    | IntVal(i: int)
    | RealVal(r: real)
    | TextVal(t: Text)
    | AlgoVal(h: Option<CcHandle>)
    | CidVal(c: ConnectionId.Cid)

  /** Which value parser `parse_param` hands a field's text to. */
  datatype Parser = U64Parser | IntParser | DoubleParser | TextParser | FileNameParser | CcAlgoParser | CidParser

  function ParserOf(f: Field): Parser {
    match f
    case MainStartTime => U64Parser
    case MainTargetTime => U64Parser
    case BackgroundStartTime => U64Parser
    case MainScenarioText => TextParser
    case BackgroundScenarioText => TextParser
    case MainCcAlgo => CcAlgoParser
    case MainCcOptions => TextParser
    case BackgroundCcAlgo => CcAlgoParser
    case BackgroundCcOptions => TextParser
    case NbConnections => IntParser
    case DataRateInGbps => DoubleParser
    case Latency => U64Parser
    case Jitter => U64Parser
    case QueueDelayMax => U64Parser
    case L4sMax => U64Parser
    case Icid => CidParser
    case QlogDir => FileNameParser
    case QperfLog => FileNameParser
    case MediaStatsStart => U64Parser
    case MediaExcluded => TextParser
    case MediaLatencyAverage => U64Parser
    case MediaLatencyMax => U64Parser
  }

  /** The fields that hold owned text. */
  predicate IsTextField(f: Field) {
    ParserOf(f) == TextParser || ParserOf(f) == FileNameParser
  }

  /** `v` has the C type of field `f`. */
  predicate Fits(f: Field, v: Value) {
    match ParserOf(f)
    case U64Parser => v.U64Val?
    case IntParser => v.IntVal?
    case DoubleParser => v.RealVal?
    case TextParser => v.TextVal?
    case FileNameParser => v.TextVal?
    case CcAlgoParser => v.AlgoVal?
    case CidParser => v.CidVal?
  }

  function Get(s: Spec, f: Field): (v: Value)
    ensures Fits(f, v)
  {
    match f
    case MainStartTime => U64Val(s.mainStartTime)
    case BackgroundStartTime => U64Val(s.backgroundStartTime)
    case MainScenarioText => TextVal(s.mainScenarioText)
    case BackgroundScenarioText => TextVal(s.backgroundScenarioText)
    case MainCcAlgo => AlgoVal(s.mainCcAlgo)
    case MainCcOptions => TextVal(s.mainCcOptions)
    case BackgroundCcAlgo => AlgoVal(s.backgroundCcAlgo)
    case BackgroundCcOptions => TextVal(s.backgroundCcOptions)
    case NbConnections => IntVal(s.nbConnections)
    case MainTargetTime => U64Val(s.mainTargetTime)
    case DataRateInGbps => RealVal(s.dataRateInGbps)
    case Latency => U64Val(s.latency)
    case Jitter => U64Val(s.jitter)
    case QueueDelayMax => U64Val(s.queueDelayMax)
    case L4sMax => U64Val(s.l4sMax)
    case Icid => CidVal(s.icid)
    case QlogDir => TextVal(s.qlogDir)
    case QperfLog => TextVal(s.qperfLog)
    case MediaStatsStart => U64Val(s.mediaStatsStart)
    case MediaExcluded => TextVal(s.mediaExcluded)
    case MediaLatencyAverage => U64Val(s.mediaLatencyAverage)
    case MediaLatencyMax => U64Val(s.mediaLatencyMax)
  }

  /** Stores `v` into field `f`; every other field keeps its value. */
  function With(s: Spec, f: Field, v: Value): (r: Spec)
    requires Fits(f, v)
    ensures Get(r, f) == v
    ensures forall g :: g != f ==> Get(r, g) == Get(s, g)
  {
    match f
    case MainStartTime => s.(mainStartTime := v.u)
    case BackgroundStartTime => s.(backgroundStartTime := v.u)
    case MainScenarioText => s.(mainScenarioText := v.t)
    case BackgroundScenarioText => s.(backgroundScenarioText := v.t)
    case MainCcAlgo => s.(mainCcAlgo := v.h)
    case MainCcOptions => s.(mainCcOptions := v.t)
    case BackgroundCcAlgo => s.(backgroundCcAlgo := v.h)
    case BackgroundCcOptions => s.(backgroundCcOptions := v.t)
    case NbConnections => s.(nbConnections := v.i)
    case MainTargetTime => s.(mainTargetTime := v.u)
    case DataRateInGbps => s.(dataRateInGbps := v.r)
    case Latency => s.(latency := v.u)
    case Jitter => s.(jitter := v.u)
    case QueueDelayMax => s.(queueDelayMax := v.u)
    case L4sMax => s.(l4sMax := v.u)
    case Icid => s.(icid := v.c)
    case QlogDir => s.(qlogDir := v.t)
    case QperfLog => s.(qperfLog := v.t)
    case MediaStatsStart => s.(mediaStatsStart := v.u)
    case MediaExcluded => s.(mediaExcluded := v.t)
    case MediaLatencyAverage => s.(mediaLatencyAverage := v.u)
    case MediaLatencyMax => s.(mediaLatencyMax := v.u)
  }

  /** The record after `memset(spec, 0, sizeof(picoquic_ns_spec_t))`. */
  const Zero: Spec := Spec(0, 0, None, None, None, None, None, None, 0, 0, 0.0, 0, 0, 0, 0,
                           ConnectionId.Cid([0, 0, 0, 0, 0, 0, 0, 0], 0), None, None, 0, None, 0, 0)

  /** The zeroed value of each C type: 0, 0.0, NULL, or an all-zero identifier. */
  predicate IsZeroValue(v: Value) {
    match v
    case U64Val(u) => u == 0
    case IntVal(i) => i == 0
    case RealVal(r) => r == 0.0
    case TextVal(t) => t.None?
    case AlgoVal(h) => h.None?
    case CidVal(c) => c.idLen == 0 && forall b :: 0 <= b < 8 ==> c.id[b] == 0
  }

  /** Every field of the zeroed record holds its type's zero. */
  lemma ZeroIsAllZero(f: Field)
    ensures IsZeroValue(Get(Zero, f))
  {
  }

  /** A second store to the same field overrides the first. */
  lemma WithTwice(s: Spec, f: Field, v: Value, w: Value)
    requires Fits(f, v) && Fits(f, w)
    ensures With(With(s, f, v), f, w) == With(s, f, w)
  {
  }

  /** Storing the value a field already holds changes nothing. */
  lemma WithSame(s: Spec, f: Field)
    ensures With(s, f, Get(s, f)) == s
  {
  }

  /** A text field holds a text. */
  lemma TextFieldHoldsText(s: Spec, f: Field)
    requires IsTextField(f)
    ensures Get(s, f).TextVal?
  {
  }
}
