/**
 * The pure part of the behavioural anomaly detector: the sliding window over
 * a principal's events, the five threshold heuristics evaluated on it, and
 * the escalation policy that reduces their findings to one action.
 *
 * The source divides twice, for the mean interval and the read ratio. Those
 * quotients are kept as reals for the values a finding reports, while the
 * heuristics compare the equivalent integer products; the lemmas
 * RapidConditionIsMeanBelow and BehaviorConditionIsRatioBelow show that the
 * two comparisons agree.
 */
module Heuristics {
  import opened JsValues

  /** Defaults of the detector's configuration. */
  const DefaultTimeWindow: int := 60000
  const DefaultMaxRequestsPerWindow: int := 100
  const DefaultMaxBytesPerWindow: int := 10485760

  /** Fixed thresholds of the heuristics that no configuration key reaches. */
  const RapidIntervalMs: int := 100
  const ScatteredResourceLimit: int := 5
  const BehaviorMinEvents: int := 10

  /** One recorded request of a principal. */
  datatype Event = Event(
    timestamp: int,
    httpMethod: string,
    path: string,
    resource: Option<string>,
    payloadSize: nat,
    statusCode: int)

  /** An anomaly profile as passed to the detector: every key may be absent. */
  datatype AnomalyConfig = AnomalyConfig(
    timeWindow: Option<int>,
    maxRequestsPerWindow: Option<int>,
    maxBytesPerWindow: Option<int>)

  /** The empty profile `{}`. */
  const NoOverrides: AnomalyConfig := AnomalyConfig(None, None, None)

  /** The effective configuration of one evaluation. */
  datatype Settings = Settings(timeWindow: int, maxRequestsPerWindow: int, maxBytesPerWindow: int)

  /** `{ ...defaultConfig, ...anomalyConfig }`: a key present in the profile overrides the default. */
  function Merge(cfg: AnomalyConfig): (s: Settings)
    ensures cfg.timeWindow.None? ==> s.timeWindow == DefaultTimeWindow
    ensures cfg.maxRequestsPerWindow.None? ==> s.maxRequestsPerWindow == DefaultMaxRequestsPerWindow
    ensures cfg.maxBytesPerWindow.None? ==> s.maxBytesPerWindow == DefaultMaxBytesPerWindow
    ensures cfg.timeWindow.Some? ==> s.timeWindow == cfg.timeWindow.value
    ensures cfg.maxRequestsPerWindow.Some? ==> s.maxRequestsPerWindow == cfg.maxRequestsPerWindow.value
    ensures cfg.maxBytesPerWindow.Some? ==> s.maxBytesPerWindow == cfg.maxBytesPerWindow.value
  {
    Settings(
      match cfg.timeWindow case Some(t) => t case None => DefaultTimeWindow,
      match cfg.maxRequestsPerWindow case Some(m) => m case None => DefaultMaxRequestsPerWindow,
      match cfg.maxBytesPerWindow case Some(b) => b case None => DefaultMaxBytesPerWindow)
  }

  datatype Severity = Critical | High | Medium

  datatype Kind = ExcessiveRequests | DataExfiltration | RapidRequests | ScatteredAccess | BehaviorChange
  {
    /** The `type` string of a finding. */
    function Code(): string {
      match this
      case ExcessiveRequests => "excessive_requests"
      case DataExfiltration => "data_exfiltration"
      case RapidRequests => "rapid_requests"
      case ScatteredAccess => "scattered_access"
      case BehaviorChange => "behavior_change"
    }

    /** The position of the heuristic in the detector's fixed evaluation order. */
    function Rank(): nat {
      match this
      case ExcessiveRequests => 0
      case DataExfiltration => 1
      case RapidRequests => 2
      case ScatteredAccess => 3
      case BehaviorChange => 4
    }
  }

  /** One anomaly: its type, severity, the observed value and the threshold it crossed. */
  datatype Finding = Finding(kind: Kind, severity: Severity, value: real, threshold: real)

  datatype Action = Alert | Throttle | Block
  {
    function Rank(): nat {
      match this
      case Alert => 0
      case Throttle => 1
      case Block => 2
    }
  }

  /** The result of `check` when at least one heuristic fired. */
  datatype Verdict = Verdict(
    action: Action,
    anomalies: seq<Finding>,
    userId: string,
    timestamp: int,
    eventCount: nat)

  // ---------------------------------------------------------------------------
  // The window

  /** `events.filter(e => e.timestamp > cutoff)`. */
  function Recent(events: seq<Event>, cutoff: int): (w: seq<Event>)
    ensures |w| <= |events|
  {
    if events == [] then []
    else (if events[0].timestamp > cutoff then [events[0]] else []) + Recent(events[1..], cutoff)
  }

  /** The window holds exactly the events newer than the cutoff. */
  lemma {:induction false} RecentMembers(events: seq<Event>, cutoff: int)
    ensures forall e :: e in Recent(events, cutoff) <==> e in events && e.timestamp > cutoff
  {
    if events != [] {
      RecentMembers(events[1..], cutoff);
      assert events == [events[0]] + events[1..];
    }
  }

  /** Filtering with one cutoff and then another is filtering once with the later cutoff. */
  lemma {:induction false} RecentOfRecent(events: seq<Event>, first: int, second: int)
    ensures Recent(Recent(events, first), second) == Recent(events, if first < second then second else first)
  {
    if events != [] {
      RecentOfRecent(events[1..], first, second);
      var head := if events[0].timestamp > first then [events[0]] else [];
      RecentAppendFront(head, Recent(events[1..], first), second);
    }
  }

  /** Pruning is idempotent. */
  lemma RecentIdempotent(events: seq<Event>, cutoff: int)
    ensures Recent(Recent(events, cutoff), cutoff) == Recent(events, cutoff)
  {
    RecentOfRecent(events, cutoff, cutoff);
  }

  lemma {:induction false} RecentAppendFront(a: seq<Event>, b: seq<Event>, cutoff: int)
    ensures Recent(a + b, cutoff) == Recent(a, cutoff) + Recent(b, cutoff)
  {
    if a != [] {
      RecentAppendFront(a[1..], b, cutoff);
      assert (a + b)[1..] == a[1..] + b;
    } else {
      assert a + b == b;
    }
  }

  /** An event appended after the others survives the filter exactly when it is recent enough. */
  lemma RecentAppend(events: seq<Event>, e: Event, cutoff: int)
    ensures Recent(events + [e], cutoff) ==
              Recent(events, cutoff) + (if e.timestamp > cutoff then [e] else [])
  {
    RecentAppendFront(events, [e], cutoff);
    assert [e][1..] == [];
  }

  // ---------------------------------------------------------------------------
  // Statistics over a window

  /** `w.reduce((sum, e) => sum + e.payloadSize, 0)`. */
  function TotalBytes(w: seq<Event>): nat {
    if w == [] then 0 else w[0].payloadSize + TotalBytes(w[1..])
  }

  /** The byte total of a concatenation is the sum of the parts' totals. */
  lemma {:induction false} TotalBytesConcat(a: seq<Event>, b: seq<Event>)
    ensures TotalBytes(a + b) == TotalBytes(a) + TotalBytes(b)
  {
    if a == [] {
      assert a + b == b;
    } else {
      TotalBytesConcat(a[1..], b);
      assert (a + b)[1..] == a[1..] + b;
    }
  }

  /** The number of events whose method is exactly `'GET'` (upper case only). */
  function ReadCount(w: seq<Event>): (n: nat)
    ensures n <= |w|
  {
    if w == [] then 0 else (if w[0].httpMethod == "GET" then 1 else 0) + ReadCount(w[1..])
  }

  /** `new Set(w.map(e => e.resource))`. */
  function Resources(w: seq<Event>): set<Option<string>> {
    if w == [] then {} else {w[0].resource} + Resources(w[1..])
  }

  /** `Resources` holds exactly the resources of the window's events, duplicates collapsed. */
  lemma {:induction false} ResourcesMembers(w: seq<Event>)
    ensures forall r :: r in Resources(w) <==> exists i :: 0 <= i < |w| && w[i].resource == r
  {
    if w != [] {
      ResourcesMembers(w[1..]);
      forall r
        ensures r in Resources(w) <==> exists i :: 0 <= i < |w| && w[i].resource == r
      {
        if r in Resources(w[1..]) {
          var j :| 0 <= j < |w[1..]| && w[1..][j].resource == r;
          assert w[j + 1].resource == r;
        }
        if exists i :: 0 <= i < |w| && w[i].resource == r {
          var i :| 0 <= i < |w| && w[i].resource == r;
          if i > 0 {
            assert w[1..][i - 1].resource == r;
          }
        }
      }
    }
  }

  /** The gaps between consecutive timestamps, in arrival order. */
  function Intervals(w: seq<Event>): (iv: seq<int>)
    requires |w| >= 1
    ensures |iv| == |w| - 1
  {
    if |w| == 1 then [] else Intervals(w[..|w| - 1]) + [w[|w| - 1].timestamp - w[|w| - 2].timestamp]
  }

  /** `s.reduce((a, b) => a + b, 0)`, folding from the left. */
  function Sum(s: seq<int>): int {
    if s == [] then 0 else Sum(s[..|s| - 1]) + s[|s| - 1]
  }

  /** The intervals telescope: their sum is the span from the first to the last event. */
  lemma {:induction false} IntervalsTelescope(w: seq<Event>)
    requires |w| >= 1
    ensures Sum(Intervals(w)) == w[|w| - 1].timestamp - w[0].timestamp
  {
    if |w| > 1 {
      IntervalsTelescope(w[..|w| - 1]);
      assert Intervals(w)[..|w| - 2] == Intervals(w[..|w| - 1]);
    }
  }

  /** The mean interval `sum(intervals) / intervals.length`. */
  function MeanInterval(w: seq<Event>): real
    requires |w| >= 2
  {
    (Sum(Intervals(w)) as real) / ((|w| - 1) as real)
  }

  /** The read ratio `readCount / w.length`. */
  function ReadRatio(w: seq<Event>): real
    requires |w| >= 1
  {
    (ReadCount(w) as real) / (|w| as real)
  }

  // ---------------------------------------------------------------------------
  // The five heuristics

  function ExcessiveRequestsCheck(w: seq<Event>, s: Settings): seq<Finding> {
    if |w| > s.maxRequestsPerWindow
    then [Finding(ExcessiveRequests, High, |w| as real, s.maxRequestsPerWindow as real)]
    else []
  }

  function DataExfiltrationCheck(w: seq<Event>, s: Settings): seq<Finding> {
    if TotalBytes(w) > s.maxBytesPerWindow
    then [Finding(DataExfiltration, Critical, TotalBytes(w) as real, s.maxBytesPerWindow as real)]
    else []
  }

  function RapidRequestsCheck(w: seq<Event>): seq<Finding> {
    if |w| >= 3 && Sum(Intervals(w)) < RapidIntervalMs * (|w| - 1)
    then [Finding(RapidRequests, High, MeanInterval(w), RapidIntervalMs as real)]
    else []
  }

  function ScatteredAccessCheck(w: seq<Event>): seq<Finding> {
    if |Resources(w)| > ScatteredResourceLimit
    then [Finding(ScatteredAccess, Medium, |Resources(w)| as real, ScatteredResourceLimit as real)]
    else []
  }

  function BehaviorChangeCheck(w: seq<Event>): seq<Finding> {
    if |w| > BehaviorMinEvents && 10 * ReadCount(w) < 3 * |w|
    then [Finding(BehaviorChange, Medium, ReadRatio(w), 0.3)]
    else []
  }

  /** All findings of one evaluation, in the detector's fixed order. */
  function Detect(w: seq<Event>, s: Settings): seq<Finding> {
    ExcessiveRequestsCheck(w, s) + DataExfiltrationCheck(w, s) + RapidRequestsCheck(w)
      + ScatteredAccessCheck(w) + BehaviorChangeCheck(w)
  }

  /** The findings of kind `k`, in order. */
  function OfKind(fs: seq<Finding>, k: Kind): (r: seq<Finding>)
    ensures |r| <= |fs|
  {
    if fs == [] then []
    else if fs[0].kind == k then [fs[0]] + OfKind(fs[1..], k)
    else OfKind(fs[1..], k)
  }

  /** `OfKind` keeps exactly the findings of kind `k`. */
  lemma {:induction false} OfKindMembers(fs: seq<Finding>, k: Kind)
    ensures forall f :: f in OfKind(fs, k) <==> f in fs && f.kind == k
  {
    if fs != [] {
      OfKindMembers(fs[1..], k);
      assert fs == [fs[0]] + fs[1..];
    }
  }

  lemma {:induction false} OfKindConcat(a: seq<Finding>, b: seq<Finding>, k: Kind)
    ensures OfKind(a + b, k) == OfKind(a, k) + OfKind(b, k)
  {
    if a == [] {
      assert a + b == b;
    } else {
      assert (a + b)[0] == a[0] && (a + b)[1..] == a[1..] + b;
      OfKindConcat(a[1..], b, k);
      if a[0].kind == k {
        assert [a[0]] + (OfKind(a[1..], k) + OfKind(b, k)) == [a[0]] + OfKind(a[1..], k) + OfKind(b, k);
      }
    }
  }

  /** A sequence of findings of kind `k` only is its own `k`-part and has no other. */
  lemma {:induction false} OfKindUniform(fs: seq<Finding>, k: Kind, other: Kind)
    requires forall i :: 0 <= i < |fs| ==> fs[i].kind == k
    ensures OfKind(fs, other) == if other == k then fs else []
  {
    if fs != [] {
      OfKindUniform(fs[1..], k, other);
      assert fs == [fs[0]] + fs[1..];
    }
  }

  /** The heuristic that reports findings of kind `k`: at most one, and only of that kind. */
  function CheckFor(w: seq<Event>, s: Settings, k: Kind): (fs: seq<Finding>)
    ensures |fs| <= 1
    ensures forall i :: 0 <= i < |fs| ==> fs[i].kind == k
  {
    match k
    case ExcessiveRequests => ExcessiveRequestsCheck(w, s)
    case DataExfiltration => DataExfiltrationCheck(w, s)
    case RapidRequests => RapidRequestsCheck(w)
    case ScatteredAccess => ScatteredAccessCheck(w)
    case BehaviorChange => BehaviorChangeCheck(w)
  }

  /** `Detect` is the five heuristics' findings concatenated in rank order. */
  lemma DetectIsChecksInOrder(w: seq<Event>, s: Settings)
    ensures Detect(w, s) == CheckFor(w, s, ExcessiveRequests) + CheckFor(w, s, DataExfiltration)
                              + CheckFor(w, s, RapidRequests) + CheckFor(w, s, ScatteredAccess)
                              + CheckFor(w, s, BehaviorChange)
  {
  }

  /** The part of kind `k` of five single-kind runs in rank order is the run of kind `k`. */
  lemma OfKindOfRuns(e: seq<Finding>, x: seq<Finding>, r: seq<Finding>, c: seq<Finding>, b: seq<Finding>, k: Kind)
    requires forall i :: 0 <= i < |e| ==> e[i].kind == ExcessiveRequests
    requires forall i :: 0 <= i < |x| ==> x[i].kind == DataExfiltration
    requires forall i :: 0 <= i < |r| ==> r[i].kind == RapidRequests
    requires forall i :: 0 <= i < |c| ==> c[i].kind == ScatteredAccess
    requires forall i :: 0 <= i < |b| ==> b[i].kind == BehaviorChange
    ensures OfKind(e + x + r + c + b, k)
              == match k
                 case ExcessiveRequests => e
                 case DataExfiltration => x
                 case RapidRequests => r
                 case ScatteredAccess => c
                 case BehaviorChange => b
  {
    OfKindConcat(e, x, k);
    OfKindConcat(e + x, r, k);
    OfKindConcat(e + x + r, c, k);
    OfKindConcat(e + x + r + c, b, k);
    OfKindUniform(e, ExcessiveRequests, k);
    OfKindUniform(x, DataExfiltration, k);
    OfKindUniform(r, RapidRequests, k);
    OfKindUniform(c, ScatteredAccess, k);
    OfKindUniform(b, BehaviorChange, k);
  }

  /** Each heuristic contributes exactly its own findings to `Detect`. */
  lemma DetectByKind(w: seq<Event>, s: Settings, k: Kind)
    ensures OfKind(Detect(w, s), k) == CheckFor(w, s, k)
  {
    DetectIsChecksInOrder(w, s);
    OfKindOfRuns(CheckFor(w, s, ExcessiveRequests), CheckFor(w, s, DataExfiltration), CheckFor(w, s, RapidRequests),
                 CheckFor(w, s, ScatteredAccess), CheckFor(w, s, BehaviorChange), k);
  }

  /** Whether `fs` holds a finding of kind `k`. */
  predicate Reported(fs: seq<Finding>, k: Kind) {
    exists f :: f in fs && f.kind == k
  }

  lemma ReportedIffPart(fs: seq<Finding>, k: Kind)
    ensures Reported(fs, k) <==> OfKind(fs, k) != []
  {
    OfKindMembers(fs, k);
    if OfKind(fs, k) != [] {
      assert OfKind(fs, k)[0] in OfKind(fs, k);
    }
  }
  /** A kind is reported by the detector exactly when its own heuristic fires, and with that heuristic's finding. */
  lemma ReportedByKind(w: seq<Event>, s: Settings, k: Kind)
    ensures Reported(Detect(w, s), k) <==> CheckFor(w, s, k) != []
    ensures OfKind(Detect(w, s), k) == CheckFor(w, s, k)
  {
    DetectByKind(w, s, k);
    ReportedIffPart(Detect(w, s), k);
  }


  /** Dividing by a positive number preserves a strict upper bound, scaled. */
  lemma QuotientBelowIff(p: real, n: real, c: real)
    requires n > 0.0
    ensures p / n < c <==> p < c * n
  {
    var q := p / n;
    assert q * n == p;
    if q < c {
      assert q * n < c * n;
    } else {
      assert q * n >= c * n;
    }
  }

  /** The mean of the intervals is below a bound `m` exactly when the span is below `m` times their number. */
  lemma MeanBelowIff(total: int, count: int, bound: int)
    requires count >= 1
    ensures (total as real) / (count as real) < bound as real <==> total < bound * count
  {
    QuotientBelowIff(total as real, count as real, bound as real);
    assert (bound as real) * (count as real) == (bound * count) as real;
  }

  /** A ratio is below 0.3 exactly when ten times its numerator is below three times its denominator. */
  lemma RatioBelowIff(part: int, whole: int)
    requires whole >= 1
    ensures (part as real) / (whole as real) < 0.3 <==> 10 * part < 3 * whole
  {
    QuotientBelowIff(part as real, whole as real, 0.3);
  }

  /** The rapid-requests condition is the source's `avgInterval < 100`, stated without the division. */
  lemma RapidConditionIsMeanBelow(w: seq<Event>)
    requires |w| >= 2
    ensures MeanInterval(w) < RapidIntervalMs as real <==> Sum(Intervals(w)) < RapidIntervalMs * (|w| - 1)
  {
    assert MeanInterval(w) == (Sum(Intervals(w)) as real) / ((|w| - 1) as real);
    MeanBelowIff(Sum(Intervals(w)), |w| - 1, RapidIntervalMs);
  }

  /** The behaviour-change condition is the source's `readRatio < 0.3`, stated without the division. */
  lemma BehaviorConditionIsRatioBelow(w: seq<Event>)
    requires |w| >= 1
    ensures ReadRatio(w) < 0.3 <==> 10 * ReadCount(w) < 3 * |w|
  {
    RatioBelowIff(ReadCount(w), |w|);
  }

  /**
   * `excessive_requests` (severity high, value the count) is reported exactly
   * when the window holds more events than `maxRequestsPerWindow`.
   */
  lemma ExcessiveRequestsIff(w: seq<Event>, s: Settings)
    ensures Reported(Detect(w, s), ExcessiveRequests) <==> |w| > s.maxRequestsPerWindow
    ensures OfKind(Detect(w, s), ExcessiveRequests) ==
              if |w| > s.maxRequestsPerWindow
              then [Finding(ExcessiveRequests, High, |w| as real, s.maxRequestsPerWindow as real)]
              else []
  {
    ReportedByKind(w, s, ExcessiveRequests);
  }

  /**
   * `data_exfiltration` (severity critical, value the byte total) is reported
   * exactly when the summed payload sizes exceed `maxBytesPerWindow`.
   */
  lemma DataExfiltrationIff(w: seq<Event>, s: Settings)
    ensures Reported(Detect(w, s), DataExfiltration) <==> TotalBytes(w) > s.maxBytesPerWindow
    ensures OfKind(Detect(w, s), DataExfiltration) ==
              if TotalBytes(w) > s.maxBytesPerWindow
              then [Finding(DataExfiltration, Critical, TotalBytes(w) as real, s.maxBytesPerWindow as real)]
              else []
  {
    ReportedByKind(w, s, DataExfiltration);
  }

  /** The rapid-requests heuristic stated with the span instead of the mean. */
  lemma RapidRequestsCheckBySpan(w: seq<Event>)
    ensures RapidRequestsCheck(w) ==
              if |w| >= 3 && w[|w| - 1].timestamp - w[0].timestamp < RapidIntervalMs * (|w| - 1)
              then [Finding(RapidRequests, High,
                            ((w[|w| - 1].timestamp - w[0].timestamp) as real) / ((|w| - 1) as real),
                            RapidIntervalMs as real)]
              else []
  {
    if |w| >= 3 {
      IntervalsTelescope(w);
    }
  }

  /**
   * `rapid_requests` (severity high, value the mean interval) is reported
   * exactly when there are at least three events and the span from first to
   * last is below 100 ms per interval, i.e. the mean interval is below 100 ms.
   */
  lemma RapidRequestsIff(w: seq<Event>, s: Settings)
    ensures Reported(Detect(w, s), RapidRequests) <==>
              |w| >= 3 && w[|w| - 1].timestamp - w[0].timestamp < RapidIntervalMs * (|w| - 1)
    ensures OfKind(Detect(w, s), RapidRequests) ==
              if |w| >= 3 && w[|w| - 1].timestamp - w[0].timestamp < RapidIntervalMs * (|w| - 1)
              then [Finding(RapidRequests, High,
                            ((w[|w| - 1].timestamp - w[0].timestamp) as real) / ((|w| - 1) as real),
                            RapidIntervalMs as real)]
              else []
  {
    ReportedByKind(w, s, RapidRequests);
    RapidRequestsCheckBySpan(w);
  }

  /**
   * `scattered_access` (severity medium, value the count) is reported exactly
   * when the window touches more than five distinct resources, whatever the
   * configuration.
   */
  lemma ScatteredAccessIff(w: seq<Event>, s: Settings)
    ensures Reported(Detect(w, s), ScatteredAccess) <==> |Resources(w)| > ScatteredResourceLimit
    ensures OfKind(Detect(w, s), ScatteredAccess) ==
              if |Resources(w)| > ScatteredResourceLimit
              then [Finding(ScatteredAccess, Medium, |Resources(w)| as real, ScatteredResourceLimit as real)]
              else []
  {
    ReportedByKind(w, s, ScatteredAccess);
  }

  /**
   * `behavior_change` (severity medium, value the read ratio) is reported
   * exactly when there are more than ten events and fewer than three in ten
   * of them are `GET`s.
   */
  lemma BehaviorChangeIff(w: seq<Event>, s: Settings)
    ensures Reported(Detect(w, s), BehaviorChange) <==>
              |w| > BehaviorMinEvents && 10 * ReadCount(w) < 3 * |w|
    ensures OfKind(Detect(w, s), BehaviorChange) ==
              if |w| > BehaviorMinEvents && 10 * ReadCount(w) < 3 * |w|
              then [Finding(BehaviorChange, Medium, ReadRatio(w), 0.3)]
              else []
  {
    ReportedByKind(w, s, BehaviorChange);
  }

  /** Strictly increasing heuristic ranks: each kind at most once, in the fixed order. */
  predicate InDetectorOrder(fs: seq<Finding>) {
    forall i, j :: 0 <= i < j < |fs| ==> fs[i].kind.Rank() < fs[j].kind.Rank()
  }

  lemma ConcatInDetectorOrder(a: seq<Finding>, b: seq<Finding>, pivot: nat)
    requires InDetectorOrder(a) && InDetectorOrder(b)
    requires forall i :: 0 <= i < |a| ==> a[i].kind.Rank() < pivot
    requires forall j :: 0 <= j < |b| ==> pivot <= b[j].kind.Rank()
    ensures InDetectorOrder(a + b)
  {
    forall i, j | 0 <= i < j < |a + b|
      ensures (a + b)[i].kind.Rank() < (a + b)[j].kind.Rank()
    {
      if j < |a| {
      } else if i >= |a| {
        assert (a + b)[i] == b[i - |a|] && (a + b)[j] == b[j - |a|];
      } else {
        assert (a + b)[j] == b[j - |a|];
      }
    }
  }

  /** Findings come in the order excessive, exfiltration, rapid, scattered, behaviour, each at most once. */
  lemma DetectInOrder(w: seq<Event>, s: Settings)
    ensures InDetectorOrder(Detect(w, s))
    ensures |Detect(w, s)| <= 5
  {
    DetectIsChecksInOrder(w, s);
    RunsInDetectorOrder(CheckFor(w, s, ExcessiveRequests), CheckFor(w, s, DataExfiltration), CheckFor(w, s, RapidRequests),
                        CheckFor(w, s, ScatteredAccess), CheckFor(w, s, BehaviorChange));
  }

  /** Five runs of at most one finding each, of increasing rank, are in detector order when concatenated. */
  lemma RunsInDetectorOrder(e: seq<Finding>, x: seq<Finding>, r: seq<Finding>, c: seq<Finding>, b: seq<Finding>)
    requires |e| <= 1 && |x| <= 1 && |r| <= 1 && |c| <= 1 && |b| <= 1
    requires forall i :: 0 <= i < |e| ==> e[i].kind == ExcessiveRequests
    requires forall i :: 0 <= i < |x| ==> x[i].kind == DataExfiltration
    requires forall i :: 0 <= i < |r| ==> r[i].kind == RapidRequests
    requires forall i :: 0 <= i < |c| ==> c[i].kind == ScatteredAccess
    requires forall i :: 0 <= i < |b| ==> b[i].kind == BehaviorChange
    ensures InDetectorOrder(e + x + r + c + b)
  {
    ConcatInDetectorOrder(e, x, 1);
    ConcatInDetectorOrder(e + x, r, 2);
    ConcatInDetectorOrder(e + x + r, c, 3);
    ConcatInDetectorOrder(e + x + r + c, b, 4);
  }


  // ---------------------------------------------------------------------------
  // Escalation

  /** `findings.some(a => a.severity === 'critical')`. */
  predicate HasCritical(fs: seq<Finding>) {
    exists i :: 0 <= i < |fs| && fs[i].severity == Critical
  }

  /** `findings.filter(a => a.severity === 'high').length`. */
  function HighCount(fs: seq<Finding>): (n: nat)
    ensures n <= |fs|
  {
    if fs == [] then 0 else (if fs[0].severity == High then 1 else 0) + HighCount(fs[1..])
  }

  /** The action for a non-empty set of findings. */
  function Resolve(fs: seq<Finding>): Action {
    if HasCritical(fs) || HighCount(fs) >= 2 then Block
    else if HighCount(fs) >= 1 then Throttle
    else Alert
  }

  lemma {:induction false} HighCountConcat(a: seq<Finding>, b: seq<Finding>)
    ensures HighCount(a + b) == HighCount(a) + HighCount(b)
  {
    if a != [] {
      HighCountConcat(a[1..], b);
      assert (a + b)[1..] == a[1..] + b;
    } else {
      assert a + b == b;
    }
  }

  /** Adding findings anywhere never lowers the resolved action. */
  lemma ResolveMonotone(a: seq<Finding>, extra: seq<Finding>, b: seq<Finding>)
    ensures Resolve(a + b).Rank() <= Resolve(a + extra + b).Rank()
  {
    HighCountConcat(a, b);
    HighCountConcat(a, extra);
    HighCountConcat(a + extra, b);
    if HasCritical(a + b) {
      var i :| 0 <= i < |a + b| && (a + b)[i].severity == Critical;
      if i < |a| {
        assert (a + extra + b)[i] == a[i];
      } else {
        assert (a + extra + b)[i + |extra|] == b[i - |a|];
      }
    }
  }

  /** A critical finding, wherever it is added, forces `block`. */
  lemma CriticalForcesBlock(a: seq<Finding>, f: Finding, b: seq<Finding>)
    requires f.severity == Critical
    ensures Resolve(a + [f] + b) == Block
  {
    assert (a + [f] + b)[|a|] == f;
  }

  /** The escalation table: block, throttle and alert in terms of the severities present. */
  lemma ResolveTable(fs: seq<Finding>)
    ensures Resolve(fs) == Block <==> HasCritical(fs) || HighCount(fs) >= 2
    ensures Resolve(fs) == Throttle <==> !HasCritical(fs) && HighCount(fs) == 1
    ensures Resolve(fs) == Alert <==> !HasCritical(fs) && HighCount(fs) == 0
  {
  }

  /** The verdict of one evaluation: none when no heuristic fired. */
  function Analyze(userId: string, w: seq<Event>, s: Settings, now: int): (v: Option<Verdict>)
    ensures v.Some? ==> v.value.anomalies == Detect(w, s) && v.value.eventCount == |w|
    ensures v.Some? ==> v.value.userId == userId && v.value.timestamp == now
    ensures v.None? <==> Detect(w, s) == []
    ensures v.Some? ==> v.value.action == Resolve(Detect(w, s))
  {
    var fs := Detect(w, s);
    if |fs| == 0 then None else Some(Verdict(Resolve(fs), fs, userId, now, |w|))
  }

  /** Whether a verdict tells the middleware to refuse the request: `action === 'block'`. */
  predicate Blocks(v: Option<Verdict>) {
    v.Some? && v.value.action == Block
  }

  /** There is a verdict exactly when at least one of the five conditions holds. */
  lemma AnalyzeNoneIff(userId: string, w: seq<Event>, s: Settings, now: int)
    ensures Analyze(userId, w, s, now).None? <==>
              && |w| <= s.maxRequestsPerWindow
              && TotalBytes(w) <= s.maxBytesPerWindow
              && !(|w| >= 3 && w[|w| - 1].timestamp - w[0].timestamp < RapidIntervalMs * (|w| - 1))
              && |Resources(w)| <= ScatteredResourceLimit
              && !(|w| > BehaviorMinEvents && 10 * ReadCount(w) < 3 * |w|)
  {
    DetectIsChecksInOrder(w, s);
    RapidRequestsCheckBySpan(w);
    assert |Detect(w, s)| == |CheckFor(w, s, ExcessiveRequests)| + |CheckFor(w, s, DataExfiltration)|
                               + |CheckFor(w, s, RapidRequests)| + |CheckFor(w, s, ScatteredAccess)|
                               + |CheckFor(w, s, BehaviorChange)|;
  }

  /**
   * A single request whose payload alone exceeds the byte limit, under a
   * request limit of at least one, yields exactly one finding,
   * `data_exfiltration`, and the action `block`.
   */
  lemma SingleOversizedPayloadBlocks(userId: string, e: Event, s: Settings, now: int)
    requires e.payloadSize > s.maxBytesPerWindow
    requires s.maxRequestsPerWindow >= 1
    ensures Analyze(userId, [e], s, now) ==
              Some(Verdict(Block, [Finding(DataExfiltration, Critical, e.payloadSize as real, s.maxBytesPerWindow as real)],
                           userId, now, 1))
  {
    var w := [e];
    assert TotalBytes(w) == e.payloadSize;
    assert Resources(w) == {e.resource};
    var f := Finding(DataExfiltration, Critical, e.payloadSize as real, s.maxBytesPerWindow as real);
    assert Detect(w, s) == [f];
    assert [f][0].severity == Critical;
  }

  /**
   * A window whose bytes exceed the limit always ends in `block`: the
   * `data_exfiltration` finding is critical, whatever else fired.
   */
  lemma ExfiltrationBlocks(userId: string, w: seq<Event>, s: Settings, now: int)
    requires TotalBytes(w) > s.maxBytesPerWindow
    ensures Analyze(userId, w, s, now).Some?
    ensures Analyze(userId, w, s, now).value.action == Block
  {
    var f := Finding(DataExfiltration, Critical, TotalBytes(w) as real, s.maxBytesPerWindow as real);
    var before := ExcessiveRequestsCheck(w, s);
    var after := RapidRequestsCheck(w) + ScatteredAccessCheck(w) + BehaviorChangeCheck(w);
    assert Detect(w, s) == before + [f] + after;
    CriticalForcesBlock(before, f, after);
  }
}
