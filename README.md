# SCAA gateway risk evaluation, modelled in Dafny

This project models the risk-evaluation pipeline of the SCAA API gateway, a
Zero Trust gateway in front of a backend. Every request goes through the
same stages:

- the JWT principal is authenticated;
- the policy decision engine evaluates the request against the role's rules;
- a denial is recorded with the behavioural anomaly detector and answered 403;
- otherwise the detector records the request and runs five threshold
  heuristics over the principal's recent events. Their findings reduce to
  `block` (answered 429), `throttle` or `alert`;
- a request that is not blocked is forwarded to the backend, and the
  backend's status and body are echoed;
- any exception becomes the 503 fallback.

The project is organised as follows:

- `js_values.dfy`: the JavaScript values the core handles (`undefined`,
  `null`, numbers, strings, arrays, objects) and truthiness.
- strings.dfy: `String.prototype.split` on one character, its inverse
  `join`, and ASCII lower-casing.
- requests.dfy: the request and the principal, and the detector's and
  engine's resource (`path.split('/')[1]`).
- `decision_engine.dfy`: `loadRulesFor` and `evaluate`, as pure functions.
- heuristics.dfy: the pure part of `check`, which covers:
  - the sliding window;
  - sums, distinct resources, intervals and the read ratio;
  - the five heuristics in their fixed order;
  - action resolution.

  The source compares a mean interval and a read ratio, both quotients.
  The model compares integer products instead, and
  `RapidConditionIsMeanBelow` and `BehaviorConditionIsRatioBelow` prove the
  two forms agree. The quotients themselves are kept as reals, since they
  are the findings' reported values.
- detector.dfy: the per-principal store (`userEvents`) as a class whose
  methods update a map, as `recordEvent`, `cleanupOldEvents`, `check`,
  `onBlock` and `clearUserData` do. The interval loop of `check` is a
  method with a loop invariant. Each method is proved against a
  specification function of the old store.
- helpers.dfy: `mapRouteToResource`, the non-regex branches of
  `maskSensitive`, and the keyed rate limiter (`shouldThrottle`,
  `getRateLimiterStats`) as a class over a map.
- gateway.dfy: the middleware as a method over the detector. It is
  specified by a step function over the collaborators' outcomes: the
  principal or none, the backend's answer, and the stage at which a
  collaborator throws, if one does.

The clock (`Date.now()`) is an explicit `now` parameter, the same for every
read within one call. A payload's serialised size (`JSON.stringify(body).length`)
is a given natural number carried by the request.

Choices made where the source is unusual; each is preserved as written:

- `recordEvent` always prunes with the default 60 000 ms window, while
  `check` then filters with the configured `timeWindow`.
  `CheckWindowAfterRecord` shows the effective window is the shorter of
  the two.
- The scattered-access threshold is a fixed 5, whatever the configuration.
- Only an uppercase `GET` counts as a read for the behaviour heuristic.
- The engine and the detector take the resource as `path.split('/')[1]`.
  `mapRouteToResource` takes the first non-empty segment or `root`. They
  agree on `/seg...` paths (`MapRouteAgreesWithPathResource`) and differ
  on `/` and `//x` (`RootPathDisagrees`, `DoubleSlashDisagrees`).
- A role without `anomalyProfile` looks up the profile named `"undefined"`,
  because JavaScript converts the missing key to that string.
- The 429 path does not call `onBlock`: an anomaly block is only logged,
  and the detector's blocked attempts count policy denials alone.
- An allowed decision's `filteredPayload` is never falsy (`{}` at worst), so
  the middleware's `|| req.body` fallback never applies (`ForwardOnlyAllowed`).

## Model

| member | source | states |
|---|---|---|
| DecisionEngine.LoadRulesFor | gateway/decisionengine.js:3-5 | The role's entry when the table has the role, and none exactly when it does not |
| DecisionEngine.ActionFor | gateway/decisionengine.js:11-17 | Lower-cased `get` maps to `read` and `post` to `write`, both as if-and-only-if; anything else maps to `unknown` |
| DecisionEngine.Evaluate | gateway/decisionengine.js:7-23 | Absent rules deny with `role_not_found`. Deny `no_resource_permission` iff rules exist and lack the `split('/')[1]` resource. Deny `action_not_allowed` iff the resource exists but its actions lack the mapped action. Allowed iff the rules grant. An allowed payload is the body when truthy, else `{}`, and is never falsy |
| DecisionEngine.EvaluateIgnoresMethodCase | gateway/decisionengine.js:11 | The decision is the same whatever the letter case of the HTTP method |
| DecisionEngine.OnlyReadAndWriteAllowed | gateway/decisionengine.js:17-20 | When no resource lists `unknown`, only GET and POST (any case) can be allowed |
| DecisionEngine.EvaluateMonotoneInRules | gateway/decisionengine.js:14-22 | Adding resources or actions to a role never revokes an allowed request, and the allowed result is unchanged |
| Requests.PathResource | gateway/decisionengine.js:12 | `path.split('/')[1]` is undefined exactly when the path has no `/`, and never contains a `/` |
| Requests.PathResourceIsSecondField | gateway/detector.js:32 | For `pre/seg...` with `pre` and `seg` free of `/`, the resource is `seg` |
| Strings.Split | gateway/decisionengine.js:12 | A split yields at least one part, and no part contains the separator; `SplitThenJoin` and `JoinThenSplit` make it the exact inverse of `join` |
| Strings.SplitHasSeveralParts | gateway/decisionengine.js:12 | A split has more than one part iff the separator occurs |
| Strings.ToLower | gateway/decisionengine.js:11 | `toLowerCase` over ASCII letters, character by character; `EvaluateIgnoresMethodCase` states its use |
| DecisionEngine.ResourceKey | gateway/decisionengine.js:12-14 | The key the resource is looked up under: `split('/')[1]`, or the property name "undefined" when the path has no `/`; `Evaluate` states the lookups' outcome |
| Heuristics.Merge | gateway/detector.js:8-61 | A key present in the profile overrides the default; each key the profile leaves out takes its default: 60000 ms, 100 requests, 10485760 bytes |
| Heuristics.RecentMembers | gateway/detector.js:51-70 | An event is kept by the window filter iff it was stored and its timestamp is after the cutoff |
| Heuristics.RecentOfRecent | gateway/detector.js:38-70 | Filtering at one cutoff and then another equals filtering once at the later cutoff |
| Heuristics.RecentAppend | gateway/detector.js:28-38 | Filtering after an append keeps the old events' window, then the new event iff it is after the cutoff |
| Heuristics.Recent | gateway/detector.js:68-70 | The window filter, keeping order; never longer than its input. `RecentMembers`, `RecentOfRecent` and `RecentAppend` state what it keeps |
| Heuristics.TotalBytes | gateway/detector.js:87 | The sum of the window's payload sizes; `TotalBytesConcat` and `DataExfiltrationIff` state its use |
| Heuristics.ReadCount | gateway/detector.js:131 | The number of events whose method is exactly `GET`, at most the window size |
| Heuristics.Resources | gateway/detector.js:118 | The set of the window's resources (`undefined` included); `ResourcesMembers` states its members |
| Heuristics.Intervals | gateway/detector.js:100-103 | The differences of consecutive timestamps, one fewer than the events; `IntervalsTelescope` states their sum |
| Heuristics.MeanInterval | gateway/detector.js:104 | The mean interval as a real; `RapidConditionIsMeanBelow` relates it to the integer test |
| Heuristics.ReadRatio | gateway/detector.js:133 | The GET ratio as a real; `BehaviorConditionIsRatioBelow` relates it to the integer test |
| Heuristics.ExcessiveRequestsCheck | gateway/detector.js:76-84 | The first heuristic; `ExcessiveRequestsIff` states when and how it fires |
| Heuristics.DataExfiltrationCheck | gateway/detector.js:87-96 | The second heuristic; `DataExfiltrationIff` states when and how it fires |
| Heuristics.RapidRequestsCheck | gateway/detector.js:99-115 | The third heuristic; `RapidRequestsCheckBySpan` and `RapidRequestsIff` state when and how it fires |
| Heuristics.ScatteredAccessCheck | gateway/detector.js:118-127 | The fourth heuristic; `ScatteredAccessIff` states when and how it fires |
| Heuristics.BehaviorChangeCheck | gateway/detector.js:130-145 | The fifth heuristic; `BehaviorChangeIff` states when and how it fires |
| Heuristics.Detect | gateway/detector.js:73-145 | The findings of one evaluation; `ReportedByKind`, the five `...Iff` lemmas and `DetectInOrder` state what it contains and in which order |
| Heuristics.TotalBytesConcat | gateway/detector.js:87 | The byte sum of a window is additive over concatenation |
| Heuristics.ResourcesMembers | gateway/detector.js:118 | The distinct-resource set holds exactly the resources of the window's events |
| Heuristics.IntervalsTelescope | gateway/detector.js:100-104 | The consecutive intervals sum to the last timestamp minus the first |
| Heuristics.RapidConditionIsMeanBelow | gateway/detector.js:104-106 | The mean interval is below 100 ms iff the interval sum is below 100·(n−1) |
| Heuristics.BehaviorConditionIsRatioBelow | gateway/detector.js:131-136 | The GET ratio is below 0.3 iff 10·reads < 3·n |
| Heuristics.ReportedByKind | gateway/detector.js:73-145 | A kind is reported iff its own heuristic fires, and its findings are exactly that heuristic's |
| Heuristics.ExcessiveRequestsIff | gateway/detector.js:76-84 | `excessive_requests` is reported iff the window count exceeds `maxRequestsPerWindow`, as one high finding with value = count |
| Heuristics.DataExfiltrationIff | gateway/detector.js:87-96 | `data_exfiltration` is reported iff the byte total exceeds `maxBytesPerWindow`, as one critical finding with value = total |
| Heuristics.RapidRequestsCheckBySpan | gateway/detector.js:99-115 | The rapid heuristic fires iff there are at least 3 events and last − first < 100·(n−1); its value is the mean interval |
| Heuristics.RapidRequestsIff | gateway/detector.js:99-115 | `rapid_requests` is reported iff there are at least 3 events and the span is below 100·(n−1), as one high finding with value span/(n−1) |
| Heuristics.ScatteredAccessIff | gateway/detector.js:118-127 | `scattered_access` is reported iff there are more than 5 distinct resources, whatever the settings, as one medium finding |
| Heuristics.BehaviorChangeIff | gateway/detector.js:130-145 | `behavior_change` is reported iff there are more than 10 events and 10·GETs < 3·n, as one medium finding with value = read ratio |
| Heuristics.DetectInOrder | gateway/detector.js:73-145 | Findings follow the detector order, and there are at most five |
| Heuristics.ResolveTable | gateway/detector.js:150-158 | `block` iff there is a critical finding or at least two high ones; `throttle` iff there is no critical and exactly one high; `alert` iff there is no critical and no high |
| Heuristics.HasCritical | gateway/detector.js:151 | Whether some finding is critical |
| Heuristics.HighCount | gateway/detector.js:152 | The number of high findings, at most the number of findings; `HighCountConcat` makes it additive |
| Heuristics.Resolve | gateway/detector.js:150-158 | The escalation; `ResolveTable`, `ResolveMonotone` and `CriticalForcesBlock` state it |
| Heuristics.ResolveMonotone | gateway/detector.js:150-158 | Adding findings never lowers the action (alert < throttle < block) |
| Heuristics.CriticalForcesBlock | gateway/detector.js:151-155 | Any critical finding, wherever it sits, forces `block` |
| Heuristics.Analyze | gateway/detector.js:147-167 | No verdict iff nothing was detected; otherwise the verdict carries the detected findings, the action they resolve to, the window size as `eventCount`, the principal and `now` |
| Heuristics.AnalyzeNoneIff | gateway/detector.js:76-147 | No verdict iff count ≤ request limit, bytes ≤ byte limit, not (n ≥ 3 and span < 100·(n−1)), at most 5 distinct resources, and not (n > 10 and 10·GETs < 3·n) |
| Heuristics.SingleOversizedPayloadBlocks | gateway/detector.js:87-167 | When the request limit is at least 1, a lone event larger than the byte limit gives exactly one critical exfiltration finding and `block` (a limit of 0 adds an `excessive_requests` finding) |
| Heuristics.ExfiltrationBlocks | gateway/detector.js:87-158 | A window over the byte limit always yields a blocking verdict |
| AnomalyDetector.Stats | gateway/detector.js:207-222 | Total events and blocked attempts are the record's lengths; `last5MinEvents` is the number of events newer than `now − 300000`, at most the total; the last activity is the last event's timestamp, absent iff there are no events |
| AnomalyDetector.EventFor | gateway/detector.js:28-35 | The event `recordEvent` pushes: `now`, method, path, the `split('/')[1]` resource, the payload size, and the decision's status or 200 |
| AnomalyDetector.Pruned | gateway/detector.js:44-53 | A record filtered to the events newer than `now − timeWindow` and stamped `now` |
| AnomalyDetector.WithEvent | gateway/detector.js:19-39 | The store after `recordEvent`; `RecordedEventIsLast` and `CheckWindowAfterRecord` state its shape |
| AnomalyDetector.CheckWindow | gateway/detector.js:62-70 | The events `check` analyses; `CheckWindowAfterRecord` states which they are |
| AnomalyDetector.CheckVerdict | gateway/detector.js:58-168 | What `check` answers for an identified principal; `OversizedEventBlocks` states a consequence |
| AnomalyDetector.WithBlockedAttempt | gateway/detector.js:173-192 | The store after `onBlock`: one attempt appended to the principal's record (created if absent), events untouched |
| AnomalyDetector.RecentBlocks | gateway/detector.js:195-197 | The number of attempts newer than the cutoff, at most the number of attempts |
| AnomalyDetector.RecentBlocksAppend | gateway/detector.js:187-197 | One more attempt adds one to the count iff it is newer than the cutoff |
| AnomalyDetector.RecentBlocksPositive | gateway/detector.js:195-199 | The count is positive iff some attempt is newer than the cutoff |
| AnomalyDetector.RecentBlocksAll | gateway/detector.js:195-199 | The count equals the number of attempts iff every attempt is newer than the cutoff |
| AnomalyDetector.RecordedEventIsLast | gateway/detector.js:19-65 | After recording, the new event is last, the earlier events are those within 60 s, the record was cleaned at `now` and the blocked attempts are unchanged (so `check`'s null return is unreachable) |
| AnomalyDetector.CheckWindowIsCapped | gateway/detector.js:38-70 | Pruning at 60 s and then filtering at `timeWindow` keeps the earlier events within the shorter window, plus the new event iff the window is positive |
| AnomalyDetector.CheckWindowAfterRecord | gateway/detector.js:62-70 | The window `check` analyses is the principal's earlier events within min(timeWindow, 60 s), followed by the new event when the window is positive |
| AnomalyDetector.CollectIntervals | gateway/detector.js:100-103 | The loop builds exactly the consecutive timestamp differences |
| AnomalyDetector.RapidRequestsPass | gateway/detector.js:99-115 | The rapid-requests block computes the rapid heuristic's findings |
| AnomalyDetector.BehaviorChangePass | gateway/detector.js:130-145 | The behaviour block computes the behaviour heuristic's findings |
| AnomalyDetector.DetectWindow | gateway/detector.js:73-145 | The imperative accumulation of `anomalies` equals the specified detection |
| AnomalyDetector.ResolveAction | gateway/detector.js:150-158 | One pass over the findings computes `some(critical)` and the number of high findings (loop invariants tie them to the prefix read so far), and the escalation then yields `Resolve` |
| AnomalyDetector.AnalyzeWindow | gateway/detector.js:147-167 | The result object equals `Analyze` |
| AnomalyDetector.Detector.constructor | gateway/detector.js:5 | The store starts empty |
| AnomalyDetector.Detector.CleanupOldEvents | gateway/detector.js:44-53 | An unknown principal leaves the store unchanged; otherwise only that record is pruned to events after `now − timeWindow` and stamped `now`; with the other records valid and a window no wider than the default one (its only caller passes the default, detector.js:38), every record ends within the window of its last cleanup |
| AnomalyDetector.Detector.RecordEvent | gateway/detector.js:19-39 | The store becomes `WithEvent` of the old store: one event appended (record created if absent), pruned at 60 s, other principals untouched |
| AnomalyDetector.Detector.Check | gateway/detector.js:58-168 | A missing principal or id gives null and leaves the store unchanged. Otherwise the event is recorded, and the verdict is the analysis of the configured window over the merged settings |
| AnomalyDetector.Detector.OnBlock | gateway/detector.js:173-202 | An identified principal gets one blocked attempt appended (record created if absent), and the events are untouched. The warning fires iff more than 5 attempts fall in the last 60 s. A missing principal changes nothing |
| AnomalyDetector.Detector.GetUserStats | gateway/detector.js:207-222 | Null iff the principal is unknown; otherwise the record's statistics |
| AnomalyDetector.Detector.ClearUserData | gateway/detector.js:227-229 | Exactly that principal's record is removed |
| AnomalyDetector.Detector.GetAllEvents | gateway/detector.js:234-240 | Every stored principal, and only those, maps to its event list |
| AnomalyDetector.WindowHoldsRecordedBytes | gateway/detector.js:62-87 | A positive window analysed by `check` counts at least the bytes of the request just recorded |
| AnomalyDetector.OversizedEventBlocks | gateway/detector.js:62-158 | When the configured `timeWindow` is positive, a request larger than the byte limit is always blocked by `check`, whatever the history (a zero window filters out every event, so nothing fires) |
| Helpers.MapRouteToResource | gateway/helpers.js:5-8 | The resource is never empty and never contains `/` |
| Helpers.NonEmptyParts | gateway/helpers.js:6 | `filter(Boolean)`: none longer than the input; `NonEmptyPartsMembers` keeps exactly the non-empty parts and `NonEmptyPartsConcat` keeps their order |
| Helpers.NonEmptyPartsMembers | gateway/helpers.js:6 | A part is kept iff it is one of the parts and is non-empty |
| Helpers.NonEmptyPartsConcat | gateway/helpers.js:6 | Filtering a concatenation gives the filtered halves concatenated, so the order of parts is kept |
| Helpers.MapRouteFirstSegment | gateway/helpers.js:5-8 | After any run of slashes, the first segment is the resource (`/clientes/123` gives `clientes`) |
| Helpers.MapRouteOnlySlashes | gateway/helpers.js:7 | A path of slashes only, or the empty path, maps to `root` |
| Helpers.MapRouteAgreesWithPathResource | gateway/helpers.js:5-8 | On `/seg...` paths the helper and `split('/')[1]` agree |
| Helpers.RootPathDisagrees | gateway/helpers.js:5-8 | On `/` the engine's resource is `""` and the helper's is `root` |
| Helpers.DoubleSlashDisagrees | gateway/helpers.js:5-8 | On `//x` the engine's resource is `""` and the helper's is `x` |
| Helpers.MaskSensitive | gateway/helpers.js:84-108 | A falsy value gives `''`. A pattern type gives its symbolic replacement. An unknown type returns the value. `generic` (or no type) gives max(4, ⌊len/2⌋) asterisks followed by the last min(3, len) characters |
| Helpers.GenericMaskHidesPrefix | gateway/helpers.js:102-103 | Two values of equal length with the same last three characters mask alike |
| Helpers.RetainMembers | gateway/helpers.js:173-175 | A timestamp is retained iff it was stored and `now − t < windowMs` |
| Helpers.Retain | gateway/helpers.js:173-175 | The timestamps less than `windowMs` old, in order; never more than before |
| Helpers.RetainIdempotent | gateway/helpers.js:173-175 | Pruning twice at the same instant equals pruning once |
| Helpers.RetainLater | gateway/helpers.js:173-175 | Pruning at an earlier and then a later instant equals pruning at the later one |
| Helpers.Throttled | gateway/helpers.js:166-178 | The updated limiter is non-empty and its last timestamp is `now` |
| Helpers.ThrottleCount | gateway/helpers.js:173-180 | The count compared with `maxRequests` is the retained count plus one |
| Helpers.SecondCallCountsOneMore | gateway/helpers.js:163-188 | A second call at the same instant counts exactly one more request |
| Helpers.RateLimiters.constructor | gateway/helpers.js:161 | The limiter map starts empty |
| Helpers.RateLimiters.ShouldThrottle | gateway/helpers.js:163-188 | Only the key's limiter changes, becoming the pruned list plus `now`. The key's stats then report that count with last activity `now`. The result is true iff the count exceeds `maxRequests` |
| Helpers.RateLimiters.GetRateLimiterStats | gateway/helpers.js:193-201 | Null iff the key is unknown; otherwise the request count and the last timestamp |
| Gateway.Proxy | backend-proxy/proxy.js:3-14 | The backend's answer as is; on a transport error the body is `{error: message}`, the status is the error response's status when it is non-zero, and 500 iff that status is missing, 0 or 500 |
| Gateway.HandleFailure | gateway/fallback.js:1-3 | 503 with `SCAA Failure` and the error's message as details |
| Gateway.AnomalyConfigFor | gateway/index.js:50-52 | The profile named by the role (`"undefined"` when missing), or no overrides when the table or the entry is missing |
| Gateway.Summaries | gateway/index.js:78-82 | One summary per finding, with its type code and severity, in order |
| Gateway.Step | gateway/index.js:10-121 | The middleware's outcome; `StepStatuses`, `UnauthenticatedIsRejected`, `DenialIsRecordedAndRejected`, `ForwardOnlyAllowed`, `AllowedRequestProceedsUnlessBlocked` and `FaultAnswers503` state it |
| Gateway.PolicyStep | gateway/index.js:28-106 | The stages after authentication; `PolicyStepShape` and `PolicyStepWhenAllowed` state it |
| Gateway.CheckedStep | gateway/index.js:54-106 | `check` and the stages after it; `CheckedStepShape` states it |
| Gateway.AllowedStep | gateway/index.js:56-106 | The stages after `check`; `AllowedStepShape`, `AllowedStepBlocks` and `AllowedStepProceeds` state it |
| Gateway.Middleware | gateway/index.js:10-122 | The new detector store, the response and the forwarded payload are exactly `Step` of the old store |
| Gateway.StepStatuses | gateway/index.js:10-121 | Every response is 401, 403, 429, 503, or the status the proxy returned |
| Gateway.UnauthenticatedIsRejected | gateway/index.js:13-25 | No principal gives 401 (or 503 when a collaborator throws first), the store is untouched and nothing is forwarded |
| Gateway.DenialIsRecordedAndRejected | gateway/index.js:34-46 | A denial answers 403 with the engine's reason code and is never forwarded. An identified principal gets one blocked attempt and unchanged events |
| Gateway.ForwardOnlyAllowed | gateway/index.js:91 | Only an allowed request is forwarded, carrying the engine's filtered payload, which is the body or `{}` |
| Gateway.UpstreamAnswerIsEchoed | gateway/index.js:91-106 | Without faults, a forwarded request answers exactly the proxy's status and body |
| Gateway.AllowedStepShape | gateway/index.js:54-106 | After `check` the store is what `check` left, the response is 429, 503 or the proxy's, a forward carries the payload, and without a later fault the backend's answer is echoed |
| Gateway.CheckedStepShape | gateway/index.js:54-106 | The store is the one `check` leaves (the request recorded for an identified principal, untouched otherwise); the response is 429, 503 or the proxy's; a forward carries the payload; without a later fault the backend's answer is echoed |
| Gateway.PolicyStepShape | gateway/index.js:28-106 | After authentication: 403, 429, 503 or the proxy's status; only allowed requests are forwarded, with the filtered payload |
| Gateway.AllowedStepBlocks | gateway/index.js:66-83 | A `block` verdict answers 429 and the backend is not called |
| Gateway.AllowedStepProceeds | gateway/index.js:84-106 | A verdict that does not block (`throttle`, `alert` or none), with no fault, forwards the payload and echoes the backend's answer |
| Gateway.AllowedRequestProceedsUnlessBlocked | gateway/index.js:54-106 | For an allowed request without faults, the backend is called iff the verdict does not block; then the filtered payload is forwarded and the answer echoed, otherwise 429 lists the findings |
| Gateway.FaultAnswers503 | gateway/index.js:108-121 | A fault before the detector answers 503, store untouched, nothing forwarded; after the detector, every request of a principal that does not reach the backend answers 503; after the forward, 503 replaces the backend's answer |
| Gateway.PolicyStepWhenAllowed | gateway/index.js:28-54 | An allowed request is checked with the role's merged anomaly profile and carries the filtered payload |
| Gateway.OversizedEventIsRefused | gateway/index.js:54-83 | An identified principal's (non-empty id) request larger than the byte limit is answered 429 and not forwarded, when the configured `timeWindow` is positive |
| Gateway.OversizedRequestIsRefused | gateway/index.js:10-83 | End to end: an allowed request of a principal with a non-empty id, larger than its merged profile's byte limit, is answered 429 and never reaches the backend, when the merged `timeWindow` is positive (an empty id skips `check` and is forwarded) |

## Left out

- Authentication (`auth.validateJWT`, `isValidJWTFormat`) is not part of this model. The principal is a parameter: a user or none.
- The policy file `config/rules.json` is not part of this model. The role table and the anomaly profiles are parameters (`Gateway.Policy`).
- The backend call (axios) is left out. The backend's outcome is a parameter, an answer or a transport error; `Gateway.Proxy` maps it.
- The audit trail, the log store (file append, JSON lines, CSV export) and the admin routes are left out. They are write-only sinks here. An exception they throw is modelled by the `fault` parameter.
- Gateway.Middleware: an exception thrown inside the `catch` block itself (by the audit or log calls there) escapes the middleware. It is not modelled: every fault ends in the 503 fallback.
- `getPayloadSize` and `JSON.stringify(body).length` are left out. A payload's size is a given natural number on the request, and stringify never throws here.
- `diffObjects`, `normalize`, `mean`, `standardDeviation`, `detectOutliers` and `formatBytes` are floating-point or dynamic helpers outside the risk pipeline.
- Helpers.MaskSensitive: lengths and `slice(-3)` count Unicode scalar values, while JavaScript counts UTF-16 code units. The generic mask therefore differs from the source on text outside the Basic Multilingual Plane (ten emoji give 5 asterisks and 3 emoji here, 10 asterisks and 3 code units there).
- Helpers.MaskSensitive: the `cpf`, `cnpj`, `email` and `phone` branches are regular-expression replacements, kept symbolic as `PatternReplaced(type, value)`. Only string values are modelled, so `String(value)` coercion of non-strings is left out. An absent type (`None`) stands for the omitted argument, which defaults to `generic`; an explicit `null` type, which the source sends to the `default` branch and returns unmasked, cannot be expressed.
- DecisionEngine.ActionFor: `toLowerCase` is modelled on ASCII letters only.
- Findings' `message` strings are left out. They are built with `toFixed` and are rendered from the value and the threshold, which the model keeps. So are the `console.warn` calls in `onBlock` and on throttle; `OnBlock` returns whether it would warn.
- Floating point is left out: the reported mean interval and read ratio are exact reals, and the branch conditions are compared as integers.
- Timestamps and configuration values are integers. Non-numeric or fractional profile values are left out.
- DecisionEngine.Evaluate and Gateway.Step: property lookups inherited from `Object.prototype` are left out. A path segment such as `constructor`, `toString` or `__proto__` finds an inherited member in `roleRules.resources`; `resourcePolicy.actions.includes` then throws and the source answers 503. The model treats the key as absent and answers 403 `no_resource_permission`. Likewise a role named after a prototype member (`constructor`) finds a function with no `resources`, so the source throws and answers 503 where the model denies with `role_not_found`.
- AnomalyDetector.Detector.Check: the source reads `Date.now()` in `recordEvent`, `cleanupOldEvents` and `check` separately. The model uses one `now` per call.
- AnomalyDetector.Detector.Check: the early `return null` for a missing or empty record after recording is unreachable (`RecordedEventIsLast`), so it has no branch.
- Helpers.RateLimiters.ShouldThrottle: the branch that deletes an empty, old limiter cannot fire, since the list was just appended to. It is kept as a dead branch. The limiter's `lastReset` field is kept; only that dead branch reads it.
- AnomalyDetector.Detector.GetAllEvents: returns the event lists by value. The source returns the stored arrays themselves, which callers could mutate through the alias.
- Concurrency and asynchronous interleaving of requests are left out. `middleware` is `async`, and other requests run while it waits for the backend (gateway/index.js:91). Every change to the detector's store (`onBlock`, and `check` with `recordEvent` and `cleanupOldEvents`) happens synchronously before that wait; after it come only the audit and log calls, which are not modelled. Any interleaving therefore leaves the store as running the requests one after another would, so the sequential `Step` is exact for the store.
