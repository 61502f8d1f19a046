/**
 * The behavioural anomaly detector's per-principal store (the module-level
 * `userEvents` map) and the operations that read and update it: recording an
 * event and pruning the window, the `check` that runs the heuristics on the
 * fresh window, recording blocked attempts, statistics, clearing and the
 * snapshot of all events.
 *
 * The clock is the parameter `now`; every `Date.now()` inside one call reads
 * the same instant.
 */
module AnomalyDetector {
  import opened JsValues
  import opened Requests
  import opened Heuristics

  /** The trailing window over which blocked attempts are counted for the warning. */
  const BlockWarningWindow: int := 60000
  /** More blocked attempts than this within the window raise the warning. */
  const BlockWarningLimit: int := 5
  /** The trailing window of the `last5MinEvents` statistic. */
  const StatsWindow: int := 300000

  datatype BlockedAttempt = BlockedAttempt(timestamp: int, reason: string, httpMethod: string, path: string)

  /** A principal's behavioural state: its pruned events, the time of the last pruning, its denials. */
  datatype UserRecord = UserRecord(events: seq<Event>, lastCleanup: int, blockedAttempts: seq<BlockedAttempt>)

  datatype UserStats = UserStats(totalEvents: nat, last5MinEvents: nat, lastActivity: Option<int>, blockedAttempts: nat)

  /** `user && user.id`: the detector acts only for a principal with a non-empty id. */
  predicate Identified(user: Option<User>) {
    user.Some? && user.value.id != ""
  }

  /** The event recorded for a request; the status is `decisionResult?.status || 200`. */
  function EventFor(req: Request, status: Option<int>, now: int): Event {
    var code := match status case Some(c) => (if c != 0 then c else 200) case None => 200;
    Event(now, req.httpMethod, req.path, PathResource(req.path), req.payloadSize, code)
  }

  /** The principal's record, or the fresh record created on first use. */
  function RecordOrNew(store: map<string, UserRecord>, userId: string, now: int): UserRecord {
    if userId in store then store[userId] else UserRecord([], now, [])
  }

  /** `cleanupOldEvents`: keep the events newer than `now - timeWindow` and stamp the cleanup. */
  function Pruned(rec: UserRecord, timeWindow: int, now: int): UserRecord {
    rec.(events := Recent(rec.events, now - timeWindow), lastCleanup := now)
  }

  /** The store after `recordEvent`: the event appended, then pruned with the default window. */
  function WithEvent(store: map<string, UserRecord>, userId: string, req: Request, status: Option<int>, now: int)
    : map<string, UserRecord>
  {
    var rec := RecordOrNew(store, userId, now);
    store[userId := Pruned(rec.(events := rec.events + [EventFor(req, status, now)]), DefaultTimeWindow, now)]
  }

  /** The events `check` analyses: the principal's events after `recordEvent`, newer than `now - timeWindow`. */
  function CheckWindow(store: map<string, UserRecord>, userId: string, req: Request, status: Option<int>,
                       timeWindow: int, now: int): seq<Event>
  {
    Recent(WithEvent(store, userId, req, status, now)[userId].events, now - timeWindow)
  }

  /** What `check` answers once it has recorded the event: the heuristics over the events inside the configured window. */
  function CheckVerdict(store: map<string, UserRecord>, userId: string, req: Request, status: Option<int>,
                        s: Settings, now: int): Option<Verdict>
  {
    Analyze(userId, CheckWindow(store, userId, req, status, s.timeWindow, now), s, now)
  }

  /** The store after `onBlock`: one blocked attempt appended, the events untouched. */
  function WithBlockedAttempt(store: map<string, UserRecord>, userId: string, req: Request, reason: string, now: int)
    : map<string, UserRecord>
  {
    var rec := RecordOrNew(store, userId, now);
    store[userId := rec.(blockedAttempts := rec.blockedAttempts + [BlockedAttempt(now, reason, req.httpMethod, req.path)])]
  }

  /** Every stored event is within the default window of the record's last cleanup. */
  predicate WithinWindow(rec: UserRecord) {
    forall e :: e in rec.events ==> e.timestamp > rec.lastCleanup - DefaultTimeWindow
  }

  /** The number of blocked attempts newer than `cutoff`. */
  function RecentBlocks(attempts: seq<BlockedAttempt>, cutoff: int): (n: nat)
    ensures n <= |attempts|
  {
    if attempts == [] then 0
    else (if attempts[0].timestamp > cutoff then 1 else 0) + RecentBlocks(attempts[1..], cutoff)
  }

  /** Appending one attempt adds one to the count exactly when it is newer than the cutoff. */
  lemma {:induction false} RecentBlocksAppend(attempts: seq<BlockedAttempt>, b: BlockedAttempt, cutoff: int)
    ensures RecentBlocks(attempts + [b], cutoff) == RecentBlocks(attempts, cutoff) + (if b.timestamp > cutoff then 1 else 0)
  {
    if attempts != [] {
      assert (attempts + [b])[1..] == attempts[1..] + [b];
      RecentBlocksAppend(attempts[1..], b, cutoff);
    }
  }

  /** Some attempt is counted exactly when some attempt is newer than the cutoff. */
  lemma {:induction false} RecentBlocksPositive(attempts: seq<BlockedAttempt>, cutoff: int)
    ensures RecentBlocks(attempts, cutoff) > 0 <==> exists i :: 0 <= i < |attempts| && attempts[i].timestamp > cutoff
  {
    if attempts != [] {
      RecentBlocksPositive(attempts[1..], cutoff);
      if exists i :: 0 <= i < |attempts[1..]| && attempts[1..][i].timestamp > cutoff {
        var i :| 0 <= i < |attempts[1..]| && attempts[1..][i].timestamp > cutoff;
        assert attempts[i + 1].timestamp > cutoff;
      }
    }
  }

  /** Every attempt is counted exactly when every attempt is newer than the cutoff. */
  lemma {:induction false} RecentBlocksAll(attempts: seq<BlockedAttempt>, cutoff: int)
    ensures RecentBlocks(attempts, cutoff) == |attempts| <==> forall i :: 0 <= i < |attempts| ==> attempts[i].timestamp > cutoff
  {
    if attempts != [] {
      RecentBlocksAll(attempts[1..], cutoff);
      if forall i :: 0 <= i < |attempts[1..]| ==> attempts[1..][i].timestamp > cutoff {
        assert forall i :: 1 <= i < |attempts| ==> attempts[i] == attempts[1..][i - 1];
      } else {
        var i :| 0 <= i < |attempts[1..]| && attempts[1..][i].timestamp <= cutoff;
        assert attempts[i + 1].timestamp <= cutoff;
      }
    }
  }

  /** The statistics of one record at time `now`. */
  function Stats(rec: UserRecord, now: int): (st: UserStats)
    ensures st.totalEvents == |rec.events| && st.blockedAttempts == |rec.blockedAttempts|
    ensures st.last5MinEvents == |Recent(rec.events, now - StatsWindow)| && st.last5MinEvents <= st.totalEvents
    ensures st.lastActivity.None? <==> rec.events == []
    ensures rec.events != [] ==> st.lastActivity == Some(rec.events[|rec.events| - 1].timestamp)
  {
    UserStats(
      |rec.events|,
      |Recent(rec.events, now - StatsWindow)|,
      if rec.events == [] then None else Some(rec.events[|rec.events| - 1].timestamp),
      |rec.blockedAttempts|)
  }

  /**
   * After `recordEvent` the principal's last event is the one just recorded,
   * the record was pruned at `now` and lies within the window, and the
   * blocked attempts are those it had before.
   */
  lemma RecordedEventIsLast(store: map<string, UserRecord>, userId: string, req: Request, status: Option<int>, now: int)
    ensures var rec := WithEvent(store, userId, req, status, now)[userId];
      && |rec.events| >= 1
      && rec.events[|rec.events| - 1] == EventFor(req, status, now)
      && rec.events[..|rec.events| - 1] == Recent(RecordOrNew(store, userId, now).events, now - DefaultTimeWindow)
      && rec.lastCleanup == now
      && WithinWindow(rec)
      && rec.blockedAttempts == RecordOrNew(store, userId, now).blockedAttempts
  {
    RecentAppend(RecordOrNew(store, userId, now).events, EventFor(req, status, now), now - DefaultTimeWindow);
    RecentMembers(RecordOrNew(store, userId, now).events + [EventFor(req, status, now)], now - DefaultTimeWindow);
    LastOfAppend(Recent(RecordOrNew(store, userId, now).events, now - DefaultTimeWindow), EventFor(req, status, now));
  }

  /** Appending one event: the prefix is the old list and the last element is the event. */
  lemma LastOfAppend(a: seq<Event>, e: Event)
    ensures (a + [e])[..|a + [e]| - 1] == a && (a + [e])[|a + [e]| - 1] == e
  {
    assert (a + [e])[..|a|] == a;
  }

  /**
   * The window `check` evaluates: `recordEvent` already pruned with the default
   * 60 s, so a longer configured window sees no further back than 60 s; the
   * new event is in it exactly when the configured window is positive.
   */
  lemma CheckWindowIsCapped(events: seq<Event>, e: Event, timeWindow: int, now: int)
    requires e.timestamp == now
    ensures Recent(Recent(events + [e], now - DefaultTimeWindow), now - timeWindow) ==
              Recent(events, now - (if timeWindow < DefaultTimeWindow then timeWindow else DefaultTimeWindow))
                + (if timeWindow > 0 then [e] else [])
  {
    var c1, c2 := now - DefaultTimeWindow, now - timeWindow;
    var kept := Recent(events, c1);
    RecentAppend(events, e, c1);
    assert Recent(events + [e], c1) == kept + [e];
    RecentAppend(kept, e, c2);
    RecentOfRecent(events, c1, c2);
    var later := if c1 < c2 then c2 else c1;
    assert later == now - (if timeWindow < DefaultTimeWindow then timeWindow else DefaultTimeWindow);
  }

  /**
   * The same at the level of the store: after `recordEvent`, the principal's
   * window of width `timeWindow` holds its earlier events within the shorter
   * of the two windows, followed by the new event when the width is positive.
   */
  lemma CheckWindowAfterRecord(store: map<string, UserRecord>, userId: string, req: Request, status: Option<int>,
                               timeWindow: int, now: int)
    ensures CheckWindow(store, userId, req, status, timeWindow, now) ==
              Recent(RecordOrNew(store, userId, now).events,
                     now - (if timeWindow < DefaultTimeWindow then timeWindow else DefaultTimeWindow))
                + (if timeWindow > 0 then [EventFor(req, status, now)] else [])
  {
    var before := RecordOrNew(store, userId, now).events;
    var e := EventFor(req, status, now);
    assert WithEvent(store, userId, req, status, now)[userId].events == Recent(before + [e], now - DefaultTimeWindow);
    CheckWindowIsCapped(before, e, timeWindow, now);
  }

  /** `intervals[i - 1] = w[i].timestamp - w[i - 1].timestamp` for every `i` from 1, built by a loop. */
  method CollectIntervals(w: seq<Event>) returns (intervals: seq<int>)
    requires |w| >= 1
    ensures intervals == Intervals(w)
  {
    intervals := [];
    var i := 1;
    while i < |w|
      invariant 1 <= i <= |w|
      invariant intervals == Intervals(w[..i])
    {
      assert w[..i + 1][..i] == w[..i];
      intervals := intervals + [w[i].timestamp - w[i - 1].timestamp];
      i := i + 1;
    }
    assert w[..|w|] == w;
  }

  /** The rapid-requests step of `check`: with three events or more, the mean of the gaps against 100 ms. */
  method RapidRequestsPass(recentEvents: seq<Event>) returns (found: seq<Finding>)
    ensures found == RapidRequestsCheck(recentEvents)
  {
    found := [];
    if |recentEvents| >= 3 {
      var intervals := CollectIntervals(recentEvents);
      var avgInterval := (Sum(intervals) as real) / (|intervals| as real);
      RapidConditionIsMeanBelow(recentEvents);
      if avgInterval < RapidIntervalMs as real {
        found := [Finding(RapidRequests, High, avgInterval, RapidIntervalMs as real)];
      }
    }
  }

  /** The behaviour-change step of `check`: with more than ten events, the share of `'GET'`s against 0.3. */
  method BehaviorChangePass(recentEvents: seq<Event>) returns (found: seq<Finding>)
    ensures found == BehaviorChangeCheck(recentEvents)
  {
    found := [];
    if |recentEvents| > BehaviorMinEvents {
      var readRatio := (ReadCount(recentEvents) as real) / (|recentEvents| as real);
      BehaviorConditionIsRatioBelow(recentEvents);
      if readRatio < 0.3 {
        found := [Finding(BehaviorChange, Medium, readRatio, 0.3)];
      }
    }
  }

  /** The five checks of `check` over the window `recentEvents`, in order, each appending at most one finding. */
  method DetectWindow(recentEvents: seq<Event>, config: Settings) returns (anomalies: seq<Finding>)
    ensures anomalies == Detect(recentEvents, config)
  {
    anomalies := [];

    if |recentEvents| > config.maxRequestsPerWindow {
      anomalies := anomalies + [Finding(ExcessiveRequests, High, |recentEvents| as real, config.maxRequestsPerWindow as real)];
    }
    assert anomalies == ExcessiveRequestsCheck(recentEvents, config);

    var totalBytes := TotalBytes(recentEvents);
    if totalBytes > config.maxBytesPerWindow {
      anomalies := anomalies + [Finding(DataExfiltration, Critical, totalBytes as real, config.maxBytesPerWindow as real)];
    }
    assert anomalies == ExcessiveRequestsCheck(recentEvents, config) + DataExfiltrationCheck(recentEvents, config);
    ghost var sofar := anomalies;

    var rapid := RapidRequestsPass(recentEvents);
    anomalies := anomalies + rapid;
    sofar := anomalies;

    var uniqueResources := |Resources(recentEvents)|;
    if uniqueResources > ScatteredResourceLimit {
      anomalies := anomalies + [Finding(ScatteredAccess, Medium, uniqueResources as real, ScatteredResourceLimit as real)];
    }
    assert anomalies == sofar + ScatteredAccessCheck(recentEvents);
    sofar := anomalies;

    var behavior := BehaviorChangePass(recentEvents);
    anomalies := anomalies + behavior;
  }

  /**
   * The action for a non-empty list of findings, resolved as `check` does:
   * one pass for `some(critical)` and the count of high findings, then the
   * escalation.
   */
  method ResolveAction(anomalies: seq<Finding>) returns (action: Action)
    ensures action == Resolve(anomalies)
  {
    var hasCritical, highCount := false, 0;
    var i := 0;
    while i < |anomalies|
      invariant 0 <= i <= |anomalies|
      invariant hasCritical <==> HasCritical(anomalies[..i])
      invariant highCount == HighCount(anomalies[..i])
    {
      assert anomalies[..i + 1] == anomalies[..i] + [anomalies[i]];
      HighCountConcat(anomalies[..i], [anomalies[i]]);
      if anomalies[i].severity == Critical {
        assert anomalies[..i + 1][i] == anomalies[i];
        hasCritical := true;
      }
      if anomalies[i].severity == High {
        highCount := highCount + 1;
      }
      i := i + 1;
    }
    assert anomalies[..i] == anomalies;
    action := Alert;
    if hasCritical || highCount >= 2 {
      action := Block;
    } else if highCount >= 1 {
      action := Throttle;
    }
  }

  /**
   * The heuristics pass of `check` over the window `recentEvents`: the five
   * checks in order, then the action when any of them fired.
   */
  method AnalyzeWindow(userId: string, recentEvents: seq<Event>, config: Settings, now: int)
    returns (verdict: Option<Verdict>)
    ensures verdict == Analyze(userId, recentEvents, config, now)
  {
    var anomalies := DetectWindow(recentEvents, config);
    if |anomalies| == 0 {
      return None;
    }
    var action := ResolveAction(anomalies);
    verdict := Some(Verdict(action, anomalies, userId, now, |recentEvents|));
  }

  class Detector {
    /** The per-principal records, keyed by principal id. */
    var userEvents: map<string, UserRecord>

    ghost predicate Valid()
      reads this
    {
      forall userId :: userId in userEvents ==> WithinWindow(userEvents[userId])
    }

    constructor ()
      ensures Valid() && userEvents == map[]
    {
      userEvents := map[];
    }

    /** Every record other than `userId`'s lies within the default window of its last cleanup. */
    ghost predicate ValidExcept(userId: string)
      reads this
    {
      forall u :: u in userEvents && u != userId ==> WithinWindow(userEvents[u])
    }

    /**
     * `cleanupOldEvents`: prune one principal's record; an unknown principal
     * is left alone. Its one caller prunes with the default window, which
     * restores the invariant for that record.
     */
    method CleanupOldEvents(userId: string, timeWindow: int, now: int)
      requires ValidExcept(userId)
      modifies this
      ensures userId !in old(userEvents) ==> userEvents == old(userEvents)
      ensures userId in old(userEvents) ==>
                userEvents == old(userEvents)[userId := Pruned(old(userEvents)[userId], timeWindow, now)]
      ensures timeWindow <= DefaultTimeWindow ==> Valid()
    {
      if userId !in userEvents {
        return;
      }
      var rec := userEvents[userId];
      RecentMembers(rec.events, now - timeWindow);
      userEvents := userEvents[userId := rec.(events := Recent(rec.events, now - timeWindow), lastCleanup := now)];
    }

    /**
     * `recordEvent`: append one event for the principal, creating its record
     * if absent, then prune that record with the default window. Other
     * principals' records are untouched.
     */
    method RecordEvent(userId: string, req: Request, status: Option<int>, now: int)
      requires Valid()
      modifies this
      ensures Valid()
      ensures userEvents == WithEvent(old(userEvents), userId, req, status, now)
    {
      if userId !in userEvents {
        userEvents := userEvents[userId := UserRecord([], now, [])];
      }
      var rec := userEvents[userId];
      userEvents := userEvents[userId := rec.(events := rec.events + [EventFor(req, status, now)])];
      CleanupOldEvents(userId, DefaultTimeWindow, now);
      RecordedEventIsLast(old(userEvents), userId, req, status, now);
    }

    /**
     * `check`: for an identified principal, record the request and evaluate
     * the five heuristics on the events within the configured window; the
     * verdict is absent when none fired. An unidentified principal changes
     * nothing and gets no verdict.
     */
    method Check(user: Option<User>, req: Request, status: Option<int>, cfg: AnomalyConfig, now: int)
      returns (verdict: Option<Verdict>)
      requires Valid()
      modifies this
      ensures Valid()
      ensures !Identified(user) ==> verdict == None && userEvents == old(userEvents)
      ensures Identified(user) ==>
                && userEvents == WithEvent(old(userEvents), user.value.id, req, status, now)
                && verdict == CheckVerdict(old(userEvents), user.value.id, req, status, Merge(cfg), now)
    {
      if user.None? || user.value.id == "" {
        return None;
      }
      var userId := user.value.id;
      RecordEvent(userId, req, status, now);

      // The source returns null here when the record is missing or empty; it
      // never is (RecordedEventIsLast), so that return is not modelled.

      verdict := AnalyzeWindow(userId, Recent(userEvents[userId].events, now - Merge(cfg).timeWindow), Merge(cfg), now);
    }

    /**
     * `onBlock`: for an identified principal, append a blocked attempt,
     * creating the record if absent, and report whether more than five fall
     * within the last 60 s. The warning changes nothing else.
     */
    method OnBlock(user: Option<User>, req: Request, reason: string, now: int) returns (warned: bool)
      requires Valid()
      modifies this
      ensures Valid()
      ensures !Identified(user) ==> !warned && userEvents == old(userEvents)
      ensures Identified(user) ==>
                && userEvents == WithBlockedAttempt(old(userEvents), user.value.id, req, reason, now)
                && warned == (RecentBlocks(userEvents[user.value.id].blockedAttempts, now - BlockWarningWindow)
                                > BlockWarningLimit)
    {
      if user.None? || user.value.id == "" {
        return false;
      }
      var userId := user.value.id;
      if userId !in userEvents {
        userEvents := userEvents[userId := UserRecord([], now, [])];
      }
      var rec := userEvents[userId];
      rec := rec.(blockedAttempts := rec.blockedAttempts + [BlockedAttempt(now, reason, req.httpMethod, req.path)]);
      userEvents := userEvents[userId := rec];
      var recentBlocks := RecentBlocks(rec.blockedAttempts, now - BlockWarningWindow);
      warned := recentBlocks > BlockWarningLimit;
    }

    /** `getUserStats`: null for an unknown principal, otherwise the record's statistics. */
    function GetUserStats(userId: string, now: int): (st: Option<UserStats>)
      reads this
      ensures st.None? <==> userId !in userEvents
      ensures st.Some? ==> st.value == Stats(userEvents[userId], now)
    {
      if userId in userEvents then Some(Stats(userEvents[userId], now)) else None
    }

    /** `clearUserData`: forget one principal; every other record stays as it was. */
    method ClearUserData(userId: string)
      requires Valid()
      modifies this
      ensures Valid()
      ensures userEvents == old(userEvents) - {userId}
    {
      userEvents := userEvents - {userId};
    }

    /** `getAllEvents`: every stored principal mapped to its event list. */
    function GetAllEvents(): (all: map<string, seq<Event>>)
      reads this
      ensures all.Keys == userEvents.Keys
      ensures forall userId :: userId in all ==> all[userId] == userEvents[userId].events
    {
      map userId | userId in userEvents :: userEvents[userId].events
    }
  }

  /** A positive window analysed right after `recordEvent` counts at least the bytes of the request just recorded. */
  lemma WindowHoldsRecordedBytes(store: map<string, UserRecord>, userId: string, req: Request, status: Option<int>,
                                 timeWindow: int, now: int)
    requires timeWindow > 0
    ensures TotalBytes(CheckWindow(store, userId, req, status, timeWindow, now)) >= req.payloadSize
  {
    CheckWindowAfterRecord(store, userId, req, status, timeWindow, now);
    TotalBytesConcat(Recent(RecordOrNew(store, userId, now).events,
                            now - (if timeWindow < DefaultTimeWindow then timeWindow else DefaultTimeWindow)),
                     [EventFor(req, status, now)]);
  }

  /**
   * A request whose payload alone exceeds the byte budget of a positive
   * window makes `check` answer `block`, whatever the earlier history: the
   * window holds that event, so `data_exfiltration` fires.
   */
  lemma OversizedEventBlocks(store: map<string, UserRecord>, userId: string, req: Request, status: Option<int>,
                             s: Settings, now: int)
    requires req.payloadSize > s.maxBytesPerWindow && s.timeWindow > 0
    ensures Blocks(CheckVerdict(store, userId, req, status, s, now))
  {
    WindowHoldsRecordedBytes(store, userId, req, status, s.timeWindow, now);
    ExfiltrationBlocks(userId, CheckWindow(store, userId, req, status, s.timeWindow, now), s, now);
  }
}
