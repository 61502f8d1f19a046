/**
 * The gateway's small helpers with statable behaviour: the route-to-resource
 * mapping, the masking of sensitive values (its non-pattern branches), and
 * the in-memory keyed rate limiter with its statistics.
 */
module Helpers {
  import opened JsValues
  import opened Strings
  import opened Requests

  // ---------------------------------------------------------------------
  // mapRouteToResource
  // ---------------------------------------------------------------------

  /** `parts.filter(p => p)`: the non-empty parts, in order. */
  function NonEmptyParts(parts: seq<string>): (r: seq<string>)
    ensures |r| <= |parts|
    ensures forall i :: 0 <= i < |r| ==> r[i] != "" && r[i] in parts
  {
    if parts == [] then []
    else (if parts[0] != "" then [parts[0]] else []) + NonEmptyParts(parts[1..])
  }

  /** A part is kept iff it is one of the parts and is non-empty. */
  lemma {:induction false} NonEmptyPartsMembers(parts: seq<string>)
    ensures forall p :: p in NonEmptyParts(parts) <==> p in parts && p != ""
  {
    if parts != [] {
      NonEmptyPartsMembers(parts[1..]);
      assert parts == [parts[0]] + parts[1..];
    }
  }

  /** The filter keeps order: filtering a concatenation concatenates the filtered halves. */
  lemma {:induction false} NonEmptyPartsConcat(a: seq<string>, b: seq<string>)
    ensures NonEmptyParts(a + b) == NonEmptyParts(a) + NonEmptyParts(b)
  {
    if a == [] {
      assert a + b == b;
    } else {
      assert (a + b)[1..] == a[1..] + b;
      NonEmptyPartsConcat(a[1..], b);
    }
  }

  /** `req.path.split('/').filter(p => p)[0] || 'root'`. */
  function MapRouteToResource(path: string): (r: string)
    ensures r != ""
    ensures '/' !in r
  {
    var parts := Split(path, '/');
    var segments := NonEmptyParts(parts);
    if |segments| > 0 then
      assert segments[0] in parts;
      segments[0]
    else "root"
  }

  /** Leading separators contribute only empty parts to a split. */
  lemma {:induction false} SplitAfterSlashes(lead: string, s: string)
    requires forall i :: 0 <= i < |lead| ==> lead[i] == '/'
    ensures NonEmptyParts(Split(lead + s, '/')) == NonEmptyParts(Split(s, '/'))
    decreases |lead|
  {
    if lead != [] {
      var t := lead[1..] + s;
      assert lead + s == [lead[0]] + t;
      assert (lead + s)[1..] == t;
      assert Split(lead + s, '/') == [""] + Split(t, '/');
      assert ([""] + Split(t, '/'))[1..] == Split(t, '/');
      SplitAfterSlashes(lead[1..], s);
    } else {
      assert lead + s == s;
    }
  }

  /**
   * The mapped resource is the first non-empty segment: after any run of
   * leading slashes, the segment up to the next slash or the end.
   */
  lemma MapRouteFirstSegment(lead: string, seg: string, rest: string)
    requires forall i :: 0 <= i < |lead| ==> lead[i] == '/'
    requires seg != "" && '/' !in seg
    requires rest == [] || rest[0] == '/'
    ensures MapRouteToResource(lead + seg + rest) == seg
  {
    assert lead + seg + rest == lead + (seg + rest);
    SplitAfterSlashes(lead, seg + rest);
    SplitAfterPlainPrefix(seg, rest, '/');
    if rest != [] {
      assert Split(rest, '/') == [""] + Split(rest[1..], '/');
    }
    assert Split(rest, '/')[0] == "";
    var parts := Split(seg + rest, '/');
    assert parts[0] == seg;
    assert NonEmptyParts(parts) == [seg] + NonEmptyParts(parts[1..]);
  }

  /** A path made only of slashes, the empty path included, maps to 'root'. */
  lemma MapRouteOnlySlashes(path: string)
    requires forall i :: 0 <= i < |path| ==> path[i] == '/'
    ensures MapRouteToResource(path) == "root"
  {
    SplitAfterSlashes(path, "");
    assert path + "" == path;
    assert Split("", '/') == [""];
    assert NonEmptyParts([""]) == [];
  }

  /** For `/seg` and `/seg/...` with a non-empty `seg`, the helper agrees with the engine's `split('/')[1]`. */
  lemma MapRouteAgreesWithPathResource(seg: string, rest: string)
    requires seg != "" && '/' !in seg
    requires rest == [] || rest[0] == '/'
    ensures PathResource("/" + seg + rest) == Some(MapRouteToResource("/" + seg + rest))
  {
    MapRouteFirstSegment("/", seg, rest);
    PathResourceIsSecondField("", seg, rest);
    assert "" + "/" + seg + rest == "/" + seg + rest;
  }

  /** On `/` the engine's resource is the empty string while the helper says 'root'. */
  lemma RootPathDisagrees()
    ensures PathResource("/") == Some("")
    ensures MapRouteToResource("/") == "root"
  {
    PathResourceIsSecondField("", "", "");
    assert "" + "/" + "" + "" == "/";
    MapRouteOnlySlashes("/");
  }

  /** On `//x` the engine's resource is the empty string while the helper skips to 'x'. */
  lemma DoubleSlashDisagrees()
    ensures PathResource("//x") == Some("")
    ensures MapRouteToResource("//x") == "x"
  {
    PathResourceIsSecondField("", "", "/x");
    assert "" + "/" + "" + "/x" == "//x";
    MapRouteFirstSegment("//", "x", "");
    assert "//" + "x" + "" == "//x";
  }

  // ---------------------------------------------------------------------
  // maskSensitive
  // ---------------------------------------------------------------------

  /**
   * The result of `maskSensitive`: a string, or, for the pattern types
   * (cpf, cnpj, email, phone), the regular-expression replacement named by
   * the type applied to the input, kept symbolic.
   */
  datatype Masked = Text(s: string) | PatternReplaced(pattern: string, subject: string)

  /** The types whose branch is a regular-expression replacement. */
  predicate IsPatternType(ty: string) {
    ty == "cpf" || ty == "cnpj" || ty == "email" || ty == "phone"
  }

  /** `c.repeat(n)`. */
  function Repeat(c: char, n: nat): (r: string)
    ensures |r| == n
    ensures forall i :: 0 <= i < n ==> r[i] == c
  {
    if n == 0 then "" else [c] + Repeat(c, n - 1)
  }

  /** The number of asterisks of a generic mask: `Math.max(4, Math.floor(len / 2))`. */
  function StarCount(len: nat): nat {
    if len / 2 > 4 then len / 2 else 4
  }

  /** `str.slice(-3)`: the last three characters, or the whole string when shorter. */
  function LastThree(str: string): (r: string)
    ensures |r| == if |str| < 3 then |str| else 3
    ensures r == str[|str| - |r|..]
  {
    if |str| < 3 then str else str[|str| - 3..]
  }

  /**
   * `maskSensitive(value, type = 'generic')` for string values; `None` stands
   * for `undefined`/`null`, and an absent type takes the default 'generic'.
   * A falsy value gives `''`; the generic mask is `max(4, floor(len / 2))`
   * asterisks and then the last `min(3, len)` characters; a type with no
   * branch returns the value unchanged.
   */
  function MaskSensitive(value: Option<string>, ty: Option<string>): (r: Masked)
    ensures value.None? || value == Some("") ==> r == Text("")
    ensures value.Some? && value.value != "" && ty.Some? && IsPatternType(ty.value) ==>
              r == PatternReplaced(ty.value, value.value)
    ensures value.Some? && value.value != "" && ty.Some? && !IsPatternType(ty.value) && ty.value != "generic" ==>
              r == Text(value.value)
    ensures value.Some? && value.value != "" && (ty.None? || ty == Some("generic")) ==>
              var str := value.value;
              var k := if |str| / 2 > 4 then |str| / 2 else 4;
              var tail := if |str| < 3 then |str| else 3;
              && r.Text?
              && |r.s| == k + tail
              && (forall i :: 0 <= i < k ==> r.s[i] == '*')
              && r.s[k..] == str[|str| - tail..]
  {
    if value.None? || value.value == "" then Text("")
    else
      var str := value.value;
      var t := match ty case Some(x) => x case None => "generic";
      if IsPatternType(t) then PatternReplaced(t, str)
      else if t == "generic" then Text(Repeat('*', StarCount(|str|)) + LastThree(str))
      else Text(str)
  }

  /**
   * A generic mask reveals only the value's length and its last three
   * characters: two values that agree on those mask alike.
   */
  lemma GenericMaskHidesPrefix(a: string, b: string)
    requires a != "" && |a| == |b|
    requires LastThree(a) == LastThree(b)
    ensures MaskSensitive(Some(a), None) == MaskSensitive(Some(b), None)
  {
  }

  // ---------------------------------------------------------------------
  // shouldThrottle / getRateLimiterStats
  // ---------------------------------------------------------------------

  /** One key's limiter: its request timestamps and the time it was created. */
  datatype Limiter = Limiter(requests: seq<int>, lastReset: int)

  datatype LimiterStats = LimiterStats(currentRequests: nat, lastActivity: Option<int>)

  /** `requests.filter(time => now - time < windowMs)`. */
  function Retain(requests: seq<int>, now: int, windowMs: int): (r: seq<int>)
    ensures |r| <= |requests|
  {
    if requests == [] then []
    else (if now - requests[0] < windowMs then [requests[0]] else []) + Retain(requests[1..], now, windowMs)
  }

  /** The retained timestamps are exactly the stored ones less than `windowMs` old. */
  lemma {:induction false} RetainMembers(requests: seq<int>, now: int, windowMs: int)
    ensures forall t :: t in Retain(requests, now, windowMs) <==> t in requests && now - t < windowMs
  {
    if requests != [] {
      RetainMembers(requests[1..], now, windowMs);
      assert requests == [requests[0]] + requests[1..];
    }
  }

  /**
   * Pruning is consistent over time: pruning at `earlier` and then at
   * `later` is pruning at `later` alone.
   */
  lemma {:induction false} RetainLater(requests: seq<int>, earlier: int, later: int, windowMs: int)
    requires earlier <= later
    ensures Retain(Retain(requests, earlier, windowMs), later, windowMs) == Retain(requests, later, windowMs)
  {
    if requests != [] {
      RetainLater(requests[1..], earlier, later, windowMs);
      var head := if earlier - requests[0] < windowMs then [requests[0]] else [];
      RetainConcat(head, Retain(requests[1..], earlier, windowMs), later, windowMs);
    }
  }

  lemma {:induction false} RetainConcat(a: seq<int>, b: seq<int>, now: int, windowMs: int)
    ensures Retain(a + b, now, windowMs) == Retain(a, now, windowMs) + Retain(b, now, windowMs)
  {
    if a != [] {
      RetainConcat(a[1..], b, now, windowMs);
      assert (a + b)[1..] == a[1..] + b;
    } else {
      assert a + b == b;
    }
  }

  /** The limiter after one `shouldThrottle` at `now`: old entries pruned, `now` pushed. */
  function Throttled(limiter: Option<Limiter>, now: int, windowMs: int): (l: Limiter)
    ensures |l.requests| >= 1 && l.requests[|l.requests| - 1] == now
  {
    var base := match limiter case Some(x) => x case None => Limiter([], now);
    Limiter(Retain(base.requests, now, windowMs) + [now], base.lastReset)
  }

  /** The in-memory `rateLimiters` map. */
  class RateLimiters {
    var limiters: map<string, Limiter>

    constructor ()
      ensures limiters == map[]
    {
      limiters := map[];
    }

    /** The entry for `key` as an optional value. */
    function Get(key: string): (l: Option<Limiter>)
      reads this
      ensures l.Some? <==> key in limiters
      ensures l.Some? ==> l.value == limiters[key]
    {
      if key in limiters then Some(limiters[key]) else None
    }

    /**
     * `shouldThrottle`: prune the key's timestamps older than the window,
     * push `now`, and answer whether the retained count, the current request
     * included, exceeds `maxRequests`. Only the key's own limiter changes.
     */
    method ShouldThrottle(key: string, maxRequests: int, windowMs: int, now: int) returns (throttle: bool)
      modifies this
      ensures limiters == old(limiters)[key := Throttled(old(Get(key)), now, windowMs)]
      ensures GetRateLimiterStats(key) == Some(LimiterStats(|limiters[key].requests|, Some(now)))
      ensures throttle <==> |limiters[key].requests| > maxRequests
    {
      if key !in limiters {
        limiters := limiters[key := Limiter([], now)];
      }
      var limiter := limiters[key];
      limiter := limiter.(requests := Retain(limiter.requests, now, windowMs));
      limiter := limiter.(requests := limiter.requests + [now]);
      limiters := limiters[key := limiter];
      throttle := |limiter.requests| > maxRequests;
      if |limiter.requests| == 0 && now - limiter.lastReset > windowMs {
        // The source deletes the key here; the list was just appended to,
        // so the deletion never runs.
        assert false;
      }
    }

    /** `getRateLimiterStats`: null for an unknown key, else the count and the last timestamp. */
    function GetRateLimiterStats(key: string): (st: Option<LimiterStats>)
      reads this
      ensures st.None? <==> key !in limiters
      ensures st.Some? ==> st.value.currentRequests == |limiters[key].requests|
      ensures st.Some? && limiters[key].requests != [] ==>
                st.value.lastActivity == Some(limiters[key].requests[|limiters[key].requests| - 1])
      ensures st.Some? && limiters[key].requests == [] ==> st.value.lastActivity.None?
    {
      if key !in limiters then None
      else
        var reqs := limiters[key].requests;
        Some(LimiterStats(|reqs|, if reqs == [] then None else Some(reqs[|reqs| - 1])))
    }
  }

  /**
   * The throttle decision counts the stored timestamps less than `windowMs`
   * old plus the current request.
   */
  lemma ThrottleCount(limiter: Option<Limiter>, now: int, windowMs: int)
    ensures var before := match limiter case Some(x) => x.requests case None => [];
      |Throttled(limiter, now, windowMs).requests| == |Retain(before, now, windowMs)| + 1
  {
  }

  /**
   * Two calls at the same instant: the second sees exactly one more request
   * than the first, so once a key is throttled it stays throttled.
   */
  lemma {:induction false} SecondCallCountsOneMore(limiter: Option<Limiter>, now: int, windowMs: int)
    requires windowMs > 0
    ensures |Throttled(Some(Throttled(limiter, now, windowMs)), now, windowMs).requests|
              == |Throttled(limiter, now, windowMs).requests| + 1
  {
    var first := Throttled(limiter, now, windowMs);
    var base := match limiter case Some(x) => x.requests case None => [];
    var kept := Retain(base, now, windowMs);
    RetainIdempotent(base, now, windowMs);
    RetainConcat(kept, [now], now, windowMs);
    assert Retain([now], now, windowMs) == [now] + Retain([], now, windowMs);
  }

  lemma {:induction false} RetainIdempotent(requests: seq<int>, now: int, windowMs: int)
    ensures Retain(Retain(requests, now, windowMs), now, windowMs) == Retain(requests, now, windowMs)
  {
    if requests != [] {
      RetainIdempotent(requests[1..], now, windowMs);
      var head := if now - requests[0] < windowMs then [requests[0]] else [];
      RetainConcat(head, Retain(requests[1..], now, windowMs), now, windowMs);
    }
  }
}
