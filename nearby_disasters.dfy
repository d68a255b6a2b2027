/** The nearby-disasters handlers: request parsing, the cache lookup, and the dedupe and time
    sort of the combined earthquake and weather events (app/chatbot/api/nearby_disasters/route.ts),
    and the argument checks of the Flask route (chatbot/app.py). The Flask proxy and the USGS
    and weather queries are network calls: their results are inputs. */
module NearbyDisasters {
  import opened Wrappers
  import opened Seqs
  import opened StableSort
  import opened JsonValues
  import opened TtlCache

  /** The fields of a request body (a body that fails to parse reads as all `Missing`). */
  datatype NearbyBody = NearbyBody(lat: Value, lon: Value, radiusKm: Value, radius: Value, days: Value,
                                   country: Value)

  /** The parsed request: coordinates and radius as numbers, `days` an integer, `country` text. */
  datatype NearbyArgs = NearbyArgs(lat: Number, lon: Number, radius: Number, days: int, country: Value)

  /** The day window: the parsed integer, or 180 when parsing gave nothing or zero. */
  function DaysOf(parsed: Option<int>): (r: int)
    ensures r != 0
    ensures parsed.None? || parsed == Some(0) ==> r == 180
    ensures parsed.Some? && parsed.value != 0 ==> r == parsed.value
  {
    if parsed.None? || parsed.value == 0 then 180 else parsed.value
  }

  /** Lines 70-79: parse, then 400 when either coordinate is NaN. `parseFloat` and `parseInt`
      are the conversions, with `parseInt` yielding None for NaN. */
  function ParseNearby(body: NearbyBody, parseFloat: Value -> Number, parseInt: Value -> Option<int>,
                       defaultRadius: Value, defaultDays: Value): (r: Result)
    ensures r.BadRequest? <==> parseFloat(body.lat).NaN? || parseFloat(body.lon).NaN?
    ensures r.BadRequest? ==> r.error == "lat and lon required"
    ensures r.Parsed? ==>
      r.args.lat == parseFloat(body.lat) && r.args.lon == parseFloat(body.lon) &&
      r.args.radius == parseFloat(JsOr(body.radiusKm, JsOr(body.radius, defaultRadius))) &&
      r.args.days == DaysOf(parseInt(JsOr(body.days, defaultDays))) &&
      (JsTruthy(body.country) ==> r.args.country == body.country) &&
      (!JsTruthy(body.country) ==> r.args.country == Str("India"))
  {
    var lat := parseFloat(body.lat);
    var lon := parseFloat(body.lon);
    var radius := parseFloat(JsOr(body.radiusKm, JsOr(body.radius, defaultRadius)));
    var days := DaysOf(parseInt(JsOr(body.days, defaultDays)));
    var country := JsOr(body.country, Str("India"));
    if lat.NaN? || lon.NaN? then BadRequest("lat and lon required")
    else Parsed(NearbyArgs(lat, lon, radius, days, country))
  }

  datatype Result = BadRequest(error: string) | Parsed(args: NearbyArgs)

  /** The literal defaults of the handler: `20` for the radius and `'180'` for the days. */
  const DefaultRadius: Value := Num(Finite("20", false))
  const DefaultDays: Value := Str("180")

  /** A missing, zero or non-numeric `days` gives 180, and a missing `country` gives India. */
  lemma ParseDefaults(body: NearbyBody, parseFloat: Value -> Number, parseInt: Value -> Option<int>)
    requires parseInt(DefaultDays) == Some(180)
    requires ParseNearby(body, parseFloat, parseInt, DefaultRadius, DefaultDays).Parsed?
    ensures var a := ParseNearby(body, parseFloat, parseInt, DefaultRadius, DefaultDays).args;
      (!JsTruthy(body.days) ==> a.days == 180) &&
      (parseInt(body.days).None? || parseInt(body.days) == Some(0) ==> a.days == 180) &&
      (body.country == Missing ==> a.country == Str("India"))
  {
  }

  /** One event of the combined list. `json` stands for the serialised event; `time` is the
      event time in milliseconds when the event has a (truthy) time. */
  datatype Event = Event(kind: string, url: Option<string>, title: Option<string>, time: Option<int>, json: string)

  /** The URL, else the title, else the serialised event. */
  function EventKey(e: Event): string {
    if e.url.Some? && e.url.value != "" then e.url.value
    else if e.title.Some? && e.title.value != "" then e.title.value
    else e.json
  }

  /** The sort key: the event time, or 0 for an event without one. */
  function EventTime(e: Event): int {
    if e.time.Some? then e.time.value else 0
  }

  /** The dedupe loop: an event is kept unless an earlier kept event has the same key. */
  method DedupeEvents(combined: seq<Event>) returns (normalized: seq<Event>)
    ensures normalized == DedupBy(combined, EventKey)
  {
    var seen: set<string> := {};
    normalized := [];
    var i := 0;
    while i < |combined|
      invariant 0 <= i <= |combined|
      invariant normalized == DedupBy(combined[..i], EventKey)
      invariant seen == KeySet(normalized, EventKey)
    {
      var ev := combined[i];
      assert combined[..i + 1][..i] == combined[..i];
      var id := EventKey(ev);
      if id !in seen {
        KeySetSnoc(normalized, ev, EventKey);
        seen := seen + {id};
        normalized := normalized + [ev];
      }
      i := i + 1;
    }
    assert combined[..i] == combined;
  }

  /** The disasters the handler reports without a proxy: the combined events deduplicated,
      then sorted by time, latest first. */
  function Disasters(eqs: seq<Event>, alerts: seq<Event>): seq<Event> {
    SortDesc(DedupBy(eqs + alerts, EventKey), EventTime)
  }

  /** No two reported events share a key; every reported event is the first of its key in the
      combined list; the list is non-increasing in time; equal times keep their dedupe order. */
  lemma DisastersMeaning(eqs: seq<Event>, alerts: seq<Event>)
    ensures var d := Disasters(eqs, alerts); var n := DedupBy(eqs + alerts, EventKey);
      DistinctKeys(d, EventKey) &&
      multiset(d) == multiset(n) &&
      (forall i, j :: 0 <= i < j < |d| ==> EventTime(d[i]) >= EventTime(d[j])) &&
      (forall j :: 0 <= j < |n| ==> exists i :: FirstOfKey(eqs + alerts, EventKey, i) && (eqs + alerts)[i] == n[j]) &&
      (forall t :: WithKey(d, EventTime, t) == WithKey(n, EventTime, t))
  {
    var n := DedupBy(eqs + alerts, EventKey);
    var d := Disasters(eqs, alerts);
    DedupByKeys(eqs + alerts, EventKey);
    DedupByFirst(eqs + alerts, EventKey);
    SortDescSortedPermutation(n, EventTime);
    forall t ensures WithKey(d, EventTime, t) == WithKey(n, EventTime, t) {
      SortDescStable(n, EventTime, t);
    }
    PermutationKeepsDistinctKeys(d, n, EventKey);
  }

  /** A rearrangement of a list with distinct keys has distinct keys. */
  lemma PermutationKeepsDistinctKeys<T, K>(d: seq<T>, n: seq<T>, key: T -> K)
    requires DistinctKeys(n, key) && multiset(d) == multiset(n)
    ensures DistinctKeys(d, key)
  {
    forall i, j | 0 <= i < j < |d| ensures key(d[i]) != key(d[j]) {
      assert d[i] in multiset(n) && d[j] in multiset(n);
      var a :| 0 <= a < |n| && n[a] == d[i];
      var b :| 0 <= b < |n| && n[b] == d[j];
      if a == b {
        TwoPositions(d, i, j);
        OccursOnce(n, a, key);
      }
    }
  }

  /** An element found at two positions occurs at least twice. */
  lemma TwoPositions<T>(d: seq<T>, i: int, j: int)
    requires 0 <= i < j < |d| && d[i] == d[j]
    ensures multiset(d)[d[i]] >= 2
  {
    assert d == d[..j] + d[j..];
    assert d[i] == d[..j][i];
    assert d[j] == d[j..][0];
    assert multiset(d)[d[i]] == multiset(d[..j])[d[i]] + multiset(d[j..])[d[i]];
  }

  /** In a list with distinct keys every element occurs once. */
  lemma OccursOnce<T, K>(s: seq<T>, a: int, key: T -> K)
    requires DistinctKeys(s, key) && 0 <= a < |s|
    ensures multiset(s)[s[a]] == 1
  {
    var x := s[a];
    var pre, post := s[..a], s[a + 1..];
    assert s == pre + [x] + post;
    forall k | 0 <= k < |pre| ensures pre[k] != x {
      assert key(s[k]) != key(s[a]);
    }
    forall k | 0 <= k < |post| ensures post[k] != x {
      assert key(s[a]) != key(s[a + 1 + k]);
    }
    assert multiset(pre)[x] == 0;
    assert multiset(post)[x] == 0;
  }

  const TtlMs: int := 5 * 60 * 1000

  datatype NearbyResponse =
    | NearbyError(status: int, error: string)
    | Found(disasters: seq<Event>)
    | Proxied(body: seq<Event>)

  /** The printed form of a number (`NaN` for NaN). */
  function NumberText(n: Number): string {
    if n.NaN? then "NaN" else n.repr
  }

  /** The cache key `nearby:${lat}:${lon}:${radius}:${days}:${country}`, over the printed forms
      of the parsed values (`countryText` is the printed country). */
  function CacheKey(a: NearbyArgs, daysText: string, countryText: string): string {
    "nearby:" + NumberText(a.lat) + ":" + NumberText(a.lon) + ":" + NumberText(a.radius) + ":" + daysText + ":" + countryText
  }

  /** `POST`: 400 before touching the cache; a cache hit is returned as is; otherwise a
      successful proxy answer, or the locally combined, deduplicated, time-sorted events, is
      cached for five minutes and returned. `flask` is the proxy's answer when it succeeded. */
  method PostNearby(cache: Cache<seq<Event>>, body: NearbyBody, parseFloat: Value -> Number,
                    parseInt: Value -> Option<int>, printInt: int -> string, printValue: Value -> string,
                    now: int, flask: Option<seq<Event>>, eqs: seq<Event>, alerts: seq<Event>)
    returns (resp: NearbyResponse)
    modifies cache
    ensures var p := ParseNearby(body, parseFloat, parseInt, DefaultRadius, DefaultDays);
      (p.BadRequest? ==> resp == NearbyError(400, "lat and lon required") && unchanged(cache)) &&
      (p.Parsed? ==>
        var key := CacheKey(p.args, printInt(p.args.days), printValue(p.args.country));
        var hit := Lookup(old(cache.entries), key, now);
        var afterGet := AfterGet(old(cache.entries), key, now);
        (hit.Some? ==> resp == Found(hit.value) && cache.entries == old(cache.entries)) &&
        (hit.None? && flask.Some? ==>
          resp == Proxied(flask.value) && cache.entries == afterGet[key := Record(now + TtlMs, flask.value)]) &&
        (hit.None? && flask.None? ==>
          resp == Found(Disasters(eqs, alerts)) &&
          cache.entries == afterGet[key := Record(now + TtlMs, Disasters(eqs, alerts))]))
  {
    var p := ParseNearby(body, parseFloat, parseInt, DefaultRadius, DefaultDays);
    if p.BadRequest? {
      return NearbyError(400, p.error);
    }
    var key := CacheKey(p.args, printInt(p.args.days), printValue(p.args.country));
    var cached := cache.Get(key, now);
    if cached.Some? {
      return Found(cached.value);
    }
    if flask.Some? {
      cache.Set(key, flask.value, TtlMs, now);
      return Proxied(flask.value);
    }
    var normalized := DedupeEvents(eqs + alerts);
    normalized := SortDesc(normalized, EventTime);
    cache.Set(key, normalized, TtlMs, now);
    return Found(normalized);
  }

  /** What `nearby_disasters_route` passes on: radius and days as given (days None when
      falsy), or the 400 when a coordinate does not convert. */
  datatype PyNearby =
    | PyBadRequest(error: string)
    | PyQuery(lat: Number, lon: Number, radius: Value, days: Option<Value>, country: Value)

  /** `nearby_disasters_route` argument handling; `toFloat` is Python's float conversion, None when
      it raises. */
  function PyNearbyArgs(body: NearbyBody, toFloat: Value -> Option<Number>): (r: PyNearby)
    ensures r.PyBadRequest? <==> toFloat(body.lat).None? || toFloat(body.lon).None?
    ensures r.PyBadRequest? ==> r.error == "lat and lon required"
    ensures r.PyQuery? ==>
      r.lat == toFloat(body.lat).value && r.lon == toFloat(body.lon).value &&
      r.radius == PyOr(body.radiusKm, PyOr(body.radius, Num(Finite("20", false)))) &&
      PyTruthy(r.radius) &&
      (r.days.Some? <==> PyTruthy(body.days)) && (r.days.Some? ==> r.days.value == body.days) &&
      r.country == body.country
  {
    match (toFloat(body.lat), toFloat(body.lon))
    case (Some(lat), Some(lon)) =>
      PyQuery(lat, lon, PyOr(body.radiusKm, PyOr(body.radius, Num(Finite("20", false)))),
              if PyTruthy(body.days) then Some(body.days) else None, body.country)
    case _ => PyBadRequest("lat and lon required")
  }
}
