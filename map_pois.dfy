/** The points-of-interest handlers: the Overpass query builder, request parsing and the POI
    extraction loop (app/chatbot/api/map_pois/route.ts), and the argument checks of the Flask
    route (chatbot/app.py). The Flask proxy and the Overpass request are network calls: the
    elements they return are an input. Numbers are kept in printed form. */
module MapPois {
  import opened Wrappers
  import opened Text
  import opened JsonValues

  /** The categories the query builder distinguishes. */
  datatype PoiKind = Hospital | School | Road | Power | Amenity(value: string)

  /** The kind (`amenity` when empty), lower-cased, then the synonym branches. */
  function KindOf(kind: string): PoiKind
  {
    Classify(Lower(if kind == "" then "amenity" else kind))
  }

  /** The synonym groups on the lower-cased kind. */
  function Classify(k: string): PoiKind
  {
    if k == "hospital" || k == "hospitals" then Hospital
    else if k == "school" || k == "schools" then School
    else if k == "roads" || k == "road" || k == "highway" then Road
    else if k == "electricity" || k == "power" then Power
    else Amenity(k)
  }

  /** The `(around:radius,lat,lon)` filter every selector carries. */
  function Around(radius: string, lat: string, lon: string): string {
    "(around:" + radius + "," + lat + "," + lon + ")"
  }

  /** The element selectors of each category, before the `around` filter. */
  function Selectors(kind: PoiKind): (r: seq<string>)
    ensures |r| >= 1
  {
    match kind
    case Hospital => ["node[\"amenity\"=\"hospital\"]"]
    case School => ["node[\"amenity\"=\"school\"]", "node[\"amenity\"=\"college\"]", "node[\"amenity\"=\"university\"]"]
    case Road => ["way[\"highway\"]"]
    case Power => ["node[\"power\"]"]
    case Amenity(k) => ["node[\"amenity\"=\"" + k + "\"]"]
  }

  /** Each selector followed by the filter and `;`. */
  function Statements(selectors: seq<string>, around: string): string {
    if selectors == [] then "" else selectors[0] + around + ";" + Statements(selectors[1..], around)
  }

  const QueryHead: string := "[out:json][timeout:25];("
  const QueryTail: string := ");out body;>;out skel qt;"

  /** The query text of a category. */
  function QueryFor(kind: PoiKind, around: string): string {
    QueryHead + Statements(Selectors(kind), around) + QueryTail
  }

  /** `buildOverpassQuery(kind, lat, lon, radius_m)`. */
  function BuildOverpassQuery(kind: string, lat: string, lon: string, radius: string): string {
    QueryFor(KindOf(kind), Around(radius, lat, lon))
  }

  lemma StatementsContain(sel: seq<string>, a: string)
    requires |sel| >= 1
    ensures Contains(Statements(sel, a), a)
  {
    assert Statements(sel, a) == sel[0] + a + (";" + Statements(sel[1..], a));
    ContainsMiddle(sel[0], a, ";" + Statements(sel[1..], a));
  }

  /** Every query carries the `around` filter. */
  lemma QueryHasAround(kind: string, lat: string, lon: string, radius: string)
    ensures Contains(BuildOverpassQuery(kind, lat, lon, radius), Around(radius, lat, lon))
  {
    var a := Around(radius, lat, lon);
    var sel := Selectors(KindOf(kind));
    StatementsContain(sel, a);
    ContainsWithin(QueryHead, Statements(sel, a), QueryTail, a);
  }

  /** A kind outside the synonym groups is embedded, lowercased, as the amenity value. */
  lemma AmenityQuery(kind: string, lat: string, lon: string, radius: string)
    requires KindOf(kind).Amenity?
    ensures KindOf(kind).value == Lower(if kind == "" then "amenity" else kind)
    ensures BuildOverpassQuery(kind, lat, lon, radius) ==
      QueryHead + ("node[\"amenity\"=\"" + KindOf(kind).value + "\"]" + Around(radius, lat, lon) + ";") + QueryTail
  {
    var a := Around(radius, lat, lon);
    var x := "node[\"amenity\"=\"" + KindOf(kind).value + "\"]";
    assert Selectors(KindOf(kind)) == [x];
    assert Statements([x], a) == x + a + ";" + Statements([], a);
  }

  lemma ContainsMiddle(x: string, a: string, y: string)
    ensures Contains(x + a + y, a)
  {
    assert (x + a + y)[|x|..|x| + |a|] == a;
    assert OccursAt(x + a + y, a, |x|);
  }

  lemma ContainsWithin(x: string, s: string, y: string, a: string)
    requires Contains(s, a)
    ensures Contains(x + s + y, a)
  {
    var i :| 0 <= i <= |s| - |a| && OccursAt(s, a, i);
    assert (x + s + y)[|x| + i..|x| + i + |a|] == s[i..i + |a|];
    assert OccursAt(x + s + y, a, |x| + i);
  }

  lemma LowerUnchanged(s: string)
    requires forall i :: 0 <= i < |s| ==> !('A' <= s[i] <= 'Z')
    ensures Lower(s) == s
  {
  }

  /** A kind with no upper-case letter is classified as it stands. */
  lemma KindOfLowerCase(kind: string)
    requires kind != "" && forall i :: 0 <= i < |kind| ==> !('A' <= kind[i] <= 'Z')
    ensures KindOf(kind) == Classify(kind)
  {
    LowerUnchanged(kind);
  }

  /** Two strings differing in length or in their first character are different. */
  lemma Differ(a: string, b: string)
    requires |a| != |b| || (a != [] && b != [] && a[0] != b[0])
    ensures a != b
  {
  }

  /** The synonym groups, in any letter case; an empty kind is `amenity`. */
  lemma HospitalKinds()
    ensures KindOf("hospital") == KindOf("Hospitals") == Hospital
  {
    KindOfLowerCase("hospital");
    CapitalHospitals();
  }

  lemma CapitalHospitals()
    ensures KindOf("Hospitals") == Hospital
  {
    LowerPointwise("Hospitals", "hospitals");
    Differ("hospitals", "hospital");
    assert "Hospitals" != "";
  }

  lemma SchoolKinds()
    ensures KindOf("schools") == KindOf("SCHOOL") == School
  {
    LowerPointwise("SCHOOL", "school");
    KindOfLowerCase("schools");
    Differ("school", "hospital");
    Differ("school", "hospitals");
    Differ("schools", "hospital");
    Differ("schools", "hospitals");
  }

  lemma RoadKinds()
    ensures KindOf("highway") == KindOf("road") == KindOf("roads") == Road
  {
    RoadKind();
    RoadsKind();
    HighwayKind();
  }

  lemma RoadsKind()
    ensures KindOf("roads") == Road
  {
    KindOfLowerCase("roads");
    Differ("roads", "hospital");
    Differ("roads", "hospitals");
    Differ("roads", "school");
    Differ("roads", "schools");
  }

  lemma RoadKind()
    ensures KindOf("road") == Road
  {
    KindOfLowerCase("road");
    Differ("road", "hospital");
    Differ("road", "hospitals");
    Differ("road", "school");
    Differ("road", "schools");
    Differ("road", "roads");
  }

  lemma HighwayKind()
    ensures KindOf("highway") == Road
  {
    KindOfLowerCase("highway");
    Differ("highway", "hospital");
    Differ("highway", "hospitals");
    Differ("highway", "school");
    Differ("highway", "schools");
    Differ("highway", "roads");
    Differ("highway", "road");
  }

  lemma PowerKinds()
    ensures KindOf("power") == KindOf("electricity") == Power
  {
    PowerKind();
    ElectricityKind();
  }

  lemma ElectricityKind()
    ensures KindOf("electricity") == Power
  {
    KindOfLowerCase("electricity");
    Differ("electricity", "hospital");
    Differ("electricity", "hospitals");
    Differ("electricity", "school");
    Differ("electricity", "schools");
    Differ("electricity", "roads");
    Differ("electricity", "road");
    Differ("electricity", "highway");
  }

  lemma PowerKind()
    ensures KindOf("power") == Power
  {
    KindOfLowerCase("power");
    Differ("power", "hospital");
    Differ("power", "hospitals");
    Differ("power", "school");
    Differ("power", "schools");
    Differ("power", "roads");
    Differ("power", "road");
    Differ("power", "highway");
    Differ("power", "electricity");
  }

  lemma DefaultKind()
    ensures KindOf("") == KindOf("amenity") == Amenity("amenity")
  {
    KindOfLowerCase("amenity");
    Differ("amenity", "hospital");
    Differ("amenity", "hospitals");
    Differ("amenity", "school");
    Differ("amenity", "schools");
    Differ("amenity", "roads");
    Differ("amenity", "road");
    Differ("amenity", "highway");
    Differ("amenity", "electricity");
    Differ("amenity", "power");
  }

  lemma SameKindSameQuery(a: string, b: string, lat: string, lon: string, radius: string)
    requires KindOf(a) == KindOf(b)
    ensures BuildOverpassQuery(a, lat, lon, radius) == BuildOverpassQuery(b, lat, lon, radius)
  {
  }

  /** Synonyms give identical queries. */
  lemma SynonymsAgree(lat: string, lon: string, radius: string)
    ensures BuildOverpassQuery("Hospitals", lat, lon, radius) == BuildOverpassQuery("hospital", lat, lon, radius)
    ensures BuildOverpassQuery("schools", lat, lon, radius) == BuildOverpassQuery("SCHOOL", lat, lon, radius)
    ensures BuildOverpassQuery("highway", lat, lon, radius) == BuildOverpassQuery("road", lat, lon, radius)
    ensures BuildOverpassQuery("roads", lat, lon, radius) == BuildOverpassQuery("road", lat, lon, radius)
    ensures BuildOverpassQuery("power", lat, lon, radius) == BuildOverpassQuery("electricity", lat, lon, radius)
    ensures BuildOverpassQuery("", lat, lon, radius) == BuildOverpassQuery("amenity", lat, lon, radius)
  {
    HospitalKinds();
    SameKindSameQuery("Hospitals", "hospital", lat, lon, radius);
    SchoolKinds();
    SameKindSameQuery("schools", "SCHOOL", lat, lon, radius);
    RoadKinds();
    SameKindSameQuery("highway", "road", lat, lon, radius);
    SameKindSameQuery("roads", "road", lat, lon, radius);
    PowerKinds();
    SameKindSameQuery("power", "electricity", lat, lon, radius);
    DefaultKind();
    SameKindSameQuery("", "amenity", lat, lon, radius);
  }

  /** The fields of a request body (a body that fails to parse reads as all `Missing`). */
  datatype PoisBody = PoisBody(lat: Value, lon: Value, radiusM: Value, radius: Value, kind: Value, limit: Value)

  datatype PoisArgs = PoisArgs(lat: Number, lon: Number, radius: int, kind: Value, limit: int)

  datatype PoisParse = PoisBadRequest(error: string) | PoisParsed(args: PoisArgs)

  const NumericError: string := "lat, lon, radius_m and limit must be numeric"

  /** The limit: the parsed integer, or 50 when parsing gave nothing or zero. */
  function LimitOf(parsed: Option<int>): (r: int)
    ensures r != 0
    ensures parsed.None? || parsed == Some(0) ==> r == 50
    ensures parsed.Some? && parsed.value != 0 ==> r == parsed.value
  {
    if parsed.None? || parsed.value == 0 then 50 else parsed.value
  }

  /** Lines 13-22: parse, then 400 when lat, lon or radius is NaN (`parseInt` gives None for NaN). */
  function ParsePois(body: PoisBody, parseFloat: Value -> Number, parseInt: Value -> Option<int>): (r: PoisParse)
    ensures r.PoisBadRequest? <==>
      parseFloat(body.lat).NaN? || parseFloat(body.lon).NaN? ||
      parseInt(JsOr(body.radiusM, JsOr(body.radius, Num(Finite("20000", false))))).None?
    ensures r.PoisBadRequest? ==> r.error == NumericError
    ensures r.PoisParsed? ==>
      r.args.lat == parseFloat(body.lat) && r.args.lon == parseFloat(body.lon) &&
      Some(r.args.radius) == parseInt(JsOr(body.radiusM, JsOr(body.radius, Num(Finite("20000", false))))) &&
      r.args.kind == JsOr(body.kind, Str("amenity")) &&
      r.args.limit == LimitOf(parseInt(JsOr(body.limit, Str("50"))))
  {
    var lat := parseFloat(body.lat);
    var lon := parseFloat(body.lon);
    var radius := parseInt(JsOr(body.radiusM, JsOr(body.radius, Num(Finite("20000", false)))));
    var kind := JsOr(body.kind, Str("amenity"));
    var limit := LimitOf(parseInt(JsOr(body.limit, Str("50"))));
    if lat.NaN? || lon.NaN? || radius.None? then PoisBadRequest(NumericError)
    else PoisParsed(PoisArgs(lat, lon, radius.value, kind, limit))
  }

  datatype Center = Center(lat: Value, lon: Value)
  datatype Tags = Tags(name: Value, officialName: Value, ref: Value)

  /** One Overpass element; a missing `tags` object reads as all-missing tags. */
  datatype Element = Element(id: Value, osmType: Value, lat: Value, lon: Value, center: Option<Center>, tags: Tags)

  datatype Poi = Poi(id: Value, osmType: Value, lat: Number, lon: Number, name: Value, tags: Tags)

  /** The element's latitude, else its centre's. */
  function LatOf(el: Element): Value {
    JsOr(el.lat, if el.center.None? then Missing else el.center.value.lat)
  }

  function LonOf(el: Element): Value {
    JsOr(el.lon, if el.center.None? then Missing else el.center.value.lon)
  }

  /** The first truthy of name, official name and reference, else the empty string. */
  function NameOf(tags: Tags): Value {
    JsOr(tags.name, JsOr(tags.officialName, JsOr(tags.ref, Str(""))))
  }

  /** The POI an element yields, when both coordinates are truthy. */
  function PoiOf(el: Element, parseFloat: Value -> Number): (r: Option<Poi>)
    ensures r.Some? <==> JsTruthy(LatOf(el)) && JsTruthy(LonOf(el))
  {
    if JsTruthy(LatOf(el)) && JsTruthy(LonOf(el)) then
      Some(Poi(el.id, el.osmType, parseFloat(LatOf(el)), parseFloat(LonOf(el)), NameOf(el.tags), el.tags))
    else None
  }

  /** The POIs of all elements that have coordinates, in element order. */
  function Kept(els: seq<Element>, parseFloat: Value -> Number): (r: seq<Poi>)
    ensures |r| <= |els|
  {
    if els == [] then []
    else
      var last := PoiOf(els[|els| - 1], parseFloat);
      Kept(els[..|els| - 1], parseFloat) + (if last.Some? then [last.value] else [])
  }

  lemma {:induction false} KeptPrefix(els: seq<Element>, n: nat, parseFloat: Value -> Number)
    requires n <= |els|
    ensures |Kept(els[..n], parseFloat)| <= |Kept(els, parseFloat)|
    ensures Kept(els, parseFloat)[..|Kept(els[..n], parseFloat)|] == Kept(els[..n], parseFloat)
    decreases |els| - n
  {
    if n < |els| {
      var init := els[..|els| - 1];
      KeptPrefix(init, n, parseFloat);
      assert init[..n] == els[..n];
    } else {
      assert els[..n] == els;
    }
  }

  /** A coordinate of exactly zero is falsy, so an element on the equator or the prime
      meridian, without a `center`, is dropped. */
  lemma ZeroCoordinateDropped(el: Element, parseFloat: Value -> Number)
    requires el.lat == Num(Finite("0", true)) && el.center.None?
    ensures PoiOf(el, parseFloat).None?
  {
  }

  /** The extraction loop: push the element's POI when it has coordinates, then stop once
      the list reaches the limit. The test runs after every element, so a limit below one stops
      after the first element. */
  method ExtractPois(els: seq<Element>, limit: int, parseFloat: Value -> Number) returns (pois: seq<Poi>)
    ensures limit >= 1 ==> pois == (if |Kept(els, parseFloat)| <= limit then Kept(els, parseFloat)
                                     else Kept(els, parseFloat)[..limit])
    ensures limit >= 1 ==> |pois| <= limit
    ensures limit < 1 ==> pois == Kept(els[..if |els| == 0 then 0 else 1], parseFloat)
  {
    pois := [];
    var i := 0;
    while i < |els|
      invariant 0 <= i <= |els|
      invariant pois == Kept(els[..i], parseFloat)
      invariant i == 0 || |pois| < limit
    {
      assert els[..i + 1][..i] == els[..i];
      var p := PoiOf(els[i], parseFloat);
      if p.Some? {
        pois := pois + [p.value];
      }
      i := i + 1;
      if |pois| >= limit {
        if limit >= 1 {
          assert |pois| == limit;
          KeptPrefix(els, i, parseFloat);
        }
        return;
      }
    }
    assert els[..i] == els;
  }

  /** What `map_pois_route` passes on, or the 400 when a conversion raises. */
  datatype PyPois = PyPoisBadRequest(error: string) | PyPoisQuery(lat: Number, lon: Number, radius: int, kind: Value, limit: int)

  /** `map_pois_route` argument handling: defaults by Python `or`, then `float`/`int`
      conversions (`toFloat`, `toInt`, None when they raise). */
  function PyPoisArgs(body: PoisBody, toFloat: Value -> Option<Number>, toInt: Value -> Option<int>): (r: PyPois)
    ensures var radius := PyOr(body.radiusM, PyOr(body.radius, Num(Finite("20000", false))));
      var limit := PyOr(body.limit, Num(Finite("50", false)));
      (r.PyPoisBadRequest? <==>
        toFloat(body.lat).None? || toFloat(body.lon).None? || toInt(radius).None? || toInt(limit).None?) &&
      (r.PyPoisBadRequest? ==> r.error == NumericError) &&
      (r.PyPoisQuery? ==> r.lat == toFloat(body.lat).value && r.lon == toFloat(body.lon).value &&
                          r.radius == toInt(radius).value && r.limit == toInt(limit).value &&
                          r.kind == PyOr(body.kind, Str("amenity")))
  {
    var radius := PyOr(body.radiusM, PyOr(body.radius, Num(Finite("20000", false))));
    var limit := PyOr(body.limit, Num(Finite("50", false)));
    match (toFloat(body.lat), toFloat(body.lon), toInt(radius), toInt(limit))
    case (Some(la), Some(lo), Some(ra), Some(li)) => PyPoisQuery(la, lo, ra, PyOr(body.kind, Str("amenity")), li)
    case _ => PyPoisBadRequest(NumericError)
  }
}
