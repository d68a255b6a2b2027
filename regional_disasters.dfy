/** The regional disaster catalogue and its two queries (lib/regional-disaster-data.ts).
    Localized titles, descriptions and preparation tips are carried in English only. */
module RegionalDisasters {
  import opened Wrappers

  datatype Severity = SevLow | SevMedium | SevHigh

  datatype Disaster = Disaster(id: string, kind: string, severity: Severity, region: string,
                               title: string, seasonality: Option<string>, frequency: string)

  const Catalogue: seq<Disaster> := [
    Disaster("punjab-flood", "flood", SevHigh, "punjab", "Monsoon Flooding", Some("June-September"), "Annual"),
    Disaster("punjab-earthquake", "earthquake", SevMedium, "punjab", "Seismic Activity", None, "Occasional"),
    Disaster("punjab-heatwave", "heatwave", SevHigh, "punjab", "Extreme Heat Waves", Some("April-June"), "Annual")
  ]

  predicate ShownIn(d: Disaster, region: string) {
    d.region == region || d.region == "national"
  }

  /** The entries of `table` shown for `region`, in table order. */
  function ForRegion(table: seq<Disaster>, region: string): (r: seq<Disaster>)
    ensures |r| <= |table|
    ensures forall d :: d in r <==> d in table && ShownIn(d, region)
  {
    if table == [] then []
    else (if ShownIn(table[0], region) then [table[0]] else []) + ForRegion(table[1..], region)
  }

  /** Filtering keeps relative order: an entry shown for `region` before another in the table
      comes before it in the result. */
  lemma {:induction false} ForRegionAppend(a: seq<Disaster>, b: seq<Disaster>, region: string)
    ensures ForRegion(a + b, region) == ForRegion(a, region) + ForRegion(b, region)
  {
    if a != [] {
      assert (a + b)[0] == a[0];
      assert (a + b)[1..] == a[1..] + b;
      ForRegionAppend(a[1..], b, region);
    } else {
      assert a + b == b;
    }
  }

  /** The first entry of `table` with this type and exactly this region. */
  function FindByType(table: seq<Disaster>, kind: string, region: string): (r: Option<Disaster>)
    ensures r.None? <==> forall i :: 0 <= i < |table| ==> !(table[i].kind == kind && table[i].region == region)
    ensures r.Some? ==> exists i :: (0 <= i < |table| && table[i] == r.value && r.value.kind == kind &&
      r.value.region == region &&
      forall k :: 0 <= k < i ==> !(table[k].kind == kind && table[k].region == region))
  {
    if table == [] then None
    else if table[0].kind == kind && table[0].region == region then Some(table[0])
    else
      var r := FindByType(table[1..], kind, region);
      assert forall i :: 1 <= i < |table| ==> table[i] == table[1..][i - 1];
      if r.Some? then
        var j :| 0 <= j < |table[1..]| && table[1..][j] == r.value &&
          forall k :: 0 <= k < j ==> !(table[1..][k].kind == kind && table[1..][k].region == region);
        assert table[j + 1] == r.value;
        r
      else r
  }

  /** `getRegionalDisasters`. */
  function GetRegionalDisasters(region: string): (r: seq<Disaster>)
    ensures forall d :: d in r ==> d.region == region || d.region == "national"
  {
    ForRegion(Catalogue, region)
  }

  /** `getDisasterByType`. */
  function GetDisasterByType(kind: string, region: string): (r: Option<Disaster>)
    ensures r.Some? ==> r.value.kind == kind && r.value.region == region
    ensures r.None? <==> forall i :: 0 <= i < |Catalogue| ==> !(Catalogue[i].kind == kind && Catalogue[i].region == region)
    ensures forall i :: 0 <= i < |Catalogue| && Catalogue[i].kind == kind && Catalogue[i].region == region &&
              (forall k :: 0 <= k < i ==> !(Catalogue[k].kind == kind && Catalogue[k].region == region))
              ==> r == Some(Catalogue[i])
  {
    FindByType(Catalogue, kind, region)
  }

  /** A disaster found by type is among the region's disasters. */
  lemma FoundIsListed(table: seq<Disaster>, kind: string, region: string)
    requires FindByType(table, kind, region).Some?
    ensures FindByType(table, kind, region).value in ForRegion(table, region)
  {
    var i :| 0 <= i < |table| && table[i] == FindByType(table, kind, region).value &&
      FindByType(table, kind, region).value.region == region &&
      forall k :: 0 <= k < i ==> !(table[k].kind == kind && table[k].region == region);
    assert table[i] in table;
  }

  /** All three entries are Punjab's, and none is marked `national`: every other region sees
      an empty list. */
  lemma CatalogueByRegion(region: string)
    ensures region == "punjab" ==> GetRegionalDisasters(region) == Catalogue
    ensures region != "punjab" ==> GetRegionalDisasters(region) == []
  {
    var c := Catalogue;
    assert ForRegion(c[1..][1..][1..], region) == [];
    assert ForRegion(c[1..][1..], region) == (if ShownIn(c[2], region) then [c[2]] else []);
    assert ForRegion(c[1..], region) ==
      (if ShownIn(c[1], region) then [c[1]] else []) + ForRegion(c[1..][1..], region);
  }
}
