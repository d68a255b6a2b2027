/** Latest-update helpers of the chatbot (app/chatbot/api/utils.ts): the headline extractor for
    RSS/Atom/HTML text, the per-tag source table, and the dedupe/cap/default tail of
    `fetchLatestDisasterUpdates`. The fetches themselves are not modelled; the tips they
    collect are an input. */
module Updates {
  import opened Wrappers
  import opened Text
  import opened Seqs

  /** One match of the case-insensitive title-tag pattern: the captured text and the index just
      past the closing tag. */
  datatype TitleMatch = TitleMatch(content: string, end: nat)

  /** The first index at or after `from` holding `c`. */
  function IndexOf(s: string, c: char, from: nat): (r: Option<nat>)
    ensures r.Some? ==> from <= r.value < |s| && s[r.value] == c &&
                        forall k :: from <= k < r.value ==> s[k] != c
    ensures r.None? ==> forall k :: from <= k < |s| ==> s[k] != c
    decreases |s| - from
  {
    if from >= |s| then None
    else if s[from] == c then Some(from)
    else IndexOf(s, c, from + 1)
  }

  /** The pattern anchored at `p`. The attribute part can only stop at the first `>` after
      `<title`, and the captured text only at the first `<` after that, so the match, when there is one,
      is unique; the tags compare case-insensitively. */
  function MatchAt(s: string, p: nat): (r: Option<TitleMatch>)
    ensures r.Some? ==> p + 6 < r.value.end <= |s| && r.value.content != []
  {
    if p + 6 <= |s| && Lower(s[p..p + 6]) == "<title" then
      match IndexOf(s, '>', p + 6)
      case None => None
      case Some(q) =>
        match IndexOf(s, '<', q + 1)
        case None => None
        case Some(r) =>
          if r > q + 1 && r + 8 <= |s| && Lower(s[r..r + 8]) == "</title>" then
            Some(TitleMatch(s[q + 1..r], r + 8))
          else None
    else None
  }

  /** The next regular-expression match from index `from`: the leftmost match starting at or after `from`. */
  function NextMatch(s: string, from: nat): (r: Option<TitleMatch>)
    ensures r.Some? ==> from + 6 < r.value.end <= |s|
    decreases |s| - from
  {
    if from >= |s| then None
    else match MatchAt(s, from)
      case Some(m) => Some(m)
      case None => NextMatch(s, from + 1)
  }

  /** The captured texts of all successive `exec` matches from `from`, in document order. */
  function AllTitles(s: string, from: nat): seq<string>
    decreases |s| - from
  {
    match NextMatch(s, from)
    case None => []
    case Some(m) => [m.content] + AllTitles(s, m.end)
  }

  /** Every title trimmed. */
  function TrimAll(ts: seq<string>): (r: seq<string>)
    ensures |r| == |ts| && forall i :: 0 <= i < |ts| ==> r[i] == Trim(ts[i])
  {
    seq(|ts|, i requires 0 <= i < |ts| => Trim(ts[i]))
  }

  /** The push rule: each non-empty string the first
      time it appears. */
  function Distinct(ts: seq<string>): seq<string>
  {
    if ts == [] then []
    else
      var prev := Distinct(ts[..|ts| - 1]);
      var t := ts[|ts| - 1];
      if t != "" && t !in prev then prev + [t] else prev
  }

  /** The kept strings are exactly the non-empty strings of the input, each once. */
  lemma {:induction false} DistinctMeaning(ts: seq<string>)
    ensures forall t :: t in Distinct(ts) <==> t in ts && t != ""
    ensures forall i, j :: 0 <= i < j < |Distinct(ts)| ==> Distinct(ts)[i] != Distinct(ts)[j]
    ensures |Distinct(ts)| <= |ts|
  {
    if ts != [] {
      var init := ts[..|ts| - 1];
      DistinctMeaning(init);
      assert ts == init + [ts[|ts| - 1]];
    }
  }

  /** Collecting from a prefix gives a prefix of collecting from the whole, so the order is
      that of first occurrence. */
  lemma {:induction false} DistinctPrefix(ts: seq<string>, n: nat)
    requires n <= |ts|
    ensures |Distinct(ts[..n])| <= |Distinct(ts)| && Distinct(ts)[..|Distinct(ts[..n])|] == Distinct(ts[..n])
    decreases |ts| - n
  {
    if n < |ts| {
      var init := ts[..|ts| - 1];
      DistinctPrefix(init, n);
      assert init[..n] == ts[..n];
    } else {
      assert ts[..n] == ts;
    }
  }

  function Max0(n: int): nat {
    if n < 0 then 0 else n
  }

  lemma AppendAssoc<T>(a: seq<T>, b: seq<T>, c: seq<T>)
    ensures a + (b + c) == (a + b) + c
  {
  }

  /** One more match extends the collected titles by the push rule. */
  lemma DistinctTrimStep(consumed: seq<string>, c: string)
    ensures var t := Trim(c); var prev := Distinct(TrimAll(consumed));
      Distinct(TrimAll(consumed + [c])) == if t != "" && t !in prev then prev + [t] else prev
  {
    var next := consumed + [c];
    var tn := TrimAll(next);
    assert tn[..|consumed|] == TrimAll(consumed);
    assert tn[|tn| - 1] == Trim(c);
  }

  /** Once `limit` titles are held, they are the first `limit` of the whole collection. */
  lemma StoppedAtLimit(all: seq<string>, consumed: seq<string>, limit: nat)
    requires |consumed| <= |all| && all[..|consumed|] == consumed
    requires |Distinct(TrimAll(consumed))| == limit
    ensures Take(Distinct(TrimAll(all)), limit) == Distinct(TrimAll(consumed))
  {
    var n := |consumed|;
    assert TrimAll(all)[..n] == TrimAll(consumed);
    DistinctPrefix(TrimAll(all), n);
  }

  /** `extractTitlesFromXml(text, limit)`: the `exec` loop pushes each trimmed, non-empty, new
      title and stops once `limit` titles are held. */
  method ExtractTitlesFromXml(text: string, limit: int) returns (titles: seq<string>)
    ensures titles == Take(Distinct(TrimAll(AllTitles(text, 0))), Max0(limit))
  {
    titles := [];
    var pos := 0;
    ghost var consumed: seq<string> := [];
    ghost var all := AllTitles(text, 0);
    while true
      invariant pos <= |text|
      invariant all == consumed + AllTitles(text, pos)
      invariant titles == Distinct(TrimAll(consumed))
      invariant |titles| <= Max0(limit)
      decreases |text| - pos
    {
      var m := NextMatch(text, pos);
      if m.None? || |titles| >= limit {
        break;
      }
      var c := m.value.content;
      var t := Trim(c);
      DistinctTrimStep(consumed, c);
      if t != "" && t !in titles {
        titles := titles + [t];
      }
      assert AllTitles(text, pos) == [c] + AllTitles(text, m.value.end);
      AppendAssoc(consumed, [c], AllTitles(text, m.value.end));
      consumed := consumed + [c];
      pos := m.value.end;
    }
    if NextMatch(text, pos).None? {
      assert all == consumed;
      DistinctMeaning(TrimAll(consumed));
    } else {
      assert (consumed + AllTitles(text, pos))[..|consumed|] == consumed;
      StoppedAtLimit(all, consumed, Max0(limit));
    }
  }

  /** The extracted titles are at most `limit`, trimmed, non-empty and pairwise distinct, and
      every one of them is the trimmed text of some match. */
  lemma ExtractedTitles(text: string, limit: int)
    ensures var r := Take(Distinct(TrimAll(AllTitles(text, 0))), Max0(limit));
      |r| <= Max0(limit) &&
      (forall i :: 0 <= i < |r| ==> r[i] != "" && r[i] in TrimAll(AllTitles(text, 0))) &&
      (forall i, j :: 0 <= i < j < |r| ==> r[i] != r[j])
  {
    TakeDistinct(TrimAll(AllTitles(text, 0)), Max0(limit));
  }

  lemma TakeDistinct(ts: seq<string>, n: nat)
    ensures var r := Take(Distinct(ts), n);
      |r| <= n &&
      (forall i :: 0 <= i < |r| ==> r[i] != "" && r[i] in ts) &&
      (forall i, j :: 0 <= i < j < |r| ==> r[i] != r[j])
  {
    var d := Distinct(ts);
    DistinctMeaning(ts);
    var r := Take(d, n);
    assert forall i :: 0 <= i < |r| ==> r[i] == d[i];
  }

  /** A closing tag in upper case still ends a title. */
  lemma CaseInsensitiveTags()
    ensures MatchAt("<TITLE>Flood</Title>", 0) == Some(TitleMatch("Flood", 20))
  {
    var s := "<TITLE>Flood</Title>";
    LowerPointwise(s[0..6], "<title");
    LowerPointwise(s[12..20], "</title>");
    assert s[7..12] == "Flood";
    assert s[6] == '>' && s[12] == '<';
    assert forall k :: 7 <= k < 12 ==> s[k] != '<';
    assert IndexOf(s, '>', 6) == Some(6);
    assert IndexOf(s, '<', 7) == Some(12);
  }

  /** The source table `SOURCES`. */
  const Sources: map<string, seq<string>> := map[
    "earthquake" := ["https://earthquake.usgs.gov/earthquakes/feed/v1.0/summary/significant_week.geojson",
                     "https://api.reliefweb.int/v1/disasters?appname=apidoc&filter[type]=earthquake"],
    "flood" := ["https://api.reliefweb.int/v1/disasters?appname=apidoc&filter[type]=flood",
                "https://api.weather.gov/alerts/active?event=Flood"],
    "hurricane_cyclone_typhoon" := ["https://api.weather.gov/alerts/active?event=Hurricane",
                                    "https://rss.weather.gov.hk/rss/SeveralWeather.xml"],
    "wildfire" := ["https://api.reliefweb.int/v1/disasters?appname=apidoc&filter[type]=wildfire",
                   "https://api.weather.gov/alerts/active?event=Fire"],
    "tsunami" := ["https://api.weather.gov/alerts/active?event=Tsunami",
                  "https://api.reliefweb.int/v1/disasters?appname=apidoc&filter[type]=tsunami"],
    "general" := ["https://api.reliefweb.int/v1/disasters?appname=apidoc&limit=5"]
  ]

  /** The feeds of the tag, or the general feeds for an unknown tag. */
  function SourcesFor(tag: string): (r: seq<string>)
    ensures tag !in Sources ==> r == Sources["general"]
    ensures tag in Sources ==> r == Sources[tag]
    ensures |r| >= 1
  {
    if tag in Sources then Sources[tag] else Sources["general"]
  }

  /** A tag without an entry of its own, such as `greeting`, uses the general source. */
  lemma UnknownTagIsGeneral()
    ensures SourcesFor("greeting") == ["https://api.reliefweb.int/v1/disasters?appname=apidoc&limit=5"]
  {
  }

  const FixedTips: seq<string> := [
    "Remember to stay informed through local news and weather services",
    "Keep emergency contacts handy",
    "Have an emergency kit ready with essentials"
  ]

  /** The end of `fetchLatestDisasterUpdates`: the three fixed tips when nothing was collected,
      else the loop that keeps each non-empty new tip and breaks at five. */
  method FinishUpdates(tips: seq<string>) returns (out: seq<string>)
    ensures tips == [] ==> out == FixedTips
    ensures tips != [] ==> out == Take(Distinct(tips), 5)
  {
    if |tips| == 0 {
      return FixedTips;
    }
    out := [];
    var i := 0;
    while i < |tips|
      invariant 0 <= i <= |tips|
      invariant out == Distinct(tips[..i])
      invariant |out| < 5
    {
      assert tips[..i + 1][..i] == tips[..i];
      if tips[i] != "" && tips[i] !in out {
        out := out + [tips[i]];
      }
      i := i + 1;
      if |out| >= 5 {
        DistinctPrefix(tips, i);
        return;
      }
    }
    assert tips[..i] == tips;
    DistinctMeaning(tips);
  }

  /** The updates are never empty once tips were collected that are not all empty; the result
      holds at most five distinct non-empty tips, each one collected. */
  lemma FinishedUpdates(tips: seq<string>)
    ensures var r := Take(Distinct(tips), 5);
      |r| <= 5 && (forall i :: 0 <= i < |r| ==> r[i] != "" && r[i] in tips) &&
      (forall i, j :: 0 <= i < j < |r| ==> r[i] != r[j]) &&
      ((exists k :: 0 <= k < |tips| && tips[k] != "") ==> r != [])
  {
    DistinctMeaning(tips);
    var d := Distinct(tips);
    var r := Take(d, 5);
    assert forall i :: 0 <= i < |r| ==> r[i] == d[i];
    if exists k :: 0 <= k < |tips| && tips[k] != "" {
      var k :| 0 <= k < |tips| && tips[k] != "";
      assert tips[k] in d;
    }
  }
}
