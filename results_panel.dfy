/** The chat widget's result rendering: HTML escaping, six-per-page result lists with
    Prev/Next buttons, and the five-line incident summary posted as a chat message. */
module ResultsPanel {
  import opened Wrappers
  import opened Text
  import opened Seqs

  // ---------------------------------------------------------------- escaping

  /** One global `replace` of the character `c` by `rep`. */
  function ReplaceChar(s: string, c: char, rep: string): string {
    if s == [] then [] else (if s[0] == c then rep else [s[0]]) + ReplaceChar(s[1..], c, rep)
  }

  /** `&` first, then `<`, then `>`, each over the result of the previous pass. */
  function EscapeHtml(s: string): string {
    ReplaceChar(ReplaceChar(ReplaceChar(s, '&', "&amp;"), '<', "&lt;"), '>', "&gt;")
  }

  /** What each input character becomes. */
  function EscapeChar(c: char): string {
    if c == '&' then "&amp;" else if c == '<' then "&lt;" else if c == '>' then "&gt;" else [c]
  }

  /** Escaping character by character, independently of the others. */
  function EscapeEach(s: string): string {
    if s == [] then [] else EscapeChar(s[0]) + EscapeEach(s[1..])
  }

  lemma {:induction false} ReplaceAppend(a: string, b: string, c: char, rep: string)
    ensures ReplaceChar(a + b, c, rep) == ReplaceChar(a, c, rep) + ReplaceChar(b, c, rep)
  {
    if a != [] {
      assert (a + b)[1..] == a[1..] + b;
      ReplaceAppend(a[1..], b, c, rep);
    } else {
      assert a + b == b;
    }
  }

  lemma {:induction false} ReplaceAbsent(s: string, c: char, rep: string)
    requires forall i :: 0 <= i < |s| ==> s[i] != c
    ensures ReplaceChar(s, c, rep) == s
  {
    if s != [] {
      ReplaceAbsent(s[1..], c, rep);
    }
  }

  lemma ReplaceSingle(x: char, c: char, rep: string)
    ensures ReplaceChar([x], c, rep) == if x == c then rep else [x]
  {
    assert [x][1..] == [];
  }

  /** The three passes applied to one character give its escape. */
  lemma EscapeHtmlOneChar(x: char)
    ensures EscapeHtml([x]) == EscapeChar(x)
  {
    ReplaceSingle(x, '&', "&amp;");
    if x == '&' {
      ReplaceAbsent("&amp;", '<', "&lt;");
      ReplaceAbsent("&amp;", '>', "&gt;");
    } else {
      ReplaceSingle(x, '<', "&lt;");
      if x == '<' {
        ReplaceAbsent("&lt;", '>', "&gt;");
      } else {
        ReplaceSingle(x, '>', "&gt;");
      }
    }
  }

  /** Replacing `&` first means no entity is escaped twice: the three passes equal the
      character-by-character escape. */
  lemma {:induction false} EscapeHtmlPerChar(s: string)
    ensures EscapeHtml(s) == EscapeEach(s)
  {
    if s != [] {
      var x, rest := s[0], s[1..];
      assert s == [x] + rest;
      ReplaceAppend([x], rest, '&', "&amp;");
      var a1, b1 := ReplaceChar([x], '&', "&amp;"), ReplaceChar(rest, '&', "&amp;");
      ReplaceAppend(a1, b1, '<', "&lt;");
      var a2, b2 := ReplaceChar(a1, '<', "&lt;"), ReplaceChar(b1, '<', "&lt;");
      ReplaceAppend(a2, b2, '>', "&gt;");
      EscapeHtmlOneChar(x);
      EscapeHtmlPerChar(rest);
    }
  }

  /** The escaped text contains no `<` and no `>`. */
  lemma {:induction false} EscapedHasNoAngleBrackets(s: string)
    ensures forall i :: 0 <= i < |EscapeHtml(s)| ==> EscapeHtml(s)[i] != '<' && EscapeHtml(s)[i] != '>'
  {
    EscapeHtmlPerChar(s);
    EachHasNoAngleBrackets(s);
  }

  lemma {:induction false} EachHasNoAngleBrackets(s: string)
    ensures forall i :: 0 <= i < |EscapeEach(s)| ==> EscapeEach(s)[i] != '<' && EscapeEach(s)[i] != '>'
  {
    if s != [] {
      EachHasNoAngleBrackets(s[1..]);
      var e := EscapeChar(s[0]);
      assert forall i :: 0 <= i < |e| ==> e[i] != '<' && e[i] != '>';
    }
  }

  /** Reading the entities back. */
  function Unescape(t: string): string
    decreases |t|
  {
    if t == [] then []
    else if |t| >= 5 && t[..5] == "&amp;" then "&" + Unescape(t[5..])
    else if |t| >= 4 && t[..4] == "&lt;" then "<" + Unescape(t[4..])
    else if |t| >= 4 && t[..4] == "&gt;" then ">" + Unescape(t[4..])
    else [t[0]] + Unescape(t[1..])
  }

  /** Escaping loses nothing: the original text can be read back from the escaped one. */
  lemma {:induction false} UnescapeEscape(s: string)
    ensures Unescape(EscapeHtml(s)) == s
  {
    EscapeHtmlPerChar(s);
    UnescapeEach(s);
  }

  lemma {:induction false} UnescapeEach(s: string)
    ensures Unescape(EscapeEach(s)) == s
  {
    if s != [] {
      var x, rest := s[0], s[1..];
      var e, t := EscapeChar(x), EscapeEach(s[1..]);
      assert EscapeEach(s) == e + t;
      if x == '&' {
        assert (e + t)[..5] == "&amp;" && (e + t)[5..] == t;
      } else if x == '<' {
        assert (e + t)[..4] == "&lt;" && (e + t)[4..] == t;
        assert (e + t)[1] != "&amp;"[1];
      } else if x == '>' {
        assert (e + t)[..4] == "&gt;" && (e + t)[4..] == t;
        assert (e + t)[1] != "&amp;"[1];
        assert (e + t)[1] != "&lt;"[1];
      } else {
        assert (e + t)[0] == x && (e + t)[1..] == t;
      }
      UnescapeEach(rest);
      assert s == [x] + rest;
    }
  }

  // ---------------------------------------------------------------- paging

  const PageSize: nat := 6

  /** The items of page `p`; both ends are clamped to the length. */
  function PageSlice<T>(items: seq<T>, p: nat): (r: seq<T>)
    ensures |r| <= PageSize
    ensures p * PageSize < |items| ==> r != []
    ensures p * PageSize >= |items| ==> r == []
  {
    var start := if p * PageSize <= |items| then p * PageSize else |items|;
    var end := if (p + 1) * PageSize <= |items| then (p + 1) * PageSize else |items|;
    items[start..end]
  }

  /** The page label's total: pages of six, rounded up, and at least one. */
  function PageCount(n: nat): (r: nat)
    ensures r >= 1
    ensures (r - 1) * PageSize < n || (r == 1 && n == 0)
    ensures n <= r * PageSize
  {
    if n == 0 then 1 else (n + PageSize - 1) / PageSize
  }

  /** The last page the buttons can reach. */
  function LastPage(n: nat): nat {
    PageCount(n) - 1
  }

  /** The pages 0 .. k-1 read one after the other. */
  function Pages<T>(items: seq<T>, k: nat): seq<T> {
    if k == 0 then [] else Pages(items, k - 1) + PageSlice(items, k - 1)
  }

  /** The first `k` pages hold exactly the first `min(6k, n)` items. */
  lemma {:induction false} PagesArePrefix<T>(items: seq<T>, k: nat)
    ensures Pages(items, k) == items[..if k * PageSize <= |items| then k * PageSize else |items|]
  {
    if k > 0 {
      PagesArePrefix(items, k - 1);
    }
  }

  /** Paging through every labelled page shows every item once, in order. */
  lemma AllPagesShowAllItems<T>(items: seq<T>)
    ensures Pages(items, PageCount(|items|)) == items
  {
    PagesArePrefix(items, PageCount(|items|));
  }

  /** Next is disabled exactly on the last page. */
  lemma NextDisabledOnLastPage(p: nat, n: nat)
    ensures (p + 1) * PageSize >= n <==> p >= LastPage(n)
  {
  }

  /** The page index of one list; a click on a disabled button does nothing. */
  class Pager {
    var page: nat
    const count: nat

    ghost predicate Valid()
      reads this
    {
      page <= LastPage(count)
    }

    constructor (count: nat)
      ensures this.count == count && page == 0
      ensures Valid()
    {
      this.count := count;
      page := 0;
    }

    /** Prev is disabled on the first page. */
    function PrevDisabled(): bool
      reads this
    {
      page == 0
    }

    /** Next is disabled once the next page would start at or past the end of the list. */
    function NextDisabled(): bool
      reads this
    {
      (page + 1) * PageSize >= count
    }

    function Label(): (r: (nat, nat))
      reads this
      requires Valid()
      ensures 1 <= r.0 <= r.1
    {
      (page + 1, PageCount(count))
    }

    method Prev()
      requires Valid()
      modifies this
      ensures Valid()
      ensures page == if old(PrevDisabled()) then old(page) else old(page) - 1
    {
      if page != 0 {
        page := page - 1;
      }
    }

    method Next()
      requires Valid()
      modifies this
      ensures Valid()
      ensures page == if old(NextDisabled()) then old(page) else old(page) + 1
    {
      if (page + 1) * PageSize < count {
        NextDisabledOnLastPage(page, count);
        page := page + 1;
      }
    }
  }

  /** Every page the buttons can reach shows at least one item of a non-empty list. */
  lemma ReachablePagesNonEmpty<T>(items: seq<T>, p: nat)
    requires items != [] && p <= LastPage(|items|)
    ensures PageSlice(items, p) != []
  {
  }

  // ---------------------------------------------------------------- incident summary

  /** A reported incident; a field the report does not carry is None. */
  datatype Incident = Incident(title: Option<string>, kind: Option<string>, distance: Option<string>)

  /** A field as a template literal prints it: an absent one prints as `undefined`. */
  function Interpolated(v: Option<string>): string {
    if v.None? then "undefined" else v.value
  }

  /** The number, a dot, the title (or the type when the title is falsy), a space, and the
      distance in brackets when it is truthy. */
  function SummaryLine(number: nat, d: Incident): (r: string)
    ensures |r| > |NatToString(number)| + 2 && r[..|NatToString(number)| + 2] == NatToString(number) + ". "
  {
    var head := NatToString(number) + ". ";
    var rest := (if d.title.Some? && d.title.value != "" then d.title.value else Interpolated(d.kind)) + " "
                + (if d.distance.Some? then "(" + d.distance.value + " km)" else "");
    assert (head + rest)[..|head|] == head;
    head + rest
  }

  /** An incident with neither a title nor a type is listed as `undefined`. */
  lemma UnnamedIncident(distance: string)
    ensures SummaryLine(1, Incident(None, None, None)) == "1. undefined "
    ensures SummaryLine(1, Incident(Some(""), None, Some(distance))) == "1. undefined (" + distance + " km)"
  {
  }

  /** The lines for the first five incidents, numbered from 1. */
  function SummaryLines(list: seq<Incident>): (r: seq<string>)
    ensures |r| == if |list| < 5 then |list| else 5
    ensures forall i :: 0 <= i < |r| ==> r[i] == SummaryLine(i + 1, list[i])
  {
    var top := Take(list, 5);
    seq(|top|, i requires 0 <= i < |top| => SummaryLine(i + 1, top[i]))
  }

  /** The chat message posted after the nearby-incidents call. */
  function IncidentSummary(list: seq<Incident>): (r: string)
    ensures list == [] <==> r == "No nearby incidents found."
  {
    if list == [] then "No nearby incidents found."
    else
      var r := "Nearby incidents:\n" + Join(SummaryLines(list), "\n");
      assert r[1] != "No nearby incidents found."[1];
      r
  }
}
