/** The chatbot's keyword fallback, used when the language model cannot be reached: the
    first-match keyword rules, the canned-response builder and the reply assembly, in the
    Next.js handler (app/chatbot/api/handle_message/route.ts) and the Flask app
    (chatbot/app.py). Fetching updates is a parameter: the tips it would return are inputs. */
module FallbackIntent {
  import opened Wrappers
  import opened Text
  import opened Seqs

  datatype Rule = Rule(tag: string, keywords: seq<string>)

  /** The keyword rules, in declaration order (identical in both handlers). */
  const Rules: seq<Rule> := [
    Rule("greeting", ["hello", "hi", "hey", "good morning", "good evening"]),
    Rule("goodbye", ["bye", "goodbye", "see you", "take care"]),
    Rule("thanks", ["thanks", "thank you", "thx"]),
    Rule("earthquake", ["earthquake", "tremor", "shake", "shaking"]),
    Rule("flood", ["flood", "flooding", "inundation", "heavy rain", "river overflow"]),
    Rule("hurricane_cyclone_typhoon", ["cyclone", "hurricane", "typhoon", "storm surge"]),
    Rule("wildfire", ["fire", "wildfire", "bushfire", "forest fire"]),
    Rule("tsunami", ["tsunami", "sea wave", "tidal wave"]),
    Rule("preparedness", ["prepare", "preparation", "kit", "emergency kit", "evacuate", "evacuation"])
  ]

  /** Some keyword of `rule` occurs in `text`. */
  predicate RuleMatches(rule: Rule, text: string) {
    exists k :: 0 <= k < |rule.keywords| && Contains(text, rule.keywords[k])
  }

  /** The tag of the first rule with a keyword occurring in `text`. */
  function FirstTag(rules: seq<Rule>, text: string): Option<string>
  {
    if rules == [] then None
    else if RuleMatches(rules[0], text) then Some(rules[0].tag)
    else FirstTag(rules[1..], text)
  }

  /** No tag exactly when no rule matches; otherwise the tag is that of a matching rule with no
      matching rule before it. */
  lemma {:induction false} FirstTagMeaning(rules: seq<Rule>, text: string)
    ensures FirstTag(rules, text).None? <==> forall i :: 0 <= i < |rules| ==> !RuleMatches(rules[i], text)
    ensures FirstTag(rules, text).Some? ==>
              exists i :: (0 <= i < |rules| && rules[i].tag == FirstTag(rules, text).value
                           && RuleMatches(rules[i], text)
                           && forall k :: 0 <= k < i ==> !RuleMatches(rules[k], text))
  {
    if rules != [] && !RuleMatches(rules[0], text) {
      var rest := rules[1..];
      FirstTagMeaning(rest, text);
      assert forall i :: 1 <= i < |rules| ==> rules[i] == rest[i - 1];
      var r := FirstTag(rest, text);
      if r.Some? {
        var j :| 0 <= j < |rest| && rest[j].tag == r.value && RuleMatches(rest[j], text) &&
          forall k :: 0 <= k < j ==> !RuleMatches(rest[k], text);
        assert rules[j + 1] == rest[j];
      }
    } else if rules != [] {
      assert rules[0].tag == FirstTag(rules, text).value;
    }
  }

  /** The nested scan: the outer loop walks the rules, the inner one a rule's keywords, and the
      first keyword found returns its rule's tag. */
  method ScanRules(rules: seq<Rule>, text: string) returns (tag: Option<string>)
    ensures tag == FirstTag(rules, text)
  {
    var i := 0;
    while i < |rules|
      invariant 0 <= i <= |rules|
      invariant FirstTag(rules, text) == FirstTag(rules[i..], text)
    {
      FirstTagStep(rules, i, text);
      var keywords := rules[i].keywords;
      var j := 0;
      while j < |keywords|
        invariant 0 <= j <= |keywords|
        invariant forall l :: 0 <= l < j ==> !Contains(text, keywords[l])
      {
        if Contains(text, keywords[j]) {
          return Some(rules[i].tag);
        }
        j := j + 1;
      }
      i := i + 1;
    }
    return None;
  }

  /** One step of the scan: the rule at `i` either matches or hands over to the rest. */
  lemma FirstTagStep(rules: seq<Rule>, i: nat, text: string)
    requires i < |rules|
    ensures FirstTag(rules[i..], text)
            == if RuleMatches(rules[i], text) then Some(rules[i].tag) else FirstTag(rules[i + 1..], text)
  {
    assert rules[i..][0] == rules[i];
    assert rules[i..][1..] == rules[i + 1..];
  }

  /** `fallbackIntentForMessage` in the Next.js handler, on the already lowercased text. */
  method FallbackIntentForMessage(text: string) returns (tag: Option<string>)
    ensures tag == FirstTag(Rules, text)
  {
    tag := ScanRules(Rules, text);
  }

  /** `_fallback_intent_for_message` in the Flask app, and the Next.js handler's own
      read, lower-case, scan sequence: a missing message reads as empty,
      and the message is lowercased before the rule scan. */
  method FallbackIntentForRawMessage(message: Option<string>) returns (tag: Option<string>)
    ensures tag == FirstTag(Rules, Lower(message.GetOr("")))
  {
    tag := FallbackIntentForMessage(Lower(message.GetOr("")));
  }

  /** Earlier rules win even over more specific later ones: "hi" occurs inside "this", so
      "this flood" is a greeting. */
  lemma ThisFloodIsGreeting()
    ensures FirstTag(Rules, "this flood") == Some("greeting")
  {
    assert OccursAt("this flood", "hi", 1);
    assert Rules[0].keywords[1] == "hi";
    assert RuleMatches(Rules[0], "this flood");
  }

  /** An intent of the intents file; `responses` is None when it is not an array. */
  datatype Intent = Intent(tag: Option<string>, responses: Option<seq<string>>)

  const Apology: string :=
    "I'm sorry — I couldn't access the model right now. I can provide general preparedness tips or latest updates."

  /** The first intent with the tag. */
  function FindIntent(intents: seq<Intent>, tag: string): (r: Option<Intent>)
    ensures r.None? <==> forall i :: 0 <= i < |intents| ==> intents[i].tag != Some(tag)
    ensures r.Some? ==> exists i :: (0 <= i < |intents| && intents[i] == r.value && r.value.tag == Some(tag) &&
                                    forall k :: 0 <= k < i ==> intents[k].tag != Some(tag))
  {
    if intents == [] then None
    else if intents[0].tag == Some(tag) then Some(intents[0])
    else
      var r := FindIntent(intents[1..], tag);
      assert forall i :: 1 <= i < |intents| ==> intents[i] == intents[1..][i - 1];
      if r.Some? then
        var j :| 0 <= j < |intents[1..]| && intents[1..][j] == r.value && r.value.tag == Some(tag) &&
          forall k :: 0 <= k < j ==> intents[1..][k].tag != Some(tag);
        assert intents[j + 1] == r.value;
        r
      else r
  }

  /** `buildFallbackResponse`: the first three responses of the first intent with the tag, one
      per line; the apology for a falsy tag, an unknown tag, or an intent whose responses are
      missing or empty. */
  function BuildFallbackResponse(intents: seq<Intent>, tag: Option<string>): (r: string)
    ensures (tag.None? || tag.value == "" || FindIntent(intents, tag.value).None?) ==> r == Apology
    ensures tag.Some? && tag.value != "" && FindIntent(intents, tag.value).Some? ==>
      var rs := FindIntent(intents, tag.value).value.responses;
      (rs.None? || rs.value == [] ==> r == Apology) &&
      (rs.Some? && rs.value != [] ==> r == Join(Take(rs.value, 3), "\n") && 1 <= |Take(rs.value, 3)| <= 3)
  {
    if tag.None? || tag.value == "" then Apology
    else match FindIntent(intents, tag.value)
      case None => Apology
      case Some(intent) =>
        if intent.responses.Some? && |intent.responses.value| > 0 then Join(Take(intent.responses.value, 3), "\n")
        else Apology
  }

  /** The responses `_build_fallback_response` samples from: those of the first intent with the
      tag and a non-empty response list; an intent with an empty list is skipped. */
  function PyResponsesFor(intents: seq<Intent>, tag: string): (r: Option<seq<string>>)
    ensures r.Some? ==>
      (r.value != [] && exists i :: 0 <= i < |intents| && intents[i].tag == Some(tag) && intents[i].responses == r)
    ensures r.None? <==> forall i :: 0 <= i < |intents| ==>
      intents[i].tag != Some(tag) || intents[i].responses.None? || intents[i].responses.value == []
  {
    if intents == [] then None
    else if intents[0].tag == Some(tag) && intents[0].responses.Some? && intents[0].responses.value != [] then
      intents[0].responses
    else
      assert forall i :: 1 <= i < |intents| ==> intents[i] == intents[1..][i - 1];
      PyResponsesFor(intents[1..], tag)
  }

  /** A random sample of k distinct positions below n. */
  predicate IsSample(picks: seq<nat>, n: nat, k: nat) {
    |picks| == k && (forall i :: 0 <= i < |picks| ==> picks[i] < n) &&
    forall i, j :: 0 <= i < j < |picks| ==> picks[i] != picks[j]
  }

  function Min(a: nat, b: nat): nat {
    if a <= b then a else b
  }

  /** `_build_fallback_response`: `picks` are the positions the random sample chose. */
  function PyBuildFallbackResponse(intents: seq<Intent>, tag: string, picks: seq<nat>): (r: string)
    requires PyResponsesFor(intents, tag).Some? ==>
      IsSample(picks, |PyResponsesFor(intents, tag).value|, Min(|PyResponsesFor(intents, tag).value|, 3))
    ensures PyResponsesFor(intents, tag).None? ==> r == Apology
    ensures PyResponsesFor(intents, tag).Some? ==>
      var rs := PyResponsesFor(intents, tag).value;
      1 <= |picks| <= 3 && r == Join(seq(|picks|, i requires 0 <= i < |picks| => rs[picks[i]]), "\n")
  {
    match PyResponsesFor(intents, tag)
    case None => Apology
    case Some(rs) => Join(seq(|picks|, i requires 0 <= i < |picks| => rs[picks[i]]), "\n")
  }

  /** The two builders agree when the first intent with the tag has responses and the sample
      happens to pick its first positions in order. */
  lemma BuildersAgree(intents: seq<Intent>, tag: string, picks: seq<nat>)
    requires tag != ""
    requires FindIntent(intents, tag).Some?
    requires FindIntent(intents, tag).value.responses.Some? && FindIntent(intents, tag).value.responses.value != []
    requires var n := |FindIntent(intents, tag).value.responses.value|;
      |picks| == Min(n, 3) && forall i :: 0 <= i < |picks| ==> picks[i] == i
    ensures PyResponsesFor(intents, tag) == FindIntent(intents, tag).value.responses
    ensures PyBuildFallbackResponse(intents, tag, picks) == BuildFallbackResponse(intents, Some(tag))
  {
    FirstResponsesAgree(intents, tag);
    var rs := FindIntent(intents, tag).value.responses.value;
    assert seq(|picks|, i requires 0 <= i < |picks| => rs[picks[i]]) == Take(rs, 3);
  }

  lemma {:induction false} FirstResponsesAgree(intents: seq<Intent>, tag: string)
    requires FindIntent(intents, tag).Some?
    requires FindIntent(intents, tag).value.responses.Some? && FindIntent(intents, tag).value.responses.value != []
    ensures PyResponsesFor(intents, tag) == FindIntent(intents, tag).value.responses
  {
    if intents[0].tag != Some(tag) {
      FirstResponsesAgree(intents[1..], tag);
    }
  }

  /** Each tip prefixed with its number from 1 and a dot. */
  function Numbered(tips: seq<string>): (r: seq<string>)
    ensures |r| == |tips|
    ensures forall i :: 0 <= i < |tips| ==> r[i] == NatToString(i + 1) + ". " + tips[i]
  {
    seq(|tips|, i requires 0 <= i < |tips| => NatToString(i + 1) + ". " + tips[i])
  }

  /** The block appended after a matched reply: nothing without tips, else at most three
      numbered tips. */
  function UpdatesBlock(tips: seq<string>): string {
    if tips == [] then "" else LatestUpdates(tips)
  }

  /** `'\n\nLATEST UPDATES:\n'` followed by the first three tips, numbered, one per line. */
  function LatestUpdates(tips: seq<string>): string {
    "\n\nLATEST UPDATES:\n" + Join(Numbered(Take(tips, 3)), "\n")
  }

  const DefaultTips: seq<string> := [
    "Stay tuned to local news and official alerts for your area.",
    "Prepare an emergency kit with water, food, and essential medicines.",
    "Identify safe locations and have an evacuation plan ready."
  ]

  /** The general reply when no keyword matches: five paragraphs separated by blank lines, the
      third listing the chosen tips (up to three fetched ones, or the defaults) numbered. */
  function GeneralReply(chosen: seq<string>): string {
    "I couldn't reach the ML model right now." + "\n\n" +
    "I can still help — here are a few useful options:" + "\n\n" +
    "1) Preparedness tips and recent updates:\n" + Join(Numbered(chosen), "\n") + "\n\n" +
    "2) Try re-sending your question in a moment, or ask a specific topic (for example: \"earthquake preparedness\")." + "\n\n" +
    "3) Share your location so I can look up nearby resources (hospitals, shelters, schools)."
  }

  /** Up to three fetched general tips, or the three defaults when none came back. */
  function ChosenTips(generalTips: seq<string>): (r: seq<string>)
    ensures 1 <= |r| <= 3
    ensures generalTips != [] ==> |r| <= |generalTips| && r == generalTips[..|r|]
    ensures generalTips == [] ==> r == DefaultTips
  {
    if generalTips != [] then Take(generalTips, 3) else DefaultTips
  }

  /** The local fallback of the Next.js handler (reached when the Flask proxy gives no usable
      body). `tagTips` is what fetching updates for the tag returned (None if it threw);
      `generalTips` is what fetching general updates returned. The status is always 200. */
  method HandleMessageFallback(message: Option<string>, intents: seq<Intent>,
                               tagTips: Option<seq<string>>, generalTips: seq<string>)
    returns (status: int, text: string)
    ensures status == 200
    ensures var tag := FirstTag(Rules, Lower(message.GetOr("")));
      (tag.Some? ==> text == BuildFallbackResponse(intents, tag) + UpdatesBlock(tagTips.GetOr([]))) &&
      (tag.None? ==> text == GeneralReply(ChosenTips(generalTips)))
  {
    var tag := FallbackIntentForRawMessage(message);
    if tag.Some? {
      var respText := BuildFallbackResponse(intents, tag);
      var tips := tagTips.GetOr([]);
      if |tips| > 0 {
        respText := respText + LatestUpdates(tips);
      }
      status, text := 200, respText;
      return;
    }
    var chosen := ChosenTips(generalTips);
    status, text := 200, GeneralReply(chosen);
  }

  /** At most three tips are ever listed after a matched reply, numbered 1, 2, 3. */
  lemma UpdatesBlockBound(tips: seq<string>)
    ensures tips != [] ==> var lines := Numbered(Take(tips, 3));
      UpdatesBlock(tips) == "\n\nLATEST UPDATES:\n" + Join(lines, "\n") &&
      1 <= |lines| <= 3 && lines[0] == "1. " + tips[0]
  {
    if tips != [] {
      assert Take(tips, 3)[0] == tips[0];
      assert NatToString(1) == "1";
    }
  }

  const PyGeneralHeader: string :=
    "I couldn't access the model right now, but here are some important tips and latest updates:\n\n"

  /** The Flask `handle_message` when the model module cannot be imported: a matched tag gives
      200 with the canned response and at most three numbered tips; otherwise 503 with every
      general tip numbered. `tagTips` is None when fetching updates raised. */
  method PyHandleMessageFallback(message: Option<string>, intents: seq<Intent>, picks: seq<nat>,
                                 tagTips: Option<seq<string>>, generalTips: seq<string>)
    returns (status: int, text: string)
    requires var tag := FirstTag(Rules, Lower(message.GetOr("")));
      tag.Some? && PyResponsesFor(intents, tag.value).Some? ==>
        var n := |PyResponsesFor(intents, tag.value).value|; IsSample(picks, n, Min(n, 3))
    ensures var tag := FirstTag(Rules, Lower(message.GetOr("")));
      (tag.Some? ==>
        (status == 200 && text == PyBuildFallbackResponse(intents, tag.value, picks) + UpdatesBlock(tagTips.GetOr([])))) &&
      (tag.None? ==> status == 503 && text == PyGeneralHeader + Join(Numbered(generalTips), "\n"))
  {
    var tag := FallbackIntentForRawMessage(message);
    if tag.Some? {
      var respText := PyBuildFallbackResponse(intents, tag.value, picks);
      if tagTips.Some? && |tagTips.value| > 0 {
        respText := respText + LatestUpdates(tagTips.value);
      }
      return 200, respText;
    }
    return 503, PyGeneralHeader + Join(Numbered(generalTips), "\n");
  }
}
