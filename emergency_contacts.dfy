/** The regional emergency-contact directory: the fixed national and Punjab lists, the
    priority-ordered lookup by region and the localized contact names
    (lib/regional-emergency-contacts.ts). */
module EmergencyContacts {
  import opened StableSort

  datatype Priority = High | Medium | Low

  datatype Contact = Contact(id: string, name: string, number: string, kind: string,
                             available: string, region: string, priority: Priority)

  datatype Language = En | Hi | Pa

  const National: seq<Contact> := [
    Contact("ndma", "National Disaster Management Authority", "1078", "National Emergency", "24/7", "national", High),
    Contact("police", "Police Helpline", "100", "Police Emergency", "24/7", "national", High),
    Contact("fire", "Fire Brigade", "101", "Fire Emergency", "24/7", "national", High),
    Contact("ambulance", "Ambulance Service", "108", "Medical Emergency", "24/7", "national", High)
  ]

  const Punjab: seq<Contact> := [
    Contact("punjab-disaster", "Punjab State Disaster Management Authority", "0172-2704090",
            "State Disaster Management", "24/7", "punjab", High),
    Contact("punjab-police", "Punjab Police Control Room", "0172-2700000", "State Police", "24/7", "punjab", High),
    Contact("punjab-flood", "Punjab Flood Control Room", "0172-2701234", "Flood Emergency",
            "Monsoon Season 24/7", "punjab", High),
    Contact("chandigarh-admin", "Chandigarh Administration Emergency", "0172-2740000",
            "Regional Administration", "24/7", "punjab", Medium),
    Contact("punjab-health", "Punjab Health Emergency", "104", "Health Emergency", "24/7", "punjab", Medium)
  ]

  /** `priorityOrder`: high 0, medium 1, low 2. */
  function Rank(p: Priority): int {
    match p
    case High => 0
    case Medium => 1
    case Low => 2
  }

  /** The comparator subtracts ranks, so it sorts ascending by rank, i.e. descending by minus the rank. */
  function PriorityKey(c: Contact): int {
    -Rank(c.priority)
  }

  /** The contacts the directory gathers before sorting: a copy of the national list,
      extended with the Punjab list for region `punjab`. */
  function Gathered(region: string): seq<Contact> {
    National + (if region == "punjab" then Punjab else [])
  }

  /** Both fixed lists already list high before medium before low. */
  lemma GatheredSorted(region: string)
    ensures SortedDesc(Gathered(region), PriorityKey)
  {
    var g := Gathered(region);
    forall i, j | 0 <= i < j < |g| ensures PriorityKey(g[i]) >= PriorityKey(g[j]) {
      if region == "punjab" {
        assert g == National + Punjab;
        assert j < 7 ==> g[i].priority == High;
      }
    }
  }

  /** `getEmergencyContacts`: copy, conditionally extend, then sort by priority. Because the sort
      is stable and the gathered list is already in priority order, the result is exactly the
      national contacts, followed by the Punjab ones for `punjab`. */
  method GetEmergencyContacts(region: string) returns (contacts: seq<Contact>)
    ensures contacts == SortDesc(Gathered(region), PriorityKey)
    ensures region == "punjab" ==> contacts == National + Punjab && |contacts| == 9
    ensures region != "punjab" ==> contacts == National && |contacts| == 4
    ensures forall i, j :: 0 <= i < j < |contacts| ==> Rank(contacts[i].priority) <= Rank(contacts[j].priority)
  {
    contacts := National;
    if region == "punjab" {
      contacts := contacts + Punjab;
    }
    assert contacts == Gathered(region);
    GatheredSorted(region);
    SortDescOfSorted(contacts, PriorityKey);
    contacts := SortDesc(contacts, PriorityKey);
  }

  /** The translated forms of one contact name. */
  datatype Names = Names(en: string, hi: string, pa: string)

  function Pick(n: Names, language: Language): string {
    match language
    case En => n.en
    case Hi => n.hi
    case Pa => n.pa
  }

  const Translations: map<string, Names> := map[
    "National Disaster Management Authority" :=
      Names("National Disaster Management Authority", "राष्ट्रीय आपदा प्रबंधन प्राधिकरण", "ਰਾਸ਼ਟਰੀ ਆਫ਼ਤ ਪ੍ਰਬੰਧਨ ਅਥਾਰਟੀ"),
    "Police Helpline" := Names("Police Helpline", "पुलिस हेल्पलाइन", "ਪੁਲਿਸ ਹੈਲਪਲਾਈਨ"),
    "Fire Brigade" := Names("Fire Brigade", "फायर ब्रिगेड", "ਫਾਇਰ ਬ੍ਰਿਗੇਡ"),
    "Ambulance Service" := Names("Ambulance Service", "एम्बुलेंस सेवा", "ਐਂਬੂਲੈਂਸ ਸੇਵਾ"),
    "Punjab State Disaster Management Authority" :=
      Names("Punjab State Disaster Management Authority", "पंजाब राज्य आपदा प्रबंधन प्राधिकरण", "ਪੰਜਾਬ ਰਾਜ ਆਫ਼ਤ ਪ੍ਰਬੰਧਨ ਅਥਾਰਟੀ"),
    "Punjab Police Control Room" := Names("Punjab Police Control Room", "पंजाब पुलिस कंट्रोल रूम", "ਪੰਜਾਬ ਪੁਲਿਸ ਕੰਟਰੋਲ ਰੂਮ"),
    "Punjab Flood Control Room" := Names("Punjab Flood Control Room", "पंजाब बाढ़ नियंत्रण कक्ष", "ਪੰਜਾਬ ਹੜ੍ਹ ਕੰਟਰੋਲ ਰੂਮ")
  ]

  /** The translation of the name in the language, or the name itself when there is none or it is empty. */
  function GetLocalizedContactName(contact: Contact, language: Language): (r: string)
    ensures contact.name in Translations && Pick(Translations[contact.name], language) != "" ==>
      r == Pick(Translations[contact.name], language)
    ensures contact.name !in Translations ==> r == contact.name
    ensures language == En ==> r == contact.name
  {
    if contact.name in Translations && Pick(Translations[contact.name], language) != "" then
      Pick(Translations[contact.name], language)
    else contact.name
  }

  /** The two medium-priority Punjab contacts have no translations, so every language shows
      their own name. */
  lemma UntranslatedContacts(language: Language)
    ensures GetLocalizedContactName(Punjab[3], language) == Punjab[3].name
    ensures GetLocalizedContactName(Punjab[4], language) == Punjab[4].name
  {
  }

  /** Every national contact has a translation in every language. */
  lemma NationalTranslated(i: nat, language: Language)
    requires i < |National|
    ensures GetLocalizedContactName(National[i], language) == Pick(Translations[National[i].name], language)
  {
  }
}
