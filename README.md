# Suraksha Saathi — a Dafny model of the core

Suraksha Saathi is a disaster-preparedness learning platform. Students read learning modules and
take quizzes. They join drills and earn badges for passing every module, for drill counts, for
login streaks and for a high average. A leaderboard ranks users by total quiz score. Admins push
alerts, and a chatbot answers questions, looks up nearby incidents and points of interest, and
falls back to keyword rules when its language model is unavailable.

This project models that core in Dafny and proves what the code promises about it:

- **Stores** (`ProgressStore`, `DrillStore`, `UserStore`, `ServerDb`, `Alerts.AlertLog`) are
  classes over a `seq` field, one per JSON file. Their methods append or upsert, and their
  contracts give the whole new state.
- **Badge rules** (`Badges`, `BadgeLaws`): `NewBadges` is the specification of
  `checkAndAwardBadges`. The imperative `CheckAndAwardBadges` is proved against it. Lemmas give
  each rule as an if-and-only-if, freshness, no repeats, and that re-evaluating awards nothing.
- **Request handlers** (`Quiz`, `Auth`, `Drills`, `Stats`, `Catalogue`, `Leaderboard`): each
  rejection comes in source order, with nothing written on a rejection. On success exactly one
  record is written.
- **Leaderboard and contact ordering** (`StableSort`): the JavaScript sort is modelled as a stable
  sort by descending key. It is proved to be a sorted permutation that keeps ties in input order.
- **Chatbot** (`FallbackIntent`, `IntentMatch`, `Updates`, `NearbyDisasters`, `MapPois`,
  `TtlCache`, `ResultsPanel`, `JsonValues`): keyword rules with first-match semantics, the
  best-intent scan, headline extraction, the dedupe and time sort, the Overpass query builder,
  the POI extraction loop, the TTL cache, HTML escaping with its inverse, and result paging.
- **Regional data** (`EmergencyContacts`, `RegionalDisasters`): the fixed tables and their
  queries.

Both servers are modelled where the repository has two (Express under `api/` and `server.js`,
Next.js under `app/api/`). They share one model where they agree, and have separate members where
they differ.

Where the code and the written design disagree, the model follows the code:

- The `top-scorer` rule compares the mean of raw best scores (question counts) with 0.9. It does
  not use fractions of the quiz length. A user whose best score is at least 1 on every attempted
  module qualifies (`BadgeLaws.TopScorerIff`).
- Login writes `lastLogin`, but the statistics endpoint reports `lastLoginDate`. That field is
  never written by login, so it stays `''` for a user who only logged in.
- The badge list is an ordered list that grows by appending. It is not a set.
- No regional disaster entry has region `national`. Every region other than `punjab` sees an
  empty list (`RegionalDisasters.CatalogueByRegion`).
- The Express alert endpoint compares the header with the configured key strictly. With no key
  configured and no header sent, it accepts the request; the Next.js route does not
  (`Alerts.KeyChecksDiffer`).
- The Flask fallback answers 503 when no keyword matches. The Next.js fallback answers 200.

## Model

| member | source | states |
|---|---|---|
| Alerts.AlertLog.constructor | server/alertStore.js:36-42 | a missing alert file reads as the empty list |
| Alerts.AlertLog.SaveAlert | server/alertStore.js:64-74 | the alert is appended at the end and every earlier alert is unchanged |
| Alerts.KeyChecksDiffer | server.js:149-152 | the Next.js key check implies the Express one; they differ exactly when neither header nor key is present |
| Alerts.PostAlertExpress | server.js:148-164 | 403 on a key mismatch before fields are read; 400 on a missing field; otherwise exactly one alert with the given fields is appended; nothing is written on an error |
| Alerts.PostAlertNext | app/api/alerts/route.ts:5-44 | 403 before the body is read; an unreadable body gives 500; 400 on a missing field; otherwise one alert is appended; nothing is written on an error |
| Auth.NextStreakByElapsedTime | api/auth/login.js:17-30 | first login gives 1; under one whole day keeps the streak; one whole day adds 1; two or more resets to 1; the result is always old, old+1 or 1 |
| Auth.AcrossMidnightKeepsStreak | api/auth/login.js:21-27 | two logins two minutes apart across midnight do not extend the streak, because whole 24-hour periods are counted |
| Auth.Login | api/auth/login.js:5-38 | an unknown email, a role mismatch or a wrong password gives 401 with no write; success happens exactly when all three pass, upserts the user with `lastLogin := now` and the new streak, and reports id, name, role and the token signed over id, email and role |
| Auth.Register | api/auth/register.js:5-17 | an invalid role gives 400 before the email check; a registered email gives 400; success happens exactly when both pass and upserts one new record; unique emails stay unique |
| Auth.NormalizeKeepsEmails | lib/userStore.js:43-57 | normalising the stored records neither creates nor removes an email clash |
| Auth.RegisterRoute | app/api/auth/register/route.ts:6-37 | an unreadable body gives 500; an invalid role gives 400 before the email check, a registered email 400; success happens exactly when both pass and upserts the new record; every failure leaves the store unchanged; unique emails stay unique |
| Badges.CriteriaAgree | lib/badges.js:3-18 | every tier threshold used by the evaluator is the count in the criteria table |
| Badges.DrillCriteria | lib/badges.js:5-7 | the drill tiers are drill-count rules with counts 5, 10 and 25 |
| Badges.StreakCriteria | lib/badges.js:8-10 | the streak tiers are streak rules with counts 5, 10 and 30 |
| Badges.TierThresholds | lib/badges.js:5-10 | every drill and streak tier is a tier badge, with thresholds 5/10/25 and 5/10/30 |
| Badges.BestScores | lib/badges.js:20-28 | one entry per attempted module, in first-attempt order, holding the maximum score on that module |
| Badges.MaxScoreIsMax | lib/badges.js:22-26 | the best score bounds every attempt on the module and, when positive, is reached by one |
| Badges.MaxScoreUnattempted | lib/badges.js:38 | an unattempted module's best score is 0 |
| Badges.AttemptedDistinct | lib/badges.js:21-27 | the score table's keys are distinct and are exactly the attempted modules |
| Badges.BestScoresStep | lib/badges.js:23-25 | one more attempt raises its module's entry to the larger score, or adds a new entry at the end |
| Badges.GetBestScoresByModule | lib/badges.js:20-28 | the loop builds the best-score table of the user's attempts |
| Badges.BestScoresMeaning | lib/badges.js:20-28 | entries have distinct modules; a module has an entry exactly when attempted; the entry (0 when absent) is the maximum score |
| Badges.CeilHalfIsCeiling | lib/badges.js:40 | the pass mark is half the question count rounded up |
| Badges.AllPassedMeaning | lib/badges.js:35-41 | every module is passed exactly when each module's maximum score reaches half its question count rounded up |
| Badges.EvaluateAllPassed | lib/badges.js:37-41 | the every-module loop computes whether all modules are passed |
| Badges.AwardTiers | lib/badges.js:48-53 | one tier pass returns the reached, unheld tiers in table order |
| Badges.SumBestScores | lib/badges.js:67 | the reduction is the sum of the best scores |
| Badges.CheckAndAwardBadges | lib/badges.js:30-77 | returns the badges the rules award, and the user with them appended to the held list |
| BadgeLaws.TierAwardsMembers | lib/badges.js:48-53 | a tier is awarded exactly when it is listed, its count is reached and it is not held |
| BadgeLaws.TierAwardsDistinct | lib/badges.js:48-53 | a tier pass awards no badge twice |
| BadgeLaws.TierAwardsSubset | lib/badges.js:48-53 | a tier pass awards only listed tiers |
| BadgeLaws.TierAwardsAppend | lib/badges.js:48-53 | a pass over two tier lists is the pass over the first followed by the pass over the second |
| BadgeLaws.TierAwardsAllReached | lib/badges.js:48-53 | when every tier is reached and none is held, all tiers come back in table order |
| BadgeLaws.TierAwardsNoneReached | lib/badges.js:57-62 | when no tier is reached, nothing comes back |
| BadgeLaws.NewBadgesMembers | lib/badges.js:42-71 | a badge is returned exactly when it is not held and its rule holds: module master, drill tier, streak tier or top scorer |
| BadgeLaws.NewBadgesFresh | lib/badges.js:42-70 | no returned badge is already held |
| BadgeLaws.BadgeNamesDisjoint | lib/badges.js:3-18 | the four badge groups have pairwise distinct names and no repeats |
| BadgeLaws.NewBadgesDistinct | lib/badges.js:31-71 | the returned list has no repeats |
| BadgeLaws.ReevaluationAwardsNothing | lib/badges.js:42-76 | evaluating again with the extended badge list, logs unchanged, awards nothing |
| BadgeLaws.ModuleMasterIff | lib/badges.js:35-44 | module-master-all is returned exactly when it is not held and every catalogue module's best score, 0 if unattempted, reaches the pass mark |
| BadgeLaws.EmptyCatalogueAwardsModuleMaster | lib/badges.js:36-44 | with an empty catalogue the module badge is awarded to anyone not holding it |
| BadgeLaws.TopScorerIntegerForm | lib/badges.js:65-71 | the average test is equivalent to at least one attempted module and 10 times the sum reaching 9 times the count |
| BadgeLaws.TopScorerIff | lib/badges.js:64-71 | top-scorer is returned exactly when it is not held and the mean of raw best scores is at least 0.9 |
| BadgeLaws.StreakExamples | lib/badges.js:55-62 | with no badges, a 30-day streak earns all three streak tiers and a 4-day streak none |
| BadgeLaws.DrillTierExample | lib/badges.js:47-53 | exactly five drills give only drill-champion-5 |
| BadgeLaws.StreakTierExample | lib/badges.js:56-62 | a 30-day streak gives all three streak tiers in table order |
| Catalogue.PublishQuiz | api/modules.js:8-12 | each published question keeps its text and choices, in order, and carries no answer |
| Catalogue.PublishHidesAnswers | api/modules.js:8-12 | modules that differ only in their answer keys are published identically |
| Catalogue.PublishKeepsContent | api/modules.js:4-13 | id, title, content and quiz length are kept, and the module is rebuilt from what is sent plus the key |
| Catalogue.GetAllModules | api/modules.js:3-15 | one published module per catalogue module, in catalogue order |
| Catalogue.FindModule | api/modules.js:19 | returns the first module with the id, or none when no module has it |
| Catalogue.GetModuleById | api/modules.js:17-32 | 404 exactly when no module has the id; otherwise the projection of the first catalogue module with that id |
| DrillStore.ParticipationOf | lib/drillStore.js:27-30 | the listing holds only the user's records, and is no longer than the log |
| DrillStore.ParticipationOfMembers | lib/drillStore.js:27-30 | a record is listed exactly when it is in the log and belongs to the user |
| DrillStore.TotalDrillsCountsPositions | lib/drillStore.js:32-35 | the count is the number of log positions holding the user's records |
| DrillStore.TotalDrillsAfterAppend | lib/drillStore.js:32-47 | appending a record adds one to its user's count and leaves every other count alone |
| DrillStore.DrillLog.constructor | lib/drillStore.js:11-17 | a missing file is created holding the empty list |
| DrillStore.DrillLog.SaveDrillParticipationRecord | lib/drillStore.js:37-47 | exactly one record is appended; the user's count rises by one and no other count changes |
| Drills.RegionFilter | server.js:192 | keeps exactly the scenarios of the region or of `all` |
| Drills.RegionFilterAppend | server.js:192 | the filter keeps file order |
| Drills.DrillsForRegion | server.js:187-197 | with a truthy region the filter, otherwise every scenario |
| Drills.FindDrill | server.js:208 | none exactly when no scenario has the id; otherwise the first scenario with it |
| Drills.StartDrill | server.js:206-230 | unknown drill gives 404; an anonymous start records nothing; an unknown user gives 404 with no write; a known user gets one record appended, and is saved with the new badges only when there are some |
| Drills.UserBadges | server.js:177-181 | 404 exactly for an unknown user, else the held badges |
| Drills.ParticipationMemory.constructor | server.js:116 | the in-memory list starts empty |
| Drills.ParticipationMemory.RecordDrillParticipation | server.js:119-129 | exactly one record is appended |
| Drills.DrillsGet | app/api/drills/route.ts:4-34 | a truthy id wins: the first scenario with it, or 404 when none has it; otherwise the region listing |
| Drills.DrillsPost | app/api/drills/route.ts:36-64 | an unreadable body gives 500; a missing or unknown drill 404; a known drill is started with the success message, and nothing is stored |
| EmergencyContacts.GatheredSorted | lib/regional-emergency-contacts.ts:13-98 | both fixed lists are already in priority order |
| EmergencyContacts.GetEmergencyContacts | lib/regional-emergency-contacts.ts:100-111 | the sorted list is ordered high, medium, low; it is exactly the national contacts, plus the Punjab ones for `punjab` |
| EmergencyContacts.GetLocalizedContactName | lib/regional-emergency-contacts.ts:113-153 | a non-empty translation when present, otherwise the contact's own name; English is always the own name |
| EmergencyContacts.UntranslatedContacts | lib/regional-emergency-contacts.ts:113-153 | the two untranslated Punjab contacts show their own name in every language |
| EmergencyContacts.NationalTranslated | lib/regional-emergency-contacts.ts:113-153 | every national contact has a translation in every language |
| FallbackIntent.FirstTagMeaning | app/chatbot/api/handle_message/route.ts:25-32 | no tag exactly when no rule matches; otherwise the tag of a matching rule with no matching rule before it |
| FallbackIntent.ScanRules | app/chatbot/api/handle_message/route.ts:25-32 | the nested loop returns the first-match tag |
| FallbackIntent.FallbackIntentForMessage | app/chatbot/api/handle_message/route.ts:13-32 | the scan over the nine keyword rules gives the first-match tag |
| FallbackIntent.FallbackIntentForRawMessage | chatbot/app.py:28-34 | a missing message reads as empty and is lower-cased before the scan |
| FallbackIntent.ThisFloodIsGreeting | app/chatbot/api/handle_message/route.ts:14-28 | "this flood" is a greeting, because "hi" occurs inside "this" |
| FallbackIntent.FindIntent | app/chatbot/api/handle_message/route.ts:36 | none exactly when no intent has the tag; otherwise the first intent with it |
| FallbackIntent.BuildFallbackResponse | app/chatbot/api/handle_message/route.ts:34-42 | the apology for a falsy or unknown tag or missing or empty responses; otherwise the first one to three responses, one per line |
| FallbackIntent.PyResponsesFor | chatbot/app.py:38-41 | the responses of the first intent with the tag and a non-empty list; none exactly when no such intent exists |
| FallbackIntent.PyBuildFallbackResponse | chatbot/app.py:36-46 | the apology when no intent qualifies; otherwise the sampled one to three responses, one per line |
| FallbackIntent.BuildersAgree | chatbot/app.py:36-46 | the Python and Next.js builders agree when the sample picks the first positions in order |
| FallbackIntent.FirstResponsesAgree | chatbot/app.py:38-44 | when the first intent with the tag has responses, Python picks that intent too |
| FallbackIntent.Numbered | app/chatbot/api/handle_message/route.ts:73 | each tip is prefixed with its position from 1 |
| FallbackIntent.ChosenTips | app/chatbot/api/handle_message/route.ts:82-88 | the first one to three fetched tips, or the three defaults when none came back |
| FallbackIntent.HandleMessageFallback | app/chatbot/api/handle_message/route.ts:66-97 | status 200; a matched tag gives the canned response plus the updates block; otherwise the general reply over the chosen tips |
| FallbackIntent.UpdatesBlockBound | app/chatbot/api/handle_message/route.ts:70-74 | at most three tips are appended after a matched reply, the first numbered 1 |
| FallbackIntent.PyHandleMessageFallback | chatbot/app.py:101-120 | a matched tag gives 200 with the sampled response and at most three tips; otherwise 503 with every general tip numbered |
| IntentMatch.ScoreBounds | app/chatbot/page.tsx:89-95 | an intent's score is at most its pattern count; 0 exactly when no pattern occurs; the full count exactly when all occur |
| IntentMatch.ScoreAppend | app/chatbot/page.tsx:89-95 | scores add up over concatenated pattern lists |
| IntentMatch.DuplicatesCountTwice | app/chatbot/page.tsx:89-95 | a pattern list repeated twice scores twice |
| IntentMatch.BestIsEarliestMaximum | app/chatbot/page.tsx:82-104 | no intent exactly when every score is 0; otherwise the chosen score is positive and maximal, and every earlier intent scores strictly less |
| IntentMatch.FindBestIntent | app/chatbot/page.tsx:82-104 | the nested loop returns the earliest intent of maximal positive score |
| JsonValues.JsOr | app/chatbot/api/map_pois/route.ts:16-18 | JavaScript `or`: the first operand when truthy, else the second |
| JsonValues.PyOr | chatbot/app.py:239-241 | Python `or`: the first operand when truthy, else the second |
| JsonValues.EmptyListTruthiness | chatbot/app.py:239-241 | an empty list is kept by JavaScript `or` but skipped by Python `or` |
| Leaderboard.Entries | api/leaderboard.js:11-18 | one entry per user, in store order, with the user's total score |
| Leaderboard.BoardMeaning | api/leaderboard.js:11-21 | one entry per user, a permutation of the mapped entries, non-increasing in score, each score that user's total |
| Leaderboard.BoardStable | api/leaderboard.js:21 | users with equal totals keep their store order |
| MapPois.QueryHasAround | app/chatbot/api/map_pois/route.ts:3-10 | every query carries the radius and coordinates filter |
| MapPois.AmenityQuery | app/chatbot/api/map_pois/route.ts:9 | any other kind is embedded, lower-cased, as the amenity value |
| MapPois.KindOfLowerCase | app/chatbot/api/map_pois/route.ts:4 | a non-empty kind without capitals is classified as it stands |
| MapPois.HospitalKinds | app/chatbot/api/map_pois/route.ts:5 | `hospital` and `Hospitals` select hospitals |
| MapPois.CapitalHospitals | app/chatbot/api/map_pois/route.ts:4-5 | a capitalised plural is lower-cased first |
| MapPois.SchoolKinds | app/chatbot/api/map_pois/route.ts:6 | `schools` and `SCHOOL` select schools |
| MapPois.RoadKinds | app/chatbot/api/map_pois/route.ts:7 | `highway`, `road` and `roads` select roads |
| MapPois.RoadsKind | app/chatbot/api/map_pois/route.ts:7 | `roads` selects roads |
| MapPois.RoadKind | app/chatbot/api/map_pois/route.ts:7 | `road` selects roads |
| MapPois.HighwayKind | app/chatbot/api/map_pois/route.ts:7 | `highway` selects roads |
| MapPois.PowerKinds | app/chatbot/api/map_pois/route.ts:8 | `power` and `electricity` select power |
| MapPois.ElectricityKind | app/chatbot/api/map_pois/route.ts:8 | `electricity` selects power |
| MapPois.PowerKind | app/chatbot/api/map_pois/route.ts:8 | `power` selects power |
| MapPois.DefaultKind | app/chatbot/api/map_pois/route.ts:4-9 | an empty kind means `amenity` |
| MapPois.SameKindSameQuery | app/chatbot/api/map_pois/route.ts:3-10 | two kinds classified alike give identical queries |
| MapPois.SynonymsAgree | app/chatbot/api/map_pois/route.ts:4-9 | synonyms, in any letter case, give identical queries |
| MapPois.LimitOf | app/chatbot/api/map_pois/route.ts:18 | the limit is never 0: 50 when parsing failed or gave 0, else the parsed value |
| MapPois.ParsePois | app/chatbot/api/map_pois/route.ts:13-22 | 400 exactly when lat, lon or radius is not a number; otherwise the parsed values with their defaults |
| MapPois.PoiOf | app/chatbot/api/map_pois/route.ts:51-57 | an element yields a POI exactly when both coordinates are truthy |
| MapPois.ZeroCoordinateDropped | app/chatbot/api/map_pois/route.ts:51-55 | an element at latitude exactly 0 without a centre is dropped |
| MapPois.ExtractPois | app/chatbot/api/map_pois/route.ts:49-59 | for a positive limit, the first `limit` POIs in element order; for a limit below one, only the first element is examined |
| MapPois.PyPoisArgs | chatbot/app.py:236-249 | 400 exactly when a conversion raises; otherwise the converted coordinates, and radius, limit and kind with Python defaults |
| NearbyDisasters.DaysOf | app/chatbot/api/nearby_disasters/route.ts:74 | days is never 0: 180 when parsing failed or gave 0, else the parsed value |
| NearbyDisasters.ParseNearby | app/chatbot/api/nearby_disasters/route.ts:70-79 | 400 exactly when a coordinate is not a number; otherwise the parsed values with their defaults, country defaulting to India |
| NearbyDisasters.ParseDefaults | app/chatbot/api/nearby_disasters/route.ts:74-75 | a missing, zero or non-numeric days gives 180, and a missing country gives India |
| NearbyDisasters.DedupeEvents | app/chatbot/api/nearby_disasters/route.ts:106-114 | the loop keeps each event whose key has not been seen |
| NearbyDisasters.DisastersMeaning | app/chatbot/api/nearby_disasters/route.ts:106-121 | no two reported events share a key; each is the first of its key; the list is non-increasing in time, with ties in dedupe order |
| NearbyDisasters.PostNearby | app/chatbot/api/nearby_disasters/route.ts:69-125 | 400 with the cache untouched; a cache hit is returned as is; otherwise the proxy answer or the local events are cached for five minutes and returned |
| NearbyDisasters.PyNearbyArgs | chatbot/app.py:211-221 | 400 exactly when a coordinate does not convert; otherwise the radius default and the days only when truthy |
| ProgressStore.AttemptId | lib/userProgressStore.js:41 | the id is the user id, a dash, the module id, a dash, and the decimal time |
| ProgressStore.AttemptIdsDiffer | lib/userProgressStore.js:41 | two attempts by one user on one module at different instants get different ids |
| ProgressStore.ProgressOf | lib/userProgressStore.js:26-29 | the listing holds only the user's attempts |
| ProgressStore.ProgressOfMembers | lib/userProgressStore.js:26-29 | an attempt is listed exactly when it is in the log and belongs to the user |
| ProgressStore.ProgressOfAppend | lib/userProgressStore.js:26-29 | appending an attempt extends only its user's listing, at the end |
| ProgressStore.TotalScoreWithoutAttempts | lib/userProgressStore.js:31-36 | a user without attempts has total 0 |
| ProgressStore.TotalScoreAfterAppend | lib/userProgressStore.js:31-49 | an appended attempt raises its user's total by its score and leaves other totals alone |
| ProgressStore.ProgressLog.constructor | lib/userProgressStore.js:10-16 | a missing file is created holding the empty list |
| ProgressStore.ProgressLog.SaveQuizAttempt | lib/userProgressStore.js:38-49 | exactly one attempt is appended; the user's total rises by the score and no other total changes |
| Quiz.ValidateGrade | api/quiz.js:12-29 | checks in source order: 400 for a missing field, then 404 for an unknown user, 404 for an unknown module, 400 for a length mismatch; acceptance exactly when all pass, carrying the found user and module |
| Quiz.MatchCount | api/quiz.js:31-36 | the score is at most the question count |
| Quiz.MatchCountCountsPositions | api/quiz.js:31-36 | the score is the number of positions whose answer equals the key |
| Quiz.ScoreAnswers | api/quiz.js:31-36 | the loop computes the match count |
| Quiz.PassThreshold | api/quiz.js:53 | passing at half the question count is reaching it rounded up |
| Quiz.Grade | api/quiz.js:9-62 | a rejection writes nothing; acceptance appends one attempt, saves the user only with new badges, and reports score, total, verdict, running total and badges |
| Quiz.GradeRoute | app/api/quiz/route.ts:8-81 | an unreadable body gives 500; a rejection returns its status and message and writes nothing; acceptance appends the attempt, saves the user only with new badges, and reports score, total, verdict, running total and badges |
| Quiz.GradingExample | api/quiz.js:31-53 | key [0,1,2,3]: answering it exactly scores 4, answering [1,1,2,3] scores 3; both pass |
| RegionalDisasters.ForRegion | lib/regional-disaster-data.ts:132 | keeps exactly the entries of the region or `national` |
| RegionalDisasters.ForRegionAppend | lib/regional-disaster-data.ts:132 | the filter keeps table order |
| RegionalDisasters.FindByType | lib/regional-disaster-data.ts:136 | none exactly when no entry has the type and region; otherwise the first such entry |
| RegionalDisasters.GetRegionalDisasters | lib/regional-disaster-data.ts:131-133 | only entries of the region or `national` are listed |
| RegionalDisasters.GetDisasterByType | lib/regional-disaster-data.ts:135-137 | none exactly when no entry has the type and exactly the region; otherwise the first such entry |
| RegionalDisasters.FoundIsListed | lib/regional-disaster-data.ts:131-137 | an entry found by type is listed for its region |
| RegionalDisasters.CatalogueByRegion | lib/regional-disaster-data.ts:15-133 | Punjab sees the whole table, every other region nothing |
| ResultsPanel.EscapeHtmlPerChar | components/ChatbotFloatingButton.tsx:43-45 | the three passes equal escaping each character on its own, so no entity is escaped twice |
| ResultsPanel.EscapedHasNoAngleBrackets | components/ChatbotFloatingButton.tsx:43-45 | escaped text contains no angle bracket |
| ResultsPanel.UnescapeEscape | components/ChatbotFloatingButton.tsx:43-45 | unescaping the escaped text gives the original back |
| ResultsPanel.PageSlice | components/ChatbotFloatingButton.tsx:173-174 | a page has at most six items, and is empty exactly when it starts at or past the end |
| ResultsPanel.PageCount | components/ChatbotFloatingButton.tsx:201 | at least one page; the pages hold every item, and the last page is non-empty for a non-empty list |
| ResultsPanel.PagesArePrefix | components/ChatbotFloatingButton.tsx:173 | the first k pages hold exactly the first min(6k, n) items |
| ResultsPanel.AllPagesShowAllItems | components/ChatbotFloatingButton.tsx:171-174 | reading every labelled page shows every item once, in order |
| ResultsPanel.Pager.constructor | components/ChatbotFloatingButton.tsx:169-170 | paging starts at the first page |
| ResultsPanel.Pager.Label | components/ChatbotFloatingButton.tsx:201 | the label reads "page of pages" with 1 ≤ page ≤ pages |
| ResultsPanel.Pager.Prev | components/ChatbotFloatingButton.tsx:200 | a disabled Prev leaves the page; otherwise it goes back one; the page stays in range |
| ResultsPanel.Pager.Next | components/ChatbotFloatingButton.tsx:202 | a disabled Next leaves the page; otherwise it goes forward one; the page stays in range |
| ResultsPanel.SummaryLine | components/ChatbotFloatingButton.tsx:99 | each line starts with its number and a dot |
| ResultsPanel.UnnamedIncident | components/ChatbotFloatingButton.tsx:99 | an incident with neither title nor type is listed as `undefined` |
| ResultsPanel.SummaryLines | components/ChatbotFloatingButton.tsx:99 | at most five lines, the i-th for the i-th incident numbered i+1 |
| ResultsPanel.IncidentSummary | components/ChatbotFloatingButton.tsx:96-100 | the "none found" message exactly when the list is empty |
| Seqs.DedupByKeys | app/chatbot/api/nearby_disasters/route.ts:107-114 | the kept elements have distinct keys and cover every key |
| Seqs.DedupByFirst | app/chatbot/api/nearby_disasters/route.ts:107-114 | every kept element is the first of its key |
| ServerDb.FirstWhere | server/db.js:75-100 | the index of the first record satisfying the test, or none exactly when no record does |
| ServerDb.FindUserByEmail | server/db.js:75-82 | none exactly when no record has the email; otherwise the first one with it |
| ServerDb.FindUserById | server/db.js:84-91 | none exactly when no record has the id; otherwise the first one with it |
| ServerDb.FindUserByGoogleId | server/db.js:93-100 | none exactly when no record has the Google id; otherwise the first one with it |
| ServerDb.FindAfterAppend | server/db.js:102-111 | appending keeps every earlier first match, and a fresh email is found at the end |
| ServerDb.UserTable.constructor | server/db.js:42-48 | a missing file reads as the empty list |
| ServerDb.UserTable.AddUser | server/db.js:102-112 | the user is appended without checks; earlier email lookups are unchanged and a new email finds it |
| StableSort.SortDescSortedPermutation | api/leaderboard.js:21 | the sort returns a permutation ordered by non-increasing key |
| StableSort.SortDescStable | api/leaderboard.js:21 | elements with equal keys keep their input order |
| StableSort.SortDescOfSorted | lib/regional-emergency-contacts.ts:107-110 | an already ordered list is returned unchanged |
| Stats.Latest | api/user/stats/index.js:22 | the latest timestamp bounds every record and belongs to one |
| Stats.GetUserStats | api/user/stats/index.js:4-31 | 400 for a missing id, 404 for an unknown user, statistics for a known one: the streak (0 when unset), the last login date ('' when unset), the user's drill count, and a last drill day exactly when there are records, being the latest one's |
| TtlCache.Lookup | app/chatbot/api/nearby_disasters/route.ts:6-11 | a value comes back exactly when the key is present and not expired strictly before now |
| TtlCache.AfterGet | app/chatbot/api/nearby_disasters/route.ts:9 | a read deletes the key's expired entry and nothing else |
| TtlCache.Cache.constructor | app/chatbot/api/nearby_disasters/route.ts:5 | the cache starts empty |
| TtlCache.Cache.Get | app/chatbot/api/nearby_disasters/route.ts:6-11 | a read answers the lookup and drops an expired entry |
| TtlCache.Cache.Set | app/chatbot/api/nearby_disasters/route.ts:12-14 | a write stores the value with expiry now plus the lifetime, replacing any entry |
| TtlCache.SetThenGet | app/chatbot/api/nearby_disasters/route.ts:6-14 | after a write, reads up to and including the expiry return the value, later ones nothing |
| TtlCache.SetIsolated | app/chatbot/api/nearby_disasters/route.ts:12-13 | a write leaves every other key's answer unchanged |
| Updates.MatchAt | app/chatbot/api/utils.ts:33 | a match ends past its opening tag and captures non-empty text |
| Updates.NextMatch | app/chatbot/api/utils.ts:33-35 | the next match lies after the start index |
| Updates.TrimAll | app/chatbot/api/utils.ts:36 | every title trimmed, in order |
| Updates.DistinctMeaning | app/chatbot/api/utils.ts:37 | the kept titles are exactly the non-empty ones, each once |
| Updates.DistinctPrefix | app/chatbot/api/utils.ts:35-37 | collecting from a prefix gives a prefix of the whole collection |
| Updates.StoppedAtLimit | app/chatbot/api/utils.ts:35 | stopping once `limit` titles are held gives the first `limit` of the whole collection |
| Updates.ExtractTitlesFromXml | app/chatbot/api/utils.ts:30-40 | the loop returns the first `limit` distinct, non-empty, trimmed titles in document order |
| Updates.ExtractedTitles | app/chatbot/api/utils.ts:30-40 | at most `limit` titles, non-empty, pairwise distinct, each the trimmed text of a match |
| Updates.CaseInsensitiveTags | app/chatbot/api/utils.ts:33 | title tags match in any letter case |
| Updates.SourcesFor | app/chatbot/api/utils.ts:43 | the feeds of a known tag, else the general feeds; never empty |
| Updates.UnknownTagIsGeneral | app/chatbot/api/utils.ts:6-28 | a tag without feeds, such as greeting, uses the general feed |
| Updates.FinishUpdates | app/chatbot/api/utils.ts:90-104 | no tips give the three fixed tips; otherwise the first five distinct non-empty tips |
| Updates.FinishedUpdates | app/chatbot/api/utils.ts:98-104 | at most five distinct, non-empty, collected tips, and at least one when some tip was non-empty |
| UserStore.HeldBadges | lib/userStore.js:45 | an unset field reads as no badges; a list reads as itself; text reads as its parsed list, empty text as none |
| UserStore.Normalize | lib/userStore.js:43-48 | badges become the list they read as (parsed text, the list itself, or empty when unset); the streak becomes its value, 0 when unset; every other field is unchanged |
| UserStore.NormalizeIdempotent | lib/userStore.js:43-48 | normalising twice equals normalising once; normal records are fixed points |
| UserStore.NormalizeAll | lib/userStore.js:50-58 | every record is normalised, in order |
| UserStore.IndexOfId | lib/userStore.js:69 | the first index with the id, or none when no record has it |
| UserStore.FindByEmail | lib/userStore.js:79-87 | the first record with the email, or none when no record has it |
| UserStore.FindByGoogleId | lib/userStore.js:99-107 | the first record with the Google id, or none when no record has it |
| UserStore.Upsert | lib/userStore.js:68-74 | replaces the first record with the id in place, or appends when none has it |
| UserStore.UpsertLookup | lib/userStore.js:60-97 | after an upsert, a lookup by the id finds the record and other lookups are unchanged; the length grows by one only for a new id |
| UserStore.UpsertKeepsEmailsUnique | lib/userStore.js:60-77 | unique emails stay unique when no other record holds the new record's email |
| UserStore.UserFile.constructor | lib/userStore.js:36-41 | a missing file is created holding the empty list |
| UserStore.UserFile.Users | lib/userStore.js:50-58 | every record read back is normal |
| UserStore.UserFile.SaveUser | lib/userStore.js:60-77 | the normalised list with the record upserted is written; a lookup by its id finds it and other lookups are unchanged |
| UserStore.NormalizeKeepsIds | lib/userStore.js:89-97 | lookups by id on the normalised list find the normalised record |
| UserStore.NormalizedFind | lib/userStore.js:50-58 | normalising an already normal list changes no lookup |

## Left out

- SQLite and MongoDB branches of the stores: only the JSON-file branches are modelled. File I/O errors, and the 500 responses they would cause, are not modelled.
- Network calls become inputs: the Flask proxies, the USGS, weather and ReliefWeb feeds, and the Overpass request. This covers the feed-parsing loop of `fetchLatestDisasterUpdates`; only its dedupe, cap and default tail (`Updates.FinishUpdates`) is modelled.
- bcrypt hashing and checking, JWT signing (with its secret), UUID generation and the clock are parameters. Times are integers in milliseconds. ISO date formatting is replaced by a day number (`Stats.Day`).
- Floating-point numbers are kept as printed text with a zero flag and a NaN flag; no arithmetic on them is modelled.
- String case folding is ASCII-only (`Text.Lower`), and trimming uses a fixed whitespace set.
- The 500 catch branches of the Next.js leaderboard, stats, drills GET and alert routes are not modelled apart from an unreadable body; they are only reached through I/O errors.
- The SSE broadcast of alerts, the Python model loading and prediction path, and the `modules` route wrapper are not modelled. The same goes for the `getRandomResponse` choice on the chat page and the uncapped POI chat message.
- The Flask handler's model-runtime error branch (500 with general tips) is not modelled; only the import-failure fallback is.
- The chatbot-helper, chatbot-expert, safety-explorer and punjab-safety-expert criteria exist in the table but are never evaluated by the source; the model keeps them in the table only.
- The `ResultsList` page state is reset on every re-render in the source; `ResultsPanel.Pager` models one list of fixed length.
- Localised titles, descriptions and tips of the regional tables are carried in English only.
- Badges.CheckAndAwardBadges: requires the stored badge field not to be JSON text, because the source would spread a string into characters there; a normalised record always holds a list.
- FallbackIntent.PyBuildFallbackResponse: the random sample is an input of distinct positions, so which responses appear is not modelled.
- MapPois.KindOf: a `kind` that is not a string is not modelled; `BuildOverpassQuery` takes the same text.
- The attempt timestamp and every record's time are the clock parameter, not the ISO text the stores write.
- ProgressStore.TotalScore: an attempt's score is always a whole number, because every writer stores one; the `|| 0` fallback for a record without a score (lib/userProgressStore.js:35) is not modelled.
- NearbyDisasters.PostNearby: one clock reading serves both the cache read and the cache write; the source reads the clock again after the network calls, so its stored expiry can be later than the model's.
