# OH-Card-Zone in Dafny

A model of OH-Card-Zone, a web application for OH cards. OH cards are a deck of 88 image cards and 100 word cards used for projective reflection. The model covers four areas.

- **Server.** The `cards` table that `DatabaseStorage` seeds and queries. The three queries are `getCards`, `getCard` and the random `drawCards`.
- **Shared API contract.** The accepted draw modes and `buildUrl`.
- **Client state.** The reading-spread page and its `useSpreadState` hook. This includes:
  - the spread list with its two tag filters;
  - the rules that map a spread mode to a component, a title, summary questions and a "revealed" test;
  - the scoring of the balance wheel;
  - the swap of the positive/negative spread;
  - the pair lookup;
  - how a card face and its image `src` are chosen;
  - the gallery search.

There is one Dafny module per source file of the core:

- `Storage`, `Routes` and `SpreadStateHook`;
- `Spreads`, `SpreadSelection`, `BalanceWheel`, `PositiveNegative` and `PairSpread`;
- `CardDisplay` and `Gallery`.

Other modules:

- `Schema` holds the card row.
- `CountedDraw` follows one draw request end to end, from `useSpreadState` through the API input to `drawCards`.
- `Wrappers`, `Seqs` and `Strings` are helpers. They cover JavaScript's `undefined` and thrown errors, `filter` and `find`, and substring search, decimal printing and ASCII lower-casing.

Pure helpers are functions. State that the source keeps is a class whose methods state the whole new state:

- React state (`useState`) becomes classes: `SpreadState`, `Filters`, `Wheel`, `PositiveNegativeSpread`, `SpreadsPage` and `ActiveSpread`.
- The database table becomes `CardTable`.

Where the source loops, the model loops too: `BuildSeedList` and `BuildUrl`. `RevealAllAsWritten` and `RevealAllShared` also loop, but the source has no such loop: each is a scenario of user clicks, one card click per round.

The client asks for a number of cards. `useSpreadState` sends `count` with every multi-card request (client/src/pages/spreads/useSpreadsState.ts:63-81), and the draw handler passes `input.count` on to `drawCards` (server/routes.ts:33). The count still never takes effect: the draw input schema has only `mode` (shared/routes.ts:47-49), and `drawCards` takes only the mode and returns at most one card per type. The model follows the code. The evidently intended behaviour, `count` distinct cards sampled without replacement, is modelled separately as the corrected half of the second finding below.

## Model

| member | source | states |
|---|---|---|
| Storage.CeilDiv | server/storage.ts:117 | `Math.ceil(a / b)` for a positive divisor: the least q with a <= b*q |
| Storage.SeedList | server/storage.ts:96-120 | the seed list has 88 + 100 entries |
| Storage.BuildSeedList | server/storage.ts:96-120 | the two counting loops push exactly `SeedList()` |
| Storage.PushImageCards | server/storage.ts:96-104 | the image loop appends image cards 1..88 in order |
| Storage.PushWordCards | server/storage.ts:106-120 | the word loop appends word cards 1..100 in order |
| Storage.SeedListShape | server/storage.ts:96-120 | 88 image cards numbered 1..88, then 100 word cards numbered 1..100 |
| Storage.SeedImageCard | server/storage.ts:79-104 | image card i: title `Image Card i`; the mapped file name for 68 and 76..88, `image_i.jpg` otherwise |
| Storage.SeedWordCard | server/storage.ts:107-120 | the entry after the 88 images at offset i-1 is word card i, titled `Word Card i` |
| Storage.SeedWordContent | server/storage.ts:112-118 | word card i: placeholder (i-1) mod 16; after the first sixteen, a space and the round digit 2..7 |
| Storage.SeedNumbersUnique | server/storage.ts:96-120 | within one type no number repeats; numbers lie in 1..88 and 1..100 |
| Storage.PlaceholdersDistinct | server/storage.ts:107-110 | the sixteen placeholder words are pairwise different |
| Storage.PlaceholderChars | server/storage.ts:107-110 | no placeholder word is empty or contains a digit, '.' or '_' |
| Storage.WordContentSuffixed | server/storage.ts:113-117 | beyond sixteen, the content is the placeholder, a space and one digit 2..7 |
| Storage.WordRoundDeterminesNumber | server/storage.ts:113-117 | the placeholder position and the round number determine the card number |
| Storage.WordContentFirstRound | server/storage.ts:117 | the first sixteen word cards carry the bare placeholder |
| Storage.WordContentsDistinctAcrossRounds | server/storage.ts:117 | a first-round content differs from every later-round content |
| Storage.WordContentsDistinctLaterRounds | server/storage.ts:117 | two later-round contents differ when their numbers differ |
| Storage.WordContentsDistinct | server/storage.ts:112-120 | all 100 word contents are pairwise distinct |
| Storage.AssignIds | shared/schema.ts:7-13 | inserted rows get consecutive serial ids and keep every other field |
| Storage.AssignIdsIncreasing | shared/schema.ts:7-13 | the inserted rows' ids increase and stay below the advanced serial |
| Storage.SeedIdempotent | server/storage.ts:73-74 | seeding a seeded table changes nothing, so seeding twice is seeding once |
| Storage.CardTable.constructor | server/storage.ts:13 | the table starts empty with the serial at 1 |
| Storage.CardTable.SeedCards | server/storage.ts:72-124 | a table with rows is left unchanged; an empty one gets the 188 seed rows; increasing ids are kept |
| Storage.GetCards | server/storage.ts:14-19 | without a type, every row, in the table order the model fixes (the SQL has no `ORDER BY`, so the database promises no order); with a type, exactly the rows of that type, as a subsequence |
| Storage.OfType | server/storage.ts:16 | the `where` test keeps exactly the cards of the type |
| Storage.ImageContent | server/storage.ts:79-101 | the mapped file name for a mapped number, `image_i.jpg` otherwise; always a `.jpg` name |
| Storage.AfterSeed | server/storage.ts:72-124 | rows present: nothing changes; an empty table gets 188 rows with consecutive ids from the serial, which advances by 188 |
| Storage.GetCard | server/storage.ts:21-24 | a row with the id, or `undefined` exactly when no row has it |
| Storage.GetCardExact | server/storage.ts:21-24 | with unique ids, the lookup of c.id returns c exactly when c is a row |
| Storage.RandomRow | server/storage.ts:28 | at most one row, of the type and from the table; none exactly when no row has the type |
| Storage.DrawCards | server/storage.ts:26-70 | every card drawn is a row; image and word draws succeed with at most one card; a pair fails exactly when a type is missing, else gives [image, word] |
| Storage.DrawSingleShape | server/storage.ts:27-44 | image and word draws never fail and return at most one row of the type; they return none exactly when the type is absent |
| Storage.DrawPairShape | server/storage.ts:45-69 | the pair succeeds exactly when both types are present; it is then [image, word], both taken from the table |
| Storage.DrawReachesEveryCard | server/storage.ts:28 | every row of a type is the outcome of some random pick |
| Storage.RandomRowAt | server/storage.ts:28 | pick k below the subset size returns the k-th row of the type |
| Storage.DrawAfterSeed | server/storage.ts:26-124 | after seeding, every mode succeeds, and a single draw returns exactly one card |
| Storage.IdsIncreasingDistinct | shared/schema.ts:8 | increasing serial ids are pairwise distinct |
| Storage.FilterDistinctIds | server/storage.ts:16 | the `where` filter keeps ids distinct |
| Storage.SeedTypeCounts | server/storage.ts:96-122 | the seeded table's images are its first 88 rows and its words the last 100, under distinct ids |
| Storage.SeedHalves | server/storage.ts:96-122 | the first 88 seeded rows are images, the rest words, all ids distinct |
| Storage.SplitByType | server/storage.ts:14-19 | rows that are images up to n and words after it split by type at n |
| Routes.ParseDrawMode | shared/routes.ts:47-49 | accepted exactly for "image", "word" and "pair", each as the mode of that name |
| Routes.ParseModeName | shared/routes.ts:48 | every mode the client can name is accepted as itself |
| Routes.Substitution | shared/routes.ts:67 | a replacement without `$` is inserted verbatim |
| Routes.ReplaceFirst | shared/routes.ts:67 | no occurrence: unchanged; otherwise, for a replacement without `$`, the first occurrence is cut out and the replacement put in its place |
| Routes.ApplyParam | shared/routes.ts:66-67 | absent `:key`: unchanged; present, with a `$`-free value: the length changes by the value's length minus the placeholder's |
| Routes.ApplyParams | shared/routes.ts:65-69 | when no key's placeholder occurs, the url is unchanged |
| Routes.BuildUrl | shared/routes.ts:62-72 | without params the path itself; otherwise the entries applied in order, each only if `:key` occurs |
| Routes.ApplyParamAbsent | shared/routes.ts:66 | a key whose `:key` does not occur leaves the url unchanged |
| Routes.ApplyParamPresent | shared/routes.ts:66-67 | only the first `:key` is replaced by `String(value)`; the rest of the url is kept |
| Routes.ApplyParamsFront | shared/routes.ts:65-69 | applying entries is applying the first, then the rest |
| Routes.NumberHasNoDollar | shared/routes.ts:67 | a number's decimal form has no `$`, so it is inserted verbatim |
| Routes.GetCardUrl | shared/routes.ts:38 | `/api/cards/:id` with an id becomes `/api/cards/` followed by the decimal id |
| Routes.PlainSubstringMatch | shared/routes.ts:66-67 | the key `id` also matches the start of a `:idx` placeholder |
| Routes.DollarPatternExpands | shared/routes.ts:67 | the string value `$&` re-inserts the placeholder, so the url stays unchanged |
| SpreadStateHook.CardCount | client/src/pages/spreads/useSpreadsState.ts:45-57 | the count is one of 1, 3, 4, 5, 6, 10 |
| SpreadStateHook.InitialRequest | client/src/pages/spreads/useSpreadsState.ts:63-81 | a multi-card spread asks for `CardCount` image cards; any other mode is sent as itself without a count |
| SpreadStateHook.RedrawCount | client/src/pages/spreads/useSpreadsState.ts:97-110 | the redraw count lies in 1..10 and exceeds 1 exactly for the multi-card spreads |
| SpreadStateHook.SpreadState.HasData | client/src/pages/spreads/useSpreadsState.ts:59-60 | with data there is a card on show, and at least three for a multi-card spread |
| SpreadStateHook.RedrawMode | client/src/pages/spreads/useSpreadsState.ts:87-95 | the redraw asks for images exactly for the multi-card spreads, the `hero-journey*` modes and "image"; otherwise it asks for the mode itself |
| SpreadStateHook.RedrawCountIsCardCount | client/src/pages/spreads/useSpreadsState.ts:97-110 | the redraw count equals `getCardCount()` for every mode |
| SpreadStateHook.InitialMatchesRedraw | client/src/pages/spreads/useSpreadsState.ts:63-81 | multi-card spreads send the same request on mount and on redraw; other modes send no count on mount |
| SpreadStateHook.HeroJourneyPrefixRedraw | client/src/pages/spreads/useSpreadsState.ts:90 | "hero-journey-x" is redrawn as an image draw although the mount sends the mode itself |
| SpreadStateHook.Reveal | client/src/pages/spreads/useSpreadsState.ts:123 | the index becomes revealed, and every other key keeps its value |
| SpreadStateHook.RevealMonotoneIdempotent | client/src/pages/spreads/useSpreadsState.ts:120-125 | revealing never hides a card; revealing twice is revealing once; afterwards some card is revealed |
| SpreadStateHook.SpreadState.constructor | client/src/pages/spreads/useSpreadsState.ts:28-31 | mounting starts empty and issues exactly the initial request |
| SpreadStateHook.SpreadState.Resolve | client/src/pages/spreads/useSpreadsState.ts:27 | the mutation's `data` becomes the delivered cards and nothing else changes |
| SpreadStateHook.SpreadState.Sync | client/src/pages/spreads/useSpreadsState.ts:34-42 | the delivered cards are taken exactly when data exists, no card is face up and no redraw runs |
| SpreadStateHook.SpreadState.ToggleReveal | client/src/pages/spreads/useSpreadsState.ts:120-125 | with data, show it and reveal the index; without data, nothing changes |
| SpreadStateHook.SpreadState.DrawAgain | client/src/pages/spreads/useSpreadsState.ts:83-118 | every card face down, the sync blocked, and one redraw request appended |
| SpreadStateHook.SpreadState.TimerFired | client/src/pages/spreads/useSpreadsState.ts:115-117 | the redraw flag is cleared |
| SpreadStateHook.SpreadState.NextQuestion | client/src/pages/spreads/useSpreadsState.ts:127-130 | the question index goes up by one |
| SpreadStateHook.SpreadState.SetQuestionIndex | client/src/pages/spreads/useSpreadsState.ts:29 | the question index is set and nothing else changes |
| SpreadStateHook.RedrawScenario | client/src/pages/spreads/useSpreadsState.ts:83-118 | after a redraw, a delivery, the timer and a sync, the new cards show face down |
| Spreads.SpreadComponent | client/src/pages/Spreads.tsx:35-57 | a component only for a dispatched mode; the single-card one exactly for "image" and "word"; the custom wheel exactly for "balance-wheel-custom" |
| Spreads.Title | client/src/pages/Spreads.tsx:59-78 | never empty; an unlisted mode gets one of the two single-card titles |
| Spreads.AllRevealed | client/src/pages/Spreads.tsx:127-167 | all revealed implies card 0 is revealed; nothing revealed is never all revealed |
| Spreads.RevealSpan | client/src/pages/Spreads.tsx:127-167 | the span lies in 1..10 and exceeds 1 only for a dispatched mode |
| Spreads.SpreadComponentKnown | client/src/pages/Spreads.tsx:35-57 | a component exists exactly for the nine listed modes |
| Spreads.DefaultTitle | client/src/pages/Spreads.tsx:59-78 | the fallback title names the image card only for "image"; every other unlisted mode gets the word-card title |
| Spreads.SummaryQuestions | client/src/pages/Spreads.tsx:80-123 | three questions for each listed spread, five for the default |
| Spreads.AllRevealedSpan | client/src/pages/Spreads.tsx:127-167 | all revealed exactly when positions 0 up to the span minus 1 are revealed |
| Spreads.RevealSpanIsCardCount | client/src/pages/Spreads.tsx:127-167 | for every mode with a component, the span equals the hook's card count |
| Spreads.HoOponoponoSpan | client/src/pages/Spreads.tsx:166 | "ho-oponopono" needs 4 cards but counts as revealed after one, and has no component |
| Spreads.NextQuestionIndex | client/src/pages/Spreads.tsx:238-241 | the cycle stays in range, steps by one and wraps from the last question to 0 |
| Spreads.CurrentQuestion | client/src/pages/Spreads.tsx:232 | a question shows exactly when the index is in range |
| Spreads.CycleQuestion | client/src/pages/Spreads.tsx:238-241 | the index becomes the next one, in range from any non-negative start; nothing else changes |
| Spreads.ActiveSpread.constructor | client/src/pages/Spreads.tsx:25-33 | the page and the spread component hold two distinct hook instances for one mode |
| Spreads.ActiveSpread.ClickCard | client/src/pages/spreads/StorySpread.tsx:7-27 | a card click toggles the component's own hook state only |
| Spreads.ActiveSpread.DrawAgain | client/src/pages/Spreads.tsx:182-190 | the page's redraw leaves the cards on show and their reveal state as they were |
| Spreads.RevealAllAsWritten | client/src/pages/Spreads.tsx:209-250 | as written, every card turned over still leaves the questions hidden |
| Spreads.SharedSpread.ClickCard | client/src/pages/spreads/useSpreadsState.ts:120-125 | with one shared state, a click reveals in the state the page reads |
| Spreads.RevealAllShared | client/src/pages/Spreads.tsx:209-250 | with one state, turning over every card shows the questions once enough cards were delivered |
| Spreads.SpreadsPage.constructor | client/src/pages/Spreads.tsx:259 | no spread is active at first |
| Spreads.SpreadsPage.Select | client/src/pages/Spreads.tsx:271 | selecting makes that mode active |
| Spreads.SpreadsPage.Back | client/src/pages/Spreads.tsx:282 | the back button clears the active mode |
| SpreadSelection.FilteredOptions | client/src/pages/spreads/SpreadSelection.tsx:83-88 | an option is listed exactly when both filters are off or in its tags; the list order is kept |
| SpreadSelection.Ids | client/src/pages/spreads/SpreadSelection.tsx:180 | one id per option, position by position |
| SpreadSelection.NoFilterListsAll | client/src/pages/spreads/SpreadSelection.tsx:83-88 | with both filters off, every spread is listed in order |
| SpreadSelection.OptionIds | client/src/pages/spreads/SpreadSelection.tsx:16-81 | the options are exactly the nine modes `getSpreadComponent` handles, in its order |
| SpreadSelection.ChooseFilterEmpty | client/src/pages/spreads/SpreadSelection.tsx:167-173 | the "choose cards" filter empties the list whatever the count filter is |
| SpreadSelection.DrawFilterNeutral | client/src/pages/spreads/SpreadSelection.tsx:160-166 | the "draw cards" filter changes nothing |
| SpreadSelection.RunFilter | client/src/pages/spreads/SpreadSelection.tsx:83-88 | on a run tagged with one count tag, that count filter keeps all of it and any other keeps none |
| SpreadSelection.OneDrawRun | client/src/pages/spreads/SpreadSelection.tsx:17-38 | on the three one-draw spreads only the 1-2 filter keeps anything, and it keeps all |
| SpreadSelection.ShortRun | client/src/pages/spreads/SpreadSelection.tsx:39-52 | on the timeline and the story only the 3-5 filter keeps anything, and it keeps all |
| SpreadSelection.LongRun | client/src/pages/spreads/SpreadSelection.tsx:53-80 | on the journeys and wheels only the 6+ filter keeps anything, and it keeps all |
| SpreadSelection.RunIds | client/src/pages/spreads/SpreadSelection.tsx:16-81 | the spreads of each count run, by id |
| SpreadSelection.CountFewFilter | client/src/pages/spreads/SpreadSelection.tsx:132-140 | "1-2张" lists exactly image, word and pair |
| SpreadSelection.CountSomeFilter | client/src/pages/spreads/SpreadSelection.tsx:141-149 | "3-5张" lists exactly the timeline and the story |
| SpreadSelection.CountManyFilter | client/src/pages/spreads/SpreadSelection.tsx:150-158 | "6张以上" lists exactly the two journeys and the two wheels |
| SpreadSelection.OptionsAreDispatched | client/src/pages/spreads/SpreadSelection.tsx:16-81 | a listed spread has a component, a reveal span equal to its card count, and a count tag that agrees with that count |
| SpreadSelection.TagLabel | client/src/pages/spreads/SpreadSelection.tsx:202 | tags other than the two type tags are shown as they are |
| SpreadSelection.Filters.constructor | client/src/pages/spreads/SpreadSelection.tsx:11-14 | both filters start off |
| SpreadSelection.Filters.ClickAll | client/src/pages/spreads/SpreadSelection.tsx:123-130 | both filters are cleared and every spread is listed |
| SpreadSelection.Filters.ClickCount | client/src/pages/spreads/SpreadSelection.tsx:132-158 | the count filter toggles between this tag and off; the type filter is kept |
| SpreadSelection.Filters.ClickType | client/src/pages/spreads/SpreadSelection.tsx:160-173 | the type filter toggles between this tag and off; the count filter is kept |
| SpreadSelection.ClickCountTwice | client/src/pages/spreads/SpreadSelection.tsx:132-158 | two presses restore the list when the filter was off or this tag, and clear it otherwise |
| BalanceWheel.Round | client/src/pages/spreads/BalanceWheelSpread.tsx:68 | `Math.round`: the nearest integer, halves up |
| BalanceWheel.ClickIndexAsWritten | client/src/pages/spreads/BalanceWheelSpread.tsx:72-74 | the index as written lies in 0..6 |
| BalanceWheel.ClickIndexAsWrittenMissesTop | client/src/pages/spreads/BalanceWheelSpread.tsx:74-76 | clicks in [330, 360) give index 6, which is never revealed |
| BalanceWheel.ClickIndex | client/src/pages/spreads/BalanceWheelSpread.tsx:72-74 | the corrected index is in 0..5 and within 30 degrees of the click |
| BalanceWheel.ClickIndexAgreesBelowTop | client/src/pages/spreads/BalanceWheelSpread.tsx:74 | below 330 degrees the corrected index equals the as-written one |
| BalanceWheel.Clamp | client/src/pages/spreads/BalanceWheelSpread.tsx:68-70 | the score lies in 0..10 and equals the raw value inside that range |
| BalanceWheel.Labels | client/src/pages/spreads/BalanceWheelSpread.tsx:33-35 | the custom mode shows the keywords, the other the six defaults |
| BalanceWheel.RadarData | client/src/pages/spreads/BalanceWheelSpread.tsx:37-41 | one point per label with full mark 10; the value is the score once scored, else 0; a non-empty label is the subject |
| BalanceWheel.EmptyLabelSubject | client/src/pages/spreads/BalanceWheelSpread.tsx:38 | an empty label becomes `关键词 i+1`, distinct for distinct positions |
| BalanceWheel.Dot | client/src/pages/spreads/BalanceWheelSpread.tsx:99-109 | no dot exactly when unscored; green from 7, yellow from 5 to 6, red below 5 |
| BalanceWheel.SlotLabel | client/src/pages/spreads/BalanceWheelSpread.tsx:194-197 | the shown label is never empty: the keyword, `关键词`, or the default |
| BalanceWheel.Prefix | client/src/pages/spreads/BalanceWheelSpread.tsx:179 | `slice(0, n)` is the first n characters, or all of the string |
| BalanceWheel.FullSet | client/src/pages/spreads/BalanceWheelSpread.tsx:43 | positions in 0..5 number six exactly when all six are scored |
| BalanceWheel.BoundedSetCard | client/src/pages/spreads/BalanceWheelSpread.tsx:43 | a set below n has at most n elements, and n only when full |
| BalanceWheel.Wheel.constructor | client/src/pages/spreads/BalanceWheelSpread.tsx:21-31 | nothing is edited, scores are zero, nothing is scored, keywords are empty |
| BalanceWheel.Wheel.Score | client/src/pages/spreads/BalanceWheelSpread.tsx:76-81 | a revealed position takes the clamped score and becomes scored; otherwise nothing changes |
| BalanceWheel.Wheel.Click | client/src/pages/spreads/BalanceWheelSpread.tsx:57-83 | as written: the as-written index takes the clamped score and becomes scored if it is revealed; a click in [330, 360) changes nothing |
| BalanceWheel.Wheel.ClickCorrected | client/src/pages/spreads/BalanceWheelSpread.tsx:57-83 | corrected: the nearest card, wrapped into 0..5, takes the score if it is revealed |
| BalanceWheel.Wheel.Radar | client/src/pages/spreads/BalanceWheelSpread.tsx:37-41 | six points; each value is the score once scored, else 0, and lies within the full mark |
| BalanceWheel.Subject | client/src/pages/spreads/BalanceWheelSpread.tsx:38 | a non-empty label is the subject; the subject is never empty |
| BalanceWheel.Wheel.StartEdit | client/src/pages/spreads/BalanceWheelSpread.tsx:190-192 | a double-click starts editing that label |
| BalanceWheel.Wheel.KeyDown | client/src/pages/spreads/BalanceWheelSpread.tsx:183-185 | Enter ends the edit; other keys keep it open |
| BalanceWheel.Wheel.Blur | client/src/pages/spreads/BalanceWheelSpread.tsx:182 | leaving the input ends the edit |
| BalanceWheel.Wheel.EditKeyword | client/src/pages/spreads/BalanceWheelSpread.tsx:177-181 | the keyword at idx becomes the first four characters of the text |
| BalanceWheel.RadarAfterScore | client/src/pages/spreads/BalanceWheelSpread.tsx:37-41 | a score at idx shows at idx of the radar and nowhere else |
| BalanceWheel.RadarInRange | client/src/pages/spreads/BalanceWheelSpread.tsx:37-41 | radar values lie between 0 and the full mark |
| BalanceWheel.EditInvisibleWithoutCustom | client/src/pages/spreads/BalanceWheelSpread.tsx:34-35 | in the fixed-label mode an edit leaves the shown labels unchanged |
| BalanceWheel.ScoreTwice | client/src/pages/spreads/BalanceWheelSpread.tsx:76-81 | two clicks on one revealed position leave the second score and one scored mark; on an unrevealed one, nothing |
| PositiveNegative.PropOr | client/src/pages/spreads/PositiveNegativeSpread.tsx:20-22 | a passed prop wins over the hook's own value |
| PositiveNegative.Layout | client/src/pages/spreads/PositiveNegativeSpread.tsx:26-32 | nothing below two cards; otherwise slots 0/1 or 1/0 by `swapped`, each slot's card at its reveal index |
| PositiveNegative.SwapExchangesSlots | client/src/pages/spreads/PositiveNegativeSpread.tsx:31-78 | swapping exchanges the two slots, card and reveal state together |
| PositiveNegative.LayoutIgnoresRest | client/src/pages/spreads/PositiveNegativeSpread.tsx:31-32 | only the first two cards matter |
| PositiveNegative.PositiveNegativeSpread.constructor | client/src/pages/spreads/PositiveNegativeSpread.tsx:24 | not swapped at first |
| PositiveNegative.PositiveNegativeSpread.Swap | client/src/pages/spreads/PositiveNegativeSpread.tsx:34-36 | the flag flips |
| PositiveNegative.SwapTwice | client/src/pages/spreads/PositiveNegativeSpread.tsx:34-36 | two swaps restore the layout |
| PositiveNegative.OwnDrawRejected | client/src/pages/spreads/PositiveNegativeSpread.tsx:16-18 | the hook's own request names "positive-negative", which the draw input rejects |
| PairSpread.PairView | client/src/pages/spreads/PairSpread.tsx:10-15 | nothing when a type is missing; otherwise the first image and the first word of the hand |
| PairSpread.PairViewAppend | client/src/pages/spreads/PairSpread.tsx:10-11 | cards after the first of each type are ignored |
| PairSpread.PairViewOfDraw | client/src/pages/spreads/PairSpread.tsx:10-23 | a successful pair draw is shown as drawn |
| CardDisplay.ImageSrc | client/src/components/CardDisplay.tsx:66 | `http` content is kept; anything else is a file under `/images/`; the src ends with the content |
| CardDisplay.Front | client/src/components/CardDisplay.tsx:28-67 | text with its number exactly for a word card whose content is not image-like; otherwise an image with the title as alt |
| CardDisplay.ShowsFront | client/src/components/CardDisplay.tsx:16 | the front shows unless `isRevealed` is false |
| CardDisplay.PairWordLayer | client/src/components/CardDisplay.tsx:130-142 | the frame is an `/images/` image exactly when the content is image-like, else the bare word |
| CardDisplay.PairImageLayer | client/src/components/CardDisplay.tsx:150-153 | the picture is always an image, with the same src rule as a single card |
| CardDisplay.IsImageContent | client/src/components/CardDisplay.tsx:29 | empty content is never image content |
| CardDisplay.ImageContentIgnoresCase | client/src/components/CardDisplay.tsx:29 | the image test ignores letter case |
| CardDisplay.PlainTextIsNotImage | client/src/components/CardDisplay.tsx:29 | content without '.' or '_' is never image content |
| CardDisplay.UnderscoreIsImage | client/src/components/CardDisplay.tsx:29 | content with a '_' is image content |
| CardDisplay.PairWordLayerAgrees | client/src/components/CardDisplay.tsx:130-132 | a word card shows as text in the pair exactly when it does alone; the src agrees except for `http` content |
| CardDisplay.PairWordLayerHttp | client/src/components/CardDisplay.tsx:132 | an `http` word card with '_' is loaded from its address alone, but under `/images/` in a pair |
| CardDisplay.SeededWordIsText | server/storage.ts:117 | every seeded word card is drawn as text |
| CardDisplay.SeededImageIsImage | server/storage.ts:101 | every seeded image card is drawn as an image from `/images/` |
| CardDisplay.SeededFaces | client/src/components/CardDisplay.tsx:50-60 | a seeded word card shows its word and number |
| Gallery.FilterCards | client/src/pages/Gallery.tsx:19-26 | no cards gives []; an empty term gives all; otherwise exactly the cards whose title or content contains the term, in order |
| Gallery.MatchesTerm | client/src/pages/Gallery.tsx:22-25 | the empty term matches every card, and a term equal to the title up to case matches |
| Gallery.EmptyTermMatchesAll | client/src/pages/Gallery.tsx:21-25 | the early return for an empty term agrees with the filter |
| Gallery.CaseInsensitive | client/src/pages/Gallery.tsx:23-24 | terms equal up to case find the same cards |
| Gallery.FindsOwnTitle | client/src/pages/Gallery.tsx:23 | a card's own title, in any case, finds it |
| Gallery.LongerTermNarrows | client/src/pages/Gallery.tsx:22-25 | a longer term finds no more cards than its prefix |
| Gallery.MatchNarrows | client/src/pages/Gallery.tsx:22-25 | a card matching a term matches each prefix of it |
| CountedDraw.ServeAsWritten | server/routes.ts:30-44 | rejected exactly for a mode outside the enum; single draws succeed with at most one card; every card returned is a row |
| CountedDraw.Serve | server/routes.ts:30-44 | rejected exactly for a mode outside the enum or a count below 1; an image draw gives min(count, images) cards; a pair is served as before |
| CountedDraw.MultiCardShortAsWritten | server/storage.ts:26-44 | a multi-card spread asks for `CardCount` cards, at least 3, and receives at most one |
| CountedDraw.Deliver | client/src/pages/spreads/useSpreadsState.ts:34-60 | a delivery to a quiet hook becomes its cards; `hasData` holds exactly when there are enough |
| CountedDraw.Sample | server/storage.ts:26-44 | sampling without replacement: min(count, pool size) cards, all from the pool, with ids kept distinct |
| CountedDraw.ParseCountedInput | shared/routes.ts:47-49 | the mode as before, plus an optional positive count that defaults to 1 |
| CountedDraw.DrawCounted | server/storage.ts:26-70 | a single-type draw gives min(count, available) cards of the type from the table, with distinct ids; the pair is unchanged |
| CountedDraw.SampleOne | server/storage.ts:28 | a sample of one is the single random pick |
| CountedDraw.CountOneAgrees | server/storage.ts:27-44 | a counted draw of one equals the draw as written |
| CountedDraw.SingleSpreadsUnchanged | client/src/pages/spreads/useSpreadsState.ts:76-80 | single-card and pair spreads are served as before |
| CountedDraw.MultiCardFilled | client/src/pages/spreads/useSpreadsState.ts:63-75 | with the count honoured, a seeded table gives each multi-card spread exactly its count of distinct image cards |
| Seqs.Filter | client/src/pages/Gallery.tsx:22 | `filter` keeps exactly the passing elements, in order |
| Seqs.FindFirst | client/src/pages/spreads/PairSpread.tsx:10-11 | `find` gives the first passing element, or `undefined` exactly when none passes |
| Strings.IndexOf | shared/routes.ts:66-67 | the first occurrence of a pattern from a position, or none |
| Strings.Lower | client/src/pages/Gallery.tsx:23-24 | lower-casing maps each character on its own (ASCII letters only) and keeps the length |
| Strings.NatToString | shared/routes.ts:67 | `String(n)`: digits only, one digit exactly below 10, no leading zero |
| Strings.NatToStringValue | shared/routes.ts:67 | the digits read back as a number give n |
| Strings.IntToString | shared/routes.ts:67 | a minus sign exactly for negative n, followed by the digits of its magnitude |
| Strings.NatToStringInjective | client/src/pages/spreads/BalanceWheelSpread.tsx:38 | distinct numbers have distinct decimal forms |

## Left out

- Database access (drizzle, SQL) is left out. The table is a sequence of rows, and `ORDER BY RANDOM() LIMIT 1` is an explicit `pick` argument, so nothing here is random. The `console.log` after seeding is left out too.
- The Express handlers of server/routes.ts are modelled only through `CountedDraw.ServeAsWritten`. Left out of them: the 404 response of the card route, the zod error message and field path of a 400, and the `errorSchemas` definitions.
- A pair draw with a missing side reads `.id` of `undefined` and throws a TypeError. The model gives `Err(MissingRow)` in its place.
- React Query fetching is left out. The mutation's `data` changes only through `Resolve`. Left out: `isPending`, loading flags, and whether `data` is cleared while a request is pending.
- The one-second `setTimeout` is the `TimerFired` event. No timing is modelled.
- The click geometry of the balance wheel (`sqrt`, `atan2`, the pixel centre) is floating point, so it is left out. A click is given as its angle, normalised to [0, 360), and its rounded raw score.
- BalanceWheel.Clamp: clamps the score after rounding, where the source rounds after clamping. The two agree because the bounds 0 and 10 are integers.
- BalanceWheel.Wheel.Score: requires the keys of `revealed` to be card positions 0..5. The spread shows `currentCards.slice(0, 6)` (client/src/pages/spreads/BalanceWheelSpread.tsx:130), so no click can reveal another key; with a revealed key 6 the source would write a seventh score.
- BalanceWheel.Wheel.Click: carries the same requirement on `revealed` as `Score`, and so does `ClickCorrected`.
- BalanceWheel.RadarData: requires at least as many scores as labels. The component always has six of each.
- Letter case is folded for ASCII only. This applies to `toLowerCase` in the gallery and to the `/i` flag of the image-extension test.
- `String(value)` in `buildUrl` covers integers only; there is no float formatting. `Object.entries` order is taken as the order of the given entry sequence.
- `slice(0, 4)` counts characters, where JavaScript counts UTF-16 code units.
- Rendering is left out:
  - JSX and CSS classes, animations, and recharts drawing;
  - the `onError` fallback that replaces a broken image;
  - the `desc` and `bg` option fields;
  - the label text of the filter buttons.
- Layout-only pages are not part of this model: Home, Sponsor, Layout, and the spreads that only lay out cards.
- Two cases are checked only as lemmas, not as components:
  - the "ho-oponopono" spread, which has no component;
  - modes outside the dispatched list.
- `ActiveSpread` and each spread component draw separately on mount. The model keeps two `SpreadState` objects but does not follow both draws.

## Findings

| source | as written | input that shows it | evidently intended | confidence | as-written member | corrected member |
|---|---|---|---|---|---|---|
| client/src/pages/spreads/BalanceWheelSpread.tsx:72-76 | `Math.round((angle / 60) % 6)`: the `% 6` is applied before rounding, so angles in [330, 360) round to 6; `revealed[6]` is never set, so the click is ignored | a click at angle 345 on a revealed top card: the index is 6 and the score is dropped | the nearest card, index 0, i.e. the rounded index taken mod 6 | not executed | BalanceWheel.ClickIndexAsWrittenMissesTop | BalanceWheel.ClickIndex |
| server/storage.ts:26-44 | the draw input schema has only `mode`, and `drawCards` takes only the mode, so `count` is dropped; an image draw returns at most one card | mode "story" sends `{mode: "image", count: 5}`; one card comes back, `hasData` (5 needed) never holds, and the spread stays on the loading view | `count` distinct image cards, sampled without replacement | not executed | CountedDraw.MultiCardShortAsWritten | CountedDraw.MultiCardFilled |
| client/src/pages/Spreads.tsx:25-33 | `ActiveSpread` and the spread component each call `useSpreadState`; card clicks change only the component's `revealed`, and draw-again resets only the page's | reveal every card of "story": the page's `revealed` stays `{}`, `allRevealed` is false, and no question ever shows | one shared state, passed down as `PositiveNegativeSpread` accepts through its props | not executed | Spreads.RevealAllAsWritten | Spreads.RevealAllShared |
