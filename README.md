# KaKioku review scheduling, modelled in Dafny

KaKioku is a handwritten flash-card app. A deck is a directory. Each card in
it is three files: `<id>_Q.png` (the question), `<id>_A.png` (the answer)
and `<id>_D.txt`. The `D.txt` file holds one line, `<level>,<epoch ms>`.

This project models the scheduling core of the app:

- **Leveling.** The level a card moves to after "retry", "hard" and "normal".
- **Due check.** The interval table and `isFire`, the test for whether a card is due.
- **Metadata line.** How the `D.txt` line is written and read back.
- **Deck indexer.** `DeckParser`, which turns a directory listing into card records.
- **Review queue.** `CardQueue`, with its two pools: `target` (the cards to show in this pass) and `rest` (the others).
- **Session driver.** The review session in `QAActivity`: the buttons it offers, and the pop / pushRest / setup loop.
- **Deck list.** The deck list of `DeckListActivity`: its directory filter and name order, its "due/total" labels, and the "N/N" placeholders.

Files, one module each:

| file | module | models |
|---|---|---|
| `wrappers.dfy` | `Wrappers` | `Option` and `Result` |
| `numbers.dfy` | `Numbers` | Kotlin `Int`/`Long` ranges and two's-complement wrap-around |
| `decimal.dfy` | `Decimal` | `"$n"` string templates and `String.toInt`/`toLong` |
| `metadata.dfy` | `Metadata` | `updateData`/`parseData` line format, `readLine`, `split(",")` |
| `leveling.dfy` | `Leveling` | `CardData.nextLevelNormal/Hard/Retry` |
| `cards.dfy` | `Cards` | `CardDataSource`, `levelToIntervalMin`, `isFire`, `copyWithLevel` |
| `deck_index.dfy` | `DeckIndex` | `DeckParser` (`splitFileName`, `listFiles`, `filterValidCardList`) |
| `card_queue.dfy` | `Queue` | `CardQueue` (`setup`, `isEnd`, `pop`, `pushRest`, `shuffle`) |
| `review_session.dfy` | `Review` | the choice buttons and the session loop of `QAActivity` |
| `deck_list.dfy` | `DeckList` | `listFiles`, `loadFireCount` and the stats list of `DeckListActivity` |
| `index_example.dfy` | `IndexExample` | indexing one concrete five-file deck |

How the code is modelled:

- **Integers.** Kotlin `Int` and `Long` are the subset types `Int32` and `Long`. Wrap-around is explicit: `level + 1` in `nextLevelNormal` and `now - date` in `isFire` both wrap.
- **Clock.** Every `Date()` read is a parameter.
- **Shuffle.** The random source is a function `rand`. `Shuffle` is the Fisher–Yates loop of `Collections.shuffle`.
- **Storage.** A `Storage` value gives a directory's entries and a file's text.
- **Objects.** The stateful objects are classes whose methods update their fields: `DeckParser`, `CardQueue`, the session state of `QAActivity`, and the deck list state.
- **Dictionary.** `cardDict` is a `mutableMapOf`, which is a `LinkedHashMap`. It is modelled as a map plus its keys in insertion order, because `filterValidCardList` lists cards in that order.
- **Exceptions.** An exception from `parseData` during indexing becomes an error result (`None` / `ok == false`). It aborts the whole listing, as it does in the app.

Level 6 waits `(60*24)*9` = 12960 minutes (nine days), as `levelToIntervalMin` computes it.

## Model

| member | source | states |
|---|---|---|
| Numbers.WrapInt | app/src/main/java/io/github/karino2/kakioku/CardQueue.kt:19 | Kotlin `Int` arithmetic: the result is in 32-bit range, equals the exact value when that fits, and is congruent to it modulo 2^32 |
| Numbers.WrapLong | app/src/main/java/io/github/karino2/kakioku/CardQueue.kt:68 | Kotlin `Long` arithmetic: in 64-bit range, exact when it fits, congruent modulo 2^64 |
| Decimal.NatToDecimal | app/src/main/java/io/github/karino2/kakioku/CardQueue.kt:102 | `"$n"` for a natural: non-empty, digits only, no leading zero |
| Decimal.IntToDecimal | app/src/main/java/io/github/karino2/kakioku/CardQueue.kt:102 | `"$n"` for an integer: a leading '-' exactly when negative, digits elsewhere |
| Decimal.ParseInteger | app/src/main/java/io/github/karino2/kakioku/CardQueue.kt:111 | `toInt`/`toLong`: a result is in range, the text is an optional sign followed by at least one digit, and the result is the digits' value with the text's sign; conversely every such text whose value is in range parses |
| Decimal.NatToDecimalValue | app/src/main/java/io/github/karino2/kakioku/CardQueue.kt:102 | the digits written for n read back as n |
| Decimal.ParseIntegerRoundTrip | app/src/main/java/io/github/karino2/kakioku/CardQueue.kt:102-111 | parsing the decimal text of any in-range integer gives that integer back |
| Decimal.ParseIntegerRejects | app/src/main/java/io/github/karino2/kakioku/CardQueue.kt:111 | a non-digit after the sign makes `toInt`/`toLong` fail |
| Decimal.ParseIntegerLenient | app/src/main/java/io/github/karino2/kakioku/CardQueue.kt:111 | leading zeros ("007"), a `+` sign and "-0" are accepted with their values |
| Decimal.ParseIntegerOutOfRange | app/src/main/java/io/github/karino2/kakioku/CardQueue.kt:111 | the text of a value outside the type's range fails to parse |
| Metadata.Split | app/src/main/java/io/github/karino2/kakioku/CardQueue.kt:110 | `split(",")`: at least one field, no field contains the separator, and joining the fields with it gives the input back |
| Metadata.SplitAtFirst | app/src/main/java/io/github/karino2/kakioku/CardQueue.kt:110 | splitting at the first separator peels off the text before it as the first field |
| Metadata.SplitNoSeparator | app/src/main/java/io/github/karino2/kakioku/CardQueue.kt:110 | a text with no separator is a single field |
| Metadata.TakeLine | app/src/main/java/io/github/karino2/kakioku/CardQueue.kt:110 | `readLine`'s line: the longest prefix without a line terminator, followed by one or by the end |
| Metadata.ReadLine | app/src/main/java/io/github/karino2/kakioku/CardQueue.kt:110 | `readLine` gives no line exactly on empty content, and otherwise the first line |
| Metadata.Serialize | app/src/main/java/io/github/karino2/kakioku/CardQueue.kt:102 | the written line `"$level,$date"` holds a comma and no line terminator |
| Metadata.ParseLine | app/src/main/java/io/github/karino2/kakioku/CardQueue.kt:110-111 | a parsed line has at least two fields, the first is the `toInt` level and the second the `toLong` date; a line without a comma fails |
| Metadata.ParseLineErrorKinds | app/src/main/java/io/github/karino2/kakioku/CardQueue.kt:110-111 | the level is read first: the error is `BadLevel` exactly when the first field is not an `Int`, `TooFewFields` exactly when the line is one `Int` with no comma, and `BadDate` exactly when the first field is an `Int` and the second is not a `Long`; the line parses exactly when it has two fields or more, the first an `Int` and the second a `Long` |
| Metadata.ParseData | app/src/main/java/io/github/karino2/kakioku/CardQueue.kt:107-113 | `parseData` on empty content fails, since `readLine` gives null; otherwise it is the parse of the first line alone, so later lines never matter |
| Metadata.SmallNumbersParse | app/src/main/java/io/github/karino2/kakioku/CardQueue.kt:111 | "5" reads as the `Int` 5 and "100" as the `Long` 100 |
| Metadata.ExtraFieldsIgnored | app/src/main/java/io/github/karino2/kakioku/CardQueue.kt:110-111 | "5,100,x" parses to level 5, date 100: fields after the second are never read |
| Metadata.PlusSignAccepted | app/src/main/java/io/github/karino2/kakioku/CardQueue.kt:111 | "+5,100" parses to level 5, date 100, as `toInt` accepts a `+` sign |
| Metadata.LevelReadFirst | app/src/main/java/io/github/karino2/kakioku/CardQueue.kt:110-111 | "x" and "" fail on the level, "5" on the missing second field |
| Metadata.SplitSerialized | app/src/main/java/io/github/karino2/kakioku/CardQueue.kt:102-110 | the written line splits into exactly the two decimal fields |
| Metadata.RoundTrip | app/src/main/java/io/github/karino2/kakioku/CardQueue.kt:97-113 | reading back what `updateData` wrote gives the same level and date, for every `Int` level and `Long` date |
| Metadata.LevelOutOfRangeRejected | app/src/main/java/io/github/karino2/kakioku/CardQueue.kt:111 | a level one past `Int.MAX_VALUE` is rejected by `toInt` |
| Leveling.NextLevelNormal | app/src/main/java/io/github/karino2/kakioku/CardQueue.kt:16-20 | 0→2, 1→3, levels 2..7 go to `level + 1`, 8 and above stay at 8, negative levels add one, and `Int.MAX_VALUE` wraps to `Int.MIN_VALUE` |
| Leveling.NextLevelHard | app/src/main/java/io/github/karino2/kakioku/CardQueue.kt:21-27 | the result is in [3, 5] and at most the level from 3 up; 3→3, 4 and 5→4, 6 and above→5, below 3→3 except `Int.MIN_VALUE`, whose wrapped `level - 1` gives 5 |
| Leveling.NextLevelRetry | app/src/main/java/io/github/karino2/kakioku/CardQueue.kt:28 | always 1 |
| Leveling.HardBetweenThreeAndNormal | app/src/main/java/io/github/karino2/kakioku/CardQueue.kt:16-27 | from level 3 up, hard lies in [3, level] and strictly below normal |
| Leveling.NormalWrapsAtIntMax | app/src/main/java/io/github/karino2/kakioku/CardQueue.kt:19 | at `Int.MAX_VALUE` normal overflows to a negative level while hard stays positive |
| Leveling.NormalClimbsToEight | app/src/main/java/io/github/karino2/kakioku/CardQueue.kt:16-20 | from levels 0..8 normal stays in 0..8 and reaches 8 exactly from 7 and 8 |
| Cards.IsFire | app/src/main/java/io/github/karino2/kakioku/CardQueue.kt:62-79 | levels 0 and 1 are always due; above them a card is due exactly when the wrapped `Long` difference `now - date` is at least (interval + 1) whole minutes, so a negative difference is never due |
| Cards.IntervalMin | app/src/main/java/io/github/karino2/kakioku/CardQueue.kt:49-59 | zero exactly at levels 0 and 1, never above 20 days, and a whole number of days except at level 2 |
| Cards.IntervalTable | app/src/main/java/io/github/karino2/kakioku/CardQueue.kt:49-59 | the table is 0, 0, 10, 1440, 2880, 7200, 12960, 20160 minutes for levels 0..7 and 28800 elsewhere |
| Cards.IntervalMonotone | app/src/main/java/io/github/karino2/kakioku/CardQueue.kt:49-59 | the interval never shrinks as a non-negative level grows |
| Cards.CopyWithLevel | app/src/main/java/io/github/karino2/kakioku/CardQueue.kt:81 | only `level` and `date` change; the id and the three files stay |
| Cards.UpdateData | app/src/main/java/io/github/karino2/kakioku/CardQueue.kt:97-105 | the line written for a card parses back to the card's level and the write time |
| Cards.NewAndRetriedAlwaysDue | app/src/main/java/io/github/karino2/kakioku/CardQueue.kt:64-65 | a card at level 0 or 1 is due whatever its date and the time |
| Cards.DivisionThreshold | app/src/main/java/io/github/karino2/kakioku/CardQueue.kt:76-78 | whole minutes elapsed exceed k exactly when at least (k+1) minutes of milliseconds have elapsed |
| Cards.DueThreshold | app/src/main/java/io/github/karino2/kakioku/CardQueue.kt:62-79 | from level 2 on and without overflow, a card is due exactly when (interval + 1) whole minutes have passed, and never when it was answered in the future |
| Cards.DueMonotone | app/src/main/java/io/github/karino2/kakioku/CardQueue.kt:62-79 | without overflow, once a card is due it stays due as time moves on |
| Cards.NewCardAnsweredNormal | app/src/main/java/io/github/karino2/kakioku/CardQueue.kt:16-17 | a new card answered "normal" becomes level 2, keeps its id and files, and is due again exactly once 11 minutes have passed |
| Cards.ElapsedWrapsAround | app/src/main/java/io/github/karino2/kakioku/CardQueue.kt:68-74 | with a date of `Long.MIN_VALUE` the elapsed time wraps negative, so a level-2 card is not due |
| DeckIndex.LastIndexOf | app/src/main/java/io/github/karino2/kakioku/CardQueue.kt:171 | `lastIndexOf`: -1 when the character is absent, otherwise its last position |
| DeckIndex.SplitFileName | app/src/main/java/io/github/karino2/kakioku/CardQueue.kt:170-175 | no split exactly when the name has no '_'; otherwise id + "_" + suffix is the name and the suffix has no '_' |
| DeckIndex.SplitBuiltName | app/src/main/java/io/github/karino2/kakioku/CardQueue.kt:170-175 | a name built as `"${id}_${suffix}"` splits back to (id, suffix), even when the id holds '_' |
| DeckIndex.IsValid | app/src/main/java/io/github/karino2/kakioku/CardQueue.kt:164-165 | a valid record has its question, answer, metadata file and date all set, so a fresh `TmpCardDataSource(id)` never is; which files make a record valid is `DeckIndex.CompleteIffExpected` |
| DeckIndex.Finalize | app/src/main/java/io/github/karino2/kakioku/CardQueue.kt:201 | the card built from a valid partial record carries its id, level, files and date |
| DeckIndex.Put | app/src/main/java/io/github/karino2/kakioku/CardQueue.kt:186-193 | `cardDict[id] = t` updates that key and keeps the dictionary well formed; a new key goes last in the key order and an existing one keeps its place |
| DeckIndex.AddFile | app/src/main/java/io/github/karino2/kakioku/CardQueue.kt:183-196 | one listed file throws exactly when it is a `D.txt` whose line does not parse; otherwise the dictionary stays well formed |
| DeckIndex.IndexFiles | app/src/main/java/io/github/karino2/kakioku/CardQueue.kt:181-199 | the pass over the listing keeps the dictionary well formed |
| DeckIndex.IndexFilesSnoc | app/src/main/java/io/github/karino2/kakioku/CardQueue.kt:182-198 | one more listed file: the pass so far, then that file's step unless the pass already threw |
| DeckIndex.FailureSticks | app/src/main/java/io/github/karino2/kakioku/CardQueue.kt:181-199 | once a file throws, the rest of the listing changes nothing |
| DeckIndex.ValidCards | app/src/main/java/io/github/karino2/kakioku/CardQueue.kt:201 | every valid record in the dictionary appears among the cards, which are no more than the keys |
| DeckIndex.ValidCardsExactly | app/src/main/java/io/github/karino2/kakioku/CardQueue.kt:201 | the cards are exactly the finalized valid records, each filed under its own id, and no id appears twice |
| DeckIndex.SameCardsWithout | app/src/main/java/io/github/karino2/kakioku/CardQueue.kt:201 | dropping the first key's record does not change the cards the later keys give |
| DeckIndex.SameCardsOutside | app/src/main/java/io/github/karino2/kakioku/CardQueue.kt:201 | a record under a key outside the order does not change the cards |
| DeckIndex.LastWith | app/src/main/java/io/github/karino2/kakioku/CardQueue.kt:183-193 | the file found for (id, suffix) is in the listing and splits to that id and suffix |
| DeckIndex.LastWithSnoc | app/src/main/java/io/github/karino2/kakioku/CardQueue.kt:186-193 | a later file for the same id and slot replaces the earlier one |
| DeckIndex.AddFileElsewhere | app/src/main/java/io/github/karino2/kakioku/CardQueue.kt:195 | a file of another id, or with another suffix, leaves an id's record as it was |
| DeckIndex.ExpectedElsewhere | app/src/main/java/io/github/karino2/kakioku/CardQueue.kt:195 | such a file does not change the record the listing should give that id |
| DeckIndex.StepOther | app/src/main/java/io/github/karino2/kakioku/CardQueue.kt:195 | indexing such a file keeps that id's record correct |
| DeckIndex.EntryExpected | app/src/main/java/io/github/karino2/kakioku/CardQueue.kt:186-193 | `cardDict[id] ?: TmpCardDataSource(id)` is the record expected so far |
| DeckIndex.StepQuestion | app/src/main/java/io/github/karino2/kakioku/CardQueue.kt:185-187 | a `Q.png` file never throws and keeps its id's record correct |
| DeckIndex.StepAnswer | app/src/main/java/io/github/karino2/kakioku/CardQueue.kt:188-190 | an `A.png` file never throws and keeps its id's record correct |
| DeckIndex.AddDataEntry | app/src/main/java/io/github/karino2/kakioku/CardQueue.kt:191-194 | a parsing `D.txt` file sets the data file, level and date of its id |
| DeckIndex.ExpectedData | app/src/main/java/io/github/karino2/kakioku/CardQueue.kt:191-194 | a `D.txt` file's line decides the expected level and date of its id |
| DeckIndex.StepData | app/src/main/java/io/github/karino2/kakioku/CardQueue.kt:191-194 | a parsing `D.txt` file does not throw and keeps its id's record correct |
| DeckIndex.StepIndexesAt | app/src/main/java/io/github/karino2/kakioku/CardQueue.kt:182-198 | every file that does not throw keeps each id's record correct |
| DeckIndex.StepIndexes | app/src/main/java/io/github/karino2/kakioku/CardQueue.kt:182-198 | every file that does not throw keeps the whole dictionary correct |
| DeckIndex.AllDataParseSnoc | app/src/main/java/io/github/karino2/kakioku/CardQueue.kt:191-192 | all `D.txt` files of a longer listing parse exactly when those before do and the new one does |
| DeckIndex.IndexCharacterized | app/src/main/java/io/github/karino2/kakioku/CardQueue.kt:181-199 | indexing runs to the end exactly when every `D.txt` file parses; each mentioned id then has the record made of its last Q, A and D files |
| DeckIndex.CompleteIffExpected | app/src/main/java/io/github/karino2/kakioku/CardQueue.kt:165 | an id's record is valid and gives a card exactly when its last Q, A and D files are present and its line parses to the card's level and date |
| DeckIndex.ValidCardsOfListing | app/src/main/java/io/github/karino2/kakioku/CardQueue.kt:181-201 | after a successful pass, the cards are exactly the complete groups, each id once; partial groups are dropped |
| DeckIndex.DeckParser.constructor | app/src/main/java/io/github/karino2/kakioku/CardQueue.kt:143-168 | a new parser has an empty dictionary |
| DeckIndex.DeckParser.ListFiles | app/src/main/java/io/github/karino2/kakioku/CardQueue.kt:181-199 | the loop over the entries leaves the dictionary and outcome that the pass over the listing gives |
| DeckIndex.DeckParser.FilterValidCardList | app/src/main/java/io/github/karino2/kakioku/CardQueue.kt:201 | the cards are exactly the finalized valid records |
| DeckIndex.LoadValidCards | app/src/main/java/io/github/karino2/kakioku/QAActivity.kt:45-48 | a fresh parser's cards are the deck's valid cards, and it fails exactly when some `D.txt` does not parse |
| Queue.Fired | app/src/main/java/io/github/karino2/kakioku/CardQueue.kt:210 | `rest.filter { it.isFire }`: exactly the due cards, no more than there were |
| Queue.Unfired | app/src/main/java/io/github/karino2/kakioku/CardQueue.kt:211 | `removeAll { it.isFire }`: exactly the cards not due |
| Queue.FiredUnfiredPartition | app/src/main/java/io/github/karino2/kakioku/CardQueue.kt:209-211 | the due and the not-due cards together are the original cards, each as often |
| Queue.UnfiredHasNoneFired | app/src/main/java/io/github/karino2/kakioku/CardQueue.kt:209-213 | at the same instant a second setup finds nothing new: `target` membership is unchanged and `rest` stays the same |
| Queue.FiredSnoc | app/src/main/java/io/github/karino2/kakioku/CardQueue.kt:210-224 | after `pushRest(card)` the next setup moves the card exactly when it is due |
| Queue.UnfiredSnoc | app/src/main/java/io/github/karino2/kakioku/CardQueue.kt:211-224 | after `pushRest(card)` the next setup keeps the card in `rest` exactly when it is not due |
| Queue.Shuffle | app/src/main/java/io/github/karino2/kakioku/CardQueue.kt:212 | `shuffle` is a permutation: same length and same multiset |
| Queue.CardQueue.constructor | app/src/main/java/io/github/karino2/kakioku/CardQueue.kt:205-207 | a new queue has an empty `target` and every card in `rest` |
| Queue.CardQueue.Setup | app/src/main/java/io/github/karino2/kakioku/CardQueue.kt:209-213 | `rest` keeps its not-due cards in order; `target` gains exactly the due ones; no card is lost or duplicated; no card left in `rest` is due |
| Queue.CardQueue.IsEnd | app/src/main/java/io/github/karino2/kakioku/CardQueue.kt:215-216 | `isEnd` exactly when `target` is empty, and then every card the queue holds waits in `rest` |
| Queue.CardQueue.Pop | app/src/main/java/io/github/karino2/kakioku/CardQueue.kt:218-222 | on a non-empty `target`, returns its first card, removes only that card, and leaves `rest` alone |
| Queue.CardQueue.PushRest | app/src/main/java/io/github/karino2/kakioku/CardQueue.kt:224 | appends to `rest` and leaves `target` alone |
| Queue.SetupAsWritten | app/src/main/java/io/github/karino2/kakioku/CardQueue.kt:209-213 | `setup` with its two clock reads: `target` gains the cards of `rest` due at the first read; `rest` keeps the cards not due at the second read |
| Queue.SetupAsWrittenDropsCard | app/src/main/java/io/github/karino2/kakioku/CardQueue.kt:209-213 | a level-2 card becoming due between the two reads ends up in neither pool |
| Queue.SetupOneInstantConserves | app/src/main/java/io/github/karino2/kakioku/CardQueue.kt:209-213 | with both reads at one instant, no card is lost |
| Queue.ThreeCardsScenario | app/src/main/java/io/github/karino2/kakioku/CardQueue.kt:209-213 | cards at levels 0, 1 and 5: the first two are always moved, the third exactly when 7201 minutes have passed |
| Review.Choices | app/src/main/java/io/github/karino2/kakioku/QAActivity.kt:189-247 | levels 0..2 offer retry and normal; other levels offer retry, hard and normal. Retry sets 0 or 1 (the level itself, 0 from level 2, otherwise `nextLevelRetry`); hard and normal set `nextLevelHard` and `nextLevelNormal` |
| Review.RetryIsDueAtOnce | app/src/main/java/io/github/karino2/kakioku/QAActivity.kt:89-96 | whatever the level, a card answered "retry" is due at any later time |
| Review.EarlyRetryDiffers | app/src/main/java/io/github/karino2/kakioku/QAActivity.kt:196 | at levels 0 and 2 the retry button sets level 0, not `nextLevelRetry`'s 1 |
| Review.EarlyLabelsAccurate | app/src/main/java/io/github/karino2/kakioku/QAActivity.kt:193-195 | the normal button reads "10 min" at level 0, the wait of the level it sets, and "1 day" at levels 1 and 2, again that wait |
| Review.DayLabelsExact | app/src/main/java/io/github/karino2/kakioku/QAActivity.kt:214-246 | the hard and normal labels show the day count of the level they set, and that wait is a whole number of days |
| Review.Session.constructor | app/src/main/java/io/github/karino2/kakioku/QAActivity.kt:45-49 | the queue is built from the cards and set up once; the session finishes at once exactly when nothing is due, and otherwise the first card is popped |
| Review.Session.PopOrFinish | app/src/main/java/io/github/karino2/kakioku/QAActivity.kt:77-83 | pops the first card of `target` or, when it is empty, finishes; no card is lost |
| Review.Session.OnResult | app/src/main/java/io/github/karino2/kakioku/QAActivity.kt:88-101 | writes the re-leveled card's line and appends the card to `rest`. The next card comes from `target` if any remain; otherwise after a fresh setup. The session finishes only when that setup finds nothing due, and never after a retry |
| Review.Session.Requeue | app/src/main/java/io/github/karino2/kakioku/QAActivity.kt:91-96 | `pushRest` then, only when `target` is empty, `setup`: with cards left `rest` just gains the card; otherwise `rest` is the not-due part and `target` the due part of the old `rest` plus the card, empty exactly when nothing is due and never when the card is; the queue's cards grow by exactly that card |
| Review.OpenSession | app/src/main/java/io/github/karino2/kakioku/QAActivity.kt:45-49 | opening a deck fails exactly where indexing throws; otherwise the session starts from the deck's valid cards |
| DeckList.NameLess | app/src/main/java/io/github/karino2/kakioku/DeckListActivity.kt:73 | `compareTo < 0`: a name sorts first exactly when it is a proper prefix of the other, or at the first position where the two differ its character is the smaller |
| DeckList.NameLessIrreflexive | app/src/main/java/io/github/karino2/kakioku/DeckListActivity.kt:73 | no name sorts before itself |
| DeckList.NameLessAsymmetric | app/src/main/java/io/github/karino2/kakioku/DeckListActivity.kt:73 | two names never sort before each other |
| DeckList.NameLessTotal | app/src/main/java/io/github/karino2/kakioku/DeckListActivity.kt:73 | two different names always sort one way or the other |
| DeckList.NameLessTransitive | app/src/main/java/io/github/karino2/kakioku/DeckListActivity.kt:73 | the name order is transitive |
| DeckList.NotLessTransitive | app/src/main/java/io/github/karino2/kakioku/DeckListActivity.kt:73 | "not smaller" is transitive |
| DeckList.Directories | app/src/main/java/io/github/karino2/kakioku/DeckListActivity.kt:72 | exactly the directory entries, each as often as it is listed, and no other entry |
| DeckList.InsertDesc | app/src/main/java/io/github/karino2/kakioku/DeckListActivity.kt:73 | inserting adds exactly the one deck |
| DeckList.InsertKeepsSorted | app/src/main/java/io/github/karino2/kakioku/DeckListActivity.kt:73 | inserting into a descending list keeps it descending |
| DeckList.SortByNameDesc | app/src/main/java/io/github/karino2/kakioku/DeckListActivity.kt:73 | the sorted list is a permutation of its input, descending by name |
| DeckList.SortedDescPairwise | app/src/main/java/io/github/karino2/kakioku/DeckListActivity.kt:73 | in a descending list every earlier name is at least every later one |
| DeckList.ListDecks | app/src/main/java/io/github/karino2/kakioku/DeckListActivity.kt:67-74 | fails exactly when the root is not a directory; otherwise lists exactly its sub-directories, descending by name |
| DeckList.FireLabelReadsBack | app/src/main/java/io/github/karino2/kakioku/DeckListActivity.kt:168-170 | the label splits at its '/' into the due count and the total, and the due count is between 0 and the total |
| DeckList.FireLabel | app/src/main/java/io/github/karino2/kakioku/DeckListActivity.kt:170 | `"$fireNum/$total"`; it has no ensures of its own, and its contract is `DeckList.FireLabelReadsBack` |
| DeckList.DeckStats | app/src/main/java/io/github/karino2/kakioku/DeckListActivity.kt:164-171 | `loadFireCount` of one deck as a value: a deck gets a label exactly when all its `D.txt` files parse |
| DeckList.LoadFireCount | app/src/main/java/io/github/karino2/kakioku/DeckListActivity.kt:164-171 | the label is the due count over the count of the deck's valid cards, and none where indexing throws |
| DeckList.DeckListState.constructor | app/src/main/java/io/github/karino2/kakioku/DeckListActivity.kt:50-51 | the screen starts with no decks and no labels |
| DeckList.DeckListState.ReloadDeckList | app/src/main/java/io/github/karino2/kakioku/DeckListActivity.kt:59-64 | the new deck list, each with "N/N", one label per deck; nothing changes when listing throws |
| DeckList.DeckListState.LoadCardStats | app/src/main/java/io/github/karino2/kakioku/DeckListActivity.kt:85-94 | on success label i is deck i's label, one per deck; the load fails exactly when some deck's indexing throws, leaving the labels unchanged |
| IndexExample.File | app/src/main/java/io/github/karino2/kakioku/CardQueue.kt:118-120 | a card file is named `"${id}_${suffix}"` |
| IndexExample.FileSplits | app/src/main/java/io/github/karino2/kakioku/CardQueue.kt:170-175 | such a name splits back to its id and suffix |
| IndexExample.ExampleNames | app/src/main/java/io/github/karino2/kakioku/CardQueue.kt:118-120 | the example's names are 1_Q.png, 1_A.png, 1_D.txt, 2_Q.png and 2_A.png |
| IndexExample.ExampleLineParses | app/src/main/java/io/github/karino2/kakioku/CardQueue.kt:107-113 | the line "2,1000" parses to level 2, date 1000 |
| IndexExample.ExampleDeck | app/src/main/java/io/github/karino2/kakioku/CardQueue.kt:181-201 | indexing that listing gives exactly one card, id "1" at level 2 and date 1000; id "2", which lacks a `D.txt`, is dropped |

## Left out

- Storage I/O is not modelled: `ContentResolver` streams, bitmap decoding and PNG writing, and `DocumentFile` lookup and creation. A directory's entries and a file's text come from a `Storage` value.
- `DocumentFile.fromTreeUri` returning null is not modelled (DeckListActivity.kt:68, QAActivity.kt:42), and neither is `file.name!!` on a nameless entry (CardQueue.kt:183). Names are always present strings.
- `String.toInt`/`toLong` accept only ASCII digits here. Other Unicode decimal digits, which the JVM also accepts, are not modelled.
- Every `Date()` read is a parameter. `copyWithLevel`, `updateData` and `setup` each get their own (`answeredAt`, `writtenAt`, `setupAt`). `isFire` reads the clock once per card and per pass (CardQueue.kt:67, 210-211), but `Queue.CardQueue.Setup`, the `Review.Session` constructor and `Review.Session.OnResult` evaluate every `isFire` of one setup at a single instant. The Findings row shows what two instants can do.
- `DeckList.LoadFireCount`: evaluates every card's `isFire` at one instant, although `filter { it.isFire }` reads the clock once per card.
- Coroutines are not modelled. `startLoadCardStats` runs on `Dispatchers.IO` and publishes on the main thread. `LoadCardStats` runs it to completion in one step, so a reload that overlaps a load is not modelled.
- `DeckList.SortByNameDesc`: states the descending order and the permutation but not the stability of `sortedByDescending` among equal names. The insertion it uses keeps an inserted deck ahead of equal names, which makes it stable.
- `DeckList.NameLess`: compares names by Unicode scalar values, while Kotlin's `String.compareTo` compares UTF-16 code units. The two orders differ when two names first differ at a supplementary character (above U+FFFF) against one in U+E000–U+FFFF: "😀" sorts after "！" here but before it in the app.
- `DeckList.ListDecks`: states the descending order and the permutation but not the stability of `sortedByDescending` among equal names. The insertion sort that computes it is stable.
- `Leveling.HardBetweenThreeAndNormal`: holds below `Int.MAX_VALUE` only, because `nextLevelNormal` wraps there (see `Leveling.NormalWrapsAtIntMax`).
- `Cards.DueMonotone`: holds only while `now - date` does not overflow (see `Cards.ElapsedWrapsAround`).
- Compose UI, Toasts, `LiveData`, theming and the SharedPreferences last-URI store are not modelled. Nor are `loadCard` and `setCardDataSource`, which only load bitmaps for display.
- `DrawingCanvas.kt`, `CardListActivity.kt`, `EditCardActivity.kt` and `AddCardActivity.kt` are not part of this model.
- The session loop is modelled as a sequence of `OnResult` calls on one `Session` object. The back button and the edit screen are not modelled.

## Findings

| source | as written | input that shows it | evidently intended | confidence | as-written member | corrected member |
|---|---|---|---|---|---|---|
| app/src/main/java/io/github/karino2/kakioku/CardQueue.kt:209-213 | `setup` evaluates `isFire` in `filter` and again in `removeAll`, and each evaluation reads the clock anew | a level-2 card answered at 0 ms; the `filter` runs at 659999 ms (not due yet) and the `removeAll` at 660000 ms (due) | one instant for both passes, so every card lands in exactly one pool | not executed; the window is a few milliseconds wide | Queue.SetupAsWritten, Queue.SetupAsWrittenDropsCard | Queue.CardQueue.Setup, Queue.SetupOneInstantConserves |
