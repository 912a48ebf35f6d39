# Flash Deck: verified model of the review scheduler, the review session and the deck store

This project models the three pieces of sequential logic in the Flash Deck study app and proves properties of them in Dafny.

- **Spaced repetition** (`spaced_repetition.dfy`, module `SpacedRepetition`). This is the `CardStats` record and `recordCardReview` of the main view-model. The scheduler keeps a map from card id to statistics. Each answer fetches the card's record, or creates a default one. It then moves confidence up by 0.1 (capped at 1) or down by 0.15 (floored at 0). It schedules the next review 1, 3, 7 or 14 days after `now`, chosen by the review count *before* this answer. Finally it bumps the counters and replaces that one map entry. `Scheduler` is a class with the map as a field. `Scheduler.RecordCardReview` replays the Kotlin steps and is specified by the pure function `RecordReview`.
- **Review session** (`review_session.dfy`, module `ReviewSession`). This is the state of the review screen (`currentIndex`, `isFlipped`, `score`) and its click handlers: Show Answer, tapping the card, Forgot, Got it and Review Again. The final percentage uses truncating integer division. `Session` is a class. A ghost field `answers` records the answers given so far. Its invariant ties `score` to the number of "Got it" answers and `currentIndex` to the number of answers.
- **Deck store** (`deck_store.dfy`, module `DeckStore`). This is the in-memory view-model of the `flashdeck` package. It has an auto-incrementing deck id, an append-only deck list and a card list per deck id. It also has the values its placeholder dictionary and translation features hand to their callbacks. `Store` is a class over those three fields. The callback values are functions returning `Option` (`None` when the callback is never called).

Representation choices:
- Confidence is kept in integer hundredths (0..100, steps +10 / −15) instead of a `Float`.
- The clock is an explicit `now` parameter in epoch milliseconds. It also serves as the default `nextReviewTime` of a new record.
- Integers are unbounded.

The model follows the code as written, including where a fuller scheduler would behave differently:
- `recordCardReview` returns nothing.
- No "due cards" query exists.
- The session percentage truncates; it does not round.

## Model

| member | source | states |
|---|---|---|
| SpacedRepetition.DefaultStats | app/src/main/java/com/example/myapplication/viewmodel/MainViewModel.kt:27-33 | an unseen card starts with its own id, 0 reviews, 0 correct, confidence 0, and is well formed |
| SpacedRepetition.NextConfidence | app/src/main/java/com/example/myapplication/viewmodel/MainViewModel.kt:183-187 | correct: the result is c+0.1 or the cap 1, whichever is smaller; incorrect: c−0.15 or the floor 0, whichever is larger; a value in [0,1] stays in [0,1]; correct never lowers and incorrect never raises it |
| SpacedRepetition.Interval | app/src/main/java/com/example/myapplication/viewmodel/MainViewModel.kt:190-195 | the interval is a whole number of days between 1 and 14, and 14 days once the card was reviewed 3 or more times |
| SpacedRepetition.IntervalTable | app/src/main/java/com/example/myapplication/viewmodel/MainViewModel.kt:190-195 | 0 → 86 400 000 ms, 1 → 259 200 000 ms, 2 → 604 800 000 ms, ≥3 → 1 209 600 000 ms |
| SpacedRepetition.IntervalNeverShortens | app/src/main/java/com/example/myapplication/viewmodel/MainViewModel.kt:190-195 | a later review count never gets a shorter interval |
| SpacedRepetition.Reviewed | app/src/main/java/com/example/myapplication/viewmodel/MainViewModel.kt:197-204 | one answer keeps the card id, adds exactly 1 review, adds 1 correct iff the answer was correct, schedules the next review strictly after `now` by an interval that depends only on the previous count and not on correctness, and preserves correctCount ≤ timesReviewed and confidence in [0,1] |
| SpacedRepetition.StatsOrDefault | app/src/main/java/com/example/myapplication/viewmodel/MainViewModel.kt:180 | a card already in the map gets exactly its stored record; an unknown card gets the default record (own id, zero counters, confidence 0, next review time `now`); in a consistent map the record fetched carries the requested card id and is well formed |
| SpacedRepetition.RecordReview | app/src/main/java/com/example/myapplication/viewmodel/MainViewModel.kt:199-208 | after an answer the map's keys gain exactly `cardId`, every other entry is unchanged, the entry for `cardId` is the reviewed record, its review count is the old one (0 if absent) plus 1, and consistency (each record filed under its own id, well formed) is preserved |
| SpacedRepetition.Scheduler.constructor | app/src/main/java/com/example/myapplication/viewmodel/MainViewModel.kt:55 | the statistics map starts empty |
| SpacedRepetition.Scheduler.RecordCardReview | app/src/main/java/com/example/myapplication/viewmodel/MainViewModel.kt:179-211 | the step-by-step update leaves the map equal to `RecordReview` of the old map and keeps the scheduler's invariant |
| SpacedRepetition.ReviewAllCounters | app/src/main/java/com/example/myapplication/viewmodel/MainViewModel.kt:199-204 | after any sequence of answers on one card, timesReviewed grew by the number of answers, correctCount by the number of correct ones, the id is kept and the record stays well formed |
| SpacedRepetition.RecordAllStoresReviewAll | app/src/main/java/com/example/myapplication/viewmodel/MainViewModel.kt:179-211 | recording a sequence of answers for one card in the map stores exactly the record `ReviewAll` computes: from the stored record for a known card, from the default created at the first answer for an unknown one; every other entry is unchanged. This carries the repeated-answer lemmas over to the map |
| SpacedRepetition.ReviewSchedule | app/src/main/java/com/example/myapplication/viewmodel/MainViewModel.kt:190-202 | starting from an unseen card, the n-th answer schedules the next review Interval(n) after it: 1, 3, 7, 14, 14, … days, whatever the answers were |
| SpacedRepetition.CorrectRunConfidence | app/src/main/java/com/example/myapplication/viewmodel/MainViewModel.kt:183-184 | k correct answers in a row raise confidence to min(c + 0.1·k, 1) |
| SpacedRepetition.IncorrectRunConfidence | app/src/main/java/com/example/myapplication/viewmodel/MainViewModel.kt:185-186 | k incorrect answers in a row lower confidence to max(c − 0.15·k, 0) |
| SpacedRepetition.FirstCorrectAnswer | app/src/main/java/com/example/myapplication/viewmodel/MainViewModel.kt:179-208 | one correct answer for unseen card 1 at time t gives 1 review, 1 correct, confidence 0.1, next review t + 1 day |
| SpacedRepetition.TwoIncorrectAnswers | app/src/main/java/com/example/myapplication/viewmodel/MainViewModel.kt:179-208 | two incorrect answers for an unseen card give 2 reviews, 0 correct, confidence 0, next review 3 days after the second answer |
| ReviewSession.CountTrueAll | app/src/main/java/com/example/myapplication/ui/ReviewScreen.kt:162-169 | the number of "Got it" answers is at most the number of answers, and equals it iff every answer was "Got it" |
| ReviewSession.FinalPercentage | app/src/main/java/com/example/myapplication/ui/ReviewScreen.kt:73 | the percentage is 0 for an empty deck, otherwise the truncated quotient of score·100 by the deck size; with score ≤ size it lies in [0,100] and is 100 iff score == size |
| ReviewSession.Session.constructor | app/src/main/java/com/example/myapplication/ui/ReviewScreen.kt:40-42 | a session starts at index 0, front side up, score 0, no answers |
| ReviewSession.Session.Percentage | app/src/main/java/com/example/myapplication/ui/ReviewScreen.kt:69-76 | the shown score is in [0,100], is the final percentage of the number of "Got it" answers, and on a finished non-empty session is 100 iff every answer was "Got it" |
| ReviewSession.Session.ShowAnswer | app/src/main/java/com/example/myapplication/ui/ReviewScreen.kt:116-124 | "Show Answer", offered while the front is showing, turns the card over |
| ReviewSession.Session.Flip | app/src/main/java/com/example/myapplication/ui/ReviewScreen.kt:106-111 | tapping the card toggles `isFlipped` |
| ReviewSession.Session.Forgot | app/src/main/java/com/example/myapplication/ui/ReviewScreen.kt:145-151 | "Forgot" records an incorrect review for the current card's id, advances the index by 1, keeps the score, shows the front, and keeps score ≤ currentIndex ≤ size |
| ReviewSession.Session.GotIt | app/src/main/java/com/example/myapplication/ui/ReviewScreen.kt:162-169 | "Got it" records a correct review for the current card's id, advances both index and score by 1, shows the front, and keeps score ≤ currentIndex ≤ size |
| ReviewSession.Session.Restart | app/src/main/java/com/example/myapplication/ui/ReviewScreen.kt:77-81 | "Review Again" resets index, flip state and score to 0 / false / 0 |
| DeckStore.Store.constructor | app/src/main/java/com/example/flashdeck/viewmodel/MainViewModel.kt:16-26 | no decks, no card lists, next deck id 1 |
| DeckStore.Store.AddDeck | app/src/main/java/com/example/flashdeck/viewmodel/MainViewModel.kt:28-32 | the new deck gets the current next id, which then grows by 1; it is appended after the unchanged earlier decks, its id differs from all of theirs, ids stay strictly increasing in list order, and its card list is set to empty |
| DeckStore.Store.AddCard | app/src/main/java/com/example/flashdeck/viewmodel/MainViewModel.kt:34-37 | the card is appended at the end of the deck's list, which is created if absent; every other list, the deck list and the id counter are unchanged |
| DeckStore.Reverse | app/src/main/java/com/example/flashdeck/viewmodel/MainViewModel.kt:59 | the reversal has the same length and holds the i-th character from the end at position i |
| DeckStore.ReverseReverse | app/src/main/java/com/example/flashdeck/viewmodel/MainViewModel.kt:59 | reversing twice gives back the input |
| DeckStore.ReverseBlank | app/src/main/java/com/example/flashdeck/viewmodel/MainViewModel.kt:55-59 | a text and its reversal are blank together |
| DeckStore.TranslateText | app/src/main/java/com/example/flashdeck/viewmodel/MainViewModel.kt:54-62 | blank text gets no callback; other text gets its reversal |
| DeckStore.TranslateTwice | app/src/main/java/com/example/flashdeck/viewmodel/MainViewModel.kt:54-62 | translating the translation of non-blank text gives back the text |
| DeckStore.FetchDefinition | app/src/main/java/com/example/flashdeck/viewmodel/MainViewModel.kt:43-51 | a blank word gets no callback; any other word gets an answer from which `DefinedWord` reads the word back |
| DeckStore.DefinedWord | app/src/main/java/com/example/flashdeck/viewmodel/MainViewModel.kt:48 | a string it accepts is exactly `Definition of '` + word + `'` |

## Left out

- The Compose UI is not modelled: layouts, the flip animation, the progress bar, theming, the splash screen and the chat button. It is rendering only.
- The session methods require the state in which the screen shows their button. These guards come from `ReviewScreen.kt` lines 66-69 and 116.
- The session's card list is fixed for the whole session. In the app it is a `StateFlow` that can emit a new list while `currentIndex` and `score` survive.
- Coroutines, `StateFlow` and `viewModelScope.launch` are not modelled. State is plain fields and operations run one at a time, with no interleaving.
- The 400 ms `delay` and the `isLoading` flag of the placeholder callbacks are not modelled either.
- Text-to-speech ("Pronounce") is left out. It is a platform call with no state the model needs.
- The debug log line `recordCardReview` writes after each update is left out. It has no effect on state.
- The network and foreign SDKs are left out: the Retrofit dictionary, ML Kit language detection and translation, and the generative-AI chat. They are I/O behind callbacks.
- Persistence is left out: Room entities and DAO, and the DataStore preferences. They are passthroughs to libraries that are not part of this model. Card statistics are in memory only, as in the app.
- The database-backed `addDeck` / `addCard` / `loadCardsForDeck` of the main view-model are not part of this model. They only forward to the DAO.
- `StatisticsScreen.kt` is not part of this model. It holds placeholders and random scores.
- SpacedRepetition.NextConfidence: `Float` rounding is not modelled. Confidence is exact in hundredths, where the app's float steps can drift slightly before the clamp.
- The model does not capture the width of Kotlin integers. The `Int` counters, `score * 100`, `nextDeckId++` and the `Long` `nextReviewTime` are unbounded here, so wrap-around past 2^31 − 1 (2^63 − 1 for times) is not captured.
- DeckStore.Reverse: a string here is a sequence of Unicode scalar values, so an unpaired UTF-16 surrogate, which a Kotlin string can hold, cannot be represented. On well-formed text `String.reversed()` keeps surrogate pairs together, as `Reverse` keeps each character whole.
- DeckStore.IsWhitespace covers the characters Kotlin's `Char.isWhitespace` accepts, as listed in the predicate. No Unicode database beyond that list is modelled.
