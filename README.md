# capybot core in Dafny

capybot is a Telegram bot for a university group chat. This project models its in-memory bookkeeping in Dafny and proves properties of the model. The bookkeeping covers:

- the verification state of new members: correct-answer counts and newbie flags (`internal/core/state.go`);
- the quiz that newcomers answer (`internal/bot/quiz.go`);
- the join, leave and guest transitions, the newbie gate and the language resolver (`internal/bot/utils.go`);
- the per-user command rate limiter (`internal/bot/ratelimit.go`);
- the banned-phrase filter (`internal/bot/blacklist.go`);
- the professor-review store and the `/rate` dialogue, with moderation, blocking, listing, search and callback routing (`internal/bot/rating.go`).

Modules, one per component:

| module | file | models |
|---|---|---|
| `Wrappers`, `Text` | `text.dfy` | the parts of Go's `strings`, `strconv`, `fmt` and `unicode` packages the core relies on |
| `CoreState` | `state.dfy` | datatype `Verification` (the two maps) and class `State` |
| `Phrases` | `blacklist.dfy` | class `Blacklist` over a list of lower-cased token lists |
| `Quiz` | `quiz.dfy` | the deck, one button press, and a whole quiz run |
| `Utils` | `utils.dfy` | language selection, `GetNewUsers` and the effect of a join |
| `RateLimiter` | `ratelimit.dfy` | the one-second sliding window |
| `Features` | `features.dfy` | class `FeatureHandler`: the handlers that change the shared `State` and the timestamp map |
| `Reviews` | `reviews.dfy` | datatype `Store` and class `RatingStore` |
| `RatingCodec` | `ratingcodec.dfy` | callback tokens, the star string, the name and length checks, pagination |
| `RatingFlow` | `ratingflow.dfy` | the session map, each handler as a function on `Bot` (the sessions plus the store), and class `RatingHandler` |
| `RatingProperties` | `ratingprops.dfy` | whole dialogues: rating, moderation, blocking, cancel, search |

The same pattern is used throughout:

- A datatype holds the value of each Go struct's fields.
- Each operation is a function on that value. Its contract says what the operation does.
- A class with the Go struct's fields performs the operation in place. Each of its methods ensures that the new state equals the function applied to the old state.
- Read-only methods that loop, such as `GetReview`, `SearchReviews`, `IsBlocked`, `CheckMessage` and the formatting loop of the list page, are proved against the same functions.

Telegram calls are not modelled, but their observable results are:

- The quiz's restriction toggle becomes the ghost set `FeatureHandler.restricted`.
- The messages to the moderators and to a review's author become the `Notice` a callback returns.
- The rating list becomes the `ListView` a handler returns.

Time is an integer parameter: nanoseconds for the rate limiter, the creation timestamp for a review.

Behaviours of the code worth noting:

- A review's length is checked with Go's `len`, which counts UTF-8 bytes, not characters (`RatingCodec.CheckLength`, `RatingCodec.LengthCountsBytes`).
- The code panics in four places, and the model returns `Panic`, `Panicked` or `ListPanicked` there:
  - on text that arrives in the ChooseType, ChooseScore or Confirm step (the default case of the text handler);
  - when the preview's `strings.Repeat` gets a negative count, which happens for a score below 0 or above 5;
  - when `submitReview` builds the moderators' message with `strings.Repeat` of the score: a `rate_submit` with a negative score stores the review and clears the session, then panics before the moderators get the message (`RatingFlow.Submit`);
  - when `formatReviewFromData` repeats the stars while the list is built, for any review on the shown page with a score outside 0..5 (`RatingCodec.ShowPage`, `RatingProperties.OutOfRangeScoreBreaksList`).
  The model carries on from the state reached at the panic. `main.go` installs no recover middleware, so whether the bot process survives a panic depends on the Telegram library.
- The code accepts any `rate_score_` data and reads a non-number as 0. Only the registered buttons are limited to 1..5 (`RatingFlow.RegisteredScoresInRange`).
- A moderation token's id is read with `fmt.Sscanf` and `%d`, which ignores whatever follows the digits: `rate_approve_5_x` approves review 5 (`RatingCodec.AdminTokenWithTail`).
- The code's `getSession` creates a session before a callback is looked at. So `rate_submit` without a dialogue stores a review with an empty name, score 0 and empty text (`RatingProperties.SubmitWithoutSession`). A moderator's button press also leaves an empty session behind (`RatingProperties.ModerationRoundTrip`).
- The rating handler has its own language lookup, which accepts only an exact two-letter code. The feature handler's lookup also falls back to a prefix such as `en-us` (`RatingCodec.RatingLang`, `Utils.LangForUser`).

## Model

| member | source | states |
|---|---|---|
| `Text.Lower` | internal/bot/blacklist.go:56 | `strings.ToLower` keeps the length and maps each character on its own; the result has no upper-case letter |
| `Text.TrimSpace` | internal/bot/rating.go:372 | `strings.TrimSpace` gives a sub-string with no white space at either end, and leaves an already trimmed string unchanged |
| `Text.TrimSpacePadded` | internal/bot/rating.go:372 | trimming removes exactly the white-space padding around a word |
| `Text.Fields` | internal/bot/blacklist.go:66 | `strings.Fields` gives non-empty words without white space |
| `Text.FieldIsSubstring` | internal/bot/blacklist.go:66-69 | every field of a string occurs in it |
| `Text.IndexOf` | internal/bot/rating.go:724 | the first index of a character, or none when it does not occur |
| `Text.ByteLen` | internal/bot/rating.go:401-405 | Go's `len` on a string: between 1 and 4 bytes per character, exactly 1 for ASCII |
| `Text.FormatInt` | internal/bot/rating.go:330 | `%d` formatting: non-empty and never contains `_` |
| `Text.AtoiFormatInt` | internal/bot/rating.go:330 | `Atoi` reads every formatted integer back |
| `Text.ScanIntFormatInt` | internal/bot/rating.go:536-538 | the `%d` scan of `fmt.Sscanf` reads every formatted integer back |
| `Text.DigitRunPrefix` | internal/bot/rating.go:536-538 | the digit run `%d` reads from digits followed by a non-digit is exactly those digits |
| `Text.ScanDigits` | internal/bot/rating.go:536-538 | `%d` on digits followed by a non-digit or nothing gives the digits' value |
| `Text.ScanNegDigits` | internal/bot/rating.go:536-538 | the same after a minus sign gives the negated value |
| `Text.ScanNegValue` | internal/bot/rating.go:536-538 | `%d` reads back a minus sign and the digits of a number, whatever non-digit text follows |
| `Text.ScanNegFormat` | internal/bot/rating.go:536-538 | `%d` reads back any negative formatted integer, whatever non-digit text follows |
| `Text.ScanNatFormat` | internal/bot/rating.go:536-538 | `%d` reads back any non-negative formatted integer, whatever non-digit text follows |
| `Text.ScanIntIgnoresRest` | internal/bot/rating.go:536-538 | `%d` reads back every formatted integer and ignores text after it that does not start with a digit |
| `Text.Atoi` | internal/bot/rating.go:725 | `strconv.Atoi`: a result needs a digit or a sign and digits first, and only digits after; an all-digit string reads as its value |
| `Text.ScanInt` | internal/bot/rating.go:536-538 | `fmt.Sscanf` with `%d`: a result needs a digit somewhere in the text, and text starting with a digit always gives one |
| `Text.Contains` | internal/bot/blacklist.go:72 | `strings.Contains`: the piece occurs at some position of the text |
| `Text.Repeat` | internal/bot/rating.go:440 | `strings.Repeat` of a character n times has length n and only that character |
| `CoreState.Verification.InitUser` | internal/core/state.go:32 | the count becomes exactly 0; every other count and every flag is unchanged |
| `CoreState.Verification.IncCorrect` | internal/core/state.go:33 | the count rises by exactly one, with an absent entry counting as 0; nothing else changes |
| `CoreState.Verification.Reset` | internal/core/state.go:34 | the count entry is deleted, so the count reads 0; nothing else changes |
| `CoreState.Verification.SetNewbie` | internal/core/state.go:35 | the user becomes a newbie; the counts and other flags are unchanged |
| `CoreState.Verification.ClearNewbie` | internal/core/state.go:36 | the flag entry is deleted, so the user is not a newbie; nothing else changes |
| `CoreState.NeverSetIsNoNewbie` | internal/core/state.go:21-30 | in the empty state nobody is a newbie and every count is 0 |
| `CoreState.ResetClearIdempotent` | internal/core/state.go:34-36 | `Reset` and `ClearNewbie` applied twice equal applied once |
| `CoreState.MutatorsOnOthersCommute` | internal/core/state.go:32-36 | mutators on different users commute |
| `CoreState.State.constructor` | internal/core/state.go:21-30 | a new State starts empty |
| `CoreState.State.InitUser` | internal/core/state.go:32 | the map update in place, as `Verification.InitUser` |
| `CoreState.State.IncCorrect` | internal/core/state.go:33 | the map update in place, as `Verification.IncCorrect` |
| `CoreState.State.Reset` | internal/core/state.go:34 | the map update in place, as `Verification.Reset` |
| `CoreState.State.SetNewbie` | internal/core/state.go:35 | the map update in place, as `Verification.SetNewbie` |
| `CoreState.State.ClearNewbie` | internal/core/state.go:36 | the map update in place, as `Verification.ClearNewbie` |
| `CoreState.State.TotalCorrect` | internal/core/state.go:38-42 | the count, 0 for an absent entry |
| `CoreState.State.IsNewbie` | internal/core/state.go:44-48 | the flag, false for an absent entry |
| `Phrases.LowerAll` | internal/bot/blacklist.go:53-59 | the same number of tokens, each one lower-cased |
| `Phrases.JoinSpace` | internal/bot/blacklist.go:41-44 | `strings.Join(p, " ")`: the form in which phrases are compared on removal |
| `Phrases.PhraseMatches` | internal/bot/blacklist.go:67-77 | one phrase against a message: a one-token phrase must be a whole word of the lower-cased message, a longer phrase needs each token as a substring |
| `Phrases.AnyMatches` | internal/bot/blacklist.go:67-77 | some stored phrase matches the message |
| `Phrases.Without` | internal/bot/blacklist.go:38-51 | the filtered list is never longer than the stored one |
| `Phrases.WithoutKeeps` | internal/bot/blacklist.go:38-51 | keeps exactly the phrases whose space-joined form differs from the target; it is shorter iff some phrase matched |
| `Phrases.WithoutConcat` | internal/bot/blacklist.go:42-46 | the filter keeps the order: it distributes over concatenation |
| `Phrases.WithoutSnoc` | internal/bot/blacklist.go:42-46 | one more stored phrase is kept, at the end, exactly when its joined form differs from the target |
| `Phrases.NoPhrasesNoMatch` | internal/bot/blacklist.go:67-77 | with no phrases no message matches |
| `Phrases.EmptyPhraseMatchesAll` | internal/bot/blacklist.go:71-76 | a zero-token phrase matches every message |
| `Phrases.SingleTokenIsSubstring` | internal/bot/blacklist.go:68-70 | a matching one-token phrase occurs in the lower-cased message |
| `Phrases.MultiTokenOrderFree` | internal/bot/blacklist.go:71-76 | phrases of two or more tokens with the same tokens match the same messages, whatever their order |
| `Phrases.SpamExamples` | internal/bot/blacklist.go:65-70 | "spam" matches "buy spam" but not "spammer": one token must be a whole word |
| `Phrases.BuyNowExamples` | internal/bot/blacklist.go:71-76 | "buy now" matches "now buy" but not "buy later": each token must occur, in any order |
| `Phrases.Blacklist.constructor` | internal/bot/blacklist.go:21-26 | a new blacklist has no phrases |
| `Phrases.Blacklist.ToLowerSlice` | internal/bot/blacklist.go:53-59 | the loop computes `LowerAll` |
| `Phrases.Blacklist.AddPhrase` | internal/bot/blacklist.go:29-35 | appends exactly the lower-cased phrase at the end, with no de-duplication |
| `Phrases.Blacklist.RemovePhrase` | internal/bot/blacklist.go:38-51 | the phrases become `Without` of the lower-cased joined argument; the result is true iff the list shrank |
| `Phrases.Blacklist.CheckMessage` | internal/bot/blacklist.go:62-78 | true iff some phrase matches; the phrases are unchanged |
| `Phrases.Blacklist.List` | internal/bot/blacklist.go:81-85 | an equal copy of the phrases |
| `Phrases.AddThenRemove` | internal/bot/blacklist.go:29-51 | removing a just-added phrase shrinks the list and leaves no phrase with the same space-joined form |
| `Quiz.DefaultQuiz` | internal/bot/quiz.go:116-135 | three questions of three buttons each, and each answer is one of its own buttons |
| `Quiz.AnswerStep` | internal/bot/quiz.go:59-88 | a correct button adds one point. Before the last question the next one is shown and no flag changes. On the last question the verdict is pass iff the count reaches 2; the count is deleted; a pass clears the flag and a fail keeps all flags |
| `Quiz.PressButton` | internal/bot/utils.go:79-92 | OnlyNewbies: without a sender, or for a non-newbie, nothing changes and the button is refused; otherwise the answer step runs |
| `Quiz.RunVerdict` | internal/bot/quiz.go:54-91 | over the rest of a quiz, pass iff the count so far plus the correct presses still to come reaches 2; the count is deleted; a fail keeps the flag |
| `Quiz.QuizFromStart` | internal/bot/quiz.go:33-41 | after HandleStudent sets the count to 0, a full run passes iff at least 2 answers are correct |
| `Quiz.DefaultQuizExamples` | internal/bot/quiz.go:116-135 | on the default deck two correct answers pass and one fails |
| `Utils.PrefixUnique` | internal/bot/utils.go:58-70 | no code has two of the language keys as prefixes |
| `Utils.ExactLang` | internal/bot/utils.go:58-64 | the language whose key equals the code, or none when no key does |
| `Utils.PrefixLang` | internal/bot/utils.go:65-69 | the language whose key starts the code, or none when no key does |
| `Utils.LangForUser` | internal/bot/utils.go:49-71 | the default for no user or an empty trimmed code; otherwise the language whose key starts the lower-cased trimmed code, else the default |
| `Utils.LangForUserChoice` | internal/bot/utils.go:49-71 | any language whose key starts the code is the result, and with none the result is the default |
| `Utils.GetNewUsers` | internal/bot/utils.go:124-136 | all of UsersJoined in order when it is non-empty, else the single UserJoined, else nothing |
| `Utils.JoinAll` | internal/bot/utils.go:147-161 | every newbie after the joins was a newbie before or now has a count entry |
| `Utils.JoinAllEffect` | internal/bot/utils.go:147-161 | every joined user is a newbie with count 0, and every other user is unchanged |
| `RateLimiter.Admit` | internal/bot/ratelimit.go:11-38 | no sender always runs and records nothing. Otherwise the call is dropped iff a stamp exists and is under a second old; the stamp becomes `now` either way; other users' stamps are unchanged |
| `RateLimiter.BurstIsDropped` | internal/bot/ratelimit.go:23-34 | in calls under a second apart, every call after the first is dropped, since each call renews the stamp |
| `RateLimiter.SpacedCallsRun` | internal/bot/ratelimit.go:21-36 | for a user without a stamp, calls a second or more apart all run, the first one included |
| `RateLimiter.TwoCommandExamples` | internal/bot/ratelimit.go:23-36 | two commands 500 ms apart run then drop; 1500 ms apart both run |
| `Features.FeatureHandler.constructor` | internal/bot/utils.go:33-46 | a handler over a state with no newbies starts with no stamps and no restrictions |
| `Features.FeatureHandler.HandleStudent` | internal/bot/quiz.go:33-41 | the count is set to 0 and question 0 is shown; every newbie stays restricted |
| `Features.FeatureHandler.QuizButton` | internal/bot/quiz.go:54-91 | the new state and outcome are `PressButton`'s; only a pass lifts the sender's restriction; every newbie stays restricted |
| `Features.FeatureHandler.HandleUserJoined` | internal/bot/utils.go:139-166 | nothing without a message or chat; otherwise the state becomes `JoinAll` of the new users, each of whom is restricted |
| `Features.FeatureHandler.HandleUserLeft` | internal/bot/utils.go:169-179 | the leaver's newbie flag is cleared; without a message, chat or leaver nothing changes |
| `Features.FeatureHandler.HandleGuest` | internal/bot/utils.go:182-193 | the sender's restriction is lifted and the newbie flag cleared |
| `Features.FeatureHandler.RateLimit` | internal/bot/ratelimit.go:11-38 | the run flag and the new timestamp map are `Admit`'s |
| `Reviews.Find` | internal/bot/rating.go:124-147 | the index of the first review with the id, or none when no review has it |
| `Reviews.Get` | internal/bot/rating.go:124-133 | GetReview: a review with the id, present iff one exists |
| `Reviews.SetStatus` | internal/bot/rating.go:136-147 | only the first review with the id changes, and only its status |
| `Reviews.NewestReview` | internal/bot/rating.go:124-147 | a review appended under a fresh id is the one found and the one updated |
| `Reviews.ApprovedOnly` | internal/bot/rating.go:150-160 | exactly the approved reviews |
| `Reviews.Search` | internal/bot/rating.go:163-174 | exactly the approved reviews whose lower-cased professor contains the lower-cased query |
| `Reviews.ApprovedConcat` | internal/bot/rating.go:150-160 | the approved view keeps the stored order |
| `Reviews.SearchConcat` | internal/bot/rating.go:163-174 | the search keeps the stored order |
| `Reviews.ApprovedSnoc` | internal/bot/rating.go:150-160 | one more stored review extends the approved view by itself exactly when it is approved |
| `Reviews.SearchSnoc` | internal/bot/rating.go:163-174 | one more stored review extends the search result by itself exactly when it is approved and its professor matches |
| `Reviews.SearchEmptyQuery` | internal/bot/rating.go:163-174 | the empty query lists every approved review |
| `Reviews.RejectedLeavesView` | internal/bot/rating.go:136-160 | rejecting a review adds nothing to the approved view |
| `Reviews.Block` | internal/bot/rating.go:189-199 | appends the user only when absent |
| `Reviews.Store.Add` | internal/bot/rating.go:112-121 | the review gets id NextID and the given time and goes at the end; NextID rises by one; the old NextID is returned |
| `Reviews.Store.UpdateStatus` | internal/bot/rating.go:136-147 | the result is true iff a review has the id; the list becomes `SetStatus`; nothing else changes |
| `Reviews.Store.BlockUser` | internal/bot/rating.go:189-199 | the user is blocked afterwards; exactly the earlier users and this one are blocked; the reviews are unchanged |
| `Reviews.FreshValid` | internal/bot/rating.go:74-84 | a new store is valid and hands out id 1 first |
| `Reviews.AddKeepsValid` | internal/bot/rating.go:112-121 | ids stay unique and increasing, the new id exceeds all earlier ones, and GetReview finds the added review |
| `Reviews.UpdateKeepsValid` | internal/bot/rating.go:136-147 | with unique ids, the review with the id gets the status and every other review is unchanged |
| `Reviews.BlockKeepsValid` | internal/bot/rating.go:189-199 | blocking keeps the list free of duplicates and is idempotent |
| `Reviews.RatingStore.constructor` | internal/bot/rating.go:74-84 | no reviews, nobody blocked, NextID 1 |
| `Reviews.RatingStore.AddReview` | internal/bot/rating.go:112-121 | the fields become `Store.Add`'s |
| `Reviews.RatingStore.GetReview` | internal/bot/rating.go:124-133 | the search loop returns `Get` |
| `Reviews.RatingStore.UpdateReviewStatus` | internal/bot/rating.go:136-147 | the loop performs `Store.UpdateStatus` |
| `Reviews.RatingStore.GetApprovedReviews` | internal/bot/rating.go:150-160 | the loop returns `ApprovedOnly` |
| `Reviews.RatingStore.SearchReviews` | internal/bot/rating.go:163-174 | the loop returns `Search` |
| `Reviews.RatingStore.IsBlocked` | internal/bot/rating.go:177-186 | the loop returns whether the user is blocked |
| `Reviews.RatingStore.BlockUser` | internal/bot/rating.go:189-199 | the loop performs `Store.BlockUser` |
| `RatingCodec.CallbackID` | internal/bot/rating.go:290-293 | the callback's Data, or its Unique when Data is empty |
| `RatingCodec.ParseAdmin` | internal/bot/rating.go:604 | the scanned id: present only when a digit follows the prefix somewhere, and always when a digit comes right after it |
| `RatingCodec.ScoreOf` | internal/bot/rating.go:329-330 | a non-zero score is exactly what `Atoi` reads from the data after `rate_score_`; a failed read gives 0 |
| `RatingCodec.ParsePage` | internal/bot/rating.go:724-728 | `SplitN` at the first `_`: with no `_` the whole rest is the page and the search is empty; otherwise the part before the first `_` is the page and everything after it the search |
| `RatingCodec.NameShape` | internal/bot/rating.go:377 | the language of the name pattern: a first word of letters, a run of blanks, a last word of letters, nothing else |
| `RatingCodec.MatchesName` | internal/bot/rating.go:377-378 | the greedy matcher for the name pattern; `MatchesNameIffShape` proves it accepts exactly `NameShape` |
| `RatingCodec.AdminToken` | internal/bot/rating.go:514-517 | a moderation token starts with its prefix and carries more |
| `RatingCodec.AdminTokenRoundTrip` | internal/bot/rating.go:536-538 | every token scans back to its review id |
| `RatingCodec.AdminTokenWithTail` | internal/bot/rating.go:536-538 | a token followed by text that does not start with a digit still scans to its review id |
| `RatingCodec.AdminTokensDistinct` | internal/bot/rating.go:345-353 | each moderation token starts with its own prefix only |
| `RatingCodec.AtoiOrZero` | internal/bot/rating.go:330 | `Atoi` with the error ignored: the value, or 0 |
| `RatingCodec.ScoreButtons` | internal/bot/rating.go:328-331 | the score buttons 1..5 carry exactly those scores |
| `RatingCodec.PageToken` | internal/bot/rating.go:683-694 | a navigation tag starts with `ratings_page_` |
| `RatingCodec.PageTokenRoundTrip` | internal/bot/rating.go:723-728 | every navigation tag parses back to its page and search, even when the search contains `_` |
| `RatingCodec.Stars` | internal/bot/rating.go:440 | none (a panic) iff the score is outside 0..5; otherwise 5 stars, with full stars exactly at positions below the score |
| `RatingCodec.LetterRun` | internal/bot/rating.go:377 | the longest prefix of name letters |
| `RatingCodec.SpaceRun` | internal/bot/rating.go:377 | the longest prefix of `\s` characters |
| `RatingCodec.LetterRunExact` | internal/bot/rating.go:377 | a letters-only prefix ended by a non-letter is exactly the letter run |
| `RatingCodec.SpaceRunExact` | internal/bot/rating.go:377 | a blank prefix ended by a non-blank is exactly the blank run |
| `RatingCodec.MatchesNameIffShape` | internal/bot/rating.go:375-398 | the name matcher accepts exactly the strings of one letter run, one blank run and one letter run |
| `RatingCodec.MatchesGivesShape` | internal/bot/rating.go:375-398 | what the matcher accepts has the name shape |
| `RatingCodec.ShapeGivesMatch` | internal/bot/rating.go:375-398 | everything of the name shape is accepted |
| `RatingCodec.CheckLength` | internal/bot/rating.go:400-421 | too short iff under 10 bytes; accepted iff 10 to 1000 bytes |
| `RatingCodec.LengthCountsBytes` | internal/bot/rating.go:401-405 | five two-byte letters pass the check where five ASCII letters fail |
| `RatingCodec.Paginate` | internal/bot/rating.go:653-667 | totalPages is the ceiling of n/5; the page is clamped to 0..totalPages-1; the slice is [page*5, min(page*5+5, n)) and non-empty |
| `RatingCodec.PagesPartition` | internal/bot/rating.go:653-667 | review k is on page k/5 and on no other page |
| `RatingCodec.ShowPage` | internal/bot/rating.go:633-704 | no reviews gives the empty reply; a panic iff some review on the clamped page has a score outside 0..5; otherwise that page's 1 to 5 reviews, all with scores in 0..5, with a previous tag iff not on the first page and a next tag iff not on the last |
| `RatingCodec.LoneReviewPanics` | internal/bot/rating.go:461 | a list whose only review has a score outside 0..5 panics on every page asked for |
| `RatingCodec.NavigationTags` | internal/bot/rating.go:683-694 | the previous and next tags parse back to the neighbouring pages of the same search |
| `RatingCodec.Listing` | internal/bot/rating.go:637-643 | the search results for a non-empty search, else all approved reviews |
| `RatingCodec.RatingLang` | internal/bot/rating.go:240-252 | the language whose key equals the lower-cased trimmed code, else the default |
| `RatingFlow.IsActive` | internal/bot/rating.go:232-237 | `hasActiveSession`: a session exists and is past StepNone |
| `RatingFlow.SessionOf` | internal/bot/rating.go:213-222 | the existing session, or a new StepNone session that is then stored; no other entry changes |
| `RatingFlow.WithoutSession` | internal/bot/rating.go:225-229 | the user's entry is removed and no other |
| `RatingFlow.Rate` | internal/bot/rating.go:255-280 | outside a private chat, or for a blocked user, nothing changes; otherwise the session moves to ChooseType with the prompt's message id; the store is untouched |
| `RatingFlow.AuthorName` | internal/bot/rating.go:476-479 | the username, or the first name when there is none |
| `RatingFlow.Submit` | internal/bot/rating.go:472-524 | one pending review with the session's fields is appended; the session is cleared; the moderators get the three tokens for its id, or there is a panic for a negative score |
| `RatingFlow.Moderate` | internal/bot/rating.go:527-595 | an unparsable token or unknown id changes nothing; otherwise that review gets the status and its author is told |
| `RatingFlow.BlockAuthor` | internal/bot/rating.go:598-622 | an unparsable token or unknown id changes nothing; otherwise the review is rejected, then its author blocked |
| `RatingFlow.CallbackKindsDisjoint` | internal/bot/rating.go:300-358 | no literal starts with a prefix and no prefix starts another, so the order of the branches does not matter |
| `RatingFlow.RateCallback` | internal/bot/rating.go:283-360 | cancel removes the session; public/anonymous set the flag and EnterName; a score sets the score and EnterReview; submit, approve, reject and block act as `Submit`, `Moderate` and `BlockAuthor` on the session map after `getSession`; no branch looks at the step; other users' sessions are unchanged |
| `RatingFlow.NameInput` | internal/bot/rating.go:374-396 | a name of the regular expression's shape is recorded and moves the dialogue to ChooseScore; any other text is refused; nothing else changes |
| `RatingFlow.ReviewInput` | internal/bot/rating.go:398-420 | under 10 bytes or over 1000 bytes is refused; otherwise the text is recorded, the step becomes Confirm and the preview shows the score's stars, or panics for a score outside 0..5 |
| `RatingFlow.RateText` | internal/bot/rating.go:363-427 | not handled iff no active session. A two-word name moves EnterName to ChooseScore, and anything else there is refused. A review of 10 to 1000 bytes moves EnterReview to Confirm with the star preview, which panics outside 0..5. Any other active step panics. The store is never touched |
| `RatingFlow.Ratings` | internal/bot/rating.go:625-630 | in a private chat, the first page of all approved reviews, or the list panic of `ShowPage`; nothing otherwise |
| `RatingFlow.RatingsCallback` | internal/bot/rating.go:707-735 | `ratings_search` installs the search marker; a page tag shows the page and search it names (or the list panic of `ShowPage`); nothing else changes |
| `RatingFlow.SearchText` | internal/bot/rating.go:738-750 | handled iff the session carries message id -1; then the session is cleared and the first page for the trimmed query is shown (or the list panic of `ShowPage`) |
| `RatingFlow.PrivateText` | main.go:131-145 | rating input first, then search input, then passed on |
| `RatingFlow.RouteCallback` | internal/bot/rating.go:753-810 | registered buttons reach HandleRateCallback; other callbacks with a moderation prefix reach it too; the registered `ratings_search` button and, among the other callbacks, exactly those whose id has the page prefix reach HandleRatingsCallback; an unregistered callback with an empty id is dropped; each handler gets Data, or Unique when Data is empty |
| `RatingFlow.RegisteredScoresInRange` | internal/bot/rating.go:755-758 | the registered score buttons carry only scores 1 to 5 |
| `RatingFlow.AdminTokensRouted` | internal/bot/rating.go:795-799 | every moderation token reaches HandleRateCallback unchanged |
| `RatingFlow.PageTokensRouted` | internal/bot/rating.go:802-805 | every navigation tag reaches HandleRatingsCallback unchanged, provided the library hands the button's Unique over (see Left out) |
| `RatingFlow.PageTokenRawDataUnrouted` | internal/bot/rating.go:775-808 | had the library passed a navigation button's raw data (a form feed, then the tag) with an empty Unique, the generic handler would route it nowhere |
| `RatingFlow.RatingHandler.constructor` | internal/bot/rating.go:202-210 | no sessions and a new store |
| `RatingFlow.RatingHandler.GetSession` | internal/bot/rating.go:213-222 | performs `SessionOf` on the map |
| `RatingFlow.RatingHandler.ClearSession` | internal/bot/rating.go:225-229 | performs `WithoutSession` on the map |
| `RatingFlow.RatingHandler.HasActiveSession` | internal/bot/rating.go:232-237 | true iff a session exists past StepNone |
| `RatingFlow.RatingHandler.HandleRate` | internal/bot/rating.go:255-280 | the new sessions and store are `Rate`'s |
| `RatingFlow.RatingHandler.HandleRateCallback` | internal/bot/rating.go:283-360 | the new state and the notice are `RateCallback`'s |
| `RatingFlow.RatingHandler.SubmitReview` | internal/bot/rating.go:472-524 | the new state and the notice are `Submit`'s |
| `RatingFlow.RatingHandler.HandleAdminAction` | internal/bot/rating.go:527-595 | the new state and the notice are `Moderate`'s on the id `%d` scans, trailing text ignored |
| `RatingFlow.RatingHandler.HandleAdminBlock` | internal/bot/rating.go:598-622 | the new state is `BlockAuthor`'s on the id `%d` scans, trailing text ignored |
| `RatingFlow.RatingHandler.HandleRateText` | internal/bot/rating.go:363-427 | false and no change exactly when `RateText` is not handled; otherwise the new state and reply are `RateText`'s |
| `RatingFlow.RatingHandler.ShowRatingsPage` | internal/bot/rating.go:633-704 | the page of the search results (or of all approved reviews) that `ShowPage` gives |
| `RatingFlow.RatingHandler.FormatsAll` | internal/bot/rating.go:672-677 | formatting the page's reviews one by one gets through iff every score is in 0..5 |
| `RatingFlow.RatingHandler.PageOf` | internal/bot/rating.go:645-694 | the pagination arithmetic and the loop formatting the page's reviews compute `ShowPage`, panic included |
| `RatingFlow.RatingHandler.HandleRatings` | internal/bot/rating.go:625-630 | returns `Ratings` |
| `RatingFlow.RatingHandler.HandleRatingsCallback` | internal/bot/rating.go:707-735 | the new state and the view are `RatingsCallback`'s |
| `RatingFlow.RatingHandler.HandleSearchText` | internal/bot/rating.go:738-750 | false and no change exactly when `SearchText` does not search; otherwise its state and view |
| `RatingProperties.PublicStep` | internal/bot/rating.go:306-315 | "rate_public" on a session sets it public and moves to EnterName |
| `RatingProperties.ScoreStep` | internal/bot/rating.go:328-339 | a score button 1..5 records that score and moves to EnterReview |
| `RatingProperties.NameStep` | internal/bot/rating.go:372-382 | a well-shaped name in EnterName is recorded trimmed and the score is asked for |
| `RatingProperties.ReviewStep` | internal/bot/rating.go:398-420 | a review of 10 to 1000 bytes after a score of 1 to 5 is recorded trimmed and previewed with that many stars |
| `RatingProperties.SubmitStep` | internal/bot/rating.go:341-343 | "rate_submit" on a session submits exactly that session |
| `RatingProperties.RatingDialogue` | internal/bot/rating.go:255-524 | /rate, public, a valid name, a score 1..5, a review of 10 to 1000 bytes and submit all succeed. The store gains the trimmed name and review as a pending review under the next id. The sender's session is gone and nobody else's changed. The moderators get that id's tokens |
| `RatingProperties.JaneDoeTrim` | internal/bot/rating.go:372 | a padded name trims to "Jane Doe" |
| `RatingProperties.JaneDoeShape` | internal/bot/rating.go:377 | "Jane Doe" has the two-word shape |
| `RatingProperties.NameExample` | internal/bot/rating.go:372-382 | the padded name "  Jane Doe\n" is accepted and recorded as "Jane Doe" |
| `RatingProperties.ModerationStep` | internal/bot/rating.go:345-351 | an approve or reject token reaches handleAdminAction with its id |
| `RatingProperties.BlockStep` | internal/bot/rating.go:353-355 | a block token reaches handleAdminBlock with its id |
| `RatingProperties.Submitted` | internal/bot/rating.go:481-495 | a submit appends the draft under the next id and keeps the store valid |
| `RatingProperties.ModerateNewest` | internal/bot/rating.go:544-595 | moderating the newest review changes only that review's status and tells its author the verdict |
| `RatingProperties.ModerationRoundTrip` | internal/bot/rating.go:472-595 | after a submit, its approve or reject button tells the author and gives the new review that status, and only that. An approved review ends the approved view. The moderator is left with an empty session |
| `RatingProperties.OutOfRangeScoreBreaksList` | internal/bot/rating.go:454-468 | a submitted review with a score outside 0..5, once approved as the only approved review, makes `/ratings` panic |
| `RatingProperties.BlockRoundTrip` | internal/bot/rating.go:598-622 | after a submit, its block button rejects the review, blocks the author, leaves the approved view as it was, and the author's next /rate does nothing |
| `RatingProperties.SubmitWithoutSession` | internal/bot/rating.go:283-343 | "rate_submit" without a session still appends a pending review with an empty name, score 0 and empty text |
| `RatingProperties.CancelEndsDialogue` | internal/bot/rating.go:301-304 | after cancel the store is unchanged, the next text is passed on, and a later submit starts from an empty session |
| `RatingProperties.SearchRoundTrip` | internal/bot/rating.go:711-750 | the search button then a text shows the first page for the trimmed text (or the list panic of `ShowPage`) and ends search mode |
| `RatingProperties.CallbackKeepsStoreValid` | internal/bot/rating.go:283-360 | no callback breaks the store invariant: ids stay unique and increasing and nobody is blocked twice |

## Left out

- Telegram I/O is not modelled. This covers sending, editing, deleting and answering messages, chat restrictions, bot commands and timed deletion. The texts and keyboards of messages are also left out. The model keeps their effect on state, the restriction set, and the notices and views the handlers produce.
- A failed Send in HandleRate would dereference a nil message. The model takes the sent message's id as a parameter instead.
- JSON persistence is not modelled: `load` and `save` in `rating.go`, `state.go` and `blacklist.go`. Only the in-memory contents are modelled. The constructors start from empty stores, as before a first load.
- Mutexes are not modelled. Every operation is one atomic step.
- `time.Now()` becomes a parameter.
- `Text.Lower`: `strings.ToLower` is modelled only for the upper-case letters A-Z, U+00C0 to U+00DE except U+00D7, the eight Polish capitals U+0104, U+0106, U+0118, U+0141, U+0143, U+015A, U+0179 and U+017B, and the Cyrillic U+0400 to U+042F. Every other character keeps its case, although Go lower-cases many of them: for example the Ukrainian Ґ (U+0490) in a banned phrase or a message.
- `Text.Atoi`, `Text.ScanInt`: Go's 64-bit overflow errors are not modelled, because integers here are unbounded. On overflow `strconv.Atoi` returns the largest (or smallest) 64-bit value with its error, and the handlers ignore the error. So `rate_score_99999999999999999999` sets the score to 2^63-1. The `strings.Repeat` of the moderators' message then panics with a length overflow, and far smaller scores already exhaust memory. The unbounded model's `RatingFlow.Submit` shows no panic for any score above 5.
- `Features.FeatureHandler.HandleUserLeft`: does not model the call to `ClearViolations`. The violation counts belong to the admin handler, whose source is not part of this model.
- The i18n message tables and language singleton are not modelled. A language is a value of `Utils.Lang`, and the default is a parameter.
- Sessions are held by reference (`*RatingSession`) in the map. The model stores them as map values; every handler writes the changed session back, which has the same effect.
- Telebot matches a registered button by its Unique tag, which the model takes as exact string equality.
- `RatingFlow.PageTokensRouted`: assumes the Telegram library hands an unregistered button's Unique to the generic `OnCallback` handler, with empty Data, as `Callback("", tag)`. The library is not part of this model. If it passes the raw data, a form feed before the tag, with an empty Unique, the `ratings_page_` test fails and the navigation buttons do nothing (`RatingFlow.PageTokenRawDataUnrouted`).
- `RatingFlow.RouteCallback`: takes Data and Unique as the library delivers them, under the same assumption; the moderation buttons set Data and are not affected.
- The `c.Callback() == nil` guard of the generic callback handler is not modelled.
- `internal/bot/ping.go`, `internal/i18n/i18n.go`, `interfaces.go` and the start-up code in `main.go` are not part of this model, except the dispatch order of private texts.
- `GetQuestions` and the quiz button constructors only build values. The deck is modelled directly as `Quiz.DefaultQuiz`.
