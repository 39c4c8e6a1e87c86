# Thoracic surgery tutor: a verified model of the tutoring engine

This project is a Dafny model of the domain rules of an AI voice tutor for thoracic surgery
training. It covers:

- the content retrieval matcher, which picks library items relevant to a spoken question;
- the prompt composer, which turns the question and the matches into the text sent for generation;
- the spaced-repetition interval rule applied when a flashcard is rated;
- the case-study quiz session: answers, navigation, scoring and the completed-case list;
- the flashcard session: modular navigation, the answer reveal, the once-per-session rating gate and the counters;
- the progress page: status badges, improvement recommendations and the seeding of missing knowledge areas;
- the admin content library's form serialisers: tag, answer-option, learning-objective and context-tag lists, the form reset and the prompt-type label;
- the static catalog of flashcards, case studies and knowledge areas, with its invariants.

Modules, one per concern:

- `Wrappers`: `Option`.
- `Seqs`: `filter`, `slice` and subsequence facts.
- `Text`: the JavaScript string operations used, namely `trim`, `toLowerCase`, `includes`, `split`, `join` and `replace`.
- `Content`: the content-library record.
- `Catalog`: the static data.
- `Retrieval`: the matcher.
- `Tutor`: the composer and one voice turn.
- `Scheduler`: the interval rule.
- `CaseSessions`: scoring and the `CaseSession` class.
- `Flashcards`: the `FlashcardSession` class.
- `Progress`: the progress page.
- `AdminForms`: the admin form serialisers.

The two sessions are classes whose methods update their fields, as the React state does. Everything else is functions and lemmas.

Remote calls are inputs to the model:

- the content and prompt queries become sequence parameters;
- the text generation result becomes an `Option<string>`, with `None` for failure;
- the success of each database write becomes a flag: `persisted` for a case completion or a flashcard review, `stored` for an admin add, and `saved` for the tutoring-session record; the exception is the seeding and reload of progress rows, which carries no flag, and whose failure shows the fallback rows (`Progress.FallbackRecommendations`);
- the clock becomes an integer `now` in milliseconds.

The writes that end a case and rate a card are awaited while the page stays live. Each is modelled as two steps: the click captures what will be written (`CaseSession.Next` returns the pending `CaseCompletion`, `FlashcardSession.RatingClick` the pending review), and a later method applies the write's outcome (`FinishCase`, `FinishRating`). Between the two, the page still accepts clicks:

- `CaseSessions.FinishTwiceWhilePending` shows that a second Finish click before the first write ends appends the case to the completed list twice;
- `Flashcards.RateTwiceWhilePending` shows that a second rating click before the first write ends records the card twice, so the remaining counter drops by two for one card;
- an answer changed while the completion is pending is what the results page shows, while the stored score is the one captured at the click.

Two behaviours of the code may surprise a user of the tutor; the model follows the code as written:

- **Matcher direction.** The whole lower-cased transcript is searched for inside the title, the description and the category. Only tags are searched for inside the transcript. So the question "pneumothorax protocol" does not retrieve an item titled "Pneumothorax Management" with the tag "trauma", although the question names that topic. `Retrieval.PneumothoraxScenario` proves the result is empty.
- **Prompt template.** The admin page lets a stored instruction template be edited as the tutor's prompt. The code selects a template (`Tutor.BasePrompt`) but never interpolates it: the persona sentence is hard-coded. `Tutor.StoredTemplateIgnored` proves that the stored prompts do not influence a turn.

## Model

| member | source | states |
|---|---|---|
| Text.Trim | src/App.tsx:399 | `trim` gives the slice of the input between its leading and its trailing whitespace; the result is trimmed at both ends and is empty exactly when every input character is whitespace |
| Text.TrimIdempotent | src/components/AdminContentLibrary.tsx:692 | trimming twice equals trimming once |
| Text.TrimAfterSpace | src/components/AdminContentLibrary.tsx:689-692 | a leading space (the one after each displayed comma) does not change the trimmed value |
| Text.ToLower | src/App.tsx:423-428 | lower-casing keeps the length, maps each ASCII capital to its small letter (code + 32) and keeps every other character |
| Text.ToLowerIdempotent | src/App.tsx:423-428 | lower-casing a lower-cased string changes nothing |
| Text.ContainsTrivial | src/App.tsx:425-428 | every string contains the empty string and itself |
| Text.Contains | src/App.tsx:425-428 | `includes` holds exactly when the needle occurs at some position of the string |
| Text.ContainsShorter | src/App.tsx:425-427 | a string never contains a longer one |
| Text.IndexOf | src/components/AdminContentLibrary.tsx:644 | the index is the first position holding the character |
| Text.Split | src/components/AdminContentLibrary.tsx:140 | `split` gives at least one piece |
| Text.SplitPiecesFree | src/components/AdminContentLibrary.tsx:140 | no piece of `split` contains the separator |
| Text.SplitLeadingSep | src/components/AdminContentLibrary.tsx:140 | a leading separator gives an empty first piece |
| Text.SplitCount | src/components/AdminContentLibrary.tsx:140 | there is exactly one more piece than there are separators |
| Text.SplitConcat | src/components/AdminContentLibrary.tsx:692 | splitting `x + sep + y` splits `x` and `y` independently |
| Text.SplitOfJoin | src/App.tsx:434-436 | joining separator-free pieces and splitting again gives the pieces back |
| Text.Join | src/App.tsx:436 | `join` gives the empty string for no pieces, the piece itself for one, and otherwise the pieces with the separator between each pair |
| Text.JoinOfSplit | src/components/AdminContentLibrary.tsx:689-692 | splitting then joining with the same separator gives the string back |
| Text.TrimEach | src/components/AdminContentLibrary.tsx:140 | `map(t => t.trim())` keeps the count and trims each piece in place |
| Text.TrimEachFree | src/components/AdminContentLibrary.tsx:140 | trimmed pieces stay free of a character the pieces did not contain |
| Text.TrimEachConcat | src/components/AdminContentLibrary.tsx:692 | trimming each piece distributes over concatenation |
| Text.KeepNotBlank | src/components/AdminContentLibrary.tsx:175 | `filter(o => o.trim())` keeps the non-blank pieces untrimmed, in order and with their multiplicity, and drops every blank one |
| Text.ReplaceFirst | src/components/AdminContentLibrary.tsx:644 | `replace` keeps the length, and with the character absent the string is unchanged |
| Text.ReplaceFirstAt | src/components/AdminContentLibrary.tsx:644 | the first occurrence is replaced and everything before and after it is kept |
| Seqs.Filter | src/App.tsx:421 | `filter` keeps exactly the elements satisfying the predicate |
| Seqs.FilterIsSubsequence | src/App.tsx:421-430 | filtering keeps the input order |
| Seqs.FilterConcat | src/App.tsx:1037 | filtering distributes over concatenation |
| Seqs.FilterMultiplicity | src/components/AdminContentLibrary.tsx:175 | `filter` keeps every copy of an element that passes and no copy of one that fails |
| Seqs.Map | src/components/AdminContentLibrary.tsx:140 | `map` keeps the count and applies the function at each position |
| Seqs.MapConcat | src/components/AdminContentLibrary.tsx:140 | mapping distributes over concatenation |
| Seqs.Take | src/App.tsx:1039 | `slice(0, n)` is the prefix of length `min(n, len)` |
| Seqs.DistinctSize | src/App.tsx:1222 | a duplicate-free list has as many elements as its element set |
| Seqs.DistinctDrawnBound | src/App.tsx:1222 | a duplicate-free list drawn from another list is no longer than it |
| Retrieval.MatchContent | src/App.tsx:421-430 | the result is a subsequence of the corpus holding exactly the items whose title, description (if present) or category contains the lower-cased transcript, or one of whose lower-cased tags occurs in it (the `IsRelevant` test of lines 424-429) |
| Retrieval.IsRelevant | src/App.tsx:424-429 | an item is relevant when its lower-cased title, description or category contains the lower-cased transcript, or the transcript contains one of its lower-cased tags |
| Retrieval.MatchContentConcat | src/App.tsx:421-430 | each item's verdict is independent of its neighbours, so the order of the matches is the corpus order |
| Retrieval.EmptyTagMatchesEverything | src/App.tsx:428 | an item with an empty tag matches every transcript |
| Retrieval.TitleEqualToQueryMatches | src/App.tsx:425 | an item whose title equals the transcript up to case is matched |
| Retrieval.ActiveCorpus | src/App.tsx:403-406 | the corpus is the first ten active library items in library order, or all of them when fewer than ten are active |
| Retrieval.Retrieve | src/App.tsx:399-430 | an all-whitespace transcript retrieves nothing; otherwise the result is exactly the relevant items of the active corpus, in order |
| Retrieval.PneumothoraxScenario | src/App.tsx:421-430 | "pneumothorax protocol" retrieves neither "Pneumothorax Management" (tag "trauma") nor "VATS Overview" (tag "vats") |
| Tutor.BasePrompt | src/App.tsx:417-418 | the first stored question-generation prompt, or the default persona when none is stored |
| Tutor.Summary | src/App.tsx:435 | a text item gives its first 200 characters (all if shorter) followed by "..."; other items give a non-empty description, else "Media content available" |
| Tutor.ContextLine | src/App.tsx:435 | the context line of an item is `- `, its title, `: ` and its summary |
| Tutor.ContextLines | src/App.tsx:434-435 | one `- title: summary` line per match, in match order |
| Tutor.ContextBlock | src/App.tsx:432-437 | the block is empty exactly when there are no matches, and otherwise starts with the library header |
| Tutor.ContextBlockHasOneLinePerMatch | src/App.tsx:434-436 | when no title, description or excerpt holds a newline, the block after the header splits into exactly the match lines, in order; otherwise one match spreads over several lines |
| Tutor.ComposePrompt | src/App.tsx:441-452 | the prompt is the consultant sentence, the transcript verbatim after the opening quote, the fixed brief of what to cover, and then the context block |
| Tutor.TranscriptRecoverable | src/App.tsx:441 | the transcript can be read back out of the prompt, so distinct transcripts give distinct prompts |
| Tutor.VoiceTurn | src/App.tsx:394-473 | a blank transcript is skipped; otherwise the matches are exactly the relevant active corpus and the prompt is composed from them; the reply is the generated text with a session record when generation and the session save both succeed, and the apology without a record when either fails |
| Tutor.StoredTemplateIgnored | src/App.tsx:417-418 | the stored prompts have no influence on the turn |
| Scheduler.IntervalDays | src/App.tsx:1089-1103 | hard is 1 day, medium 3, easy 7, and each interval belongs to exactly one rating |
| Scheduler.Schedule | src/App.tsx:1105-1114 | the next review is exactly the rated number of days after `now`, so strictly later |
| Scheduler.RatingRecoverable | src/App.tsx:1089-1105 | the rating can be read back from the record's interval |
| Scheduler.HarderIsSooner | src/App.tsx:1089-1105 | for the same moment, hard comes back before medium, and medium before easy |
| CaseSessions.CorrectCount | src/App.tsx:677-679 | the count of correct answers is at most the number of answers |
| CaseSessions.CorrectCountIsPositions | src/App.tsx:677-679 | the count is exactly the number of answered positions holding the key's option (holes never count) |
| CaseSessions.RoundedPercent | src/App.tsx:681 | the rounded percentage is non-negative, within half a point of `100*count/total`, and at most 100 when the count does not exceed the total |
| CaseSessions.RoundedPercentMonotone | src/App.tsx:681 | more correct answers never give a lower score |
| CaseSessions.RoundedPercentExtremes | src/App.tsx:681 | all correct scores 100 and none correct scores 0 |
| CaseSessions.Score | src/App.tsx:779-782 | the score is the rounded percentage of the correct count over the key length, so it lies in 0..100 |
| CaseSessions.ThreeQuestionExample | src/App.tsx:677-681 | answers [1,0,1] against key [1,0,2] give 2 correct and a score of 67 |
| CaseSessions.Assign | src/App.tsx:668-672 | `answers[i] = v` sets position `i`, keeps the other positions, and pads with holes |
| CaseSessions.CaseSession.ShownResult | src/App.tsx:779-782 | the results page shows the correct count of the current answers against the case key and its rounded percentage over the question count |
| CaseSessions.CaseSession.CurrentAnswered | src/App.tsx:769 | the Next / Finish button is enabled exactly when the current question has an answer |
| CaseSessions.CaseSession.Completion | src/App.tsx:676-692 | the completion written for the open case carries its id and the score the results page shows for the answers at the click |
| CaseSessions.CaseSession.constructor | src/App.tsx:655-659 | the view opens on the case list, with cases 2 and 3 completed |
| CaseSessions.CaseSession.StartCase | src/App.tsx:661-666 | start or retry: the case is open at question 0 with no answers and results hidden |
| CaseSessions.CaseSession.SelectAnswer | src/App.tsx:668-672 | only the current question's answer changes, and it is now answered |
| CaseSessions.CaseSession.Previous | src/App.tsx:762-767 | one question back, clamped at the first |
| CaseSessions.CaseSession.Back | src/App.tsx:725 | return to the case list |
| CaseSessions.CaseSession.FinishCase | src/App.tsx:683-699 | when the completion write ends, results are shown and the case is appended to the completed list exactly when the write succeeded; nothing else changes |
| CaseSessions.CaseSession.Next | src/App.tsx:702-708 | the button is enabled only when the current question is answered (line 769); an accepted click advances, or on the last question leaves the position and returns the pending completion |
| CaseSessions.FinishTwiceWhilePending | src/App.tsx:674-708 | two Finish clicks before the first write ends, both writes succeeding, append the case to the completed list twice |
| Flashcards.CatalogDeckUsable | src/data/medicalContent.ts:27-76 | the catalog deck is non-empty with distinct identifiers |
| Flashcards.Forward | src/App.tsx:1073-1076 | `(i + 1) % n` stays in the deck and wraps from the last card to the first |
| Flashcards.Backward | src/App.tsx:1078-1081 | `(i - 1 + n) % n` stays in the deck and wraps from the first card to the last |
| Flashcards.ForwardBackwardInverse | src/App.tsx:1073-1081 | previous undoes next, and next undoes previous |
| Flashcards.ReviewedWithinDeck | src/App.tsx:1222 | a duplicate-free list of reviewed identifiers drawn from the deck is no longer than the deck |
| Flashcards.FlashcardSession.constructor | src/App.tsx:1068-1071 | the session opens on the first card, question side up, with nothing studied |
| Flashcards.FlashcardSession.NextCard | src/App.tsx:1073-1076 | moves forward round the deck and hides the answer |
| Flashcards.FlashcardSession.PrevCard | src/App.tsx:1078-1081 | moves backward round the deck and hides the answer |
| Flashcards.FlashcardSession.ToggleAnswer | src/App.tsx:1133 | flips between question and answer |
| Flashcards.FlashcardSession.CanRate | src/App.tsx:1181-1197 | the rating buttons are enabled exactly when the answer is shown and the current card is not in the reviewed list |
| Flashcards.FlashcardSession.RatingClick | src/App.tsx:1181-1197 | a rating button yields a pending review exactly when the answer is shown and the current card is not yet reviewed; the review names that card and the chosen rating |
| Flashcards.FlashcardSession.FinishRating | src/App.tsx:1083-1118 | when the review write ends successfully, the scheduled record is returned, the card is appended to the reviewed list and studied-today grows by one; a failed write changes nothing; a card not yet reviewed keeps the list duplicate-free |
| Flashcards.RateTwiceWhilePending | src/App.tsx:1083-1118 | two rating clicks before the first write ends, both writes succeeding, record the card twice and lower the remaining counter by two |
| Flashcards.FlashcardSession.Remaining | src/App.tsx:1222 | remaining plus the reviewed entries equals the deck size, so the counter is non-negative while no card has been rated twice |
| Flashcards.FlashcardSession.ProgressPercent | src/App.tsx:1228 | the progress is the rounded percentage of reviewed entries over the deck size: non-negative, 0 before any review, at most 100 while no card has been rated twice |
| Progress.StatusOf | src/App.tsx:946-950 | at least 85 is strong, 70 up to 84 is good, below 70 needs work |
| Progress.StatusMonotone | src/App.tsx:946-950 | more progress never gives a worse status |
| Progress.StatusLabel | src/App.tsx:947-949 | strong shows "Strong", good shows "Good" and needs work shows "Needs Work", each text belonging to exactly one status |
| Progress.StatusLabelsDistinct | src/App.tsx:947-949 | different statuses show different badge texts |
| Progress.InsertByPercentage | src/App.tsx:1038 | insertion keeps the rows sorted and adds exactly the new row |
| Progress.InsertKeepsTies | src/App.tsx:1038 | the inserted row goes before every row that already shares its percentage |
| Progress.SortByPercentage | src/App.tsx:1038 | the sort is ascending by percentage and a permutation of its input |
| Progress.SortIsStable | src/App.tsx:1038 | rows with equal percentage keep their relative order |
| Progress.RankedCandidates | src/App.tsx:1036-1038 | the candidates are a permutation of the areas below 80, ascending by percentage, with areas of equal percentage in their input order |
| Progress.BelowTarget | src/App.tsx:1037 | an area is a recommendation candidate exactly when its percentage is below 80 |
| Progress.Recommendations | src/App.tsx:1036-1039 | at most three areas, all below 80, ascending, forming a prefix of the ranked candidates |
| Progress.RecommendationsAreWeakest | src/App.tsx:1036-1039 | a candidate left out is at least as strong as every one shown |
| Progress.RecommendationsCount | src/App.tsx:1039 | three are shown whenever three or more areas are below target |
| Progress.NoRecommendationsIffAllOnTarget | src/App.tsx:1053 | "Excellent Progress" shows exactly when no area is below 80 |
| Progress.MissingAreas | src/App.tsx:908-909 | the missing areas are exactly the catalog areas without a row, in catalog order |
| Progress.SeedingCoversAllAreas | src/App.tsx:909-919 | after seeding, every knowledge area has a row |
| Progress.RecommendationsOfFive | src/App.tsx:1036-1039 | for five rows whose second, fourth and fifth are below 80 in ascending order and the others are not, the recommendations are the fourth, fifth and second rows |
| Progress.FallbackRecommendations | src/App.tsx:932-938 | with the fallback rows, Chest Trauma (65), Post-operative Care (71) and VATS Techniques (78) are recommended, in that order |
| Catalog.AnswerKey | src/data/medicalContent.ts:17-23 | the key holds each question's correct option, in question order |
| Catalog.CaseStudiesWellFormed | src/data/medicalContent.ts:78-208 | every case has a question, and every key indexes one of at least two options |
| Catalog.FourOptionsEverywhere | src/data/medicalContent.ts:78-208 | every question offers four options |
| Catalog.FlashcardDeckSize | src/data/medicalContent.ts:27-76 | the deck has six cards |
| Catalog.CatalogIdsDistinct | src/data/medicalContent.ts:27-208 | card identifiers are distinct, and so are case identifiers |
| Catalog.CardCategoriesAreKnownAreas | src/data/medicalContent.ts:27-76 | every card's category names a knowledge area |
| AdminForms.ParseContentTags | src/components/AdminContentLibrary.tsx:140 | an empty field gives no tags; otherwise the i-th tag is the trimmed i-th comma-separated piece, one per comma plus one, empty ones kept |
| AdminForms.AdjacentCommasGiveEmptyTag | src/components/AdminContentLibrary.tsx:140 | two adjacent commas leave an empty tag |
| AdminForms.AdjacentCommasMatchEverything | src/components/AdminContentLibrary.tsx:137-141 | such an item, once in the library, matches every question |
| AdminForms.ParseAnswerOptions | src/components/AdminContentLibrary.tsx:175 | an empty field gives none; otherwise exactly the non-blank lines, untrimmed, in order and with their multiplicity |
| AdminForms.ParseLearningObjectives | src/components/AdminContentLibrary.tsx:176 | an empty field gives none; otherwise one trimmed objective per comma-separated piece, empty ones kept |
| AdminForms.CleanTags | src/components/AdminContentLibrary.tsx:692 | the cleaned tags are non-empty and trimmed |
| AdminForms.CleanTagsConcat | src/components/AdminContentLibrary.tsx:692 | cleaning distributes over concatenated pieces |
| AdminForms.ParseContextTags | src/components/AdminContentLibrary.tsx:689-692 | the stored context tags are the trimmed comma-separated pieces with the empty ones dropped, in order; each is non-empty, trimmed and comma-free |
| AdminForms.DisplayContextTags | src/components/AdminContentLibrary.tsx:646 | stored tags display as their join with a comma and a space; absent or empty tags display as the empty string |
| AdminForms.ParseOneTag | src/components/AdminContentLibrary.tsx:689-692 | one well-formed tag, alone or after the space that follows a comma, parses back to itself |
| AdminForms.ParseJoined | src/components/AdminContentLibrary.tsx:689-692 | parsing the comma-and-space display of well-formed tags gives the tags back |
| AdminForms.ContextTagsRoundTrip | src/components/AdminContentLibrary.tsx:689-692 | parsing the displayed form of well-formed tags gives the same tags |
| AdminForms.EditingIsStable | src/components/AdminContentLibrary.tsx:689-692 | the tags stored by a keystroke in the field, shown back in the field as their comma-and-space join, parse to themselves |
| AdminForms.NewContentRecord | src/components/AdminContentLibrary.tsx:136-141 | the new item copies the form and its tags are the parsed tags field |
| AdminForms.NewQuestionRecord | src/components/AdminContentLibrary.tsx:171-177 | the new question copies the form, and its options and objectives are the parsed option and objective fields |
| AdminForms.AfterAddContent | src/components/AdminContentLibrary.tsx:146-155 | after a stored add the content form is blank, text-typed and intermediate; otherwise it is unchanged |
| AdminForms.AfterAddQuestion | src/components/AdminContentLibrary.tsx:182-190 | after a stored add the question form is blank and multiple choice; otherwise it is unchanged |
| AdminForms.ResetFormsAreEmpty | src/components/AdminContentLibrary.tsx:146-190 | a reset form creates records with no tags, options or objectives |
| AdminForms.PromptTypeLabel | src/components/AdminContentLibrary.tsx:644 | no label contains an underscore |
| AdminForms.TwoWordLabel | src/components/AdminContentLibrary.tsx:644 | a two-word key with one underscore becomes the two words separated by a space |
| AdminForms.QuestionGenerationLabel | src/components/AdminContentLibrary.tsx:644 | `question_generation` is shown as "question generation" |
| AdminForms.AnswerEvaluationLabel | src/components/AdminContentLibrary.tsx:644 | `answer_evaluation` is shown as "answer evaluation" |
| AdminForms.FeedbackLabel | src/components/AdminContentLibrary.tsx:644 | `feedback` is shown unchanged |
| AdminForms.CaseScenarioLabel | src/components/AdminContentLibrary.tsx:644 | `case_scenario` is shown as "case scenario" |
| AdminForms.OnlyFirstUnderscoreReplaced | src/components/AdminContentLibrary.tsx:672 | only the first underscore of a key is replaced |

## Left out

- Speech capture and synthesis are not part of this model: the browser recording hook and the playback button.
- All calls to the hosted backend are inputs, not behaviour: authentication, database reads and writes, text generation and storage.
- JSON encoding of stored lists is not modelled; stored lists are `seq<string>`.
- Identifiers and timestamps derived from `Date.now()` are not modelled; `now` is a parameter.
- CaseSessions.CaseCompletion: the completion row also holds an identifier, the user, a time taken fixed at 0 and a timestamp; only the case id and the score are modelled.
- The random initial percentages of seeded progress rows are not modelled; only which areas get a row.
- The 500 ms auto-advance after a rating is not modelled; a caller may follow `FinishRating` with `NextCard`.
- The developer e-mail gate on the admin page is not modelled: it is an authorisation check at the application boundary.
- Rendering is not modelled: JSX, routing, the capitalised label style and the dashboard's fixed figures.
- Text.ToLower: only ASCII letters are lower-cased; JavaScript's full Unicode case mapping is not modelled.
- Tutor.Summary: strings are sequences of characters, not UTF-16 code units, so `substring(0, 200)` may differ for text outside the Basic Multilingual Plane.
- CaseSessions.RoundedPercent: `Math.round` of a floating-point quotient is modelled as exact integer round-half-up, and floating-point error at exact halves is not modelled.
- Flashcards.FlashcardSession.ProgressPercent: uses the same exact rounding as the case score.
- Tutor.VoiceTurn: the UI flags `isProcessing` and `isRecording` are not modelled, and the session topic is a parameter.
- AdminForms.NewContentRecord: whether a new item is active is the store's default, which the form does not set; it is a parameter.
- AdminForms.DisplayContextTags: a stored value the editor could not have produced, such as a tag containing a comma, is displayed but does not round-trip.
