# Animal personality quiz — a Dafny model

This project models the core of the animal personality quiz, a Next.js application. The quiz asks twenty questions. Each answer text belongs to one of four animals (dove, owl, peacock, shark). The answers decide which animal the user is and produce a percentage breakdown. The model covers five things:

- **The scoring engine** (`lib/quiz-data.ts`). There are two strategies:
  - Strategy B is the live path. Each answer text is lower-cased and trimmed, then looked up in the answer table, and a hit casts one vote. Ties go to the alphabetically first animal. The percentages are rounded shares of all answers.
  - Strategy A scores selected trait labels. A label earns +2 when it is a defining trait of an archetype and +1 when it occurs in a strength phrase. Ties go to the last maximum in record order. The percentages are rounded shares of the total score.
- **The glossary** (`lib/trait-definitions.ts`) and its case-sensitive lookup.
- **The share card helpers** (`lib/social-media-card.ts`):
  - the card sizes;
  - the quote table and quote pick;
  - the greedy word wrap, with the text-measuring function as a parameter;
  - the platform captions.
- **The screens' state logic**, as classes whose fields are the React state:
  - the step machine of `quiz-container.tsx`;
  - the question screen's answer upsert and navigation;
  - the bounded trait picker;
  - the e-mail form.
- **The percentage breakdown** (`percentage-breakdown.tsx`): the stable descending sort, the primary animal, the minimum bar width, the "with traits from" clause and its separators, and the cohort count.

Modules, one per source file:

| module | file | models |
|---|---|---|
| `Wrappers` | `wrappers.dfy` | `Option` |
| `Text` | `text.dfy` | ASCII `toLowerCase`, `trim`, `includes`, `split(' ')`, `join` |
| `QuizData` | `quiz_data.dfy` | `lib/quiz-data.ts` |
| `QuizDataChecks` | `quiz_data_checks.dfy` | facts about the static data of `lib/quiz-data.ts` |
| `TraitDefinitions` | `trait_definitions.dfy` | `lib/trait-definitions.ts` |
| `SocialMediaCard` | `social_media_card.dfy` | `lib/social-media-card.ts` |
| `QuizContainer` | `quiz_container.dfy` | `components/quiz/quiz-container.tsx` |
| `QuestionStep` | `question_step.dfy` | `components/quiz/steps/question-step.tsx` |
| `TraitsStep` | `traits_step.dfy` | `components/quiz/steps/traits-step.tsx` |
| `ResultsStep` | `results_step.dfy` | `components/quiz/steps/results-step.tsx` |
| `PercentageBreakdown` | `percentage_breakdown.dfy` | `components/quiz/percentage-breakdown.tsx` |

Modelling conventions:

- Animals are a four-value datatype.
- A `Record<AnimalType, number>` is a `Tally` of four naturals, in the key order dove, owl, peacock, shark.
- Rounding is exact integer arithmetic. For `s >= 0` and `T > 0`, `Math.round(100*s/T)` is `(200*s + T) / (2*T)` (`RoundPercent`). `RoundPercentNearest` proves that this is the nearest integer to the real quotient.
- The scoring loops are methods with `while` loops. Each is proved equal to a recursive function over the list (`Votes`, `TraitScores`), and the properties are lemmas about those functions.
- Outcomes of the network, the confirmation dialog, the random number and the text-measuring canvas are parameters.
- `Votes` takes its answer reading as a function parameter (`classify`). The application uses `AnimalForOption`. Stating the counting lemmas over any reading keeps them independent of the table.

## Model

| member | source | states |
|---|---|---|
| Text.Lower | lib/quiz-data.ts:500 | lower-casing keeps the length, turns each capital into its small letter, keeps every other character, and leaves no upper-case letter |
| Text.Trim | lib/quiz-data.ts:500 | the trimmed text is a slice of the input with only white space cut on either side, and it is empty or neither starts nor ends with white space |
| Text.TrimStart | lib/quiz-data.ts:500 | the result is a suffix of the input that starts with a non-space, and only white space was cut |
| Text.TrimEnd | lib/quiz-data.ts:500 | the result is a prefix of the input that ends with a non-space, and only white space was cut |
| Text.TrimEmptyIff | components/quiz/steps/results-step.tsx:28 | trimming leaves nothing exactly when the text is all white space |
| Text.TrimTrimmed | lib/quiz-data.ts:500 | a trimmed text is empty or neither starts nor ends with white space |
| Text.TrimFixed | lib/quiz-data.ts:500 | a text without surrounding white space is its own trim |
| Text.TrimChars | components/quiz/steps/results-step.tsx:34 | every character of the trimmed text occurs in the original |
| Text.TrimKeeps | components/quiz/steps/results-step.tsx:34 | trimming keeps every non-space character |
| Text.LowerNoUpper | lib/quiz-data.ts:500 | lower-casing leaves a text without capitals unchanged |
| Text.ContainsCharIff | components/quiz/steps/results-step.tsx:42 | `includes` of a one-character string is character membership |
| Text.Contains | lib/quiz-data.ts:473 | `includes` holds iff the needle starts at some position of the haystack |
| Text.ContainsEmpty | lib/quiz-data.ts:473 | every text includes the empty string |
| Text.Split | lib/social-media-card.ts:239 | `split(' ')` gives at least one piece and no piece holds the separator |
| Text.JoinSplit | lib/social-media-card.ts:239 | joining the pieces of a split with the separator gives the text back |
| Text.Join | lib/social-media-card.ts:246 | the joined text begins with the first piece |
| Text.SplitAround | lib/social-media-card.ts:239-246 | splitting two texts joined by the separator gives the pieces of the first followed by those of the second |
| Text.SplitWhole | lib/social-media-card.ts:239-249 | a word without the separator splits into itself |
| Text.JoinSnoc | lib/social-media-card.ts:246 | joining one more piece appends the separator and that piece |
| QuizData.RankIsAlphabetical | lib/quiz-data.ts:537 | the record key order of the animals is the `localeCompare` order of their identifiers, in both directions |
| QuizData.RankInjective | lib/quiz-data.ts:489-494 | distinct animals have distinct key positions |
| QuizData.Add | lib/quiz-data.ts:500-502 | `scores[a] += k` raises only `a`'s count, by exactly `k` |
| QuizData.Plus | lib/quiz-data.ts:467-477 | adding two records adds them animal by animal |
| QuizData.GetAtMostTotal | lib/quiz-data.ts:572 | no count exceeds the sum of all four |
| QuizData.TallyExt | lib/quiz-data.ts:459-464 | records that agree on every animal are equal |
| QuizData.PlusCommute | lib/quiz-data.ts:499-513 | adding records is commutative |
| QuizData.PlusAssoc | lib/quiz-data.ts:499-513 | adding records is associative |
| QuizData.AddTotal | lib/quiz-data.ts:572 | adding `k` points raises the total by `k` |
| QuizData.NormalizeTrait | lib/quiz-data.ts:500 | the normal form has no capital and neither starts nor ends with white space |
| QuizData.TraitToAnimal | lib/quiz-data.ts:501 | a found animal lists the key among its answers, and nothing is found iff no animal lists it |
| QuizData.AnimalForOption | lib/quiz-data.ts:500-501 | an answer votes for an animal that lists its normal form, and for none iff no animal lists it |
| QuizData.NormalizeIdempotent | lib/quiz-data.ts:500 | normalising twice equals normalising once, so a text and its normal form vote alike |
| QuizData.ResponsesToTraits | lib/quiz-data.ts:545-547 | the result has one entry per answer, namely that answer's text, in order |
| QuizData.RoundPercent | lib/quiz-data.ts:609-614 | a part of the whole rounds to at most 100, and a zero part rounds to 0 |
| QuizData.RoundPercentNearest | lib/quiz-data.ts:609-614 | the integer formula is within one half of `100*part/whole`, rounding halves up as `Math.round` does |
| QuizData.RoundPercentWhole | lib/quiz-data.ts:609-614 | the whole is exactly 100 per cent |
| QuizData.CountVotes | lib/quiz-data.ts:499-513 | the loop's `scores` are the votes of the normalised answer table over the answers, and its unmapped list is the answers without a key |
| QuizData.Votes | lib/quiz-data.ts:499-505 | the answers cast at most one vote each |
| QuizData.VotesAppend | lib/quiz-data.ts:499-505 | the votes of two lists joined are the sum of their votes |
| QuizData.VotesSnoc | lib/quiz-data.ts:499-505 | one more answer adds exactly its own vote, so a repeated answer votes again |
| QuizData.VotesPermutation | lib/quiz-data.ts:499-505 | reordering the answers does not change the votes |
| QuizData.UnmappedIgnored | lib/quiz-data.ts:503-511 | inserting an answer whose text has no key changes no count |
| QuizData.VotesCount | lib/quiz-data.ts:499-505 | an animal's count is the number of answers that vote for it |
| QuizData.VotersForMembers | lib/quiz-data.ts:499-505 | the answers counted for an animal are exactly those whose text maps to it |
| QuizData.VotesTotal | lib/quiz-data.ts:499-513 | the votes plus the unmapped answers account for every answer |
| QuizData.VotesBounded | lib/quiz-data.ts:606-614 | no animal has more votes than there are answers |
| QuizData.UnanimousVotes | lib/quiz-data.ts:499-505 | when every answer votes for `a`, `a` gets one vote per answer and the others none |
| QuizData.Entries | lib/quiz-data.ts:523 | `Object.entries` lists every animal once, in key order, with its count |
| QuizData.WithValueMembers | lib/quiz-data.ts:527 | the tie filter keeps exactly the entries with the given score |
| QuizData.InsertPermutes | lib/quiz-data.ts:523-524 | inserting into the sorted list adds exactly the new entry |
| QuizData.InsertSorted | lib/quiz-data.ts:523-524 | inserting keeps the list in descending order |
| QuizData.InsertStable | lib/quiz-data.ts:523-524 | inserting keeps the order among entries of equal score |
| QuizData.SortDescending | lib/quiz-data.ts:523-524 | the sort keeps the length and is a permutation of its input |
| QuizData.SortDescendingCorrect | lib/quiz-data.ts:523-524 | the comparator sort is descending, a permutation, and stable: the entries of each score keep their input order |
| QuizData.SortKeepsDescending | lib/quiz-data.ts:523-524 | a list already in descending order is left as it is |
| QuizData.InsertInDisplayOrder | lib/quiz-data.ts:523-524 | inserting an entry whose key precedes all keys present keeps the list descending with ties in key order |
| QuizData.SortInDisplayOrder | lib/quiz-data.ts:521-524 | sorting entries given in key order yields them descending, with ties in key order |
| QuizData.SortedEntriesFacts | lib/quiz-data.ts:523-526 | the first sorted entry has the highest score, and it is the first in key order among those with that score |
| QuizData.FirstAlphabetically | lib/quiz-data.ts:537 | the tie sort picks a tied entry whose animal comes first alphabetically |
| QuizData.AlphabeticalWinnerUnique | lib/quiz-data.ts:530-541 | the Strategy B winner is unique |
| QuizData.ClassifyAlphabetical | lib/quiz-data.ts:522-541 | the result has the highest count, and it comes first alphabetically among the animals with that count, with or without a tie |
| QuizData.DetermineAnimalTypeFromResponses | lib/quiz-data.ts:488-542 | the result wins the votes of the normalised answer table under the alphabetical tie rule, and the ghost list is the answers with no key |
| QuizData.ShareOfResponses | lib/quiz-data.ts:606-614 | a count of at most the number of answers is at most 100 per cent, and a zero count is 0 per cent |
| QuizData.ShareOfResponsesGet | lib/quiz-data.ts:606-614 | each animal's percentage is its count rounded against the number of answers |
| QuizData.GetBlendedResultsFromResponses | lib/quiz-data.ts:586-617 | the percentages are the rounded vote shares of all answers, with the divisor `responses.length \|\| 1`, and each is at most 100 |
| QuizData.ShareOfResponsesMeaning | lib/quiz-data.ts:606-614 | a percentage is within one half of 100 times the share of answers that vote for the animal, where unmapped answers count in the divisor |
| QuizData.NoResponses | lib/quiz-data.ts:522-541 | no answers give zero counts, zero percentages and the dove |
| QuizData.UnanimousResult | lib/quiz-data.ts:499-541 | when every answer votes for `a`, `a` wins with 100 per cent and the others get 0 |
| QuizData.UnanimousWinner | lib/quiz-data.ts:522-541 | a record with one positive count is won by that animal |
| QuizData.UnanimousShares | lib/quiz-data.ts:606-614 | `n` votes of `n` answers give 100 per cent and the others 0 |
| QuizData.EvenShares | lib/quiz-data.ts:606-614 | five votes each of twenty answers give 25 per cent each |
| QuizData.MixedShares | lib/quiz-data.ts:606-614 | 8, 6, 4 and 2 votes of twenty give 40, 30, 20 and 10 per cent |
| QuizData.PairedShares | lib/quiz-data.ts:606-614 | 7, 7, 3 and 3 votes of twenty give 35, 35, 15 and 15 per cent |
| QuizData.ThirdsShares | lib/quiz-data.ts:606-614 | one vote each of three answers gives 33, 33, 33 and 0 per cent, summing to 99, because nothing renormalises |
| QuizData.DoveOwlTie | lib/quiz-data.ts:530-537 | a dove–owl tie goes to the dove, never the owl, and the stable sort already puts the dove first |
| QuizData.MentionedInStrengths | lib/quiz-data.ts:473 | a label is found in a strength only when the archetype has strengths, and the empty label is found iff it has any |
| QuizData.TraitPoints | lib/quiz-data.ts:468-476 | a label earns at most 3 points per archetype: 2 or more iff it is a defining trait (case-sensitive), and an odd score iff it occurs, ignoring case, in a strength |
| QuizData.DeclarationIndex | lib/quiz-data.ts:26-212 | each animal has one position in the declaration order of `animalArchetypes` |
| QuizData.AddTraitPoints | lib/quiz-data.ts:468-476 | the inner loop over the archetypes adds exactly each animal's points for the label |
| QuizData.ScoreTraits | lib/quiz-data.ts:459-477 | the scoring loop's record is the points summed over all selected labels |
| QuizData.ReduceWinner | lib/quiz-data.ts:480-482 | the `reduce` returns its start value or a later entry, with a score at least the start's and at least every later entry's |
| QuizData.ClassifyLastMaxCorrect | lib/quiz-data.ts:480-482 | the `reduce` has the highest score and is the last animal in key order with that score |
| QuizData.LastWinnerUnique | lib/quiz-data.ts:480-482 | the Strategy A winner is unique |
| QuizData.DetermineAnimalType | lib/quiz-data.ts:458-483 | the result wins the trait scores under the last-maximum rule |
| QuizData.ShareOfTotal | lib/quiz-data.ts:572-580 | each percentage is at most 100, and a zero total gives all zeros |
| QuizData.ShareOfTotalBounds | lib/quiz-data.ts:572-580 | each percentage is at most 100, and all are 0 exactly when the total score is 0 |
| QuizData.ShareOfTotalGet | lib/quiz-data.ts:576-579 | with a positive total, each percentage is the animal's score rounded against the total |
| QuizData.RoundPercentPositive | lib/quiz-data.ts:576-579 | a part of at least a quarter of the whole rounds to a positive percentage |
| QuizData.GetBlendedResults | lib/quiz-data.ts:550-583 | the percentages are the rounded shares of the total trait score, at most 100 each, and all zero iff the total is zero |
| QuizData.EmptyTraitPoints | lib/quiz-data.ts:469-475 | the empty label earns exactly 1 point from an archetype with a strength and no empty trait |
| QuizData.EmptyTraitTally | lib/quiz-data.ts:467-477 | the empty label earns 1 point for every animal |
| QuizData.QuizArchetypesNonEmpty | lib/quiz-data.ts:26-212 | every archetype has strengths and no empty trait |
| QuizData.EmptyLabelExample | lib/quiz-data.ts:458-583 | the empty label scores 1 for every animal and goes to the shark |
| QuizData.NoLabelsExample | lib/quiz-data.ts:458-583 | no labels go to the shark with all percentages 0 |
| QuizDataChecks.NormalizeKeyShaped | lib/quiz-data.ts:500 | a lower-case text without surrounding white space normalises to itself |
| QuizDataChecks.OptionMapped | lib/quiz-data.ts:344-447 | a key-shaped answer text votes for the animal it is listed under |
| QuizDataChecks.QuestionMapped | lib/quiz-data.ts:271-331 | question `k+1` of the bank has four answers, each of which votes for some animal |
| QuizDataChecks.AllOptionsMapped | lib/quiz-data.ts:271-447 | the bank has twenty questions, and all eighty answer texts are keys of the answer table after normalising |
| QuizDataChecks.BankAnswersAllVote | lib/quiz-data.ts:499-513 | answers taken from the bank are never unmapped |
| QuizDataChecks.NoneUnmapped | lib/quiz-data.ts:499-513 | answers that all have a key leave the unmapped list empty |
| QuizDataChecks.FirstAnswerOfQuestion20 | lib/quiz-data.ts:330 | the first answer of question 20, `people focused`, votes for the peacock |
| QuizDataChecks.SecondAnswerOfQuestion19 | lib/quiz-data.ts:327 | the second answer of question 19, `achieving`, votes for the shark |
| TraitDefinitions.GetTraitDefinition | lib/trait-definitions.ts:8-473 | a found entry carries the name it was looked up by, at least one example and at least one related label |
| TraitDefinitions.QuizTraitsDefined | lib/quiz-data.ts:214-261 | every label of the trait-selection screen has a glossary entry |
| TraitDefinitions.GlossaryIsQuizTraits | lib/trait-definitions.ts:471-473 | the lookup finds an entry exactly for the labels of the trait-selection screen, and gives null for every other name |
| TraitDefinitions.LookupIsCaseSensitive | lib/trait-definitions.ts:39 | no answer text of the question bank finds an entry; `patient` finds nothing while `Patient` finds its entry |
| TraitDefinitions.RelatedLabelsNeedNotBeKeys | lib/trait-definitions.ts:12-17 | `Persistent` lists `Determined`, which is not a key, and `Goal-oriented` is not a key while `Goal oriented` is |
| SocialMediaCard.CardDimensions | lib/social-media-card.ts:18-22 | every size is positive, only Instagram is square, and the others are 1200 wide landscapes |
| SocialMediaCard.MotivationalQuotes | lib/social-media-card.ts:25-46 | each animal has three quotes |
| SocialMediaCard.GetRandomMotivationalQuote | lib/social-media-card.ts:48-51 | for a random number in [0, 1), the quote is one of the animal's, the one at `floor(random * 3)` |
| SocialMediaCard.WrapFrom | lib/social-media-card.ts:241-253 | greedy wrapping gives at least one line and at most one per word |
| SocialMediaCard.WrapText | lib/social-media-card.ts:238-255 | the loop's lines are the greedy wrap of the words, at most one per word, and joining them with spaces gives the text back; a word joined each line only because the line with it measured less than `maxWidth`, and each break came from a next word that did not fit |
| SocialMediaCard.WrapLinesFit | lib/social-media-card.ts:243-247 | for words without spaces, every wrapped line fits: each of its words joined only while the line with it measured less than `maxWidth` |
| SocialMediaCard.LongerLineFits | lib/social-media-card.ts:245-247 | a fitting line stays fitting when a word without spaces is added because the line with it measures less than `maxWidth` |
| SocialMediaCard.WrapJoin | lib/social-media-card.ts:241-253 | joining the wrapped lines with spaces gives back the words joined with spaces |
| SocialMediaCard.WrapBreaksAreForced | lib/social-media-card.ts:245-251 | for words without spaces, a line ends only where adding the next word, which begins the next line, would measure at least `maxWidth` |
| SocialMediaCard.WrapStartsWith | lib/social-media-card.ts:241-247 | the first line is the first word, or starts with it followed by a space |
| SocialMediaCard.Article | lib/social-media-card.ts:275 | the article is `an` exactly for the owl, `a` otherwise |
| SocialMediaCard.Emoji | lib/social-media-card.ts:276 | each emoji begins with a pictograph at or above U+1F000, and only the dove's has a second character, the variation selector |
| SocialMediaCard.EmojiDistinct | lib/social-media-card.ts:276 | each animal has its own emoji |
| SocialMediaCard.BaseText | lib/social-media-card.ts:278 | the base text starts with "I just discovered I'm " |
| SocialMediaCard.ShareUrl | lib/social-media-card.ts:280 | the url is the window's origin when there is a window, `ethosaz.com` otherwise |
| SocialMediaCard.GenerateShareCaption | lib/social-media-card.ts:274-292 | every caption starts with the base text |
| SocialMediaCard.CaptionArticle | lib/social-media-card.ts:275-278 | every caption starts with "I just discovered I'm an " for the owl and "I just discovered I'm a " otherwise |
| SocialMediaCard.FacebookIsLinkedIn | lib/social-media-card.ts:285-287 | Facebook and LinkedIn captions are identical |
| SocialMediaCard.TwitterCaption | lib/social-media-card.ts:284 | the Twitter caption contains the url and ends with the three hashtags |
| SocialMediaCard.InstagramHasNoUrl | lib/social-media-card.ts:288-289 | the Instagram caption does not depend on the page origin |
| SocialMediaCard.OtherPlatformCaption | lib/social-media-card.ts:290-291 | an unknown platform gets the base text, call to action and url joined by single spaces |
| QuizContainer.ProgressPercentage | components/quiz/quiz-container.tsx:37-40 | progress is at most 100, 0 only on the welcome screen and 100 only on the thank-you screen |
| QuizContainer.ProgressGrows | components/quiz/quiz-container.tsx:37-40 | a later step never shows less progress |
| QuizContainer.Quiz.constructor | components/quiz/quiz-container.tsx:19-35 | the quiz mounts on an empty welcome screen with the given session id and a pending save |
| QuizContainer.Quiz.HandleWelcomeStart | components/quiz/quiz-container.tsx:42-47 | the questions screen follows, and the cohort id changes only to a given non-empty id |
| QuizContainer.Quiz.HandleQuestionsSubmit | components/quiz/quiz-container.tsx:49-103 | the answers are stored, the stored result is the Strategy B winner of those answers, the results screen follows whatever the save outcome, and the save status records that outcome |
| QuizContainer.Quiz.ShowResult | components/quiz/quiz-container.tsx:50-66 | storing the answers with their result keeps the invariant between the answers and the result |
| QuizContainer.Quiz.HandleResultsSubmit | components/quiz/quiz-container.tsx:105-153 | the address is kept, and the thank-you screen follows only an accepted request; otherwise the step stays |
| QuizContainer.Quiz.HandleRestart | components/quiz/quiz-container.tsx:155-162 | the address, answers, result and cohort are cleared, the save is pending and the welcome screen shows; the session id is a constant |
| QuizContainer.Quiz.HandleRestartConfirm | components/quiz/quiz-container.tsx:164-173 | mid-quiz a declined confirmation changes nothing and an accepted one restarts; on the first and last screens it restarts at once |
| QuizContainer.Quiz.Progress | components/quiz/quiz-container.tsx:37-40 | the current progress is at most 100 |
| QuizContainer.CompleteRun | components/quiz/quiz-container.tsx:42-173 | a full run shows the Strategy B winner of the answers and ends on an empty welcome screen in the same session |
| QuestionStep.OtherQuestions | components/quiz/steps/question-step.tsx:35 | the filter keeps exactly the answers to other questions |
| QuestionStep.Upsert | components/quiz/steps/question-step.tsx:35-40 | the new answer is last and the only one for its question, and the other answers are kept |
| QuestionStep.Find | components/quiz/steps/question-step.tsx:26 | `find` succeeds iff some answer has the id, and it returns the first answer with that id |
| QuestionStep.QuestionScreen.CanProceed | components/quiz/steps/question-step.tsx:26-27 | the screen can proceed iff some answer belongs to the current question |
| QuestionStep.QuestionScreen.IsLastQuestion | components/quiz/steps/question-step.tsx:23 | on a valid screen, the question is the last iff no question follows it |
| QuestionStep.UpsertKeepsUnique | components/quiz/steps/question-step.tsx:35-40 | one answer per question stays one answer per question |
| QuestionStep.OtherQuestionsKeepsUnique | components/quiz/steps/question-step.tsx:35 | filtering keeps answers with distinct ids distinct |
| QuestionStep.UpsertTwice | components/quiz/steps/question-step.tsx:35-40 | answering a question twice keeps only the second answer, with the others in place |
| QuestionStep.OtherQuestionsAppend | components/quiz/steps/question-step.tsx:35 | filtering a concatenation filters each part |
| QuestionStep.OtherQuestionsIdempotent | components/quiz/steps/question-step.tsx:35 | a second filter removes nothing more |
| QuestionStep.QuestionScreen.constructor | components/quiz/steps/question-step.tsx:15-19 | the screen starts at the first question with the given answers and nothing selected |
| QuestionStep.QuestionScreen.HandleOptionSelect | components/quiz/steps/question-step.tsx:29-59 | a tap while advancing does nothing; otherwise the answer is upserted, the last question hands the list to `onSubmit` and stays, any other question advances by one and clears the selection, and unique ids stay unique |
| QuestionStep.QuestionScreen.HandlePrevious | components/quiz/steps/question-step.tsx:61-67 | the index goes back by one only above the first question and when not advancing, stays in the bank, and the answers are kept |
| QuestionStep.AnsweredStaysAnswered | components/quiz/steps/question-step.tsx:26-40 | once a question is answered, `canProceed` stays true for it |
| QuestionStep.FindsNewAnswer | components/quiz/steps/question-step.tsx:26-40 | after an answer, `find` for its question returns exactly that answer |
| QuestionStep.FindPast | components/quiz/steps/question-step.tsx:26 | `find` passes over answers without the id |
| TraitsStep.Without | components/quiz/steps/traits-step.tsx:22 | the filter removes the label and keeps every other label |
| TraitsStep.Toggled | components/quiz/steps/traits-step.tsx:20-26 | a selected label is removed; an unselected one is appended while fewer than ten are selected; other labels are kept |
| TraitsStep.WithoutFacts | components/quiz/steps/traits-step.tsx:22 | removing a label keeps the rest distinct and shortens the list by one exactly when it was there |
| TraitsStep.ToggleKeepsValid | components/quiz/steps/traits-step.tsx:17-26 | at most ten labels, none twice, is kept by every toggle |
| TraitsStep.ToggleTwiceRestores | components/quiz/steps/traits-step.tsx:21-24 | adding a label with room and toggling it again restores the selection |
| TraitsStep.WithoutAppended | components/quiz/steps/traits-step.tsx:22-24 | removing a just-appended label gives the list back |
| TraitsStep.FullSelectionOnlyShrinks | components/quiz/steps/traits-step.tsx:23-25 | at the maximum, tapping an unselected label changes nothing |
| TraitsStep.TraitsPicker.constructor | components/quiz/steps/traits-step.tsx:16 | the picker starts from the initial labels |
| TraitsStep.TraitsPicker.ToggleTrait | components/quiz/steps/traits-step.tsx:20-26 | the new selection is the toggle of the old one, and a valid selection stays valid |
| TraitsStep.TraitsPicker.HandleSubmit | components/quiz/steps/traits-step.tsx:28-32 | `onSubmit` receives the selection iff at least ten labels are selected |
| TraitsStep.TraitsPicker.CanProceed | components/quiz/steps/traits-step.tsx:34 | for a valid selection, the picker can proceed iff at least ten labels are selected |
| TraitsStep.TraitsPicker.IsAtMax | components/quiz/steps/traits-step.tsx:35 | for a valid selection, the picker is at its maximum iff exactly ten labels are selected |
| TraitsStep.TraitsPicker.IsDisabled | components/quiz/steps/traits-step.tsx:76 | a card is disabled iff toggling it returns the selection unchanged |
| TraitsStep.ReadyIffFull | components/quiz/steps/traits-step.tsx:34-35 | for a valid selection, `canProceed`, `isAtMax` and the submit condition coincide |
| ResultsStep.ResultsForm.constructor | components/quiz/steps/results-step.tsx:20-22 | the form starts empty, idle and without an error |
| ResultsStep.ResultsForm.SetEmail | components/quiz/steps/results-step.tsx:211 | typing replaces the address and nothing else |
| ResultsStep.ResultsForm.StartSubmit | components/quiz/steps/results-step.tsx:26-34 | a blank address sends nothing and changes nothing; otherwise the trimmed address is sent, the form is busy, the error is cleared and the button is disabled |
| ResultsStep.ResultsForm.FinishSubmit | components/quiz/steps/results-step.tsx:33-39 | the form is idle afterwards, and the error is the fixed message exactly when the callback failed |
| ResultsStep.ResultsForm.IsValidEmail | components/quiz/steps/results-step.tsx:42 | the address is valid iff it contains an `@` and a `.` |
| ResultsStep.ResultsForm.SubmitDisabled | components/quiz/steps/results-step.tsx:224 | the button is enabled iff the address contains an `@` and a `.` and nothing is being sent |
| ResultsStep.ValidEmailChars | components/quiz/steps/results-step.tsx:42 | the address is valid iff its untrimmed text contains an `@` and a `.` |
| ResultsStep.ValidEmailIsSent | components/quiz/steps/results-step.tsx:28-42 | a valid address is never blank, and its trimmed form keeps the `@` and the `.` |
| ResultsStep.KeptChars | components/quiz/steps/results-step.tsx:34 | trimming keeps the `@` and the `.` |
| ResultsStep.FailedSubmission | components/quiz/steps/results-step.tsx:26-42 | sending an address with an `@` and a `.` and no surrounding white space, with a failing callback, sends that address, shows the message and re-enables the button |
| PercentageBreakdown.SortedAnimals | components/quiz/percentage-breakdown.tsx:21-22 | the sorted entries are the four input entries, in descending order, with ties in key order |
| PercentageBreakdown.SortedInDisplayOrder | components/quiz/percentage-breakdown.tsx:21-22 | each sorted entry has a larger percentage than every later one, or the same percentage and an earlier key |
| PercentageBreakdown.PrimaryAnimal | components/quiz/percentage-breakdown.tsx:25 | the primary animal is an input entry with the highest percentage, the first in key order among ties |
| PercentageBreakdown.SortedEntryValue | components/quiz/percentage-breakdown.tsx:21-22 | every sorted entry shows its animal's own percentage |
| PercentageBreakdown.SortedAnimalsDistinct | components/quiz/percentage-breakdown.tsx:21-22 | no animal is listed twice |
| PercentageBreakdown.EntriesOnce | components/quiz/percentage-breakdown.tsx:21 | `Object.entries` lists each entry once |
| PercentageBreakdown.BarWidth | components/quiz/percentage-breakdown.tsx:94 | the bar is at least 2 and at least the percentage wide, and it is one of the two |
| PercentageBreakdown.NonZero | components/quiz/percentage-breakdown.tsx:125-129 | the filter keeps exactly the positive entries |
| PercentageBreakdown.NonZeroCount | components/quiz/percentage-breakdown.tsx:125-129 | the positive and the zero entries account for all entries |
| PercentageBreakdown.NonZeroOne | components/quiz/percentage-breakdown.tsx:125-129 | some entry is kept iff some entry is positive |
| PercentageBreakdown.TraitsClauseIff | components/quiz/percentage-breakdown.tsx:125 | more than one sorted entry is positive iff two different animals have a positive percentage |
| PercentageBreakdown.ShowsTraitsClause | components/quiz/percentage-breakdown.tsx:125 | the "with traits from" clause shows iff two different animals have a positive percentage |
| PercentageBreakdown.NonZeroInDisplayOrder | components/quiz/percentage-breakdown.tsx:127-129 | the `> 0` filter keeps the display order |
| PercentageBreakdown.SecondaryAnimals | components/quiz/percentage-breakdown.tsx:127-130 | an entry is listed iff it is an input entry with a positive percentage whose animal is not the primary one; the list is descending with ties in key order; and it is non-empty iff the clause shows |
| PercentageBreakdown.SecondaryFacts | components/quiz/percentage-breakdown.tsx:125-130 | the positive sorted entries after the first are exactly the positive entries of the other animals, in display order, and there are some iff more than one entry is positive |
| PercentageBreakdown.SecondaryMembers | components/quiz/percentage-breakdown.tsx:127-130 | the positive sorted entries after the first are exactly the positive entries of the other animals |
| PercentageBreakdown.SecondaryOrder | components/quiz/percentage-breakdown.tsx:127-130 | the positive sorted entries after the first stay in display order |
| PercentageBreakdown.AfterFirstPositive | components/quiz/percentage-breakdown.tsx:127-130 | in a descending list of distinct animals, the positive entries after the first positive one are the positive entries of the other animals |
| PercentageBreakdown.Separator | components/quiz/percentage-breakdown.tsx:134 | no separator follows the last item, ` and ` follows the next-to-last, and `, ` every earlier one |
| PercentageBreakdown.Listing | components/quiz/percentage-breakdown.tsx:131-136 | the listing begins with the first label and is that label alone when it is the only one |
| PercentageBreakdown.SummaryHead | components/quiz/percentage-breakdown.tsx:121-124 | the words before the clause are "You are primarily ", then the primary animal's percentage with "% " and its name |
| PercentageBreakdown.Summary | components/quiz/percentage-breakdown.tsx:121-138 | the sentence begins with the opening, the primary percentage and the primary name; it is just that when the clause is hidden, and otherwise continues with " with traits from " |
| PercentageBreakdown.ListingContains | components/quiz/percentage-breakdown.tsx:131-136 | every label occurs in the listing |
| PercentageBreakdown.SummaryNamesSecondary | components/quiz/percentage-breakdown.tsx:121-138 | every listed animal's label, name and percentage, occurs in the sentence |
| PercentageBreakdown.MixedSummary | components/quiz/percentage-breakdown.tsx:121-138 | the record 35/35/15/15 reads "You are primarily 35% Dove with traits from Owl (35%), Peacock (15%) and Shark (15%)" |
| PercentageBreakdown.MixedSorted | components/quiz/percentage-breakdown.tsx:21-22 | the entries of 35/35/15/15 sort to their key order, since the ties stay in place |
| PercentageBreakdown.ListingReadsAsList | components/quiz/percentage-breakdown.tsx:131-136 | the labels read "A", "A and B", or "A, B and C", with `, ` between items, ` and ` before the last and nothing after it |
| PercentageBreakdown.Labels | components/quiz/percentage-breakdown.tsx:133 | one label per listed entry |
| PercentageBreakdown.UnanimousBreakdown | components/quiz/percentage-breakdown.tsx:21-139 | a unanimous record names its animal as primary and shows no clause |
| PercentageBreakdown.CohortCount | components/quiz/percentage-breakdown.tsx:146 | the count is the first matching distribution's count, and 1 when there is no match or the count is 0 |

The per-answer lemmas of `QuizDataChecks` (for example `PatientKey` and `PatientVotes`) and the per-label lemmas of `TraitDefinitions` (for example `PersistentDefined`) are the steps of `AllOptionsMapped` and `QuizTraitsDefined`. The arithmetic and sequence lemmas without rows are helpers of the members above.

## Left out

- Console logging in `determineAnimalTypeFromResponses` is not modelled. The unmapped answers it logs are the method's ghost output `unmapped`.
- JavaScript numbers are not modelled. Counts are naturals, and `Math.round` is exact integer rounding of the rational share. Double-precision effects at exact halves are not captured.
- `SocialMediaCard.Emoji`: strings are sequences of Unicode code points, not of UTF-16 code units. The model's owl emoji has length 1 and the dove's has length 2, while in JavaScript `'🦉'.length` is 2 and `'🕊️'.length` is 3. Nothing modelled depends on a string's length in code units.
- Unicode lower-casing and trimming are not modelled. `Lower` folds only ASCII capitals, and `Trim` removes ASCII space, tab, line feed, carriage return, vertical tab and form feed.
- The deprecated `optionToAnimalMapping` in `lib/quiz-data.ts` is not modelled. Nothing reads it.
- The test file expects Strategy B ties to go to the later entry. The code returns the alphabetically first animal, and the model follows the code. The tests' expectations about whole bank answers are not modelled either: answer A of question 20 votes for the peacock and answer B of question 19 votes for the shark, so an "all option A" run is not unanimous for the dove.
- `TraitDefinitions.GetTraitDefinition`, and Strategy B's `traitToAnimalMapping[...]` lookups (`AnimalForOption`, `TraitToAnimal`, lib/quiz-data.ts:344, 501, 597), model only the own keys of the object literals. Names inherited from `Object.prototype`, such as `constructor`, `toString` or `__proto__`, would find the inherited member in JavaScript instead of nothing. No label or answer text of the application is such a name.
- The display text of the glossary is not modelled. `TraitDefinition` keeps the name, the number of examples and the related labels, but not the definition or the wording of the examples.
- The canvas code of `lib/social-media-card.ts` is not modelled: card drawing, decorations, download, sharing and clipboard. `wrapText` takes its width function as the parameter `measure`.
- `GetRandomMotivationalQuote` takes the `Math.random()` value as its parameter `random`. Its index is the floor of a real product, not of a double-precision one.
- `GenerateShareCaption` takes `window.location.origin` as an optional parameter; `None` stands for no window.
- `QuizContainer.Quiz.HandleQuestionsSubmit` assumes the save request has finished. The save status is set in the same call rather than after the `await`, so the brief pending status on the results screen is not modelled. `saved` is the outcome of the request.
- `QuizContainer.Quiz.HandleQuestionsSubmit` requires `classify == AnimalForOption`. The constructor establishes it, and the field only names the answer reading the invariant speaks of.
- `QuizContainer.Quiz.HandleResultsSubmit` takes the outcome of `/api/submit` as `accepted`. Toasts are not modelled.
- `QuizContainer.Quiz.HandleQuestionsSubmit` and `QuizContainer.Quiz.HandleResultsSubmit` each treat their awaited request as one step, so a restart while a request is pending is not modelled. The "Start Over" button shows on every step but the welcome screen (components/quiz/quiz-container.tsx:194-210), so `handleRestartConfirm` can run during the `await` at lines 70 and 121. In the source, a late `setSaveStatus` (lines 91 and 95) then lands on the restarted quiz, which breaks the invariant `animalResult == None ==> saveStatus == Pending` of `Quiz.Valid`. A late `setCurrentStep('thank-you')` (line 144) moves the emptied quiz from the welcome screen to the thank-you screen.
- The container's `handleResultsSubmit` catches every error, so, as wired up, the results screen's `onSubmit` never rejects and its error message never appears. `ResultsStep.ResultsForm.FinishSubmit` still models the failure path, with `rejected` as its outcome.
- The session id uses `Date.now()` and `Math.random()`; it is the constructor parameter `generatedSessionId` instead.
- `QuestionStep.QuestionScreen.HandleOptionSelect` folds in the 600 ms pause. The state after the pause is its post-state, and the intermediate state (selection shown, advancing) is visible only on the last question, where it stays.
- `QuestionStep.QuestionScreen` is given its question bank as a constructor parameter. The application passes `PersonalityQuestions`.
- The question screen's progress bar is not modelled. It is a floating-point percentage.
- The rendering checks of the container (`currentStep === 'results' && animalResult`) and of the breakdown (the cohort box shows only with distributions) are not modelled. Neither is the cohort's `totalParticipants` line.
- Presentation-only components are not part of this model: trait cards, tooltips, welcome and thank-you screens, the QR code dialog, the cookie banner, the share widget and the quiz-taker counter. Neither are the database, the e-mail service or the API routes.
