# Bayes spam sniper — a Dafny model of the classification core

This project models the decision and training logic of a Telegram anti-spam
bot. Each group has a Naive Bayes classifier state. The bot first normalises
incoming text to defeat separator and spacing tricks, then tokenises it. It
runs a rule pre-filter for spaced-out Chinese text, and after that a memo
lookup by content hash and a Bayesian fallback, for the message content and
then for the sender's name. Its verdicts are written back as tentative
training records. Label changes on those records trigger retraining. Some
retraining requests go through a keyed batch debouncer.

The modules follow the program's components:

| module | component |
|---|---|
| `TextCleaner` | `TextCleaner.clean` and its private steps. It also covers the duplicate `clean_text` and `extract_found_message`. |
| `Tokenizer` | The `tokenize` pipeline of the classifier service: scan, expand, filter, downcase. |
| `Counts` | Token→count tables: their sums and the "bump by a token list" update. |
| `ClassifierStates` | `GroupClassifierState`: counters, load-time defaults, scopes, sentinels, `get_k_value`, top-N words and totals. |
| `Classifier` | `SpamClassifierService`: template bootstrap, `train_only`/`train`/`train_batch`, `rebuild_classifier` and the `classify` cold-start guard. |
| `TrainedMessages` | `TrainedMessage`: the labels, validation, and the create/update/destroy retrain callbacks. |
| `RuleClassifier` | `RuleBasedClassifier`: the CJK spacing-ratio test. |
| `Detection` | `SpamDetectionService`: text assembly and the `process` pipeline. |
| `BannedUsers` | `BannedUser`: relabel-to-ham when a ban is destroyed. |
| `Batches` | `BatchProcessor`: the add/flush state machine over integer seconds. |
| `MessageTypeSync` | `MessageTypeSyncJob#perform`. |
| `Metrics` | `PrometheusMetrics#sanitize_label` and `group_labels`. |
| `CleanerExamples` | The cleaner worked through on the separator-obfuscated phrases of the cleaner's test file, with the facts that let the idle steps leave text alone. |

`Wrappers`, `Chars` and `Strings` hold the shared vocabulary:
- `Option`/`Result`;
- the character classes, including `[一-龯]`, `[A-Za-z0-9]`, `\s` and the `String#strip` set;
- subsequences and `strip`;
- decimal `to_s`/`to_i`, where `to_i` also skips a `0d`/`0D` prefix after the sign and reads a single underscore between two digits.

The database is a sequence of records. The content hash is an injective tag.
The Unicode classes `\p{Han}`, `\p{Emoji_Presentation}` and `[[:punct:]]`, the
Jieba segmenter, the Bayesian score and the clock are all parameters.

## Model

| member | source | states |
|---|---|---|
| TextCleaner.CollapsePass | app/lib/text_cleaner.rb:19 | One `gsub` pass of a flanked-run rewrite never lengthens the text. It either leaves the text unchanged or strictly shortens it, which is the measure that makes the fixpoint loops terminate. |
| TextCleaner.CollapsePassSubseq | app/lib/text_cleaner.rb:19 | A pass only deletes characters: its result is a subsequence of its input. |
| TextCleaner.NoFlankedRunIsFixpoint | app/lib/text_cleaner.rb:17-20 | A text with no edge–gap-run–edge occurrence is left unchanged by a pass. |
| TextCleaner.FixpointHasNoFlankedRun | app/lib/text_cleaner.rb:17-20 | When edge and gap characters are disjoint, a text a pass leaves unchanged has no edge–gap-run–edge occurrence left. |
| TextCleaner.CollapsePassFixpointIff | app/lib/text_cleaner.rb:17-20 | Both directions: the loop stops exactly at texts with no flanked run. |
| TextCleaner.Fixpoint | app/lib/text_cleaner.rb:16-20 | Repeating passes reaches a text the pass fixes, no longer than the input. |
| TextCleaner.FixpointSubseq | app/lib/text_cleaner.rb:16-20 | The fixpoint is a subsequence of the input. |
| TextCleaner.FixpointLoop | app/lib/text_cleaner.rb:16-20 | The `previous = ""; while previous != cleaned` loop as written (the first round is always taken) returns the fixpoint, and the result has no flanked run. |
| TextCleaner.RemoveSeparators | app/lib/text_cleaner.rb:57-65 | Step 1: no word character (`[一-龯A-Za-z0-9]`) is followed by a run of non-space separators and then another word character. The result is a subsequence of the input. |
| TextCleaner.RemoveChineseSpaces | app/lib/text_cleaner.rb:67-75 | Step 2: no `[一-龯]` character is followed by a whitespace run and then another one. The result is a subsequence of the input. |
| TextCleaner.InsertSpacesSeparates | app/lib/text_cleaner.rb:78 | After inserting a space between each left–right pair, no left character is directly followed by a right one. |
| TextCleaner.InsertSpacesNonSpace | app/lib/text_cleaner.rb:78 | Inserting spaces leaves the non-whitespace characters exactly as they were. |
| TextCleaner.InsertSpacesKeepsNoAdjacent | app/lib/text_cleaner.rb:78-79 | The second insertion does not undo the separation established by the first. |
| TextCleaner.AddTokenizationSpaces | app/lib/text_cleaner.rb:77-80 | Step 3: no CJK character touches an ASCII alphanumeric, in either order. The non-whitespace characters are unchanged. |
| TextCleaner.SquashSpacesProperties | app/lib/text_cleaner.rb:38 | `gsub(/\s+/, " ")` leaves only single plain spaces and keeps the non-whitespace characters. |
| TextCleaner.SquashSpacesKeepsNoAdjacent | app/lib/text_cleaner.rb:38 | Squashing whitespace cannot make a CJK character and an ASCII alphanumeric adjacent. |
| TextCleaner.NormalizeSpaces | app/lib/text_cleaner.rb:38 | Step 4: the result is trimmed at both ends and single-spaced, and its non-whitespace characters are a subsequence of the input's. |
| TextCleaner.NormalizeSpacesKeepsNoAdjacent | app/lib/text_cleaner.rb:38 | Step 4 keeps the step-3 separation. |
| TextCleaner.ExtractFoundMessage | app/lib/text_cleaner.rb:47-53 | When the `#FOUND "…" IN …(…) FROM …(…)` prefix does not match at a line start, the input comes back unchanged. Otherwise the result is a proper suffix: the text after the prefix. |
| TextCleaner.ExtractFoundMessageOfForwarded | app/lib/text_cleaner.rb:44-53 | Round trip: a report assembled from keyword, group, handle, sender, id and body (fields free of their closing delimiters) extracts back to exactly the body. |
| TextCleaner.NoRunFromIff | app/lib/text_cleaner.rb:17-20 | A left-to-right reading with three states (after neither class, after an edge, inside a gap run after an edge) accepts a text exactly when it has no edge–gap-run–edge occurrence. Both directions, in every state. |
| TextCleaner.CollapsePassKeepsNoRun | app/lib/text_cleaner.rb:29 | A step-2 style pass creates no run of another shape, provided its edges are edges there and its deleted characters belong to neither class. |
| TextCleaner.FixpointKeepsNoRun | app/lib/text_cleaner.rb:25-30 | The same holds for the whole repeat-until-unchanged loop. |
| TextCleaner.RemoveChineseSpacesKeepsNoFlankedRun | app/lib/text_cleaner.rb:25-30 | Step 2 deletes only whitespace between two CJK characters, so no separator run between word characters reappears after step 1. |
| TextCleaner.InsertSpacesKeepsNoRun | app/lib/text_cleaner.rb:34-35 | A step-3 substitution creates no flanked run when a space read between the pair closes nothing that the pair alone would not. |
| TextCleaner.StepThreeSpacesFit | app/lib/text_cleaner.rb:34-35 | Both step-3 substitutions meet that condition for both shapes. A space between two word characters is not a separator, and a space next to an ASCII alphanumeric cannot join two CJK characters. |
| TextCleaner.AddTokenizationSpacesKeepsNoFlankedRun | app/lib/text_cleaner.rb:34-35 | Step 3 keeps a text free of either flanked shape. |
| TextCleaner.SquashSpacesKeepsNoRun | app/lib/text_cleaner.rb:38 | `gsub(/\s+/, " ")` creates no flanked run when all whitespace characters are in the same class. |
| TextCleaner.NoFlankedRunSlice | app/lib/text_cleaner.rb:38 | `strip` keeps a slice, and a slice of a text without flanked runs has none. |
| TextCleaner.NormalizeSpacesKeepsNoFlankedRun | app/lib/text_cleaner.rb:38 | Step 4 keeps a text free of either flanked shape. |
| TextCleaner.CleanStepsNoFlankedRun | app/lib/text_cleaner.rb:16-38 | What steps 1 and 2 remove stays removed through steps 2 to 4. |
| TextCleaner.CleanSteps | app/lib/text_cleaner.rb:16-38 | Steps 1–4 together yield a trimmed, single-spaced text with no CJK character next to an ASCII alphanumeric. No separator run lies between two word characters, and no whitespace lies between two CJK characters. Its non-whitespace characters are a subsequence of the input's. |
| TextCleaner.ExtractedSubseq | app/lib/text_cleaner.rb:10-12 | Stripping and then extracting keeps a subsequence of the non-whitespace characters. |
| TextCleaner.Clean | app/lib/text_cleaner.rb:7-41 | `nil` gives `""`. Every other result is trimmed and single-spaced and has no CJK character next to an ASCII alphanumeric. It has no separator run between word characters and no whitespace between CJK characters. It keeps a subsequence of the input's non-whitespace characters. |
| TextCleaner.CleanText | app/services/spam_classifier_service.rb:178-210 | The duplicate cleaner, without the extraction step, has the same guarantees, the absence of both flanked shapes included. |
| CleanerExamples.NoGapIsFixpoint | app/lib/text_cleaner.rb:16-30 | With no gap character in the text, the repeat-until-unchanged loop of step 1 or 2 returns the text unchanged. |
| CleanerExamples.NoPairInsertsNothing | app/lib/text_cleaner.rb:34-35 | Without a left-class character followed by a right-class one, a step-3 substitution inserts nothing. |
| CleanerExamples.SingleSpacedIsSquashed | app/lib/text_cleaner.rb:38 | Text that is already single-spaced is left alone by `gsub(/\s+/, " ")`. |
| CleanerExamples.NormalizedIsFixed | app/lib/text_cleaner.rb:38 | Step 4 is idempotent: single-spaced text with no strippable character at its ends comes back unchanged. |
| CleanerExamples.NoFoundPrefix | app/lib/text_cleaner.rb:47-53 | A single line that does not start with `#` has no `#FOUND` match, so extraction returns it unchanged. |
| CleanerExamples.CleanOfOneLine | app/lib/text_cleaner.rb:7-41 | For one line that needs no stripping, has no `#FOUND` prefix and has no white space left after step 1, `clean` is step 1 followed by step 3. |
| CleanerExamples.CleanCommaSeparated | test/lib/text_cleaner_test.rb:14-34 | `"联,系,我,们"` cleans to `"联系我们"`, in two passes of step 1. |
| CleanerExamples.CleanDotted | test/lib/text_cleaner_test.rb:14-34 | `"稳.赚.不.亏.的"` cleans to `"稳赚不亏的"`. |
| CleanerExamples.CleanMixedSeparators | test/lib/text_cleaner_test.rb:14-34 | `"合-约*报@单群组"` cleans to `"合约报单群组"`. |
| CleanerExamples.CleanTicker | test/lib/text_cleaner_test.rb:14-34 | `"B#T@C$500点"` cleans to `"BTC500 点"`: the separators go and step 3 puts a space between the price and its CJK unit. |
| Tokenizer.PreTokens | app/services/spam_classifier_service.rb:154 | Every scanned pre-token is a run drawn from a single one of the four classes. |
| Tokenizer.PreTokensKeep | app/services/spam_classifier_service.rb:154 | Concatenating the pre-tokens gives exactly the input's characters that belong to some class, in order. Nothing is invented or reordered. |
| Tokenizer.Expand | app/services/spam_classifier_service.rb:156-167 | A token with an emoji becomes one token per character. A token with a Han character and no emoji is segmented. Any other token stays whole. |
| Tokenizer.ExpandAllPlain | app/services/spam_classifier_service.rb:156-167 | Tokens with neither emoji nor Han pass through the expansion unchanged. |
| Tokenizer.LineOfSingleLine | app/services/spam_classifier_service.rb:214-219 | On a single line, the `^…+$` tests hold iff the token is non-empty and every character is in the class. |
| Tokenizer.KeepAll | app/services/spam_classifier_service.rb:169-172 | The kept tokens are exactly the input tokens that are not blank, not all-punctuation and not all-numerals. Each kept token occurs as often as in the input, and the result is a subsequence of the input, so the order is kept. |
| Tokenizer.LineOfDowncase | app/services/spam_classifier_service.rb:173 | For a class closed under ASCII downcasing, downcasing preserves the line test. |
| Tokenizer.KeepDowncase | app/services/spam_classifier_service.rb:169-173 | Downcasing after filtering keeps exactly the tokens that filtering kept. |
| Tokenizer.Tokenize | app/services/spam_classifier_service.rb:147-176 | No token contains an ASCII upper-case letter. |
| Tokenizer.TokenizeFiltered | app/services/spam_classifier_service.rb:169-173 | No returned token is blank, punctuation-only, or made only of Arabic or CJK numerals. |
| Counts.Bump | app/services/spam_classifier_service.rb:43-46 | Bumping adds exactly the new tokens to the table's keys. |
| Counts.BumpCounts | app/services/spam_classifier_service.rb:43-46 | Each token's count grows by its multiplicity in the token list. Every other count is unchanged. |
| Counts.BumpSum | app/services/spam_classifier_service.rb:42-46 | The table's sum grows by the number of tokens. |
| Counts.SumUpdate | app/services/spam_classifier_service.rb:44 | Overwriting one entry changes the sum by the difference. |
| ClassifierStates.AfterInitialize | app/models/group_classifier_state.rb:62-73 | A nil count table becomes `{}` and a nil counter becomes 0. Stored values are kept. |
| ClassifierStates.LoadSaved | app/models/group_classifier_state.rb:62-73 | Saving a state and loading it back gives the same state. |
| ClassifierStates.LoadIdempotent | app/models/group_classifier_state.rb:26 | Applying the defaults a second time changes nothing. |
| ClassifierStates.ForGroup | app/models/group_classifier_state.rb:15 | `for_group` selects exactly the states with a negative group id. |
| ClassifierStates.ForPublic | app/models/group_classifier_state.rb:14 | `for_public` selects exactly the states with a group id ≤ 0. |
| ClassifierStates.ForUserName | app/models/group_classifier_state.rb:11 | The `username` scope selects exactly the states with group id 0. |
| ClassifierStates.SentinelScopes | app/models/group_classifier_state.rb:7-15 | Group states are public. The user-name state is public and not a group. The data-collector sentinel −1 is a group; the user-name sentinel 0 is not. |
| ClassifierStates.Find | app/services/spam_classifier_service.rb:11 | The lookup by group id fails iff no state has that id. Otherwise it finds a state with that id. |
| ClassifierStates.MostRecent | app/services/spam_classifier_service.rb:13 | `order(updated_at: :desc).first` is nil only for no states. Otherwise it returns a member no older than any other. |
| ClassifierStates.KValue | app/models/group_classifier_state.rb:53-58 | The result is always in [5, 50]. An absent or blank parameter gives 20. A present one is read as `to_i` reads it, with a `0d` prefix skipped and single underscores between digits included. |
| ClassifierStates.KValueUnderscore | app/models/group_classifier_state.rb:53-58 | `"1_0"` gives 10: `to_i` skips a single underscore between digits. |
| ClassifierStates.KValueDoubleUnderscore | app/models/group_classifier_state.rb:53-58 | `"4__0"` gives 5: `to_i` stops at a double underscore and reads 4, which is raised to the minimum. |
| ClassifierStates.KValueWord | app/models/group_classifier_state.rb:53-58 | `"many"` gives 5: text without leading digits reads as 0, which is raised to the minimum. |
| ClassifierStates.KValueDecimalPrefix | app/models/group_classifier_state.rb:53-58 | `"0d30"` gives 30: `to_i` skips the `0d` decimal prefix. |
| ClassifierStates.KValueUpperDecimalPrefix | app/models/group_classifier_state.rb:53-58 | `"0D100"` gives 50: the prefix is skipped, and 100 is lowered to the maximum. |
| ClassifierStates.KValueOfNumber | app/models/group_classifier_state.rb:53-58 | A number in range passes through. Above 50 gives 50; below 5 gives 5. |
| ClassifierStates.TopWords | app/models/group_classifier_state.rb:29-38 | Returns min(limit, table size) distinct pairs taken from the table, with non-increasing counts. Every word left out counts no more than any word returned. |
| ClassifierStates.TopSpamWords | app/models/group_classifier_state.rb:29-32 | As `TopWords`, over the spam counts. |
| ClassifierStates.TopHamWords | app/models/group_classifier_state.rb:35-38 | As `TopWords`, over the ham counts. |
| ClassifierStates.TotalSpamWordsCount | app/models/group_classifier_state.rb:41-44 | The sum of the spam count values. |
| ClassifierStates.TotalHamWordsCount | app/models/group_classifier_state.rb:47-50 | The sum of the ham count values. |
| Classifier.Template | app/services/spam_classifier_service.rb:13 | There is no template iff no state has a negative group id. Otherwise the template is a group state, no older than any other group state. |
| Classifier.FindOrCreate | app/services/spam_classifier_service.rb:11-34 | An existing state for the id is returned and the store is untouched. Otherwise one state is appended. It carries the caller's name, and its counters are the template's copy, or zeros when there is no template. |
| Classifier.FindOrCreateUnique | app/models/group_classifier_state.rb:17 | Find-or-create keeps group ids unique and only extends the store. |
| Classifier.FindOrCreateReuses | app/services/spam_classifier_service.rb:11 | A second call for the same id reuses what the first stored, whatever name is passed. |
| Classifier.Learn | app/services/spam_classifier_service.rb:39-56 | After learning, the vocabulary size equals the number of distinct keys across both tables, whatever it was before. The vocabulary grows by exactly the message's tokens. |
| Classifier.TrainOnly | app/services/spam_classifier_service.rb:37-57 | Training one message keeps the group id, the name and the timestamp. It sets the vocabulary size to the key-union size. |
| Classifier.LearnSpam | app/services/spam_classifier_service.rb:40-46 | Spam: one more message, \|tokens\| more words, each token's multiplicity added to its count. The ham side is unchanged. |
| Classifier.LearnHam | app/services/spam_classifier_service.rb:47-53 | Ham, the mirror image: one more message, \|tokens\| more words, counts bumped. The spam side is unchanged. |
| Classifier.TrainSide | app/services/spam_classifier_service.rb:40-47 | A spam label trains the spam side. Every other label, `untrained` and the tentative ones included, trains the ham side. |
| Classifier.LearnKeepsDrift | app/services/spam_classifier_service.rb:42-52 | Training preserves `total_words − Σ counts` on both sides. |
| Classifier.LearnConsistent | app/services/spam_classifier_service.rb:37-57 | Training preserves "word totals equal count sums and vocabulary equals key union". |
| Classifier.TrainAllConsistent | app/services/spam_classifier_service.rb:140-142 | Folding training over any message list preserves that consistency. |
| Classifier.Saved | app/services/spam_classifier_service.rb:61 | `save!` keeps the new counters. It stamps `updated_at` only when something changed. |
| Classifier.Train | app/services/spam_classifier_service.rb:59-62 | `train` applies the update of `train_only` and stamps the state. |
| Classifier.LearnCountsMessage | app/services/spam_classifier_service.rb:40-48 | Each training adds exactly one message to the message totals. |
| Classifier.TrainBatch | app/services/spam_classifier_service.rb:64-69 | The batch gives the same counters as training each message in order. There is one save, so the stamp changes only for a non-empty batch. |
| Classifier.Selected | app/services/spam_classifier_service.rb:121-125 | Rebuild selects exactly the spam/ham records of the target, from every group. Each is kept as often as the store holds it, in store order. |
| Classifier.RebuildTarget | app/services/spam_classifier_service.rb:121 | Rebuild selects user-name examples iff the group id is the user-name sentinel. |
| Classifier.Rebuild | app/services/spam_classifier_service.rb:119-145 | Rebuild's counters are training folded over the selected records from all zeros. The name is the caller's. |
| Classifier.RebuildConsistent | app/services/spam_classifier_service.rb:128-143 | A rebuilt state's word totals equal its count sums and its vocabulary equals its key union. |
| Classifier.RebuildForgets | app/services/spam_classifier_service.rb:128-137 | Rebuild's result does not depend on the previous counters. |
| Classifier.RebuildIdempotent | app/services/spam_classifier_service.rb:119-145 | Rebuilding twice over the same store gives the same counters. |
| Classifier.Classify | app/services/spam_classifier_service.rb:71-110 | Returns `[false, 0.0, 0.0]` whenever either message total is 0. Otherwise it returns the score of the tokenised text. |
| Classifier.HamOnlyNoSpam | app/services/spam_classifier_service.rb:40-48 | Training only non-spam examples never changes the spam message total. |
| Classifier.ColdStartNeverSpam | app/services/spam_classifier_service.rb:75 | A state rebuilt from non-spam examples only never flags anything, whatever the scorer. |
| TrainedMessages.HashInjective | app/services/spam_detection_service.rb:117 | Two contents have the same hash iff they are equal. |
| TrainedMessages.Retrain | app/models/trained_message.rb:15-19 | `retrain_classifier` emits at most one request, with the record's group id and name. It emits one iff the label is not `untrained`. |
| TrainedMessages.TypeChangedIff | app/models/trained_message.rb:27-32 | `trainable_type_changed?` holds exactly when the label actually changed. |
| TrainedMessages.OnCreate | app/models/trained_message.rb:11 | Creating a record requests retraining iff it is spam or ham. |
| TrainedMessages.OnUpdate | app/models/trained_message.rb:12 | An update requests retraining iff the label changed and the new label is not `untrained`. |
| TrainedMessages.OnDestroy | app/models/trained_message.rb:13 | Destroying a record requests retraining iff it was spam or ham. |
| TrainedMessages.RelabelRetrains | app/models/trained_message.rb:12-32 | Relabelling from t to u retrains iff t ≠ u and u is not `untrained`. So spam↔ham retrains, and anything→untrained does not. |
| TrainedMessages.Create | app/models/trained_message.rb:6-11 | A record missing its group id, message or label is not stored and requests nothing. A valid one is appended and runs its create callback. |
| TrainedMessages.SetType | app/models/banned_user.rb:6 | `update!(message_type:)` sets the label. It leaves a record already carrying it untouched; otherwise only the label and `updated_at` change. |
| RuleClassifier.CountHan | app/services/rule_based_classifier.rb:30 | The Han count is zero iff no character is Han. |
| RuleClassifier.SpacedAtMostHan | app/services/rule_based_classifier.rb:29-30 | The count of Han characters followed by whitespace never exceeds the Han count. |
| RuleClassifier.RatioTest | app/services/rule_based_classifier.rb:33-35 | `spaced / chars > 0.8` iff `10·spaced > 8·chars`. |
| RuleClassifier.CheckChineseSpacing | app/services/rule_based_classifier.rb:19-41 | Spam iff there are at least 5 Han characters and more than 80% of them are followed by whitespace. A spam result is (content target, 1.0); otherwise it is the non-spam result. |
| RuleClassifier.Classify | app/services/rule_based_classifier.rb:8-15 | `classify` returns the spacing check's result unchanged. |
| RuleClassifier.NoHanPasses | app/services/rule_based_classifier.rb:25 | Text without Han characters is never spam. |
| RuleClassifier.ShortTextPasses | app/services/rule_based_classifier.rb:20 | Text with fewer than 5 Han characters is never spam, however spaced. |
| Detection.DisplayName | app/services/spam_detection_service.rb:7 | The user name is the present first and last names joined by one space, or empty. |
| Detection.Initialize | app/services/spam_detection_service.rb:2-17 | The checked text is the extracted body, followed by `" "` and the space-joined signals when there are any. A message without text fails. The group id, group name, user id and user name come from the chat and the sender. Each is absent when its source is. |
| Detection.InitializeForwarded | app/services/spam_detection_service.rb:9-14 | A forwarded report without signals is checked on its body alone. |
| Detection.NewRecord | app/services/spam_detection_service.rb:116-131 | The record's hash is the hash of its content. Its `marked_by` is `auto_sync` iff the label is spam or ham, else `not_marked_yet`. |
| Detection.Record | app/services/spam_detection_service.rb:119 | `create` stores a valid record and runs its callback. An invalid record is silently dropped. |
| Detection.ValidMessage | app/services/spam_detection_service.rb:133-135 | The text is valid iff it holds a character that `strip` would not remove. |
| Detection.CountLabelled | app/services/spam_detection_service.rb:59-60 | A `where(message_type:, training_target:).count` is at most the store size. It is zero iff no record has the target and one of the labels. |
| Detection.CountLabelledSnoc | app/services/spam_detection_service.rb:59-60 | A new record raises the count by one exactly when it has the target and one of the labels. |
| Detection.CountLabelledUnion | app/services/spam_detection_service.rb:59-60 | Counts over disjoint label sets add up to the count over their union. |
| Detection.CountByTarget | app/services/spam_detection_service.rb:58-62 | The spam and ham counts together are the records of the target labelled spam, maybe_spam, ham or maybe_ham. No record is counted twice. |
| Detection.FindByHash | app/services/spam_detection_service.rb:66 | The lookup fails iff no record in any group or target has the hash. Otherwise it returns a record carrying it. |
| Detection.HandleExisting | app/services/spam_detection_service.rb:80-93 | A spam record gives a spam verdict (the record's target, 1). A ham record gives non-spam. There is no verdict exactly when the label is neither spam nor ham, a missing label included. |
| Detection.ClassifyWithBayesian | app/services/spam_detection_service.rb:96-102 | The reported p_spam is the second value `classify` returns, the spam score. |
| Detection.CheckTarget | app/services/spam_detection_service.rb:64-78 | A confirmed memo label decides the verdict. Otherwise the classifier does. The confidence flag is set iff the memo record is spam. A confident verdict is spam, with the memo record's target and p_spam 1. |
| Detection.CheckTargets | app/services/spam_detection_service.rb:34-50 | The loop only appends, at most one record per target. A clean run leaves the result as it was. |
| Detection.Process | app/services/spam_detection_service.rb:19-54 | At most two records are added, and the store is only extended. A clean outcome is the non-spam result. Blank text returns non-spam and writes nothing. |
| Detection.RuleHitShortCircuits | app/services/spam_detection_service.rb:22-27 | A rule hit writes a `maybe_spam` content record and returns the rule verdict, whichever classifier is supplied. |
| Detection.ContentFirst | app/services/spam_detection_service.rb:29-41 | A spam verdict on the content stops the loop: one record for the content, the user name never examined. |
| Detection.UserNameChecked | app/services/spam_detection_service.rb:34-50 | After a clean content verdict, the user name is checked against the store the content step left. A spam verdict on it is returned and recorded once, for the user name, as `spam` when a memo record confirmed it and `maybe_spam` otherwise. A clean one adds at most a `maybe_ham` record and ends in the non-spam result. |
| Detection.ProcessJobs | app/services/spam_detection_service.rb:34-50 | A call requests at most one retraining. |
| Detection.CleanTargetBalances | app/services/spam_detection_service.rb:43-48 | A clean target gets a `maybe_ham` record exactly when spam+maybe_spam outnumber ham+maybe_ham for that target and p_spam < 0.1. |
| BannedUsers.MarkMessageAsHam | app/models/banned_user.rb:2-7 | Records matching group, sender and message id are relabelled ham through `update!`. Every other record is untouched. Requests carry the ban's group id. |
| BannedUsers.RelabelJobs | app/models/banned_user.rb:6 | One retrain request per matching record that was not already ham. |
| BannedUsers.RelabelledAreHam | app/models/banned_user.rb:6 | Afterwards every matching record is ham. Those already ham are unchanged, and nothing is left to relabel. |
| Batches.Flushed | app/models/batch_processor.rb:71-73 | A flush empties the items, zeroes the count and stamps the time. The batch settings are kept. |
| Batches.ProcessBatch | app/models/batch_processor.rb:64-75 | An empty batch is a no-op. Otherwise exactly one job is enqueued, carrying all pending items in order and the shared args. |
| Batches.FindOrCreate | app/models/batch_processor.rb:28-36 | The stored batch, or a new empty one with the given settings, stamped now. |
| Batches.AddToBatch | app/models/batch_processor.rb:27-48 | The item is appended and the count stored, with the settings unchanged. A full batch is flushed at once. Other keys are untouched. |
| Batches.AddLeavesRoom | app/models/batch_processor.rb:45-47 | With a positive size, a batch is never left full after an add. |
| Batches.DueShouldProcess | app/models/batch_processor.rb:50-62 | A batch swept as due satisfies `should_process_batch?`. A batch below size that should be processed has an expired window. |
| Batches.ShouldProcess | app/models/batch_processor.rb:60-62 | A batch at or over its size should be processed, and so should one whose window has passed. A batch below size within its window should not. |
| Batches.Sweep | app/models/batch_processor.rb:50-57 | The `find_each` loop over distinct keys flushes each visited batch that is due and leaves every other batch as it was. No key is added. |
| Batches.SweepDelivers | app/models/batch_processor.rb:50-57 | The sweep changes no key's delivered items, flushed followed by pending. |
| Batches.ProcessPendingBatches | app/models/batch_processor.rb:50-57 | Flushes exactly the non-empty batches whose window has passed. All others are unchanged. |
| Batches.AddWellFormed | app/models/batch_processor.rb:38-42 | An add keeps every count equal to its item list's length. |
| Batches.ProcessBatchDelivers | app/models/batch_processor.rb:67-74 | A flush moves items from pending to a job without losing or reordering any. |
| Batches.AddDelivers | app/models/batch_processor.rb:27-48 | An add appends the item to what its key has delivered, and nothing to any other key. |
| Batches.Conservation | app/models/batch_processor.rb:38-74 | Over any run, the flushed jobs' items for a key followed by its pending items are exactly the items added to it, in order. |
| MessageTypeSync.Selection | app/jobs/message_type_sync_job.rb:11-12 | The relation selects exactly the records with the hash and a different, non-null label. Each is kept as often as the store holds it, in store order. |
| MessageTypeSync.UpdateAll | app/jobs/message_type_sync_job.rb:14 | Records with the hash and another label get the new label and the time. Every other record is unchanged. |
| MessageTypeSync.NothingLeftToSync | app/jobs/message_type_sync_job.rb:11-14 | Once updated, the relation selects nothing. |
| MessageTypeSync.AddTraining | app/jobs/message_type_sync_job.rb:19-26 | One add on the training key appends the record to what that key has delivered, and nothing to any other key. |
| MessageTypeSync.EnqueueDelivers | app/jobs/message_type_sync_job.rb:17-27 | Exactly the spam/ham records reach the training batch, in order. No other key receives anything. |
| MessageTypeSync.Enqueue | app/jobs/message_type_sync_job.rb:17-27 | The loop delivers exactly the spam/ham records to the training batch, in order, and nothing to any other key. |
| MessageTypeSync.Perform | app/jobs/message_type_sync_job.rb:4-29 | As written: every labelled record with the hash gets the new label. Others, and records already carrying it, are untouched. Nothing is queued. |
| MessageTypeSync.PerformIntended | app/jobs/message_type_sync_job.rb:4-29 | Corrected: the same store update, and the relabelled records are queued for training when the new label is spam or ham. |
| MessageTypeSync.SyncDropsRetraining | app/jobs/message_type_sync_job.rb:11-18 | A ham record relabelled spam: the job as written queues nothing, while the corrected one queues it. |
| Metrics.SanitizeLabel | app/services/concerns/prometheus_metrics.rb:28-31 | nil or empty gives `"unknown"`. Otherwise the result has length min(64, \|input\|), and position i is the input's character if it is in `[A-Za-z0-9_-]`, else `_`. |
| Metrics.SanitizeIdempotent | app/services/concerns/prometheus_metrics.rb:28-31 | Sanitising a sanitised label changes nothing. |
| Metrics.IdToS | app/services/concerns/prometheus_metrics.rb:22 | A nil id prints empty. An integer prints so that `to_i` reads it back. |
| Metrics.GroupLabelsOf | app/services/concerns/prometheus_metrics.rb:20-25 | The id as text and the sanitised group name. |

## Left out

- The arithmetic of `classify` (log priors, Laplace smoothing, the ±700 clamp and the logistic) is floating point. It is the `score` parameter of `Classifier.Classify`; only the cold-start guard and the shape of the result triple are modelled. The 0.94 `probability_threshold` of config/application.rb:34 is inside `score`.
- The reported `p_spam` is the spam log-score, because `classify_with_bayesian` destructures the triple as `is_spam, p_spam`. The model keeps this, so the 0.1 balancing test compares a log-score.
- `\p{Han}`, `\p{Emoji_Presentation}`, `[[:punct:]]` and Jieba segmentation are parameters, since they depend on Unicode tables and a dictionary library.
- `Tokenizer.Tokenize`: downcasing is modelled for ASCII letters only. Ruby's full Unicode case mapping is not modelled.
- The CJK literals in the classifier service's duplicate `clean_text`/`tokenize` are read as the same `[一-龯]` ranges and punctuation as in app/lib/text_cleaner.rb.
- SHA-256 is an injective tag on the content. Collisions are not modelled.
- Concurrency is not modelled: concurrent updates of a state, the transaction around rebuild, and the scheduler thread that calls `process_pending_batches`.
- JSON serialisation of the count tables is not modelled. Counts are integers and tokens are strings.
- Timestamps are integer seconds supplied by the caller.
- A state with a nil `group_id` and the `language` inclusion validation of group_classifier_state.rb:18 are not modelled.
- `Batches`: the JSON round trip of `pending_items` and `shared_args` (app/models/batch_processor.rb:19-25,38-40) is not modelled. Items and args are passed through unchanged as values of a type parameter. In Ruby a `TrainedMessage` added at app/jobs/message_type_sync_job.rb:22 reaches the job as a parsed attribute hash, not as a record.
- `ClassifierTrainerJob` is not modelled. Retraining is an emitted request carrying the group id and name; the job's own arity disagrees with its callers.
- `Classifier.Classify`: the state creation inside `build_classifier` is not composed with detection. Detection receives the classifier as a parameter.
- `update!` raising on an invalid record is not modelled. Relabelled records keep their other fields, so they stay valid.
- `find_by`, `.first` and `find_each` take records in store order.
- trained_message.rb:2 declares three labels. The model has five, because detection stores `maybe_spam` and `maybe_ham` records.
- The `trainable`, `for_user_name` and `for_message_content` scopes used by rebuild are not defined in app/models/trained_message.rb. They are read as "label spam or ham" and "training target user name / message content".
- The `source` column of trained messages is not modelled. It has a database default, and the core never sets or reads it.
- The `BatchProcessor` validations (key presence and uniqueness, job class presence, a non-negative count) are not modelled. The batch table is a map from key, so keys are unique by construction.
- `RuleClassifier.CheckChineseSpacing`: the 0.8 ratio is compared exactly, as a rational. Ruby compares floats.
- `valid_message?` (app/services/spam_detection_service.rb:134) uses `String#strip`, which keeps U+3000 and the other non-ASCII spaces. The `message` presence validation (app/models/trained_message.rb:7) uses `blank?`, which treats them as blank. The model keeps the two sets apart (`IsStripSpace` and `IsUnicodeSpace`), so a text of only U+3000 passes `valid_message?` while its records fail validation and are dropped.
- An update from spam to a tentative label, or from ham to one, does request retraining, because `trainable_type_changed?` only compares the old and new label.
- `increment_metric` and the Prometheus registry, `MetricsService`, the controllers, the Telegram transport and the remaining jobs are outside this model.
- `ClassifierStates.TopSpamWords`: the default `limit = 50` of `top_spam_words` and `top_ham_words` (app/models/group_classifier_state.rb:29,35) is not modelled. Dafny has no default arguments, so every caller passes the limit.
- `ClassifierStates.TopWords`: the limit is a `nat`; Ruby's `first` with a negative limit raises, and that case is not modelled. Ties are ordered arbitrarily, where Ruby's sort order is also unspecified.

## Findings

| source | as written | input that shows it | evidently intended | confidence | as-written member | corrected member |
|---|---|---|---|---|---|---|
| app/jobs/message_type_sync_job.rb:11-28 | The lazy relation `where(message_hash:).where.not(message_type:)` is iterated after `update_all`, so its query runs against the already relabelled rows and selects nothing. No record is queued for retraining. | A single record with label ham and some hash, synced to spam. | The records the relation selected before the update are queued for training when their new label is spam or ham. | high, not executed | MessageTypeSync.SyncDropsRetraining | MessageTypeSync.PerformIntended |
