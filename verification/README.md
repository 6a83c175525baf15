# ToxiGuard moderation core in Dafny

ToxiGuard is a Telegram group-moderation bot. Every text message from a human is counted against its sender. It is checked first against a list of banned words and otherwise scored by a remote classifier. A violation triggers a warning, an optional deletion and, once the sender has collected enough warnings, a ban. Settings, per-user records and four global counters live in a `DataManager`, which loads them from a JSON file and saves them back.

This project models that core:

| module | file | what it holds |
|---|---|---|
| `Wrappers` | `wrappers.dfy` | `Option` and `Result` |
| `Text` | `text.dfy` | the Python string built-ins used: `lower`, substring `in`, `lstrip('@')`, `' '.join`, `int` |
| `Scoring` | `scoring.dfy` | `_calculate_violation_score` and the sensitivity threshold |
| `Analyzer` | `analyzer.dfy` | the part of `analyze_message` after the classifier call, and the `OpenAIAnalyzer` object |
| `Store` | `store.dfy` | settings, user table, counters, the data file as an abstract document, and the `DataManager` class (`_default_data`, `_load_data`, `_create_default_data_file`, `save_data`) |
| `BanWords` | `banwords.dfy` | the ban-word filter, the fixed ban-word result, and the list edits of `/add_ban_word` and `/remove_ban_word` |
| `Enforcement` | `enforcement.dfy` | what one message does to the store, as a function (`HandleSpec`), and the lemmas about it, including the counter invariant over any run of messages |
| `Bot` | `handlers.dfy` | the `Handlers` class: `handle_message`, `_process_violation`, `_delete_violation_message`, `_ban_user` and the state-changing commands, each proved equal to the function it implements; the `/user_info` lookup |

The same logic exists twice in the repository:

- the package (`src/services/analyzer.py`, `src/bot/handlers.py`, `src/data/manager.py`);
- the older single-file copy `src/mem.py`.

The two copies behave the same, with three differences. `mem.py` moves the warning text into `_format_warning_text`. It lowers the text into a local variable before the ban-word test. Its classifier prompt asks only for `spam`, `toxic`, `danger` and `reason` and gives no examples (src/mem.py:161-167; the package's prompt, src/services/analyzer.py:30-44, also asks for `violation_score` and `violation`). The prompt is left out of the model (see "## Left out"), and the score and verdict are recomputed from the three sub-scores either way. The model is written once. The table cites the package and gives the matching `mem.py` lines in the third column.

Effects from outside are inputs. The classifier's answer (a parsed reply, or a failure) and whether each Telegram call succeeds form one `Effects` record per message. An exception that ends a message's processing becomes a `Failure` value. Such a failure skips the final `save_data` and produces the generic error reply.

Two behaviours of the code worth knowing:

- **A failed delete is not always swallowed.** If `message.delete()` fails and the `edit_text` that reports the failure also fails, the exception escapes. The ban check is then skipped and the message is not saved (`DeleteNoticeNotEdited`).
- **`deleted_messages <= violations_found` holds from the defaults and is preserved by every message.** A deletion is attempted and counted only inside `_process_violation`, after `violations_found` was raised (src/bot/handlers.py:212-214, 243-250). `Enforcement.Consistent` includes the inequality, `Enforcement.InitialState` shows the defaults meet it and `Enforcement.ReplayConsistent` keeps it over any run of messages. `_load_data` does not check the counters of a file it accepts (src/data/manager.py:42-47), so a hand-edited file can start from a state that breaks it.

## Model

| member | source | states |
|---|---|---|
| Text.LowerIdempotent | src/bot/handlers.py:199 | lowering a lowered text changes nothing (the model's `str.lower` leaves no capitals) |
| Text.Lower | src/bot/handlers.py:199 | `str.lower`, character by character: what a caller uses is `Text.LowerChar`'s contract (no capital is left, a non-capital is kept) and `Text.LowerIdempotent` (also src/mem.py:524) |
| Text.Contains | src/bot/handlers.py:199 | the substring test `word in text`: some position holds the word; `Text.EmptyContainedEverywhere` gives the empty-word case |
| Text.StripLeadingAt | src/bot/handlers.py:123 | `lstrip('@')` drops exactly the leading '@' characters: the result is a suffix, every dropped character is '@', and it does not start with '@' (also src/mem.py:424) |
| Text.JoinWithSpaces | src/bot/handlers.py:74 | a single argument joins to itself (also src/mem.py:375) |
| Text.EmptyContainedEverywhere | src/bot/handlers.py:199 | `'' in s` holds for every `s` |
| Text.ParseDecimal | src/bot/handlers.py:58 | `int()` of a decimal spelling gives back the number (also src/mem.py:359) |
| Text.ParseInt | src/bot/handlers.py:58 | `int(context.args[0])`: a number iff the spelling is digits, or a sign followed by at least one digit; any other spelling (where Python raises ValueError) gives none; a '-' gives a value <= 0 and otherwise it is >= 0; `Text.ParseDecimal` shows that every decimal spelling parses back to its number (also src/mem.py:359) |
| Scoring.Normalize | src/services/analyzer.py:53-55 | a sub-score scaled to [0,1] and clamped; exact division by 100 inside [0,100] (also src/mem.py:202-204) |
| Scoring.Max3 | src/services/analyzer.py:57 | the maximum bounds all three and is one of them (also src/mem.py:206) |
| Scoring.CompositeScore | src/services/analyzer.py:52-59 | the composite lies in [0,100] for any inputs, out-of-range ones included (also src/mem.py:184-208) |
| Scoring.Blend | src/services/analyzer.py:57-59 | max plus half of the rest, capped at 1 and scaled, lies in [0,100] (also src/mem.py:206-208) |
| Scoring.CompositeAtLeastMax | src/services/analyzer.py:57-59 | composite >= 100 times the largest clamped sub-score (also src/mem.py:206-208) |
| Scoring.CompositeClosedForm | src/services/analyzer.py:57-59 | composite == min(100, 50 * (max + sum of the clamped sub-scores)) (also src/mem.py:206-208) |
| Scoring.CompositeClampsInputs | src/services/analyzer.py:53-55 | an input below 0 acts as 0 and one above 100 as 100 (also src/mem.py:202-204) |
| Scoring.NormalizeClamp | src/services/analyzer.py:53-55 | normalising a clamped percentage is normalising the raw one; at or below 0 gives 0, at or above 100 gives 1 |
| Scoring.CompositeSymmetric | src/services/analyzer.py:57-58 | the composite is the same under all six orders of spam, toxic and danger (also src/mem.py:206-207) |
| Scoring.CompositeMonotone | src/services/analyzer.py:53-59 | raising any sub-score never lowers the composite (also src/mem.py:202-208) |
| Scoring.CompositeOfZero | src/services/analyzer.py:53-59 | sub-scores all at or below 0 give exactly 0 |
| Scoring.CompositeSaturates | src/services/analyzer.py:53-59 | any one sub-score at or above 100 gives exactly 100 |
| Scoring.CompositeExample | src/services/analyzer.py:52-59 | (10, 20, 5) gives 27.5 |
| Scoring.Threshold | src/services/analyzer.py:84 | `(1.01 - s/100) * 100` is exactly 101 - s over the reals (also src/mem.py:254) |
| Scoring.ThresholdBounds | src/services/analyzer.py:84 | for s in 1..100 the threshold lies in [1,100]: 1 at s = 100, 100 at s = 1 |
| Scoring.VerdictAtExtremes | src/services/analyzer.py:84-85 | a zero score never violates at s <= 100; a score of 100 always violates at s >= 1 (also src/mem.py:254-255) |
| Scoring.StricterSensitivity | src/services/analyzer.py:84-85 | raising the sensitivity never turns a violation into a non-violation |
| Scoring.VerdictMonotoneInScores | src/services/analyzer.py:78-85 | higher sub-scores keep a violation a violation |
| Scoring.VerdictExamples | src/services/analyzer.py:84-85 | 27.5 is below the threshold 51 of s = 50; 90 reaches the threshold 31 of s = 70 |
| Analyzer.Analysis | src/services/analyzer.py:77-95 | score in [0,100]; an answer's raw sub-scores and reason pass through and `violation` holds iff score >= `Threshold(s)` (= 101 - s); a failure is never a violation and scores 0 (also src/mem.py:244-266) |
| Analyzer.AnalysisOverwritesClaims | src/services/analyzer.py:77-87 | any classifier-supplied `violation_score` or `violation` is discarded; the score is the composite of the raw sub-scores (also src/mem.py:244-257) |
| Analyzer.AnalysisFailOpen | src/services/analyzer.py:89-95 | any failure inside the `try` yields 0/0/0, score 0, no violation, reason "Ошибка анализа" (also src/mem.py:259-266) |
| Analyzer.AnalysisStricter | src/services/analyzer.py:84-85 | a higher sensitivity never clears a flagged answer |
| Analyzer.AnalysisExtremes | src/services/analyzer.py:78-85 | at s in 1..100, an all-zero answer never violates and a saturated one always does |
| Analyzer.OpenAIAnalyzer.constructor | src/services/analyzer.py:45-47 | a new analyzer has no data manager |
| Analyzer.OpenAIAnalyzer.SetDataManager | src/services/analyzer.py:49-50 | links the data manager (also src/mem.py:180-182) |
| Analyzer.OpenAIAnalyzer.AnalyzeMessage | src/services/analyzer.py:61-95 | raises `DataManagerNotSet` iff no data manager is set; otherwise returns `Analysis` at the current sensitivity (also src/mem.py:210-266) |
| Store.DefaultSettings | src/data/manager.py:19-24 | sensitivity 70, the five listed ban words in order, auto_delete on, warn_before_ban 3 (also src/mem.py:66-74) |
| Store.EmptyUsers | src/data/manager.py:25 | no users; that the order and the keys stay in step is carried by the `UserTable` type |
| Store.DefaultDocument | src/data/manager.py:17-32 | the defaults hold all three keys: default settings, no users, four zero counters (also src/mem.py:57-82) |
| Store.Snapshot | src/data/manager.py:63-68 | what `save_data` writes holds all three keys (also src/mem.py:122-126) |
| Store.LoadSpec | src/data/manager.py:34-52 | loading succeeds iff the file holds all three keys, or it is not unreadable and rewriting the defaults succeeds; after a load the file holds exactly the loaded values; a failed load leaves the file as it was (also src/mem.py:84-104) |
| Store.LoadTakesCompleteDocument | src/data/manager.py:42-47 | a complete document is accepted and its three values are taken exactly (also src/mem.py:94-99) |
| Store.LoadFallsBackToDefaults | src/data/manager.py:34-52 | a missing, malformed or incomplete file is replaced by the defaults and the retry loads them (also src/mem.py:86-87, 101-104) |
| Store.SaveLoadRoundTrip | src/data/manager.py:63-68 | loading what `save_data` wrote gives back the saved settings, users and stats; loading again after any successful load changes nothing |
| Store.UpdateUser | src/bot/handlers.py:195 | replacing a known user's record keeps the insertion order; that the order stays free of duplicates and in step with the keys is carried by the `UserTable` type, and the effect on one message by `Enforcement.CountMessageShape` |
| Store.AddUser | src/bot/handlers.py:185-191 | a new key goes to the end of the insertion order; that the order stays free of duplicates and in step with the keys is carried by the `UserTable` type |
| Store.DataManager.constructor | src/data/manager.py:11-15 | the fields and file are those `LoadSpec` gives for the file found (also src/mem.py:50-55) |
| Store.DataManager.CreateDefaultDataFile | src/data/manager.py:54-61 | writes the defaults, or raises and leaves the file alone (also src/mem.py:106-114) |
| Store.DataManager.LoadData | src/data/manager.py:34-52 | the fields, file and error are exactly those of `LoadSpec`; a failed load leaves the fields alone (also src/mem.py:84-104) |
| Store.DataManager.SaveData | src/data/manager.py:63-73 | writes the snapshot of memory, or leaves the file alone when the write fails; memory never changes (also src/mem.py:116-131) |
| BanWords.CheckBanWordsSpec | src/bot/handlers.py:197-199 | the filter fires iff some stored word is a substring of the lowered text (also src/mem.py:514-525) |
| BanWords.CheckBanWords | src/bot/handlers.py:197-199 | `_check_ban_words`: any stored word as a substring of the lowered text; its meaning is stated by `BanWords.CheckBanWordsSpec` (also src/mem.py:514-525) |
| BanWords.CheckBanWordsEdgeCases | src/bot/handlers.py:197-199 | an empty list never fires; a stored empty word fires on every text |
| BanWords.CheckBanWordsIgnoresTextCase | src/bot/handlers.py:199 | the text's case does not matter |
| BanWords.CheckBanWordsExample | src/bot/handlers.py:197-199 | "cheap" catches "Buy CHEAP stuff"; "cat" catches "concatenate" |
| BanWords.CapitalisedWordNeverMatches | src/bot/handlers.py:197-199 | stored words are not lowered, so a stored word with a capital never matches |
| BanWords.CreateBanWordViolation | src/bot/handlers.py:201-207 | spam 90, toxic 40, danger 70, score 90, violation, reason "Запрещенное слово" (also src/mem.py:527-538) |
| BanWords.BanWordResultBypassesScorer | src/bot/handlers.py:168-171 | the fixed score 90 is not the scorer's (which gives 100 for 90/40/70), and the result is a violation even where 90 is below the threshold |
| BanWords.WithWord | src/bot/handlers.py:75-78 | the word is listed afterwards; appended at the end only when absent, otherwise the list is unchanged (also src/mem.py:376-379) |
| BanWords.WithoutWord | src/bot/handlers.py:89-92 | an absent word leaves the list unchanged; a present one shortens it by one (also src/mem.py:390-393) |
| BanWords.WithoutWordMultiset | src/bot/handlers.py:92 | removal takes away exactly one copy of the word |
| BanWords.WithoutWordCutsFirst | src/bot/handlers.py:92 | removal cuts out the first occurrence; everything before and after keeps its order |
| BanWords.WithWordKeepsDistinct | src/bot/handlers.py:75-78 | adding never creates a duplicate |
| BanWords.WithoutWordRemovesAll | src/bot/handlers.py:89-92 | in a list without duplicates the word is gone afterwards and every other word stays |
| BanWords.AddThenRemove | src/bot/handlers.py:68-94 | adding a new word and removing it restores the list |
| BanWords.AddedWordTakesEffect | src/bot/handlers.py:74-78 | after an add, any text whose lowered form contains the word is caught |
| BanWords.RemovedWordNoLongerCounts | src/bot/handlers.py:88-92 | after a remove (no duplicates), a text is caught iff another listed word occurs in it |
| Enforcement.NewUserRecord | src/bot/handlers.py:183-191 | a new record has the sender's username and both counters at zero (also src/mem.py:494-507) |
| Enforcement.RegisterUser | src/bot/handlers.py:162-163 | afterwards the sender has a record |
| Enforcement.CountMessage | src/bot/handlers.py:160-166 | afterwards the sender has a record |
| Enforcement.RecordViolation | src/bot/handlers.py:212-214 | the user still has a record after the warning is counted |
| Enforcement.DeleteStep | src/bot/handlers.py:243-254 | `_delete_violation_message`: its counts are stated by `Enforcement.ProcessViolationShape` and `Enforcement.HandleCountsDeletion`, its exception by `Enforcement.ProcessViolationShape` (also src/mem.py:609-627) |
| Enforcement.BanStep | src/bot/handlers.py:256-268 | `_ban_user`: its count and both re-raised exceptions are stated by `Enforcement.ProcessViolationShape` and `Enforcement.HandleCountsBan` (also src/mem.py:629-649) |
| Enforcement.ProcessViolationSpec | src/bot/handlers.py:209-241 | `_process_violation`: its store and exception on every path are stated by `Enforcement.ProcessViolationShape`, its invariant by `Enforcement.ProcessViolationConsistent` (also src/mem.py:540-585) |
| Enforcement.Verdict | src/bot/handlers.py:168-171 | the result `handle_message` acts on: the ban-word result, else the analyzer's, else none because the analyzer raises; stated by `Enforcement.HandleBanWordSkipsClassifier` and `Enforcement.HandleCompletion` (also src/mem.py:476-481) |
| Enforcement.Saved | src/bot/handlers.py:176 | the final `save_data`; `Enforcement.HandleMemoryIsProcessedMemory` and `Enforcement.HandleSavesOnlyOnCompletion` state that it writes the snapshot and changes only the file (also src/mem.py:487) |
| Enforcement.Processed | src/bot/handlers.py:160-175 | `handle_message` before its save: its effect on the store is stated by `Enforcement.HandleCountsMessage`, `Enforcement.HandleCountsViolation`, `Enforcement.HandleCountsDeletion` and `Enforcement.HandleCountsBan` (also src/mem.py:465-485) |
| Enforcement.HandleSpec | src/bot/handlers.py:144-181 | `handle_message`: every lemma named `Handle…` below is about it, and `Enforcement.HandleCompletion` says when it completes (also src/mem.py:446-492) |
| Enforcement.CountMessageShape | src/bot/handlers.py:160-166 | bookkeeping: the sender's record (new, or the old one) gets one more message; an unseen id goes to the end of the order; other records, settings, file and the other counters are untouched (also src/mem.py:465-473) |
| Enforcement.ProcessViolationShape | src/bot/handlers.py:209-268 | on every path: violations +1 and the user's warnings +1; deleted +1 iff a warning went out and auto-delete succeeded; banned +1 iff a warning went out, the delete step did not raise, the warnings reached the limit and the ban succeeded; which exception ends the step on each of the five exits (no warning, delete and edit both failed, ban refused, ban not announced) and that none is raised otherwise (also src/mem.py:540-564, 609-649) |
| Enforcement.HandleMemoryIsProcessedMemory | src/bot/handlers.py:176 | the final save changes only the file |
| Enforcement.HandleIgnores | src/bot/handlers.py:147-158 | no text, empty text or a bot sender: nothing changes, no reply (also src/mem.py:452-463) |
| Enforcement.HandleCountsMessage | src/bot/handlers.py:160-166 | sender's `messages` and `messages_checked` +1 exactly, a new user gets counters 0 then 1 and goes last in order, no other record and no setting changes (also src/mem.py:465-474) |
| Enforcement.HandleBanWordSkipsClassifier | src/bot/handlers.py:168-171 | on a ban-word hit the classifier's answer, and whether the analyzer is linked, make no difference; the violation is counted (also src/mem.py:476-481) |
| Enforcement.HandleCountsViolation | src/bot/handlers.py:209-214 | a flagged message raises `violations_found` and the sender's `warnings` by one; any other leaves both alone (also src/mem.py:551-553) |
| Enforcement.HandleCountsDeletion | src/bot/handlers.py:243-254 | `deleted_messages` rises iff the warning went out, auto-delete is on and the delete succeeded (also src/mem.py:609-627) |
| Enforcement.HandleCountsBan | src/bot/handlers.py:256-268 | `banned_users` rises iff the ban is attempted (warning out, delete step passed, post-increment warnings >= limit) and succeeds; a refused ban gives the error reply (also src/mem.py:629-649) |
| Enforcement.HandleSavesOnlyOnCompletion | src/bot/handlers.py:173-181 | only a completed message saves (the full snapshot, when the write succeeds); any exception leaves the file as it was (also src/mem.py:483-492) |
| Enforcement.HandleCompletion | src/bot/handlers.py:144-181 | a message that is not ignored completes (and reaches `save_data`) iff its verdict is known (a ban-word hit, or a linked analyzer, whose failures give an unflagged result) and, when flagged, the warning goes out, the delete step passes and an attempted ban succeeds and is announced; without a hit an unlinked analyzer gives the error reply (also src/services/analyzer.py:62-63, 89-95) |
| Enforcement.BanWordHitCompletes | src/bot/handlers.py:168-176 | with every Telegram call succeeding, a ban-word message is flagged, warned and completes |
| Enforcement.SecondStrikeBans | src/bot/handlers.py:209-222 | with limit 2, a user's second banned-word message is deleted and the user is banned: stats go (1,1,1,0) then (2,2,2,1) |
| Enforcement.RegisterKeepsTotals | src/bot/handlers.py:183-191 | registering a user moves neither per-user total |
| Enforcement.CountMessageConsistent | src/bot/handlers.py:162-166 | counting a message keeps the counter invariant |
| Enforcement.ProcessViolationConsistent | src/bot/handlers.py:209-268 | a violation keeps the invariant on every path, exceptions included |
| Enforcement.HandlePreservesConsistency | src/bot/handlers.py:144-181 | every message, whatever the outside world does, keeps: deleted <= violations <= checked, banned <= violations, sum of warnings == violations, sum of messages == checked |
| Enforcement.InitialState | src/data/manager.py:25-31 | the defaults satisfy the invariant |
| Enforcement.ReplayConsistent | src/bot/handlers.py:144-181 | the invariant holds after any sequence of messages |
| Bot.LookupAsWritten | src/bot/handlers.py:123-129 | the lookup as written finds a listed user's record, or reports not found, or crashes; when it crashes is `Bot.LookupAsWrittenCrashes` (also src/mem.py:424-431) |
| Bot.LookupAsWrittenCrashes | src/bot/handlers.py:123-129 | for all users and identifiers, the lookup as written crashes iff the search reaches a user who is not the one asked for by id and has no username before any user who is asked for (also src/mem.py:424-431) |
| Bot.LookupIntended | src/bot/handlers.py:123-129 | the corrected lookup; `Bot.LookupIntendedFindsFirst` states what it finds |
| Bot.LookupIntendedFindsFirst | src/bot/handlers.py:123-129 | the intended lookup never crashes; it returns the first user in insertion order whose id equals the identifier or whose username matches ignoring case, a missing username counting as "" (so it matches the empty identifier left by `/user_info @`), and reports not found iff there is none |
| Bot.LookupAsWrittenAgrees | src/bot/handlers.py:126-129 | whenever the code as written does not crash, and whenever every user has a username, it agrees with the intended lookup |
| Bot.LookupCrashesOnMissingUsername | src/bot/handlers.py:127 | a user without username listed before "bob" makes `/user_info bob` crash; the intended lookup finds bob (also src/mem.py:429) |
| Bot.Handlers.constructor | src/bot/handlers.py:11-13 | holds the shared data manager and analyzer; ready for `HandleMessage` (`Valid`) when the analyzer is unlinked or linked to the same manager |
| Bot.Handlers.InitUserData | src/bot/handlers.py:183-191 | adds the new record at the end of the users (also src/mem.py:494-507) |
| Bot.Handlers.UpdateUserStats | src/bot/handlers.py:193-195 | one more message on the user's record (also src/mem.py:510-512) |
| Bot.Handlers.DeleteViolationMessage | src/bot/handlers.py:243-254 | the store and exception are those of `DeleteStep` (also src/mem.py:609-627) |
| Bot.Handlers.BanUser | src/bot/handlers.py:256-268 | the store and exception are those of `BanStep`: counted on success, before the notice (also src/mem.py:629-649) |
| Bot.Handlers.ProcessViolation | src/bot/handlers.py:209-241 | the store and exception are those of `ProcessViolationSpec` (also src/mem.py:540-585) |
| Bot.Handlers.HandleMessage | src/bot/handlers.py:144-181 | the store and reply are exactly those of `HandleSpec`, the function all the `Enforcement` lemmas are about (also src/mem.py:446-492) |
| Bot.Handlers.SetSensitivity | src/bot/handlers.py:51-66 | asks for a level iff no args; "not a number" iff `int()` fails; the level is stored, and the file rewritten, iff it is an integer in 1..100; otherwise the store is untouched (also src/mem.py:346-367) |
| Bot.Handlers.AddBanWord | src/bot/handlers.py:68-80 | no args: nothing changes; otherwise the joined, lowered word is appended only when absent, and the file is rewritten only then (also src/mem.py:369-381) |
| Bot.Handlers.RemoveBanWord | src/bot/handlers.py:82-94 | no args: nothing changes; otherwise the first occurrence of the joined, lowered word is removed when present, and the file is rewritten only then (also src/mem.py:383-395) |
| Bot.Handlers.ShowUserInfo | src/bot/handlers.py:117-142 | asks for a user iff no args; otherwise the search loop returns what the lookup as written returns, and whenever it does not crash, what the intended lookup returns (also src/mem.py:418-444) |

## Left out

- Binary floating point. Scores are exact reals. Python computes the threshold at sensitivity 70 as 31.000000000000004, so a composite of exactly 31 is a violation here but not in Python; other boundary values can differ the same way.
- `str.lower` is modelled for ASCII A-Z and Cyrillic U+0400..U+042F only; other letters are left as they are.
- `int()` accepts an optional sign and ASCII digits; the surrounding whitespace, underscores and non-ASCII digits that Python also accepts are not modelled (they give `NotANumber` here).
- The OpenAI request, its prompt (which differs between the package and `src/mem.py`) and model: the classifier's answer is an input (`ClassifierOutcome`). Any exception inside the `try` of `analyze_message`, including a missing or non-numeric `spam`/`toxic`/`danger` key, is the single outcome `Failed`.
- Telegram calls (`send_message`, `message.delete`, `edit_text`, `ban_chat_member`) are modelled as succeed/fail flags in `Effects`; the generic `reply_text` error replies and their own failure are not modelled.
- The warning and ban-notice texts, `_format_warning_text` in `src/mem.py`, and the display-only commands (`start`, `show_commands`, `show_settings`, `show_ban_list`, `show_stats`, the `/user_info` reply text).
- JSON encoding and file access: the file is an abstract document (`FileState`) whose top-level keys are present or not; documents of the wrong shape (a JSON array, a key with a value of the wrong type) and partially written files are not modelled.
- A message whose `update.message` is missing is treated like a message without text.
- Telegram user ids are their decimal strings, given as such.
- Application wiring (`src/bot/bot.py`, `main.py`, `src/config.py`, `src/services/utils.py`): `Bot.Handlers.HandleMessage` requires that the analyzer is either unlinked or linked to the same data manager, which is how `ModerationBot.__init__` sets them up.
- Concurrency: messages are handled one at a time; interleavings of the async handlers on the shared store are not modelled.
- Store.DataManager.constructor: when loading raises, Python never yields the object; the model returns an object holding the defaults, with the file as the failed load left it.

## Findings

| source | as written | input that shows it | evidently intended | confidence | as-written member | corrected member |
|---|---|---|---|---|---|---|
| src/bot/handlers.py:127 (also src/mem.py:429) | `data.get('username', '').lower()` calls `.lower()` on `None` when a record stores `username: None` (a Telegram user without a username), so `/user_info` raises AttributeError as soon as the search reaches such a record | user "1" with no username registered before user "2" named "bob"; `/user_info bob` | a missing username compares as "" and the search goes on to find bob | high; not executed | Bot.LookupAsWritten (shown by Bot.LookupCrashesOnMissingUsername and Bot.LookupAsWrittenCrashes) | Bot.LookupIntended (proved by Bot.LookupIntendedFindsFirst) |
