# TalentScout conversation controller in Dafny

This project models the per-turn conversation controller of the TalentScout hiring
assistant (`main.py`). Each session keeps a record of five parts:

- the chat transcript (`messages`);
- the candidate profile (`user_info`, seven fixed keys);
- the phase;
- the generated technical questions;
- the candidate's answers.

A state machine `greeting -> info_gathering -> tech_questions -> complete` drives each turn.

On every non-empty chat input the controller does the following:

- It records the input.
- If the lower-cased input contains `exit`, `quit` or `bye`, it ends the conversation, whatever the phase.
- Otherwise it dispatches on the phase:
  - greeting: show the model's greeting;
  - info_gathering: recover a JSON profile from the model's extraction reply, merge its truthy fields, check the three required fields, save the profile, and parse the numbered question list;
  - tech_questions: record one answer, log it against the profile's email, and show the next question or finish.

The language model is an oracle. A `Replies` value carries what it would answer to the greeting, extraction and question-generation prompts. `json.loads` is an opaque `Decoder`. The two SQLite tables are abstract stores:

- `candidates` is a map keyed by email with insert-or-ignore semantics;
- `interview_log` is an append-only sequence.

Both are held as ghost state of a `Database` object.

Modules, one per file:

- `Optional` (`optional.dfy`): the option type.
- `JsonValue` (`json.dfy`): decoded JSON values, Python truthiness, `dict.get`, and the values `", ".join` accepts.
- `Text` (`text.dfy`): ASCII `str.lower`, substring test, `split`/`join`, `strip`/`lstrip`.
- `ExitCommand` (`commands.dfy`): the exit-keyword test.
- `JsonExtraction` (`extraction.dfy`): `extract_json_from_response` and its regular-expression span search.
- `QuestionList` (`questions.dfy`): the numbered-line scanner and its loop.
- `Profile` (`profile.dfy`): the profile keys, the merge and the required-field check.
- `Store` (`store.dfy`): parameter binding, the two tables and the `Database` class.
- `Conversation` (`conversation.dfy`): the session record, the step functions that give each turn its meaning, the lemmas about turns and series of turns, and the `Session` class whose methods are proved to update the record as the step functions say.

Rough edges of main.py that the model keeps:

- A non-empty question reply with no numbered line still moves to tech_questions and shows nothing. A reply with no numbered line is not treated as a failure; only an empty or failed reply adds "Could not generate questions." (main.py:157-171).
- Kept question lines stay in reply order, not in numeric order (main.py:159-164).
- Fields gate and merge by Python truthiness, not by being non-null: `0`, `""`, `[]` and `{}` count as missing and never overwrite (main.py:141, main.py:144).
- A complete profile whose `tech_stack` was never extracted makes `", ".join(None)` raise (main.py:152). The `.get` default applies only to an absent key, and the key is always present. The model treats that turn as outside its precondition.

## Model

| member | source | states |
|---|---|---|
| JsonValue.FalsyValues | main.py:136 | a decoded value is falsy exactly when it is None, false, 0, the empty string, the empty list or the empty dict |
| Text.ContainsIffOccurs | main.py:204 | the substring test `w in s` holds exactly when `w` occurs at some index of `s` |
| Text.LowerShape | main.py:204 | lower-casing keeps the length, leaves no upper-case letter and changes only upper-case letters |
| Text.LowerIdempotent | main.py:204 | lower-casing twice is lower-casing once |
| Text.JoinSplit | main.py:159 | joining the pieces of `split("\n")` with the separator gives back the text, and no piece contains the separator |
| Text.SplitJoin | main.py:159 | splitting a join of separator-free pieces gives back the pieces |
| Text.StripLeftSpec | main.py:160 | lstrip removes a leading run of whitespace and leaves a text that is empty or starts with a non-space |
| Text.StripRightSpec | main.py:160 | rstrip removes a trailing run of whitespace and leaves a text that is empty or ends with a non-space |
| Text.StripShape | main.py:160 | strip returns the middle of the line between its leading and trailing whitespace |
| Text.StripLeftSpaces | main.py:160 | lstrip of whitespace followed by text not starting with a space is that text |
| ExitCommand.IsExitCommand | main.py:204 | the exit test; contract given by `ExitIffKeywordOccurs`, `ExitIgnoresCase` and `ExitKeywordAnywhere` |
| ExitCommand.ExitIffKeywordOccurs | main.py:204 | an input is an exit command exactly when one of exit, quit, bye occurs somewhere in its lower-cased form |
| ExitCommand.ExitIgnoresCase | main.py:204 | the test does not depend on letter case |
| ExitCommand.ExitKeywordAnywhere | main.py:204 | a keyword, in any letter case, anywhere in the input makes it an exit command |
| ExitCommand.ShoutedByeIsExit | main.py:204 | "Ok, BYE!" ends the conversation |
| JsonExtraction.LastIndex | main.py:121 | the index found holds the character and nothing after it does, or -1 when the character is absent |
| JsonExtraction.FindSpanFrom | main.py:121 | no span exactly when no position opens a bracket with its closer later; otherwise the span starts at the leftmost such position and ends just after the last matching closer |
| JsonExtraction.FindSpan | main.py:121 | the regular-expression search from the start of the reply; contract given by `FindSpanFrom` |
| JsonExtraction.ExtractJson | main.py:117-127 | the two-stage recovery; contract given by `ExtractWhole`, `ExtractFromSpan` and `ExtractNothing` |
| JsonExtraction.ExtractWhole | main.py:118-119 | a reply that decodes as a whole is returned as decoded |
| JsonExtraction.ExtractFromSpan | main.py:120-126 | otherwise the result is the decoding of the found span, None when that fails |
| JsonExtraction.ExtractNothing | main.py:122-127 | with no strict decode and no bracket span, the result is None |
| JsonExtraction.ExtractNoBracket | main.py:121-127 | a reply without opening brackets that does not decode gives None |
| JsonExtraction.ExtractSurrounded | main.py:121-124 | an object set in prose with no earlier opener and no later closing brace is what gets decoded |
| JsonExtraction.LeftmostBracketWins | main.py:121 | the alternation is positional: in "[1, {2}]" the whole array is chosen, not the inner object |
| JsonExtraction.NoJsonHere | main.py:119-127 | "no json here" yields None |
| JsonExtraction.ObjectInProse | main.py:121-124 | `prefix {"a":1} suffix` yields the decoding of `{"a":1}` |
| QuestionList.MatchNumbered | main.py:160-164 | the match and rewrite of one stripped line; contract given by `MatchNumberedAccepts` and `MatchNumberedShape` |
| QuestionList.LineQuestion | main.py:159-164 | what one line contributes: its rewrite if the stripped line matches, otherwise nothing; used by `NumberedSnoc` and `KeepNumbered` |
| QuestionList.Numbered | main.py:159-164 | the kept questions of the lines; contract given by `NumberedConcat`, `NumberedFromLines` and `NumberedSnoc` |
| QuestionList.NumberedQuestions | main.py:158-164 | the questions of a reply, over `split("\n")`; computed by `ParseQuestions`, with `JoinSplit` for the split |
| QuestionList.DigitRunSpec | main.py:160 | the greedy `\d+` takes the longest all-digit prefix |
| QuestionList.MatchNumberedAccepts | main.py:160-164 | every line that is digits, a dot, whitespace and text is kept, rewritten as "digits. text" |
| QuestionList.MatchNumberedShape | main.py:160-164 | every kept line has that form, and its rewrite is "digits. text" |
| QuestionList.SpacesThenText | main.py:160 | any rest of line is its leading whitespace followed by what `\s*` leaves |
| QuestionList.NumberedConcat | main.py:159-164 | lines are judged one by one and keep their order |
| QuestionList.NumberedFromLines | main.py:159-164 | never more questions than lines, and each question is the rewrite of some line |
| QuestionList.NumberedSnoc | main.py:159-164 | one more line adds exactly what that line contributes |
| QuestionList.KeepNumbered | main.py:158-164 | the scanning loop returns the kept, rewritten lines in order |
| QuestionList.ParseQuestions | main.py:158-164 | the scan of the reply's lines split on newline |
| Profile.InitialInfo | main.py:84-92 | the initial profile has exactly the seven keys, all None |
| Profile.MergeInfo | main.py:140-142 | the merge; contract given by `MergeSpec`, `MergeKeepsKnown`, `MergeIdempotent` and the loop `MergeFields` |
| Profile.MergeSpec | main.py:140-142 | merging keeps the key set, takes a truthy extracted value for a known key, keeps the old value otherwise, and ignores other keys |
| Profile.MergeKeepsKnown | main.py:140-142 | a truthy field stays truthy whatever is extracted |
| Profile.MergeIdempotent | main.py:140-142 | merging the same extraction twice changes nothing more |
| Profile.MissingAmong | main.py:144 | a field is listed exactly when it is among those checked and its value is falsy |
| Profile.NothingMissingIff | main.py:144-145 | nothing is missing exactly when name, email and years_experience are all truthy |
| Profile.Missing | main.py:144 | the missing required fields; contract given by `MissingAmong`, `NothingMissingIff` and `MissingOrder` |
| Profile.MissingMessage | main.py:146 | the text "Missing fields: " followed by the missing fields joined by ", "; shown by `MissingFieldsTurn` |
| Profile.MissingOrder | main.py:144 | the missing list keeps the order name, email, years_experience |
| Store.Bind | main.py:51-55 | binding a value as a statement parameter: None, booleans, 64-bit integers and strings bind, lists, dicts and wider integers do not; used by `SaveCandidateInserts` and `AppendExchangeSpec` |
| Store.ToRow | main.py:47-55 | the candidate row, or None when a parameter cannot be bound; used by `SaveCandidateKeepsRows` and `SaveCandidateInserts` |
| Store.SaveCandidate | main.py:43-62 | insert-or-ignore of the row; contract given by `SaveCandidateKeepsRows`, `SaveCandidateInserts` and `SaveTwiceKeepsFirst` |
| Store.AppendExchange | main.py:66-76 | the log insert; contract given by `AppendExchangeSpec` |
| Store.SaveCandidateKeepsRows | main.py:47-55 | a save never changes or removes a stored row, adds at most the row of the profile's own email and leaves the log alone |
| Store.SaveCandidateInserts | main.py:47-55 | under the UNIQUE email column, a storable profile with a new email gets its row; with a stored email the first row stays |
| Store.SaveTwiceKeepsFirst | main.py:47-55 | with the email column UNIQUE, saving two profiles with the same email keeps the first one |
| Store.AppendExchangeSpec | main.py:66-76 | a log write appends exactly one exchange when the email can be stored, and otherwise nothing |
| Store.Database.SaveToDb | main.py:43-62 | the tables become those of insert-or-ignore of the profile's row |
| Store.Database.SaveQuestionAnswer | main.py:66-76 | the tables become those of the log append |
| Conversation.InitialSession | main.py:80-98 | the session record at creation: empty transcript, the seven None fields, greeting, no questions, no answers; `InitialInv` proves it satisfies the invariant |
| Conversation.GenerateQuestionsStep | main.py:149-171 | save with consent, then a non-empty reply sets the parsed questions and tech_questions and shows only the first, and an empty or failed reply adds the failure message; requires that the question prompt can be built; contract given by `ProfileCompleteTurn` and `Session.GenerateQuestions` |
| Conversation.InfoGatheringStep | main.py:131-171 | the info handler after recovery: retry message, merge and missing-fields message, or save and question generation; contract given by `ParseFailureTurn`, `MissingFieldsTurn`, `ProfileCompleteTurn`, `InfoStepInv` and `InfoStepMonotone` |
| Conversation.TechQuestionsStep | main.py:175-188 | the answer handler; contract given by `AnswerTurn`, `IdleTurn`, `TechStepInv` and `TechStepMonotone` |
| Conversation.Step | main.py:201-220 | one turn; contract given by `EmptyInputTurn`, `ExitTurn`, `GreetingTurn`, the info and answer turn lemmas, `StepPreservesInv` and `StepMonotone` |
| Conversation.InitialInv | main.py:80-98 | the initial session satisfies the invariant |
| Conversation.InfoStepInv | main.py:131-171 | the info handler keeps the invariant |
| Conversation.TechStepInv | main.py:175-188 | the answer handler keeps the invariant |
| Conversation.StepPreservesInv | main.py:201-220 | every turn keeps the invariant: the seven keys, answers never outnumber questions, no answers before questions are asked, and a complete profile while questions are asked |
| Conversation.ExitTurn | main.py:202-207 | an exit input, in any phase, records the input and the exit text, sets complete, and changes nothing else, stores included |
| Conversation.GreetingTurn | main.py:202-212 | the first turn adds the input and one greeting and moves to info_gathering; profile, questions, answers and stores are unchanged |
| Conversation.ParseFailureTurn | main.py:133-138 | a None or falsy extraction adds only the retry message |
| Conversation.MissingFieldsTurn | main.py:140-147 | a usable extraction is merged; with a required field still falsy, one "Missing fields" message is added, the phase stays and nothing is saved |
| Conversation.ProfileCompleteTurn | main.py:149-171 | a complete profile is saved with consent; a non-empty question reply sets the parsed questions and tech_questions, even when none parse, and shows only the first; an empty or failed reply adds the failure message and keeps the phase |
| Conversation.AnswerTurn | main.py:175-188 | an answer while questions remain is appended and logged with its question; the phase becomes complete with the exit text exactly when the last question is answered, otherwise the next question is shown |
| Conversation.IdleTurn | main.py:209-218 | once every question is answered, or in complete, a non-exit turn only records the input |
| Conversation.EmptyInputTurn | main.py:201 | an empty chat input changes nothing |
| Conversation.InfoStepMonotone | main.py:131-171 | the info handler keeps truthy fields truthy, keeps every stored row and writes no log row |
| Conversation.TechStepMonotone | main.py:175-188 | the answer handler keeps the profile and the stored rows and only appends to the log |
| Conversation.StepMonotone | main.py:201-220 | turns move forward only, keep truthy fields truthy, never drop or change a stored row, only append to the log, and add to the transcript exactly when the input is non-empty |
| Conversation.LateStepIsStep | main.py:204-218 | in tech_questions and complete the turn needs no model reply and stays in those phases |
| Conversation.LogRowsSpec | main.py:176-181 | a storable email gets one row per answer, pairing the k-th question with the k-th answer; any other email gets none |
| Conversation.LateAnswer | main.py:175-188 | one answer as a turn: recorded, logged, and complete exactly on the last question |
| Conversation.AnswerSeries | main.py:175-188 | answering the remaining questions one input at a time records exactly those answers and reaches complete on the last one and not before |
| Conversation.AnswerSeriesLog | main.py:175-188 | that series logs exactly one row per answer, with its question and the profile's email |
| Conversation.MergeFields | main.py:140-142 | the merge loop computes the merge of the extraction into the profile |
| Conversation.Session.constructor | main.py:80-98 | a new session is the initial session and satisfies the invariant |
| Conversation.Session.MergeExtracted | main.py:140-142 | only the profile changes, to the merge |
| Conversation.Session.GenerateQuestions | main.py:149-171 | the record and the tables change as the question-generation step says |
| Conversation.Session.HandleInfoGathering | main.py:131-171 | the record and the tables change as the info-gathering step says |
| Conversation.Session.HandleTechQuestions | main.py:175-188 | the record and the tables change as the answer step says |
| Conversation.Session.Turn | main.py:201-220 | the record and the tables change as one turn says, and the invariant is kept |

## Left out

- The Streamlit UI is left out: rendering the transcript, `st.title`, `st.error` and the chat widget. An input arrives as a parameter, and `st.rerun()` is the end of the turn.
- The OpenAI client and `get_llm_response` are oracle inputs. A network call cannot be modelled, so its replies are parameters. A None greeting, which main.py:210-211 would put into the transcript after a failed call, is not modelled, because message content is always a string.
- `json.loads` is opaque. The `Decoder` parameter stands for it, and only the choice of the text to decode is specified.
- Prompt templating (`str.format` and the templates in prompts.py) is pure data. Only the exit text and the fixed reply strings appear, as constants.
- Connection handling, schema creation, row ids and timestamps are left out (main.py:18-39). The tables are abstract. SQLite's conversion of values by column affinity is not modelled, and `tech_stack` is kept as the decoded value rather than its `json.dumps` text.
- Floating-point JSON numbers are not modelled. Numbers are integers, and integers outside 64 bits do not bind.
- Crash paths that main.py does not handle are preconditions (`TurnDefined`, `Handled`, `QuestionPromptDefined`), so the state a crashed turn leaves is not modelled:
  - `json.loads(None)` after a failed extraction call;
  - `.get` on a decoded array or scalar;
  - `", ".join` of a `tech_stack` that is None, a number, a boolean or a list holding a non-string, and a missing `years_experience` key, when the question prompt is built.

  The last of these raises after the profile has already been saved.
  - `user_info["email"]` on a profile without that key when an answer is logged.
- `str.lower`, `\d` and `\s` are modelled for ASCII only.
- `init_session_state` is modelled at session creation only. Its re-run on every script execution finds all keys present and changes nothing.

