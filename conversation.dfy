/**
 * The per-turn conversation controller: the session record, the four-phase
 * state machine greeting -> info_gathering -> tech_questions -> complete, the
 * two phase handlers and the turn dispatch run once per chat input.
 *
 * The language model is an oracle: the replies it would give to the three
 * prompts a turn can send are parameters (`Replies`), and `json.loads` is the
 * opaque `Decoder`. The pure functions `Step`, `InfoGatheringStep` and
 * `TechQuestionsStep` give the meaning of a turn; the class `Session` holds the
 * record and its methods are proved to change it exactly as they say.
 */
module Conversation {
  import opened Optional
  import opened JsonValue
  import opened ExitCommand
  import opened JsonExtraction
  import opened QuestionList
  import opened Profile
  import opened Store

  datatype Phase = Greeting | InfoGathering | TechQuestions | Complete

  datatype Role = User | Assistant

  /** One transcript entry `{"role": ..., "content": ...}`. */
  datatype Message = Message(role: Role, content: string)

  /** The five parts of `st.session_state` the controller keeps. */
  datatype SessionState = SessionState(
    messages: seq<Message>,
    userInfo: map<string, Json>,
    phase: Phase,
    questions: seq<string>,
    answers: seq<string>)

  /** What `get_llm_response` returns this turn for the greeting, extraction and
      question-generation prompts (None is an API failure); only those a turn sends are read. */
  datatype Replies = Replies(greeting: string, extraction: Option<string>, questions: Option<string>)

  const ExitPrompt: string := "Thank you for your time! A recruiter will contact you within 3 business days."
  const ParseFailure: string := "Could not parse your data. Please retry."
  const QuestionsFailure: string := "Could not generate questions."

  /** `init_session_state` on a new session. */
  function InitialSession(): SessionState
  {
    SessionState([], InitialInfo(), Greeting, [], [])
  }

  /** What every reachable session satisfies: the seven profile keys, no more answers
      than questions, no answers before questions are asked, and a complete profile
      while questions are being asked. */
  predicate Inv(s: SessionState)
  {
    && WellKeyed(s.userInfo)
    && |s.answers| <= |s.questions|
    && (s.phase == Greeting || s.phase == InfoGathering ==> s.answers == [])
    && (s.phase == TechQuestions ==> Missing(s.userInfo) == [])
  }

  /** The order of the phases; no turn moves backwards in it. */
  function Rank(p: Phase): nat
  {
    match p
    case Greeting => 0
    case InfoGathering => 1
    case TechQuestions => 2
    case Complete => 3
  }

  function Say(s: SessionState, text: string): SessionState
  {
    s.(messages := s.messages + [Message(Assistant, text)])
  }

  /** The question prompt can be built from this profile: `user_info["years_experience"]`
      exists, and `", ".join(user_info.get("tech_stack", []))` accepts the tech stack
      (None, a number or a list holding a non-string raise). */
  predicate QuestionPromptDefined(info: map<string, Json>)
  {
    "years_experience" in info && ("tech_stack" in info ==> Joinable(info["tech_stack"]))
  }

  /** The extraction results the info handler processes without raising: falsy values,
      and dicts, provided that when the profile becomes complete the question prompt can
      be built from it. */
  predicate Handled(info: map<string, Json>, extracted: Option<Json>)
  {
    match extracted
    case None => true
    case Some(j) =>
      !Truthy(j) ||
      (j.Obj? &&
       (Missing(MergeInfo(info, j.fields)) == [] ==> QuestionPromptDefined(MergeInfo(info, j.fields))))
  }

  /** The turns main.py completes without raising: in info_gathering the extraction call
      must have answered (`json.loads(None)` raises) and its result must be handled; an
      answer in tech_questions reads `user_info["email"]`. */
  predicate TurnDefined(s: SessionState, input: string, replies: Replies, decode: Decoder)
  {
    input != [] && !IsExitCommand(input) ==>
      (s.phase == InfoGathering ==>
        replies.extraction.Some? && Handled(s.userInfo, ExtractJson(decode, replies.extraction.value))) &&
      (s.phase == TechQuestions && |s.answers| < |s.questions| ==> "email" in s.userInfo)
  }

  /** The tail of `handle_info_gathering` once no required field is missing: save the
      profile with consent, then turn a non-empty question reply into the question list. */
  function GenerateQuestionsStep(s: SessionState, db: Db, questionsReply: Option<string>): (SessionState, Db)
    requires QuestionPromptDefined(s.userInfo)
  {
    var db' := SaveCandidate(db, s.userInfo, true);
    if questionsReply.Some? && questionsReply.value != [] then
      var qs := NumberedQuestions(questionsReply.value);
      var shown := if qs == [] then [] else [Message(Assistant, qs[0])];
      (s.(questions := qs, phase := TechQuestions, messages := s.messages + shown), db')
    else
      (Say(s, QuestionsFailure), db')
  }

  /** `handle_info_gathering` after the extraction reply has been recovered. */
  function InfoGatheringStep(s: SessionState, db: Db, extracted: Option<Json>, questionsReply: Option<string>)
    : (SessionState, Db)
    requires Handled(s.userInfo, extracted)
  {
    if extracted.None? || !Truthy(extracted.value) then
      (Say(s, ParseFailure), db)
    else
      var info := MergeInfo(s.userInfo, extracted.value.fields);
      var missing := Missing(info);
      if missing != [] then
        (Say(s.(userInfo := info), MissingMessage(missing)), db)
      else
        GenerateQuestionsStep(s.(userInfo := info), db, questionsReply)
  }

  /** `handle_tech_questions(user_input)`. */
  function TechQuestionsStep(s: SessionState, db: Db, input: string): (SessionState, Db)
    requires |s.answers| < |s.questions| ==> "email" in s.userInfo
  {
    if |s.answers| < |s.questions| then
      var question := s.questions[|s.answers|];
      var answers := s.answers + [input];
      var db' := AppendExchange(db, s.userInfo["email"], question, input);
      if |answers| == |s.questions| then
        (Say(s.(answers := answers, phase := Complete), ExitPrompt), db')
      else
        (Say(s.(answers := answers), s.questions[|answers|]), db')
    else
      (s, db)
  }

  /** One turn of `main`: nothing for an empty input; otherwise record the input, end the
      conversation on an exit keyword, else dispatch on the phase. */
  function Step(s: SessionState, db: Db, input: string, replies: Replies, decode: Decoder): (SessionState, Db)
    requires TurnDefined(s, input, replies, decode)
  {
    if input == [] then (s, db)
    else
      var s1 := s.(messages := s.messages + [Message(User, input)]);
      if IsExitCommand(input) then
        (Say(s1.(phase := Complete), ExitPrompt), db)
      else
        match s.phase
        case Greeting => (Say(s1, replies.greeting).(phase := InfoGathering), db)
        case InfoGathering =>
          InfoGatheringStep(s1, db, ExtractJson(decode, replies.extraction.value), replies.questions)
        case TechQuestions => TechQuestionsStep(s1, db, input)
        case Complete => (s1, db)
  }

  // ------------------------------------------------------------ properties

  /** The initial session satisfies the invariant. */
  lemma InitialInv()
    ensures Inv(InitialSession())
  {
    var info := InitialInfo();
    assert !Truthy(Get(info, "name"));
    assert "name" in MissingAmong(RequiredKeys, info);
  }

  /** The info handler keeps the invariant. */
  lemma InfoStepInv(s: SessionState, db: Db, extracted: Option<Json>, questionsReply: Option<string>)
    requires Inv(s) && s.phase == InfoGathering && Handled(s.userInfo, extracted)
    ensures Inv(InfoGatheringStep(s, db, extracted, questionsReply).0)
  {
    if extracted.Some? && Truthy(extracted.value) {
      MergeSpec(s.userInfo, extracted.value.fields);
    }
  }

  /** The answer handler keeps the invariant. */
  lemma TechStepInv(s: SessionState, db: Db, input: string)
    requires Inv(s) && s.phase == TechQuestions
    ensures Inv(TechQuestionsStep(s, db, input).0)
  {
  }

  /** Every turn keeps the invariant. */
  lemma StepPreservesInv(s: SessionState, db: Db, input: string, replies: Replies, decode: Decoder)
    requires Inv(s) && TurnDefined(s, input, replies, decode)
    ensures Inv(Step(s, db, input, replies, decode).0)
  {
    if input != [] && !IsExitCommand(input) {
      var s1 := s.(messages := s.messages + [Message(User, input)]);
      if s.phase == InfoGathering {
        InfoStepInv(s1, db, ExtractJson(decode, replies.extraction.value), replies.questions);
      } else if s.phase == TechQuestions {
        TechStepInv(s1, db, input);
      }
    }
  }

  /** An exit keyword, in any phase (complete included), ends the conversation: the input
      and the exit text are recorded, nothing else changes and no handler runs. */
  lemma ExitTurn(s: SessionState, db: Db, input: string, replies: Replies, decode: Decoder)
    requires IsExitCommand(input)
    ensures Step(s, db, input, replies, decode) ==
      (s.(phase := Complete, messages := s.messages + [Message(User, input), Message(Assistant, ExitPrompt)]), db)
  {
    assert input != [];
    assert s.messages + [Message(User, input)] + [Message(Assistant, ExitPrompt)] ==
      s.messages + [Message(User, input), Message(Assistant, ExitPrompt)];
  }

  /** The first turn adds the input and one greeting, moves to info_gathering, and does
      not use the input for extraction. */
  lemma GreetingTurn(s: SessionState, db: Db, input: string, replies: Replies, decode: Decoder)
    requires s.phase == Greeting && input != [] && !IsExitCommand(input)
    ensures Step(s, db, input, replies, decode) ==
      (s.(phase := InfoGathering,
          messages := s.messages + [Message(User, input), Message(Assistant, replies.greeting)]), db)
  {
    assert s.messages + [Message(User, input)] + [Message(Assistant, replies.greeting)] ==
      s.messages + [Message(User, input), Message(Assistant, replies.greeting)];
  }

  /** An extraction that is None or falsy adds only the retry message. */
  lemma ParseFailureTurn(s: SessionState, db: Db, input: string, replies: Replies, decode: Decoder)
    requires s.phase == InfoGathering && input != [] && !IsExitCommand(input)
    requires replies.extraction.Some?
    requires var e := ExtractJson(decode, replies.extraction.value); e.None? || !Truthy(e.value)
    ensures Step(s, db, input, replies, decode) ==
      (s.(messages := s.messages + [Message(User, input), Message(Assistant, ParseFailure)]), db)
  {
    assert s.messages + [Message(User, input)] + [Message(Assistant, ParseFailure)] ==
      s.messages + [Message(User, input), Message(Assistant, ParseFailure)];
  }

  /** A usable extraction is merged; while a required field is still falsy, the turn
      lists the missing fields, stays in info_gathering and saves nothing. */
  lemma MissingFieldsTurn(s: SessionState, db: Db, input: string, replies: Replies, decode: Decoder)
    requires s.phase == InfoGathering && input != [] && !IsExitCommand(input)
    requires replies.extraction.Some?
    requires var e := ExtractJson(decode, replies.extraction.value);
      e.Some? && e.value.Obj? && Truthy(e.value) && Missing(MergeInfo(s.userInfo, e.value.fields)) != []
    ensures var info := MergeInfo(s.userInfo, ExtractJson(decode, replies.extraction.value).value.fields);
      Step(s, db, input, replies, decode) ==
      (s.(userInfo := info,
          messages := s.messages + [Message(User, input), Message(Assistant, MissingMessage(Missing(info)))]), db)
  {
    var info := MergeInfo(s.userInfo, ExtractJson(decode, replies.extraction.value).value.fields);
    assert s.messages + [Message(User, input)] + [Message(Assistant, MissingMessage(Missing(info)))] ==
      s.messages + [Message(User, input), Message(Assistant, MissingMessage(Missing(info)))];
  }

  /** Once the merged profile is complete it is saved (insert-or-ignore); a non-empty
      question reply replaces the questions, moves to tech_questions even when no line
      parses, and shows only the first question; an empty or failed reply adds the
      failure message and keeps the phase. */
  lemma ProfileCompleteTurn(s: SessionState, db: Db, input: string, replies: Replies, decode: Decoder)
    requires s.phase == InfoGathering && input != [] && !IsExitCommand(input)
    requires replies.extraction.Some?
    requires var e := ExtractJson(decode, replies.extraction.value);
      e.Some? && e.value.Obj? && Truthy(e.value) && Missing(MergeInfo(s.userInfo, e.value.fields)) == [] &&
      QuestionPromptDefined(MergeInfo(s.userInfo, e.value.fields))
    ensures var info := MergeInfo(s.userInfo, ExtractJson(decode, replies.extraction.value).value.fields);
      var r := Step(s, db, input, replies, decode);
      var reply := replies.questions;
      r.1 == SaveCandidate(db, info, true) &&
      r.0.userInfo == info && r.0.answers == s.answers &&
      (reply.Some? && reply.value != [] ==>
        var qs := NumberedQuestions(reply.value);
        r.0.phase == TechQuestions && r.0.questions == qs &&
        r.0.messages == s.messages + [Message(User, input)] + (if qs == [] then [] else [Message(Assistant, qs[0])])) &&
      (!(reply.Some? && reply.value != []) ==>
        r.0.phase == InfoGathering && r.0.questions == s.questions &&
        r.0.messages == s.messages + [Message(User, input), Message(Assistant, QuestionsFailure)])
  {
    assert s.messages + [Message(User, input)] + [Message(Assistant, QuestionsFailure)] ==
      s.messages + [Message(User, input), Message(Assistant, QuestionsFailure)];
  }

  /** An answer while questions remain is appended and logged against the profile's email;
      the conversation completes exactly when the last question is answered, and otherwise
      the next question is shown. */
  lemma AnswerTurn(s: SessionState, db: Db, input: string, replies: Replies, decode: Decoder)
    requires s.phase == TechQuestions && input != [] && !IsExitCommand(input)
    requires |s.answers| < |s.questions| && "email" in s.userInfo
    ensures var r := Step(s, db, input, replies, decode);
      var n := |s.answers| + 1;
      r.0.answers == s.answers + [input] &&
      r.0.questions == s.questions && r.0.userInfo == s.userInfo &&
      r.1 == AppendExchange(db, s.userInfo["email"], s.questions[|s.answers|], input) &&
      (r.0.phase == Complete <==> n == |s.questions|) &&
      (r.0.phase != Complete ==> r.0.phase == TechQuestions) &&
      r.0.messages == s.messages + [Message(User, input),
        Message(Assistant, if n == |s.questions| then ExitPrompt else s.questions[n])]
  {
    var n := |s.answers| + 1;
    var shown := Message(Assistant, if n == |s.questions| then ExitPrompt else s.questions[n]);
    assert s.messages + [Message(User, input)] + [shown] == s.messages + [Message(User, input), shown];
  }

  /** With every question answered (or none generated), and in complete, a non-exit turn
      only records the input. */
  lemma IdleTurn(s: SessionState, db: Db, input: string, replies: Replies, decode: Decoder)
    requires input != [] && !IsExitCommand(input)
    requires s.phase == Complete || (s.phase == TechQuestions && |s.answers| >= |s.questions|)
    ensures Step(s, db, input, replies, decode) == (s.(messages := s.messages + [Message(User, input)]), db)
  {
  }

  /** An empty chat input is not a turn. */
  lemma EmptyInputTurn(s: SessionState, db: Db, replies: Replies, decode: Decoder)
    ensures Step(s, db, [], replies, decode) == (s, db)
  {
  }

  /** The info handler never leaves the profile phases backwards, keeps truthy fields
      truthy, keeps every stored row and writes no log row. */
  lemma InfoStepMonotone(s: SessionState, db: Db, extracted: Option<Json>, questionsReply: Option<string>)
    requires Inv(s) && s.phase == InfoGathering && Handled(s.userInfo, extracted)
    ensures var r := InfoGatheringStep(s, db, extracted, questionsReply);
      (r.0.phase == InfoGathering || r.0.phase == TechQuestions) &&
      (forall k :: k in s.userInfo && Truthy(s.userInfo[k]) ==> k in r.0.userInfo && Truthy(r.0.userInfo[k])) &&
      (forall e :: e in db.candidates ==> e in r.1.candidates && r.1.candidates[e] == db.candidates[e]) &&
      r.1.log == db.log && |s.messages| < |r.0.messages| + 1
  {
    if extracted.Some? && Truthy(extracted.value) {
      var info := MergeInfo(s.userInfo, extracted.value.fields);
      MergeSpec(s.userInfo, extracted.value.fields);
      if Missing(info) == [] {
        SaveCandidateKeepsRows(db, info, true);
      }
    }
  }

  /** The answer handler keeps the profile and every stored row and only appends to the log. */
  lemma TechStepMonotone(s: SessionState, db: Db, input: string)
    requires s.phase == TechQuestions && (|s.answers| < |s.questions| ==> "email" in s.userInfo)
    ensures var r := TechQuestionsStep(s, db, input);
      (r.0.phase == TechQuestions || r.0.phase == Complete) &&
      r.0.userInfo == s.userInfo && r.1.candidates == db.candidates && db.log <= r.1.log
  {
    if |s.answers| < |s.questions| {
      AppendExchangeSpec(db, s.userInfo["email"], s.questions[|s.answers|], input);
    }
  }

  /** Turns move forward only, keep every truthy profile field truthy, never drop or change
      a stored candidate row, only append to the interview log, and add to the transcript
      exactly when the input is non-empty. */
  lemma StepMonotone(s: SessionState, db: Db, input: string, replies: Replies, decode: Decoder)
    requires Inv(s) && TurnDefined(s, input, replies, decode)
    ensures var r := Step(s, db, input, replies, decode);
      Rank(s.phase) <= Rank(r.0.phase) &&
      (forall k :: k in s.userInfo && Truthy(s.userInfo[k]) ==> k in r.0.userInfo && Truthy(r.0.userInfo[k])) &&
      (forall e :: e in db.candidates ==> e in r.1.candidates && r.1.candidates[e] == db.candidates[e]) &&
      db.log <= r.1.log &&
      (|s.messages| < |r.0.messages| <==> input != [])
  {
    if input != [] && !IsExitCommand(input) {
      var s1 := s.(messages := s.messages + [Message(User, input)]);
      if s.phase == InfoGathering {
        InfoStepMonotone(s1, db, ExtractJson(decode, replies.extraction.value), replies.questions);
      } else if s.phase == TechQuestions {
        TechStepMonotone(s1, db, input);
      }
    }
  }

  // ------------------------------------------------------ answering a series

  /** A turn in tech_questions or complete, where no prompt is sent: it depends on the
      state and the input alone. It is `Step` restricted to those phases (`LateStepIsStep`
      proves the two equal) and exists so that reasoning about a series of answers does not
      carry the oracle and the info_gathering branch of every turn. */
  function LateStep(s: SessionState, db: Db, input: string): (SessionState, Db)
    requires (s.phase == TechQuestions || s.phase == Complete) && "email" in s.userInfo
  {
    if input == [] then (s, db)
    else
      var s1 := s.(messages := s.messages + [Message(User, input)]);
      if IsExitCommand(input) then (Say(s1.(phase := Complete), ExitPrompt), db)
      else if s.phase == TechQuestions then TechQuestionsStep(s1, db, input)
      else (s1, db)
  }

  /** Once questions have been generated, the oracle's replies no longer matter. */
  lemma LateStepIsStep(s: SessionState, db: Db, input: string, replies: Replies, decode: Decoder)
    requires (s.phase == TechQuestions || s.phase == Complete) && "email" in s.userInfo
    ensures LateStep(s, db, input) == Step(s, db, input, replies, decode)
    ensures LateStep(s, db, input).0.phase == TechQuestions || LateStep(s, db, input).0.phase == Complete
    ensures LateStep(s, db, input).0.userInfo == s.userInfo
  {
  }

  /** The turns after the questions were generated, one per input. */
  ghost function Run(s: SessionState, db: Db, inputs: seq<string>): (SessionState, Db)
    requires (s.phase == TechQuestions || s.phase == Complete) && "email" in s.userInfo
    decreases |inputs|
  {
    if inputs == [] then (s, db)
    else
      var next := LateStep(s, db, inputs[0]);
      Run(next.0, next.1, inputs[1..])
  }

  /** The rows the log gains when these answers are given, in order, to these questions
      under this email: one `save_question_answer` each. */
  function LogRows(email: Json, questions: seq<string>, answers: seq<string>): seq<Exchange>
    requires |questions| == |answers|
  {
    if answers == [] then []
    else AppendExchange(EmptyDb(), email, questions[0], answers[0]).log + LogRows(email, questions[1..], answers[1..])
  }

  /** A bindable, non-None email gets exactly one row per answer, pairing the k-th question
      with the k-th answer; any other email gets no row at all. */
  lemma {:induction false} LogRowsSpec(email: Json, questions: seq<string>, answers: seq<string>)
    requires |questions| == |answers|
    ensures var rows := LogRows(email, questions, answers);
      (Bind(email).Some? && Bind(email).value != SqlNull ==>
        |rows| == |answers| &&
        forall k :: 0 <= k < |rows| ==> rows[k] == Exchange(Bind(email).value, questions[k], answers[k])) &&
      (!(Bind(email).Some? && Bind(email).value != SqlNull) ==> rows == [])
  {
    if answers != [] {
      LogRowsSpec(email, questions[1..], answers[1..]);
      AppendExchangeSpec(EmptyDb(), email, questions[0], answers[0]);
    }
  }

  /** One answer in the series, as a turn: it is recorded and logged, and the turn
      completes exactly on the last question. */
  lemma LateAnswer(s: SessionState, db: Db, input: string)
    requires s.phase == TechQuestions && input != [] && !IsExitCommand(input)
    requires |s.answers| < |s.questions| && "email" in s.userInfo
    ensures var next := LateStep(s, db, input);
      next.0.answers == s.answers + [input] &&
      next.0.questions == s.questions && next.0.userInfo == s.userInfo &&
      next.1.candidates == db.candidates &&
      next.1.log == db.log + AppendExchange(EmptyDb(), s.userInfo["email"], s.questions[|s.answers|], input).log &&
      (next.0.phase == Complete <==> |s.answers| + 1 == |s.questions|) &&
      (next.0.phase == Complete || next.0.phase == TechQuestions)
  {
    AppendExchangeSpec(db, s.userInfo["email"], s.questions[|s.answers|], input);
    AppendExchangeSpec(EmptyDb(), s.userInfo["email"], s.questions[|s.answers|], input);
  }

  /** Answering the remaining questions one plain input at a time records exactly those
      answers, leaves the questions, the profile and the candidates alone, and reaches
      complete on the last question and not before. */
  lemma {:induction false} AnswerSeries(s: SessionState, db: Db, inputs: seq<string>)
    requires s.phase == TechQuestions && "email" in s.userInfo
    requires |s.answers| + |inputs| <= |s.questions|
    requires forall k :: 0 <= k < |inputs| ==> inputs[k] != [] && !IsExitCommand(inputs[k])
    ensures var r := Run(s, db, inputs);
      r.0.answers == s.answers + inputs &&
      r.0.questions == s.questions && r.0.userInfo == s.userInfo &&
      (r.0.phase == Complete <==> inputs != [] && |s.answers| + |inputs| == |s.questions|) &&
      (r.0.phase != Complete ==> r.0.phase == TechQuestions) &&
      r.1.candidates == db.candidates
    decreases |inputs|
  {
    if inputs != [] {
      var next := LateStep(s, db, inputs[0]);
      var rest := inputs[1..];
      LateAnswer(s, db, inputs[0]);
      if next.0.phase != Complete {
        AnswerSeries(next.0, next.1, rest);
        assert s.answers + [inputs[0]] + rest == s.answers + inputs;
      }
    }
  }

  /** The same series logs one row per answer, paired with the question it answers
      (`qs` lists the questions still open) and the profile's email, and nothing else. */
  lemma {:induction false} AnswerSeriesLog(s: SessionState, db: Db, inputs: seq<string>, qs: seq<string>)
    requires s.phase == TechQuestions && "email" in s.userInfo
    requires |s.answers| + |inputs| <= |s.questions| && |qs| == |inputs|
    requires forall k :: 0 <= k < |qs| ==> s.questions[|s.answers| + k] == qs[k]
    requires forall k :: 0 <= k < |inputs| ==> inputs[k] != [] && !IsExitCommand(inputs[k])
    ensures Run(s, db, inputs).1.log == db.log + LogRows(s.userInfo["email"], qs, inputs)
    decreases |inputs|
  {
    if inputs != [] {
      var next := LateStep(s, db, inputs[0]);
      var rest := inputs[1..];
      LateAnswer(s, db, inputs[0]);
      if next.0.phase != Complete {
        AnswerSeriesLog(next.0, next.1, rest, qs[1..]);
      }
    }
  }

  // ----------------------------------------------------------------- merge

  /** The loop `for key in user_info: if extracted.get(key): user_info[key] = extracted[key]`,
      where `keys` lists the dictionary's keys in iteration order. */
  method MergeFields(keys: seq<string>, info: map<string, Json>, extracted: map<string, Json>)
    returns (merged: map<string, Json>)
    requires info.Keys == set k | k in keys
    ensures merged == MergeInfo(info, extracted)
  {
    merged := info;
    var i := 0;
    while i < |keys|
      invariant 0 <= i <= |keys|
      invariant merged.Keys == info.Keys
      invariant forall k :: k in merged ==>
        merged[k] == if k in keys[..i] then MergedValue(info, extracted, k) else info[k]
    {
      var key := keys[i];
      if Truthy(Get(extracted, key)) {
        merged := merged[key := extracted[key]];
      }
      assert keys[..i + 1] == keys[..i] + [key];
      i := i + 1;
    }
    assert keys[..|keys|] == keys;
  }

  // ----------------------------------------------------------------- class

  /** The session record of one conversation, updated in place by each turn. */
  class Session {
    var messages: seq<Message>
    var userInfo: map<string, Json>
    var phase: Phase
    var questions: seq<string>
    var answers: seq<string>

    function State(): SessionState
      reads this
    {
      SessionState(messages, userInfo, phase, questions, answers)
    }

    /** `init_session_state` for a new session. */
    constructor ()
      ensures State() == InitialSession() && Inv(State())
    {
      messages := [];
      userInfo := InitialInfo();
      phase := Greeting;
      questions := [];
      answers := [];
      InitialInv();
    }

    /** The merge of an extraction into `user_info`. */
    method MergeExtracted(extracted: map<string, Json>)
      requires WellKeyed(userInfo)
      modifies this
      ensures State() == old(State()).(userInfo := MergeInfo(old(userInfo), extracted))
    {
      userInfo := MergeFields(InfoKeys, userInfo, extracted);
    }

    /** Saving the complete profile and generating the questions. */
    method GenerateQuestions(db: Database, questionsReply: Option<string>)
      requires QuestionPromptDefined(userInfo)
      modifies this, db
      ensures (State(), db.Contents()) == GenerateQuestionsStep(old(State()), old(db.Contents()), questionsReply)
    {
      db.SaveToDb(userInfo, true);
      if questionsReply.Some? && questionsReply.value != [] {
        var qs := ParseQuestions(questionsReply.value);
        questions := qs;
        phase := TechQuestions;
        if qs != [] {
          messages := messages + [Message(Assistant, qs[0])];
        } else {
          assert messages + [] == messages;
        }
      } else {
        messages := messages + [Message(Assistant, QuestionsFailure)];
      }
    }

    /** `handle_info_gathering(user_input)`, given the extraction reply and the
        question-generation reply. */
    method HandleInfoGathering(db: Database, extractionReply: string, decode: Decoder, questionsReply: Option<string>)
      requires WellKeyed(userInfo)
      requires Handled(userInfo, ExtractJson(decode, extractionReply))
      modifies this, db
      ensures (State(), db.Contents()) ==
        InfoGatheringStep(old(State()), old(db.Contents()), ExtractJson(decode, extractionReply), questionsReply)
    {
      var extracted := ExtractJson(decode, extractionReply);
      if extracted.None? || !Truthy(extracted.value) {
        messages := messages + [Message(Assistant, ParseFailure)];
        return;
      }
      MergeExtracted(extracted.value.fields);
      var missing := Missing(userInfo);
      if missing != [] {
        messages := messages + [Message(Assistant, MissingMessage(missing))];
        return;
      }
      GenerateQuestions(db, questionsReply);
    }

    /** `handle_tech_questions(user_input)`. */
    method HandleTechQuestions(db: Database, input: string)
      requires |answers| < |questions| ==> "email" in userInfo
      modifies this, db
      ensures (State(), db.Contents()) == TechQuestionsStep(old(State()), old(db.Contents()), input)
    {
      var answeredCount := |answers|;
      if answeredCount < |questions| {
        var question := questions[answeredCount];
        answers := answers + [input];
        db.SaveQuestionAnswer(userInfo["email"], question, input);
        if |answers| == |questions| {
          phase := Complete;
          messages := messages + [Message(Assistant, ExitPrompt)];
        } else {
          messages := messages + [Message(Assistant, questions[|answers|])];
        }
      }
    }

    /** The body of `main` once a chat input arrives; `st.rerun()` ends the turn. */
    method Turn(db: Database, input: string, replies: Replies, decode: Decoder)
      requires Inv(State()) && TurnDefined(State(), input, replies, decode)
      modifies this, db
      ensures (State(), db.Contents()) == Step(old(State()), old(db.Contents()), input, replies, decode)
      ensures Inv(State())
    {
      StepPreservesInv(State(), db.Contents(), input, replies, decode);
      if input == [] {
        return;
      }
      messages := messages + [Message(User, input)];
      if IsExitCommand(input) {
        phase := Complete;
        messages := messages + [Message(Assistant, ExitPrompt)];
        return;
      }
      if phase == Greeting {
        messages := messages + [Message(Assistant, replies.greeting)];
        phase := InfoGathering;
      } else if phase == InfoGathering {
        HandleInfoGathering(db, replies.extraction.value, decode, replies.questions);
      } else if phase == TechQuestions {
        HandleTechQuestions(db, input);
      }
    }
  }
}
