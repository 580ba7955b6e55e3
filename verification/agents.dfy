/** The five tutoring nodes. Each reads the state and returns a fresh update;
    the language model is an oracle passed in as a function from the prompt's
    filled-in fields to its answer (free text, or a structured `Evaluation`). */
module Agents {
  import opened Wrappers
  import opened TutorStates

  /** The structured judgement of a learner's answer. `missingConcept`
      defaults to `None`. */
  datatype Evaluation = Evaluation(correct: bool, reasoning: string, missingConcept: Option<string>)

  /** The fields each node fills into its prompt template (the wording is not modelled). */
  datatype Prompt =
    | ExplainPrompt(topic: string)
    | QuizPrompt(topic: string)
    | EvaluatePrompt(topic: string, question: string, answer: string)
    | HintPrompt(topic: string, question: string, answer: string)
    | RevisitPrompt(topic: string)

  /** Assessment values written by the evaluator. */
  const Correct: string := "correct"
  const ProvideHint: string := "provide_hint"
  const RevisitFoundation: string := "revisit_foundation"

  /** Fixed reply texts. */
  const CorrectReply: string := "That's correct! Great job."
  const IncorrectPrefix: string := "That's not quite right. "
  const RevisitPrefix: string := "Let's take a step back and review a key idea.\n\n"
  const RevisitSuffix: string := "\n\nNow, let's try that quiz question again."

  /** The one-message update every generating node returns: one AI message
      and no other key. */
  function Reply(text: string): (u: Update)
    ensures u.messages == [AI(text)] && u.assessment.None? && u.attempts.None?
  {
    Update([AI(text)], None, None)
  }

  /** Explains the current topic. */
  function ExplainerAgent(s: TutorState, llm: Prompt -> string): (u: Update)
    ensures u.messages == [AI(llm(ExplainPrompt(s.currentTopic)))]
    ensures u.assessment.None? && u.attempts.None?
  {
    Reply(llm(ExplainPrompt(s.currentTopic)))
  }

  /** Asks a quiz question; `attempts` is not returned, so it is left as it was. */
  function QuizMasterAgent(s: TutorState, llm: Prompt -> string): (u: Update)
    ensures u.messages == [AI(llm(QuizPrompt(s.currentTopic)))]
    ensures u.assessment.None? && u.attempts.None?
  {
    Reply(llm(QuizPrompt(s.currentTopic)))
  }

  /** The evaluator's rule for a wrong answer: revisit the foundation only on a
      repeated attempt that names a missing concept, a hint otherwise. */
  function WrongAnswerAssessment(newAttempts: int, e: Evaluation): (a: string)
    ensures a == RevisitFoundation || a == ProvideHint
    ensures a == RevisitFoundation <==> newAttempts > 1 && Truthy(e.missingConcept)
  {
    if newAttempts > 1 && Truthy(e.missingConcept) then RevisitFoundation else ProvideHint
  }

  /** Judges the last message (the answer) against the one before it (the
      question). Raises when there are fewer than two messages. */
  function EvaluatorAgent(s: TutorState, judge: Prompt -> Evaluation): (r: Result<Update>)
    ensures r.Err? <==> |s.messages| < 2
    ensures r.Ok? ==>
      var n := |s.messages|;
      var e := judge(EvaluatePrompt(s.currentTopic, s.messages[n - 2].content, s.messages[n - 1].content));
      && |r.value.messages| == 1 && r.value.messages[0].AI?
      && (e.correct ==>
            r.value.messages[0].content == CorrectReply
            && r.value.assessment == Some(Correct)
            && r.value.attempts.None?)
      && (!e.correct ==>
            r.value.messages[0].content == IncorrectPrefix + e.reasoning
            && r.value.attempts == Some(AttemptsOrZero(s) + 1)
            && r.value.assessment == Some(WrongAnswerAssessment(AttemptsOrZero(s) + 1, e)))
  {
    if |s.messages| < 2 then Err(IndexError)
    else
      var answer := s.messages[|s.messages| - 1].content;
      var question := s.messages[|s.messages| - 2].content;
      var e := judge(EvaluatePrompt(s.currentTopic, question, answer));
      var newAttempts := AttemptsOrZero(s) + 1;
      if e.correct then
        Ok(Update([AI(CorrectReply)], Some(Correct), None))
      else
        Ok(Update([AI(IncorrectPrefix + e.reasoning)],
                  Some(WrongAnswerAssessment(newAttempts, e)), Some(newAttempts)))
  }

  /** Gives a hint on the answer two messages back (`messages[-2]`) to the
      question three back (`messages[-3]`), skipping the evaluator's reply.
      Raises when there are fewer than three messages. */
  function HintProviderAgent(s: TutorState, llm: Prompt -> string): (r: Result<Update>)
    ensures r.Err? <==> |s.messages| < 3
    ensures r.Ok? ==>
      var n := |s.messages|;
      && r.value.messages == [AI(llm(HintPrompt(s.currentTopic, s.messages[n - 3].content, s.messages[n - 2].content)))]
      && r.value.assessment.None? && r.value.attempts.None?
  {
    if |s.messages| < 3 then Err(IndexError)
    else
      var answer := s.messages[|s.messages| - 2].content;
      var question := s.messages[|s.messages| - 3].content;
      Ok(Reply(llm(HintPrompt(s.currentTopic, question, answer))))
  }

  /** Wraps a re-explanation between the fixed transition phrases. */
  function RevisitText(generated: string): (t: string)
    ensures |t| == |RevisitPrefix| + |generated| + |RevisitSuffix|
    ensures t[..|RevisitPrefix|] == RevisitPrefix
    ensures t[|t| - |RevisitSuffix|..] == RevisitSuffix
  {
    RevisitPrefix + generated + RevisitSuffix
  }

  /** Re-explains a foundational concept: one AI message, wrapped. */
  function FoundationRevisitorAgent(s: TutorState, llm: Prompt -> string): (u: Update)
    ensures |u.messages| == 1 && u.messages[0].AI?
    ensures u.messages[0].content == RevisitPrefix + llm(RevisitPrompt(s.currentTopic)) + RevisitSuffix
    ensures u.assessment.None? && u.attempts.None?
  {
    Reply(RevisitText(llm(RevisitPrompt(s.currentTopic))))
  }

  /** The generated text is exactly what lies between the prefix and the
      suffix, so wrapping loses nothing. */
  lemma RevisitTextRoundTrip(generated: string)
    ensures var t := RevisitText(generated);
      t[|RevisitPrefix|..|t| - |RevisitSuffix|] == generated
  {
    var t := RevisitText(generated);
    assert t == RevisitPrefix + generated + RevisitSuffix;
    assert t[|RevisitPrefix|..|t| - |RevisitSuffix|] == generated;
  }

  /** Wrapping is injective: different re-explanations give different messages. */
  lemma RevisitTextInjective(g1: string, g2: string)
    requires RevisitText(g1) == RevisitText(g2)
    ensures g1 == g2
  {
    RevisitTextRoundTrip(g1);
    RevisitTextRoundTrip(g2);
  }

  /** From a fresh count (0 or absent) a first wrong answer always gets a hint,
      even when the judgement names a missing concept. */
  lemma FirstMissHints(s: TutorState, judge: Prompt -> Evaluation)
    requires |s.messages| >= 2
    requires AttemptsOrZero(s) == 0
    requires !judge(EvaluatePrompt(s.currentTopic, s.messages[|s.messages| - 2].content,
                                   s.messages[|s.messages| - 1].content)).correct
    ensures EvaluatorAgent(s, judge).Ok?
    ensures EvaluatorAgent(s, judge).value.assessment == Some(ProvideHint)
    ensures EvaluatorAgent(s, judge).value.attempts == Some(1)
  {
  }

  /** A wrong answer on an already-attempted question that names a missing
      concept is sent back to the foundations. */
  lemma RepeatedMissWithConceptRevisits(s: TutorState, judge: Prompt -> Evaluation)
    requires |s.messages| >= 2
    requires AttemptsOrZero(s) >= 1
    requires var e := judge(EvaluatePrompt(s.currentTopic, s.messages[|s.messages| - 2].content,
                                           s.messages[|s.messages| - 1].content));
             !e.correct && Truthy(e.missingConcept)
    ensures EvaluatorAgent(s, judge).Ok?
    ensures EvaluatorAgent(s, judge).value.assessment == Some(RevisitFoundation)
  {
  }

  /** After the evaluator's update the topic is kept, exactly one message is
      appended, and `attempts` is either the old value (a correct answer) or
      the old count, absent read as 0, plus one (a wrong answer). */
  lemma EvaluatorStepAttempts(s: TutorState, judge: Prompt -> Evaluation)
    requires |s.messages| >= 2
    ensures var s' := Apply(s, EvaluatorAgent(s, judge).value);
      && s'.currentTopic == s.currentTopic
      && |s'.messages| == |s.messages| + 1
      && (s'.assessment == Some(Correct) ==> s'.attempts == s.attempts)
      && (s'.assessment != Some(Correct) ==> s'.attempts == Some(AttemptsOrZero(s) + 1))
  {
  }
}
