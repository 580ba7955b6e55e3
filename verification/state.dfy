/** The graph state `TutorState` and the way a node's partial update is merged
    into it (the `add_messages` reducer on `messages`, overwrite on the rest). */
module TutorStates {
  import opened Wrappers

  /** A chat message: a `HumanMessage` from the learner or an `AIMessage` from a node. */
  datatype Message = Human(content: string) | AI(content: string)

  /** The four fields of the state. `assessment` is `None` until the evaluator
      writes it; `attempts` is `None` when the key is absent from the state. */
  datatype TutorState = TutorState(
    messages: seq<Message>,
    currentTopic: string,
    assessment: Option<string>,
    attempts: Option<int>)

  /** The dictionary a node returns. It always carries `messages`; a `None`
      field stands for a key the node does not return. There is no
      `current_topic` key: no node returns one. */
  datatype Update = Update(
    messages: seq<Message>,
    assessment: Option<string>,
    attempts: Option<int>)

  /** `state.get('attempts', 0)`. */
  function AttemptsOrZero(s: TutorState): (n: int)
    ensures s.attempts == Some(n) || (s.attempts.None? && n == 0)
  {
    match s.attempts
    case None => 0
    case Some(n) => n
  }

  /** A returned key overwrites the stored value; an absent key keeps it. */
  function Override<T>(stored: Option<T>, returned: Option<T>): (r: Option<T>)
    ensures returned.Some? ==> r == returned
    ensures returned.None? ==> r == stored
  {
    if returned.Some? then returned else stored
  }

  /** Merging one node update into the state. */
  function Apply(s: TutorState, u: Update): (r: TutorState)
    ensures |r.messages| == |s.messages| + |u.messages|
    ensures r.messages[..|s.messages|] == s.messages
    ensures r.messages[|s.messages|..] == u.messages
    ensures r.currentTopic == s.currentTopic
    ensures r.assessment == Override(s.assessment, u.assessment)
    ensures r.attempts == Override(s.attempts, u.attempts)
  {
    TutorState(s.messages + u.messages, s.currentTopic,
               Override(s.assessment, u.assessment), Override(s.attempts, u.attempts))
  }

  /** All messages of a sequence of updates, in order. */
  function AllMessages(us: seq<Update>): seq<Message>
  {
    if us == [] then [] else us[0].messages + AllMessages(us[1..])
  }

  /** Merging a sequence of updates, first to last. */
  function ApplyAll(s: TutorState, us: seq<Update>): TutorState
    decreases us
  {
    if us == [] then s else ApplyAll(Apply(s, us[0]), us[1..])
  }

  /** Merging updates one after another only ever appends: the old history is
      kept as it was and exactly the updates' messages follow it, and the topic
      is never written. */
  lemma {:induction false} ApplyAllAppends(s: TutorState, us: seq<Update>)
    ensures ApplyAll(s, us).messages == s.messages + AllMessages(us)
    ensures ApplyAll(s, us).currentTopic == s.currentTopic
    decreases us
  {
    if us != [] {
      ApplyAllAppends(Apply(s, us[0]), us[1..]);
      assert s.messages + us[0].messages + AllMessages(us[1..])
          == s.messages + (us[0].messages + AllMessages(us[1..]));
    }
  }

  /** Corollary: any earlier history is a prefix of any later one. */
  lemma ApplyAllKeepsPrefix(s: TutorState, us: seq<Update>)
    ensures |ApplyAll(s, us).messages| >= |s.messages|
    ensures ApplyAll(s, us).messages[..|s.messages|] == s.messages
  {
    ApplyAllAppends(s, us);
  }
}
