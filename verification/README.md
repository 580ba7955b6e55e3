# Adaptive learning companion: the tutoring control layer in Dafny

This project models the deterministic control layer of a LangGraph tutoring
loop that teaches "Recursion in Python". The loop explains the topic, asks a
quiz question, evaluates the learner's answer, and then either gives a hint or
revisits a foundational concept. Every call to the language model is an input
to the model. Generated text is a function `Prompt -> string`. A judgement is
a function `Prompt -> Evaluation`, where an `Evaluation` is
`{correct, reasoning, missingConcept}`. A `Prompt` records what each agent
fills into its template (topic, question, answer), so the contracts show which
list positions each agent reads.

Modules, one per source file plus two helpers:

- `TutorStates` (`src/state.py`): the four-field `TutorState`, the `Update` a
  node returns, and the merge `Apply`. The merge appends to `messages`, which
  is the `add_messages` reducer, and overwrites only the keys an update returns.
- `Agents` (`src/agents.py`): the five agents as pure functions from the state
  and the oracle to an update. A read of a list position that does not exist
  is an `IndexError` result.
- `Graph` (`src/graph.py`): the node/edge table (entry point, plain edges, and
  the conditional edge with its path map), `route_after_evaluation`, the
  binding of nodes to agents, and runs of node executions.
- `App` (`app.py`): `get_session_id`, the two reply-building loops as methods
  proved against specification functions, the completion notice, and the
  session table as a class with a `map` field.
- `PyText`: Python's `str.strip()` over the exact `str.isspace` character set.
- `Seqs`: small facts about sequence concatenation that the proofs use.

What the proofs show, in the system's terms:

- The evaluator's routing rule is asymmetric. A wrong answer goes to
  `revisit_foundation` exactly when this is a repeated attempt and a missing
  concept is named. A first miss always gets a hint.
- `route_after_evaluation` is total. Each of its answers is a key of the path
  map given to the conditional edge.
- The messages list only grows. Each node adds exactly one AI message. The
  attempt counter never decreases, so it is never negative. The topic never
  changes, because no agent returns `current_topic`; `Update` therefore has no
  topic field.
- Only the evaluator and the hint provider can raise. A run made only of the
  other nodes always completes.
- From the declared edges alone, the entry point reaches only the explainer
  and the quiz master, because the quiz master has no outgoing edge. Only the
  evaluator's conditional edge leads to the end.
- On a new session the incoming message is ignored. The reply is the
  explanation and the question joined by a newline, then stripped. When both
  generated texts are non-empty and have no surrounding whitespace, that is
  exactly the explanation, a newline and the question.
- On an existing session, only AI messages contribute to the reply. The reply
  never starts or ends with whitespace. The completion notice is added once,
  only when the graph reports no next node.
- Looking up a session creates its entry only when the id is absent. An
  existing entry is never overwritten, and no other session's entry changes.

Three facts about the code are worth stating. The quiz master does not reset
`attempts`. The code never marks a session as ended and never rejects later
messages. `session_states[id]` is written only when the session is created
(app.py:29).

## Model

| member | source | states |
|---|---|---|
| `TutorStates.Apply` | src/state.py:7-8 | merging an update appends its messages, so the old list is a prefix and the length grows by the update's message count; the topic is kept; `assessment` and `attempts` are overwritten only when the update returns them |
| `TutorStates.AttemptsOrZero` | src/agents.py:86 | `state.get('attempts', 0)`: the stored count when the key is present, 0 when it is absent |
| `TutorStates.ApplyAllAppends` | src/state.py:7-8 | merging any sequence of updates yields the old messages followed by all the updates' messages in order, with the topic unchanged |
| `TutorStates.ApplyAllKeepsPrefix` | src/state.py:7-8 | after any sequence of updates the earlier history is a prefix of the later one |
| `Agents.Reply` | src/agents.py:43 | a generating node's update is a single AI message with the given text and no other key |
| `Agents.ExplainerAgent` | src/agents.py:29-43 | exactly one AI message holding the text generated for the current topic; no `assessment` or `attempts` key |
| `Agents.QuizMasterAgent` | src/agents.py:46-61 | exactly one AI message holding the generated question; `attempts` is not returned, so it is left unchanged |
| `Agents.WrongAnswerAssessment` | src/agents.py:94-98 | the result is `revisit_foundation` iff the new attempt count exceeds 1 and the missing concept is neither None nor empty, and `provide_hint` otherwise |
| `Agents.EvaluatorAgent` | src/agents.py:64-104 | raises iff there are fewer than 2 messages; judges answer `messages[-1]` against question `messages[-2]`; a correct answer yields `correct`, the fixed praise and no `attempts` key; a wrong one yields the fixed prefix followed by the reasoning, `attempts` equal to the stored count (absent read as 0) plus 1, and the asymmetric assessment |
| `Agents.HintProviderAgent` | src/agents.py:107-127 | raises iff there are fewer than 3 messages; otherwise one AI message with the hint generated for question `messages[-3]` and answer `messages[-2]`, and no other key |
| `Agents.FoundationRevisitorAgent` | src/agents.py:130-145 | one AI message: the fixed step-back prefix, then the generated text, then the fixed quiz-again suffix; no other key |
| `Agents.RevisitText` | src/agents.py:145 | the revisit message is as long as the prefix, the generated text and the suffix together; it starts with the prefix and ends with the suffix |
| `Agents.RevisitTextRoundTrip` | src/agents.py:145 | the generated text is exactly what lies between the prefix and the suffix |
| `Agents.RevisitTextInjective` | src/agents.py:145 | different re-explanations give different revisit messages |
| `Agents.FirstMissHints` | src/agents.py:86-98 | from a count of 0 (or no count), a wrong answer yields `provide_hint` and `attempts = 1`, even when a missing concept is named |
| `Agents.RepeatedMissWithConceptRevisits` | src/agents.py:86-98 | once at least one attempt is recorded, a wrong answer that names a missing concept yields `revisit_foundation` |
| `Agents.EvaluatorStepAttempts` | src/agents.py:86-104 | after the evaluator's update is merged, the topic is kept and one message is added; `attempts` is unchanged on `correct`, and is otherwise the old count plus 1 |
| `Graph.RouteAfterEvaluation` | src/graph.py:30-46 | the answer is always a key of the path map; it maps to END iff the assessment is `correct`, to `foundation_revisitor` iff it is `revisit_foundation`, and to `hint_provider` for every other value, None included |
| `Graph.Successors` | src/graph.py:22-50 | END is a successor only of the conditional source, the evaluator; nothing leads back to the entry point `explainer`; only explainer leads to quiz_master; exactly hint_provider and foundation_revisitor lead to evaluator |
| `Graph.SuccessorTable` | src/graph.py:22-50 | explainer's only successor is quiz_master; quiz_master has none; evaluator's are exactly hint_provider, foundation_revisitor and END; hint_provider and foundation_revisitor each lead only to evaluator |
| `Graph.WalksFromEntry` | src/graph.py:22-27 | every walk along declared edges from the entry point `explainer` has at most two elements, both explainer or quiz_master, so it never reaches the evaluator or END |
| `Graph.EndOnlyFromEvaluator` | src/graph.py:38-50 | in any walk, END is entered only straight from the evaluator, that is, only along its conditional edge |
| `Graph.EndIsLast` | src/graph.py:38-46 | END has no outgoing edge: it can only be the last element of a walk |
| `Graph.RouteIsDeclared` | src/graph.py:30-46 | the router's choice is always one of the evaluator's declared successors |
| `Graph.RunNode` | src/graph.py:15-19 | each node runs its agent; only evaluator (fewer than 2 messages) and hint_provider (fewer than 3) can raise; every update is exactly one AI message; only the evaluator returns `assessment` or `attempts`, and its `attempts` is the old count plus 1 |
| `Graph.RunNodes` | src/graph.py:15-19 | a run of node executions, each merging its update, fails only if it contains an evaluator or hint_provider step; a completed run adds one message per step |
| `Graph.RunNodesInvariant` | src/state.py:6-14 | over any sequence of node executions, the old messages stay a prefix, exactly one AI message is added per node, the topic is never written, and the attempt count never decreases |
| `Graph.RunNodesKeepsAttemptsPresent` | src/agents.py:100-104 | a present `attempts` value is never removed by any node |
| `Graph.FirstMissRoutesToHint` | src/agents.py:86-98 | from a count of 0 or no count, a wrong answer's update, once merged, is routed to hint_provider, even when a missing concept is named |
| `Graph.RepeatedMissRoutesToRevisitor` | src/agents.py:86-98 | with a recorded attempt, a wrong answer naming a missing concept, once merged, is routed to foundation_revisitor |
| `Graph.EvaluationRoute` | src/graph.py:30-36 | after the evaluator's update is merged, the route is END iff the answer was judged correct, foundation_revisitor iff it is a wrong repeated attempt naming a missing concept, and hint_provider otherwise |
| `Graph.OpeningRun` | src/graph.py:22-27 | from an empty history, running explainer then quiz_master leaves exactly the explanation and the question as AI messages, with every other field unchanged |
| `PyText.LeadingSpace` | app.py:41 | the length of the longest all-whitespace prefix |
| `PyText.TrailingSpace` | app.py:58 | the length of the longest all-whitespace suffix |
| `PyText.Strip` | app.py:41 | `strip()` keeps a middle part that neither starts nor ends with whitespace, and removes only whitespace on either side of it |
| `PyText.StripOf` | app.py:58 | the stripped text is fixed by what it keeps: bare text between whitespace on both sides strips to itself |
| `PyText.StripBlank` | app.py:58 | text made only of whitespace strips to nothing |
| `PyText.StripDropsTrailingSpace` | app.py:41 | whitespace appended before stripping makes no difference |
| `PyText.StripIdempotent` | app.py:58 | stripping twice is the same as stripping once |
| `PyText.StripThenAppend` | app.py:54-58 | appending whitespace and then bare text before stripping removes only the leading whitespace, or leaves only the appended text when the original was all whitespace |
| `App.GetSessionId` | app.py:10-14 | a given id is returned unchanged; the fresh id is used only when the argument is None |
| `App.InitialPieceIsLine` | app.py:38-40 | a value adds text iff its `messages` key holds a non-empty list, and what it adds ends with a newline |
| `App.InitialTextEmpty` | app.py:36-40 | the new-session text is empty iff no streamed value has a non-empty `messages` list |
| `App.InitialTextEndsLine` | app.py:36-40 | a non-empty new-session text ends with a newline |
| `App.InitialTextStep` | app.py:38-40 | one more value extends the new-session text by that value's piece |
| `App.InitialTextAppend` | app.py:36-41 | the new-session text of two runs of stream values is the text of the first followed by the text of the second |
| `App.BuildInitialResponse` | app.py:36-41 | the loops produce, stripped, the concatenation over all event values with a non-empty `messages` list of the last message's content plus a newline |
| `App.OpeningReplyAny` | app.py:36-41 | for any explainer and quiz master texts, the new-session reply is the stripped explanation, newline and question |
| `App.OpeningReply` | app.py:36-41 | for the explainer's and quiz master's updates with non-empty, already-trimmed texts, the new-session reply is the explanation, a newline and the question |
| `App.FollowUpPiece` | app.py:49-51 | a value raises iff its `messages` key holds an empty list; it adds text only when its last message is an AI message |
| `App.FollowUpPieceIsWord` | app.py:51 | what a value adds is empty or ends with a space |
| `App.FollowUpTextEndsSpace` | app.py:47-51 | a non-empty existing-session text ends with a space |
| `App.FollowUpTextRaises` | app.py:48-51 | building the existing-session text raises iff some value has an empty `messages` list |
| `App.BuildFollowUpResponse` | app.py:44-58 | the loops produce the concatenation, over values whose last message is an AI message, of its content plus a space, then the completion notice when no node is next, stripped; an empty `messages` list raises |
| `App.WithNotice` | app.py:54-58 | the final reply never starts or ends with whitespace; without a next node it ends with the completion notice |
| `App.FollowUpReply` | app.py:44-58 | the existing-session reply raises iff some streamed value has an empty `messages` list; otherwise it is trimmed and, without a next node, ends with the completion notice |
| `App.NoticeOnlyAtEnd` | app.py:54-58 | with a next node the reply is the stripped text; without one it is the text minus its leading whitespace, a blank line and the notice once, or the notice alone when the text is all whitespace |
| `App.NodeUpdatePieces` | app.py:36-51 | each node update contributes its one message's text followed by a newline on a new session, and by a space on an existing one |
| `App.Respond` | app.py:22-58 | the table gains the id and keeps every existing entry; a new id is stored with the initial state and answered from a run on that state; an existing id is answered from a run on the learner's message alone |
| `App.SessionIsolation` | app.py:28-29 | a call for one id leaves every other session's entry, and whether it exists, unchanged |
| `App.NewSessionIgnoresMessage` | app.py:28-41 | for an id not yet in the table, any two incoming messages give the same table and the same reply |
| `App.NoIdStartsNewSession` | app.py:10-41 | without a session id, a fresh id not yet in the table takes the new-session path |
| `App.SessionRunInvariant` | app.py:28-34 | from a new session's stored state (empty messages, topic "Recursion in Python", no assessment, 0 attempts), any run of nodes keeps the topic and a present, non-negative attempt count |
| `App.SessionTable.constructor` | app.py:8 | the session table starts empty |
| `App.SessionTable.ChatInterface` | app.py:16-58 | the new table and the reply are exactly those of `Respond` for the id from `get_session_id` |

## Left out

- The language model calls and prompt wording (src/agents.py:19 and the template lines). Generated text and judgements are function parameters, and `Prompt` records only the values filled into each template.
- Loading the environment and the API key (src/agents.py:1-20) and all of main.py. These are configuration and process launch.
- The Gradio interface (app.py:61-69) and uuid generation (app.py:13). The fresh id is a parameter.
- LangGraph internals: `compile`, `stream` and `get_state` (src/graph.py:53, app.py:37, 45, 54). The events a run streams are a function of the graph input, and "has a next node" is a boolean parameter. The model does not say how LangGraph schedules nodes.
- `add_messages` matching messages by id. Node messages carry fresh ids, so the reducer appends, and the model appends.
- Drawing the graph as a PNG and writing the file (src/graph.py:55-63). This is I/O.
- The unused `history` argument of `chat_interface`, and Python's `TypeError` for an `attempts` key present with the value None. No caller produces that value.
- Concurrency. The source has no locks, and Gradio's queue is transport.
