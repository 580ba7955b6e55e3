/** The chat entry point: the session table, the session id, and the reply
    assembled from the events the compiled graph streams. The graph run itself
    is given: the events it streams for an input, and whether it reports a
    next node afterwards. */
module App {
  import opened Wrappers
  import opened TutorStates
  import opened Agents
  import opened Graph
  import opened PyText
  import opened Seqs

  const Topic: string := "Recursion in Python"
  /** Markdown bold. */
  function Bold(s: string): string
  {
    "**" + s + "**"
  }

  const NoticeText: string := Bold("Congratulations! You've completed the topic. The session has ended.")
  const CompletionNotice: string := "\n\n" + NoticeText

  /** The state stored for a new session. */
  const InitialState: TutorState := TutorState([], Topic, None, Some(0))

  /** `get_session_id`: the given id unchanged, or a fresh one when none is given. */
  function GetSessionId(sessionId: Option<string>, freshId: string): (id: string)
    ensures sessionId.Some? ==> id == sessionId.value
    ensures sessionId.None? ==> id == freshId
  {
    match sessionId
    case Some(given) => given
    case None => freshId
  }

  /** One value of a streamed event: a node's returned dictionary, of which
      only the `messages` key is read (`None` when the key is absent). */
  datatype StreamValue = StreamValue(messages: Option<seq<Message>>)

  /** One streamed event: the values of the `{node: update}` dictionary, in order. */
  type Event = seq<StreamValue>

  /** What the graph is streamed from: the stored state of a new session, or
      the learner's message alone. */
  datatype GraphInput = StartFrom(state: TutorState) | Resume(input: seq<Message>)

  /** The stream value of a node update. */
  function ValueOf(u: Update): StreamValue
  {
    StreamValue(Some(u.messages))
  }

  /** All values of a sequence of events, in order. */
  function Flatten(events: seq<Event>): seq<StreamValue>
  {
    if events == [] then [] else Flatten(events[..|events| - 1]) + events[|events| - 1]
  }

  // ---------------------------------------------------------------------------
  // Reply to a new session

  /** A value with a non-empty `messages` list contributes its last message's
      content and a newline; any other value contributes nothing. */
  function InitialPiece(v: StreamValue): string
  {
    if HasMessages(v) then v.messages.value[|v.messages.value| - 1].content + "\n" else ""
  }

  /** The pieces of a sequence of values, concatenated in order. */
  function InitialText(vs: seq<StreamValue>): string
  {
    if vs == [] then "" else InitialText(vs[..|vs| - 1]) + InitialPiece(vs[|vs| - 1])
  }

  /** A value whose `messages` key is present and holds a non-empty list. */
  predicate HasMessages(v: StreamValue)
  {
    v.messages.Some? && v.messages.value != []
  }

  /** A value contributes text exactly when it has a non-empty `messages`
      list, and what it contributes is a line: it ends with a newline. */
  lemma InitialPieceIsLine(v: StreamValue)
    ensures InitialPiece(v) != [] <==> HasMessages(v)
    ensures InitialPiece(v) != [] ==> InitialPiece(v)[|InitialPiece(v)| - 1] == '\n'
  {
  }

  /** The new-session text is empty exactly when no value has messages. */
  lemma {:induction false} InitialTextEmpty(vs: seq<StreamValue>)
    ensures |InitialText(vs)| == 0 <==> forall k :: 0 <= k < |vs| ==> !HasMessages(vs[k])
    decreases |vs|
  {
    if vs != [] {
      var init, last := vs[..|vs| - 1], vs[|vs| - 1];
      InitialTextEmpty(init);
      InitialPieceIsLine(last);
      assert |InitialText(vs)| == |InitialText(init)| + |InitialPiece(last)|;
      if forall k :: 0 <= k < |vs| ==> !HasMessages(vs[k]) {
        forall k | 0 <= k < |init| ensures !HasMessages(init[k]) {
          assert init[k] == vs[k];
        }
      } else {
        var k :| 0 <= k < |vs| && HasMessages(vs[k]);
        if k < |init| {
          assert init[k] == vs[k];
        }
      }
    }
  }

  /** A non-empty new-session text ends with a newline, which the final strip
      removes. */
  lemma {:induction false} InitialTextEndsLine(vs: seq<StreamValue>)
    ensures InitialText(vs) != [] ==> InitialText(vs)[|InitialText(vs)| - 1] == '\n'
    decreases |vs|
  {
    if vs != [] {
      var init, last := vs[..|vs| - 1], vs[|vs| - 1];
      InitialTextEndsLine(init);
      InitialPieceIsLine(last);
      var t, p := InitialText(init), InitialPiece(last);
      if p != [] {
        assert (t + p)[|t + p| - 1] == p[|p| - 1];
      } else {
        AppendEmpty(t);
      }
    }
  }

  /** Concatenation commutes with building the text: the text of two runs of
      values is the text of the first followed by the text of the second. */
  lemma {:induction false} InitialTextAppend(xs: seq<StreamValue>, ys: seq<StreamValue>)
    ensures InitialText(xs + ys) == InitialText(xs) + InitialText(ys)
    decreases |ys|
  {
    if ys == [] {
      AppendEmpty(xs);
      AppendEmpty(InitialText(xs));
    } else {
      var ys', y := ys[..|ys| - 1], ys[|ys| - 1];
      DropLast(xs, ys);
      InitialTextAppend(xs, ys');
      AppendAssoc(InitialText(xs), InitialText(ys'), InitialPiece(y));
    }
  }

  /** One more value extends the text by that value's piece. */
  lemma InitialTextStep(xs: seq<StreamValue>, v: StreamValue)
    ensures InitialText(xs + [v]) == InitialText(xs) + InitialPiece(v)
  {
    DropAppended(xs, v);
  }

  /** The loops building `initial_response`, then the final strip. */
  method BuildInitialResponse(events: seq<Event>) returns (reply: string)
    ensures reply == Strip(InitialText(Flatten(events)))
  {
    var acc := "";
    var i := 0;
    while i < |events|
      invariant i <= |events|
      invariant acc == InitialText(Flatten(events[..i]))
    {
      var values := events[i];
      ghost var done := Flatten(events[..i]);
      var j := 0;
      assert values[..0] == [];
      AppendEmpty(done);
      while j < |values|
        invariant j <= |values|
        invariant acc == InitialText(done + values[..j])
      {
        var v := values[j];
        InitialTextStep(done + values[..j], v);
        if HasMessages(v) {
          acc := acc + (v.messages.value[|v.messages.value| - 1].content + "\n");
        } else {
          AppendEmpty(acc);
        }
        PrefixStep(values, j);
        AppendAssoc(done, values[..j], [v]);
        j := j + 1;
      }
      assert values[..j] == values;
      PrefixStep(events, i);
      i := i + 1;
    }
    assert events[..i] == events;
    reply := Strip(acc);
  }

  /** The opening run streams the explainer's update, then the quiz master's;
      for any generated texts, the reply is the explanation, a newline and the
      question, stripped. */
  lemma OpeningReplyAny(explanation: string, question: string)
    ensures Strip(InitialText(Flatten([[ValueOf(Reply(explanation))], [ValueOf(Reply(question))]])))
         == Strip(explanation + "\n" + question)
  {
    var e1: Event := [ValueOf(Reply(explanation))];
    var e2: Event := [ValueOf(Reply(question))];
    assert Flatten([e1, e2]) == Flatten([e1]) + e2;
    assert Flatten([e1]) == e1 by {
      assert [e1][..0] == [];
    }
    InitialTextAppend(e1, e2);
    assert InitialText(e1) == explanation + "\n" by {
      assert e1[..0] == [];
    }
    assert InitialText(e2) == question + "\n" by {
      assert e2[..0] == [];
    }
    var body := explanation + "\n" + question;
    assert explanation + "\n" + (question + "\n") == body + "\n";
    assert AllSpace("\n") by {
      assert IsSpace("\n"[0]);
    }
    StripDropsTrailingSpace(body, "\n");
  }

  /** When both generated texts are non-empty and carry no surrounding
      whitespace, the reply is exactly the explanation, a newline, and the
      question. */
  lemma OpeningReply(explanation: string, question: string)
    requires explanation != [] && Bare(explanation)
    requires question != [] && Bare(question)
    ensures Strip(InitialText(Flatten([[ValueOf(Reply(explanation))], [ValueOf(Reply(question))]])))
         == explanation + "\n" + question
  {
    OpeningReplyAny(explanation, question);
    var body := explanation + "\n" + question;
    Bare3(explanation, "\n", question);
    AppendEmpty(body);
    AppendEmpty([] + body);
    StripOf([], body, []);
  }

  // ---------------------------------------------------------------------------
  // Reply to an existing session

  /** A value with a `messages` key contributes its last message's content
      and a space when that message is an AI message; an empty list raises. */
  function FollowUpPiece(v: StreamValue): (r: Result<string>)
    ensures r.Err? <==> v.messages == Some([])
    ensures r.Ok? && r.value != [] ==> v.messages.Some? && v.messages.value[|v.messages.value| - 1].AI?
  {
    if v.messages.None? then Ok("")
    else if v.messages.value == [] then Err(IndexError)
    else
      var last := v.messages.value[|v.messages.value| - 1];
      if last.AI? then Ok(last.content + " ") else Ok("")
  }

  /** The pieces of a sequence of values, concatenated in order; the first
      value that raises makes the whole text raise. */
  function FollowUpText(vs: seq<StreamValue>): Result<string>
  {
    if vs == [] then Ok("")
    else
      match FollowUpText(vs[..|vs| - 1])
      case Err(f) => Err(f)
      case Ok(t) =>
        match FollowUpPiece(vs[|vs| - 1])
        case Err(f) => Err(f)
        case Ok(p) => Ok(t + p)
  }

  /** What a value contributes is empty or a word followed by a space. */
  lemma FollowUpPieceIsWord(v: StreamValue)
    ensures FollowUpPiece(v).Ok? && FollowUpPiece(v).value != [] ==>
              FollowUpPiece(v).value[|FollowUpPiece(v).value| - 1] == ' '
  {
  }

  /** A non-empty existing-session text ends with a space, which the final
      strip removes. */
  lemma {:induction false} FollowUpTextEndsSpace(vs: seq<StreamValue>)
    ensures FollowUpText(vs).Ok? && FollowUpText(vs).value != [] ==>
              FollowUpText(vs).value[|FollowUpText(vs).value| - 1] == ' '
    decreases |vs|
  {
    if vs != [] && FollowUpText(vs).Ok? {
      var init, last := vs[..|vs| - 1], vs[|vs| - 1];
      FollowUpTextEndsSpace(init);
      FollowUpPieceIsWord(last);
      var t, p := FollowUpText(init).value, FollowUpPiece(last).value;
      assert FollowUpText(vs).value == t + p;
      if p != [] {
        assert (t + p)[|t + p| - 1] == p[|p| - 1];
      } else {
        AppendEmpty(t);
      }
    }
  }

  /** The collected text, with the completion notice appended when the graph
      reports no next node, stripped. */
  function WithNotice(text: string, hasNext: bool): (r: string)
    ensures Bare(r)
    ensures !hasNext ==> |r| >= |NoticeText| && r[|r| - |NoticeText|..] == NoticeText
  {
    if hasNext then Strip(text)
    else
      NoticeIsBare();
      assert AllSpace("\n\n") by {
        assert IsSpace('\n');
      }
      AppendAssoc(text, "\n\n", NoticeText);
      StripThenAppend(text, "\n\n", NoticeText);
      var r := Strip(text + CompletionNotice);
      assert r == NoticeText || r == text[LeadingSpace(text)..] + "\n\n" + NoticeText;
      r
  }

  /** The reply to an existing session, or the exception the stream raises. */
  function FollowUpReply(events: seq<Event>, hasNext: bool): (r: Result<string>)
    ensures r.Err? <==> exists k :: 0 <= k < |Flatten(events)| && Flatten(events)[k].messages == Some([])
    ensures r.Ok? ==> Bare(r.value)
    ensures r.Ok? && !hasNext ==> |r.value| >= |NoticeText| && r.value[|r.value| - |NoticeText|..] == NoticeText
  {
    FollowUpTextRaises(Flatten(events));
    match FollowUpText(Flatten(events))
    case Err(f) => Err(f)
    case Ok(t) => Ok(WithNotice(t, hasNext))
  }

  /** The text is built from a value at all only when none of them raises:
      it raises exactly when some value has an empty `messages` list. */
  lemma {:induction false} FollowUpTextRaises(vs: seq<StreamValue>)
    ensures FollowUpText(vs).Err? <==>
              exists k :: 0 <= k < |vs| && vs[k].messages == Some([])
    decreases |vs|
  {
    if vs != [] {
      var init := vs[..|vs| - 1];
      FollowUpTextRaises(init);
      if FollowUpText(vs).Err? && FollowUpText(init).Ok? {
        assert vs[|vs| - 1].messages == Some([]);
      }
      if exists k :: 0 <= k < |init| && init[k].messages == Some([]) {
        var k :| 0 <= k < |init| && init[k].messages == Some([]);
        assert vs[k] == init[k];
      }
      if FollowUpText(init).Err? {
        var k :| 0 <= k < |init| && init[k].messages == Some([]);
        assert vs[k] == init[k];
      }
      if exists k :: 0 <= k < |vs| && vs[k].messages == Some([]) {
        var k :| 0 <= k < |vs| && vs[k].messages == Some([]);
        if k < |init| {
          assert init[k] == vs[k];
        }
      }
    }
  }

  /** Once a prefix of the values raises, so does every extension of it. */
  lemma {:induction false} FollowUpTextRaisesOnward(xs: seq<StreamValue>, ys: seq<StreamValue>)
    requires FollowUpText(xs).Err?
    ensures FollowUpText(xs + ys).Err?
    decreases |ys|
  {
    if ys == [] {
      AppendEmpty(xs);
    } else {
      DropLast(xs, ys);
      FollowUpTextRaisesOnward(xs, ys[..|ys| - 1]);
    }
  }

  /** Flattening commutes with concatenation. */
  lemma {:induction false} FlattenAppend(xs: seq<Event>, ys: seq<Event>)
    ensures Flatten(xs + ys) == Flatten(xs) + Flatten(ys)
    decreases |ys|
  {
    if ys == [] {
      AppendEmpty(xs);
      AppendEmpty(Flatten(xs));
    } else {
      var ys' := ys[..|ys| - 1];
      DropLast(xs, ys);
      FlattenAppend(xs, ys');
      AppendAssoc(Flatten(xs), Flatten(ys'), ys[|ys| - 1]);
    }
  }

  /** The loops building `full_response`, the completion notice, and the
      final strip; an empty `messages` list raises at once. */
  method BuildFollowUpResponse(events: seq<Event>, hasNext: bool) returns (reply: Result<string>)
    ensures reply == FollowUpReply(events, hasNext)
  {
    var full := "";
    var i := 0;
    while i < |events|
      invariant i <= |events|
      invariant FollowUpText(Flatten(events[..i])) == Ok(full)
    {
      var values := events[i];
      ghost var done := Flatten(events[..i]);
      var j := 0;
      assert values[..0] == [];
      AppendEmpty(done);
      while j < |values|
        invariant j <= |values|
        invariant FollowUpText(done + values[..j]) == Ok(full)
      {
        var v := values[j];
        AppendEmpty(full);
        PrefixStep(values, j);
        AppendAssoc(done, values[..j], [v]);
        DropAppended(done + values[..j], v);
        if v.messages.Some? {
          if v.messages.value == [] {
            reply := Err(IndexError);
            FollowUpRaisesWithin(events, i, j);
            return;
          }
          var last := v.messages.value[|v.messages.value| - 1];
          if last.AI? {
            full := full + (last.content + " ");
          }
        }
        j := j + 1;
      }
      assert values[..j] == values;
      PrefixStep(events, i);
      i := i + 1;
    }
    assert events[..i] == events;
    if !hasNext {
      full := full + CompletionNotice;
    }
    reply := Ok(Strip(full));
  }

  /** A value with an empty `messages` list anywhere in the stream makes the
      whole text raise, whatever comes after it. */
  lemma FollowUpRaisesWithin(events: seq<Event>, i: nat, j: nat)
    requires i < |events| && j < |events[i]| && events[i][j].messages == Some([])
    requires FollowUpText(Flatten(events[..i]) + events[i][..j]).Ok?
    ensures FollowUpText(Flatten(events)).Err?
  {
    var values := events[i];
    var done := Flatten(events[..i]) + values[..j + 1];
    PrefixStep(values, j);
    AppendAssoc(Flatten(events[..i]), values[..j], [values[j]]);
    DropAppended(Flatten(events[..i]) + values[..j], values[j]);
    assert FollowUpText(done).Err?;
    var rest := values[j + 1..] + Flatten(events[i + 1..]);
    FollowUpTextRaisesOnward(done, rest);
    assert events == events[..i] + [values] + events[i + 1..];
    FlattenAppend(events[..i] + [values], events[i + 1..]);
    FlattenAppend(events[..i], [values]);
    assert Flatten([values]) == values by {
      assert [values][..0] == [];
      AppendEmpty(values);
    }
    assert values == values[..j + 1] + values[j + 1..];
    AppendAssoc(Flatten(events[..i]), values[..j + 1], values[j + 1..]);
    AppendAssoc(Flatten(events[..i]) + values[..j + 1], values[j + 1..], Flatten(events[i + 1..]));
    AppendAssoc(Flatten(events[..i]), values, Flatten(events[i + 1..]));
  }

  /** The completion notice is added exactly once, and only when no node is
      next: with a next node the reply is the stripped text; without one it is
      the text without its leading whitespace, then a blank line and the
      notice, or the notice alone when the text is all whitespace. */
  lemma NoticeOnlyAtEnd(text: string)
    ensures WithNotice(text, true) == Strip(text)
    ensures WithNotice(text, false) ==
              if Strip(text) == [] then NoticeText
              else text[LeadingSpace(text)..] + CompletionNotice
  {
    NoticeIsBare();
    assert AllSpace("\n\n") by {
      assert IsSpace('\n');
    }
    AppendAssoc(text, "\n\n", NoticeText);
    AppendAssoc(text[LeadingSpace(text)..], "\n\n", NoticeText);
    StripThenAppend(text, "\n\n", NoticeText);
  }

  lemma NoticeIsBare()
    ensures NoticeText != [] && Bare(NoticeText)
  {
    assert NoticeText[0] == "**"[0] && NoticeText[|NoticeText| - 1] == "**"[1];
  }

  // ---------------------------------------------------------------------------
  // The session table

  /** One call of the chat function on a table of sessions: get-or-create of
      the entry for `id`, then the reply. A new session's reply comes from a
      run on its stored initial state; an existing session's from a run on the
      learner's message alone. The table is written only for a new id. */
  function Respond(table: map<string, TutorState>, message: string, id: string,
                   stream: GraphInput -> seq<Event>, hasNext: bool)
    : (r: (map<string, TutorState>, Result<string>))
    ensures r.0.Keys == table.Keys + {id}
    ensures forall k :: k in table ==> r.0[k] == table[k]
    ensures id !in table ==> r.0[id] == InitialState
    ensures id !in table ==> r.1 == Ok(Strip(InitialText(Flatten(stream(StartFrom(InitialState))))))
    ensures id in table ==> r.1 == FollowUpReply(stream(Resume([Human(message)])), hasNext)
  {
    if id !in table then
      var table' := table[id := InitialState];
      (table', Ok(Strip(InitialText(Flatten(stream(StartFrom(table'[id])))))))
    else
      (table, FollowUpReply(stream(Resume([Human(message)])), hasNext))
  }

  /** Session isolation: a call for `id` leaves every other session's entry,
      and its presence or absence, as it was. */
  lemma SessionIsolation(table: map<string, TutorState>, message: string, id: string,
                         stream: GraphInput -> seq<Event>, hasNext: bool, other: string)
    requires other != id
    ensures var t := Respond(table, message, id, stream, hasNext).0;
      (other in t <==> other in table) && (other in table ==> t[other] == table[other])
  {
  }

  /** On a new session the incoming message is ignored: any two messages get
      the same table and the same reply. */
  lemma NewSessionIgnoresMessage(table: map<string, TutorState>, m1: string, m2: string, id: string,
                                 stream: GraphInput -> seq<Event>, hasNext: bool)
    requires id !in table
    ensures Respond(table, m1, id, stream, hasNext) == Respond(table, m2, id, stream, hasNext)
  {
  }

  /** Without a session id every call draws a fresh one; when it is not in
      the table yet, the call takes the new-session path whatever the message. */
  lemma NoIdStartsNewSession(table: map<string, TutorState>, message: string, freshId: string,
                             stream: GraphInput -> seq<Event>, hasNext: bool)
    requires freshId !in table
    ensures var r := Respond(table, message, GetSessionId(None, freshId), stream, hasNext);
      && r.0 == table[freshId := InitialState]
      && r.1 == Ok(Strip(InitialText(Flatten(stream(StartFrom(InitialState))))))
  {
  }

  /** Every node's update contributes its one message's text to either reply:
      followed by a newline on a new session, by a space on an existing one. */
  lemma NodeUpdatePieces(n: Node, s: TutorState, o: Oracle)
    requires RunNode(n, s, o).Ok?
    ensures var u := RunNode(n, s, o).value;
      && InitialPiece(ValueOf(u)) == u.messages[0].content + "\n"
      && FollowUpPiece(ValueOf(u)) == Ok(u.messages[0].content + " ")
  {
  }

  /** Starting from a new session's stored state, any sequence of node
      executions keeps the topic "Recursion in Python" and a count of
      attempts that is never negative. */
  lemma SessionRunInvariant(steps: seq<(Node, Oracle)>)
    requires RunNodes(InitialState, steps).Ok?
    ensures var t := RunNodes(InitialState, steps).value;
      && t.currentTopic == Topic
      && t.attempts.Some? && t.attempts.value >= 0
      && |t.messages| == |steps|
  {
    RunNodesInvariant(InitialState, steps);
    RunNodesKeepsAttemptsPresent(InitialState, steps);
  }

  /** The per-process table of session states. */
  class SessionTable {
    var states: map<string, TutorState>

    constructor ()
      ensures states == map[]
    {
      states := map[];
    }

    /** `chat_interface`. The `history` argument is not read. */
    method ChatInterface(message: string, sessionId: Option<string>, freshId: string,
                         stream: GraphInput -> seq<Event>, hasNext: bool)
      returns (reply: Result<string>)
      modifies this
      ensures (states, reply) == Respond(old(states), message, GetSessionId(sessionId, freshId), stream, hasNext)
    {
      var id := GetSessionId(sessionId, freshId);
      if id !in states {
        states := states[id := InitialState];
        var text := BuildInitialResponse(stream(StartFrom(states[id])));
        reply := Ok(text);
        return;
      }
      reply := BuildFollowUpResponse(stream(Resume([Human(message)])), hasNext);
    }
  }
}
