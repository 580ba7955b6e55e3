/** The workflow: the five nodes and the agents they run, the entry point,
    the plain edges, the conditional edge out of the evaluator and its router. */
module Graph {
  import opened Wrappers
  import opened TutorStates
  import opened Agents

  datatype Node = Explainer | QuizMaster | Evaluator | HintProvider | FoundationRevisitor

  /** Where an edge can lead: a node, or the graph's end. */
  datatype Dest = To(node: Node) | End

  /** The value LangGraph uses for its end marker. */
  const EndKey: string := "__end__"

  /** `set_entry_point`. */
  const Entry: Node := Explainer

  /** The three `add_edge` calls. */
  const Edges: set<(Node, Node)> :=
    {(Explainer, QuizMaster), (HintProvider, Evaluator), (FoundationRevisitor, Evaluator)}

  /** The node carrying the conditional edge and the path map handed to it. */
  const ConditionalSource: Node := Evaluator
  const PathMap: map<string, Dest> :=
    map["hint_provider" := To(HintProvider), "foundation_revisitor" := To(FoundationRevisitor), EndKey := End]

  /** `route_after_evaluation`: the end on a correct assessment, the
      revisitor on `revisit_foundation`, and the hint provider on anything else,
      `provide_hint` and `None` included. Every answer is a key of the path map. */
  function RouteAfterEvaluation(s: TutorState): (key: string)
    ensures key in PathMap
    ensures PathMap[key] == End <==> s.assessment == Some(Correct)
    ensures PathMap[key] == To(FoundationRevisitor) <==> s.assessment == Some(RevisitFoundation)
    ensures PathMap[key] == To(HintProvider) <==>
              s.assessment != Some(Correct) && s.assessment != Some(RevisitFoundation)
  {
    if s.assessment == Some(Correct) then EndKey
    else if s.assessment == Some(RevisitFoundation) then "foundation_revisitor"
    else "hint_provider"
  }

  /** Every declared successor of a node: its plain edges, plus the path map's
      targets for the conditional source. */
  function Successors(n: Node): (d: set<Dest>)
    ensures End in d <==> n == ConditionalSource
    ensures To(Explainer) !in d
    ensures To(QuizMaster) in d <==> n == Explainer
    ensures To(Evaluator) in d <==> n == HintProvider || n == FoundationRevisitor
  {
    assert PathMap.Values == {To(HintProvider), To(FoundationRevisitor), End} by {
      assert PathMap["hint_provider"] == To(HintProvider);
      assert PathMap["foundation_revisitor"] == To(FoundationRevisitor);
      assert PathMap[EndKey] == End;
    }
    (set m | (n, m) in Edges :: To(m)) + (if n == ConditionalSource then PathMap.Values else {})
  }

  /** The successor table written out node by node. */
  lemma SuccessorTable()
    ensures Successors(Explainer) == {To(QuizMaster)}
    ensures Successors(QuizMaster) == {}
    ensures Successors(Evaluator) == {To(HintProvider), To(FoundationRevisitor), End}
    ensures Successors(HintProvider) == {To(Evaluator)}
    ensures Successors(FoundationRevisitor) == {To(Evaluator)}
  {
    assert (QuizMaster, Explainer) !in Edges;
    assert PathMap["hint_provider"] == To(HintProvider);
    assert PathMap["foundation_revisitor"] == To(FoundationRevisitor);
    assert PathMap[EndKey] == End;
    assert Successors(Explainer) == {To(QuizMaster)} by {
      assert To(QuizMaster) in Successors(Explainer);
    }
    assert Successors(HintProvider) == {To(Evaluator)} by {
      assert To(Evaluator) in Successors(HintProvider);
    }
    assert Successors(FoundationRevisitor) == {To(Evaluator)} by {
      assert To(Evaluator) in Successors(FoundationRevisitor);
    }
  }

  /** A walk along declared edges: every element but the last is a node, and
      each next element is one of its successors. */
  ghost predicate IsWalk(p: seq<Dest>)
  {
    forall i :: 0 <= i < |p| - 1 ==> p[i].To? && p[i + 1] in Successors(p[i].node)
  }

  /** One step of a walk, usable without knowing the walk's length. */
  lemma WalkStep(p: seq<Dest>, i: nat)
    requires IsWalk(p)
    ensures i < |p| - 1 ==> p[i].To? && p[i + 1] in Successors(p[i].node)
  {
  }

  /** Walks from the entry point never get past the quiz master: only the
      explainer and the quiz master are reachable from the entry, so no walk
      from the entry reaches the evaluator or the end. */
  lemma {:induction false} WalksFromEntry(p: seq<Dest>)
    requires IsWalk(p) && |p| > 0 && p[0] == To(Entry)
    ensures |p| <= 2
    ensures forall i :: 0 <= i < |p| ==> p[i] == To(Explainer) || p[i] == To(QuizMaster)
  {
    SuccessorTable();
    if |p| > 1 {
      assert p[1] == To(QuizMaster);
      WalkStep(p, 1);
    }
  }

  /** The end is entered only along the evaluator's conditional edge (which
      the router takes only on a `correct` assessment). */
  lemma EndOnlyFromEvaluator(p: seq<Dest>, i: int)
    requires IsWalk(p) && 0 < i < |p| && p[i] == End
    ensures p[i - 1] == To(Evaluator)
  {
    SuccessorTable();
    assert p[i] in Successors(p[i - 1].node);
  }

  /** The end has no way out: it can only be the last element of a walk. */
  lemma EndIsLast(p: seq<Dest>, i: int)
    requires IsWalk(p) && 0 <= i < |p| && p[i] == End
    ensures i == |p| - 1
  {
  }

  /** The router's choice is always one of the evaluator's declared successors. */
  lemma RouteIsDeclared(s: TutorState)
    ensures PathMap[RouteAfterEvaluation(s)] in Successors(Evaluator)
  {
    SuccessorTable();
  }

  /** The language model's answers for one node execution. */
  datatype Oracle = Oracle(text: Prompt -> string, judgement: Prompt -> Evaluation)

  /** The agent each `add_node` call binds to a node, applied to a state. */
  function RunNode(n: Node, s: TutorState, o: Oracle): (r: Result<Update>)
    ensures r.Err? <==> (n == Evaluator && |s.messages| < 2) || (n == HintProvider && |s.messages| < 3)
    ensures r.Ok? ==> |r.value.messages| == 1 && r.value.messages[0].AI?
    ensures r.Ok? && n != Evaluator ==> r.value.assessment.None? && r.value.attempts.None?
    ensures r.Ok? && n == Evaluator ==> r.value.attempts.None? || r.value.attempts == Some(AttemptsOrZero(s) + 1)
  {
    match n
    case Explainer => Ok(ExplainerAgent(s, o.text))
    case QuizMaster => Ok(QuizMasterAgent(s, o.text))
    case Evaluator => EvaluatorAgent(s, o.judgement)
    case HintProvider => HintProviderAgent(s, o.text)
    case FoundationRevisitor => Ok(FoundationRevisitorAgent(s, o.text))
  }

  /** Executing nodes one after another, each merging its update into the
      state; the first exception stops the run. */
  function RunNodes(s: TutorState, steps: seq<(Node, Oracle)>): (r: Result<TutorState>)
    ensures r.Err? ==> exists i :: 0 <= i < |steps| && (steps[i].0 == Evaluator || steps[i].0 == HintProvider)
    ensures r.Ok? ==> |r.value.messages| == |s.messages| + |steps|
    decreases steps
  {
    if steps == [] then Ok(s)
    else
      match RunNode(steps[0].0, s, steps[0].1)
      case Err(f) => Err(f)
      case Ok(u) =>
        var r := RunNodes(Apply(s, u), steps[1..]);
        assert r.Err? ==> exists i :: 0 <= i < |steps| && (steps[i].0 == Evaluator || steps[i].0 == HintProvider) by {
          if r.Err? {
            var j :| 0 <= j < |steps[1..]| && (steps[1..][j].0 == Evaluator || steps[1..][j].0 == HintProvider);
            assert steps[1..][j] == steps[j + 1];
          }
        }
        r
  }

  /** Over any sequence of node executions: the old history stays a prefix,
      each node adds exactly one AI message, the topic is never written, and
      `attempts` (absent read as 0) never decreases, so a count that starts
      at 0 is never negative. */
  lemma {:induction false} RunNodesInvariant(s: TutorState, steps: seq<(Node, Oracle)>)
    requires RunNodes(s, steps).Ok?
    ensures var t := RunNodes(s, steps).value;
      && |t.messages| == |s.messages| + |steps|
      && t.messages[..|s.messages|] == s.messages
      && (forall k :: |s.messages| <= k < |t.messages| ==> t.messages[k].AI?)
      && t.currentTopic == s.currentTopic
      && AttemptsOrZero(t) >= AttemptsOrZero(s)
    decreases steps
  {
    if steps != [] {
      var u := RunNode(steps[0].0, s, steps[0].1).value;
      var s1 := Apply(s, u);
      RunNodesInvariant(s1, steps[1..]);
      var t := RunNodes(s, steps).value;
      assert t == RunNodes(s1, steps[1..]).value;
      assert t.messages[..|s1.messages|][..|s.messages|] == t.messages[..|s.messages|];
      forall k | |s.messages| <= k < |t.messages|
        ensures t.messages[k].AI?
      {
        if k == |s.messages| {
          assert t.messages[k] == t.messages[..|s1.messages|][k] == s1.messages[k];
        }
      }
    }
  }

  /** A count that is present stays present: no node removes the key. */
  lemma {:induction false} RunNodesKeepsAttemptsPresent(s: TutorState, steps: seq<(Node, Oracle)>)
    requires s.attempts.Some? && RunNodes(s, steps).Ok?
    ensures RunNodes(s, steps).value.attempts.Some?
    decreases steps
  {
    if steps != [] {
      var u := RunNode(steps[0].0, s, steps[0].1).value;
      RunNodesKeepsAttemptsPresent(Apply(s, u), steps[1..]);
    }
  }

  /** A first wrong answer, even one that names a missing concept, is routed
      to the hint provider. */
  lemma FirstMissRoutesToHint(s: TutorState, judge: Prompt -> Evaluation)
    requires |s.messages| >= 2
    requires AttemptsOrZero(s) == 0
    requires !judge(EvaluatePrompt(s.currentTopic, s.messages[|s.messages| - 2].content,
                                   s.messages[|s.messages| - 1].content)).correct
    ensures PathMap[RouteAfterEvaluation(Apply(s, EvaluatorAgent(s, judge).value))] == To(HintProvider)
  {
    FirstMissHints(s, judge);
  }

  /** A repeated wrong answer that names a missing concept is routed to the
      foundation revisitor. */
  lemma RepeatedMissRoutesToRevisitor(s: TutorState, judge: Prompt -> Evaluation)
    requires |s.messages| >= 2
    requires AttemptsOrZero(s) >= 1
    requires var e := judge(EvaluatePrompt(s.currentTopic, s.messages[|s.messages| - 2].content,
                                           s.messages[|s.messages| - 1].content));
             !e.correct && Truthy(e.missingConcept)
    ensures PathMap[RouteAfterEvaluation(Apply(s, EvaluatorAgent(s, judge).value))] == To(FoundationRevisitor)
  {
    RepeatedMissWithConceptRevisits(s, judge);
  }

  /** After the evaluator, the graph ends iff the answer was judged correct;
      a wrong answer goes to the revisitor iff it is a repeated attempt
      naming a missing concept, and to the hint provider otherwise. */
  lemma EvaluationRoute(s: TutorState, judge: Prompt -> Evaluation)
    requires |s.messages| >= 2
    ensures var e := judge(EvaluatePrompt(s.currentTopic, s.messages[|s.messages| - 2].content,
                                          s.messages[|s.messages| - 1].content));
      var dest := PathMap[RouteAfterEvaluation(Apply(s, EvaluatorAgent(s, judge).value))];
      && (dest == End <==> e.correct)
      && (dest == To(FoundationRevisitor) <==> !e.correct && AttemptsOrZero(s) >= 1 && Truthy(e.missingConcept))
      && (dest == To(HintProvider) <==> !e.correct && !(AttemptsOrZero(s) >= 1 && Truthy(e.missingConcept)))
  {
  }

  /** The opening run from a state with empty history: the explainer then the
      quiz master leave exactly the explanation and the question as AI
      messages, and nothing else changes. */
  lemma OpeningRun(s: TutorState, explain: Oracle, quiz: Oracle)
    requires s.messages == []
    ensures RunNodes(s, [(Explainer, explain), (QuizMaster, quiz)])
         == Ok(s.(messages := [AI(explain.text(ExplainPrompt(s.currentTopic))),
                                AI(quiz.text(QuizPrompt(s.currentTopic)))]))
  {
    var steps := [(Explainer, explain), (QuizMaster, quiz)];
    var s1 := Apply(s, ExplainerAgent(s, explain.text));
    assert RunNodes(s, steps) == RunNodes(s1, steps[1..]);
    var s2 := Apply(s1, QuizMasterAgent(s1, quiz.text));
    assert RunNodes(s1, steps[1..]) == RunNodes(s2, []);
    assert s2.messages == [AI(explain.text(ExplainPrompt(s.currentTopic))),
                           AI(quiz.text(QuizPrompt(s.currentTopic)))];
  }
}
