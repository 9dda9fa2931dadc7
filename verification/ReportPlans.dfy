/** Which report plans are accepted, and what of them shows in the document. */
module ReportPlans {
  import opened Results
  import opened Composition
  import opened ReportLinks

  // ---- What a plan of blocks must refer to ----

  predicate Mentions(node: Node, incident: Incident) {
    node.IncidentReference? && Names(incident, OrEmpty(node.incidentId))
  }

  /** No incident is mentioned twice. */
  ghost predicate MentionsOnce(s: Snapshot, nodes: seq<Node>) {
    forall j, k, i ::
      0 <= j < k < |nodes| && 0 <= i < |s.incidents| && Mentions(nodes[j], s.incidents[i]) ==>
        !Mentions(nodes[k], s.incidents[i])
  }

  /** The plan repeats a reference only where that is allowed, and under full coverage it
      mentions every incident and asks for every run. */
  ghost predicate PlanCovers(s: Snapshot, index: map<string, nat>, nodes: seq<Node>)
    requires forall ref :: ref in index ==> index[ref] < |s.incidents|
  {
    && (s.repeatIncidents || MentionsOnce(s, nodes))
    && (s.repeatAnalyses || AsksOnce(s.incidents, index, nodes))
    && (s.incidentPolicy == All ==> forall i :: 0 <= i < |s.incidents| ==> Mentioned(nodes, s.incidents[i]))
    && (s.analysisPolicy == AllAvailable ==> forall i :: 0 <= i < |s.incidents| && Given(s.incidents[i].runId) ==>
          AskedFor(s, index, nodes, s.incidents[i].runId.value))
  }

  ghost predicate Mentioned(nodes: seq<Node>, incident: Incident) {
    exists node :: node in nodes && Mentions(node, incident)
  }

  ghost predicate AskedFor(s: Snapshot, index: map<string, nat>, nodes: seq<Node>, run: string)
    requires forall ref :: ref in index ==> index[ref] < |s.incidents|
  {
    exists node :: node in nodes && AsksFor(s.incidents, index, node, run)
  }

  lemma {:induction false} RefersIsMentions(s: Snapshot, index: map<string, nat>, node: Node, i: nat)
    requires Indexed(s.incidents) == Success(index) && i < |s.incidents|
    ensures RefersTo(index, node, i) <==> Mentions(node, s.incidents[i])
  {
    if node.IncidentReference? {
      IndexFinds(s.incidents, OrEmpty(node.incidentId), i);
    }
  }

  lemma {:induction false} RefersOnceIsMentionsOnce(s: Snapshot, index: map<string, nat>, nodes: seq<Node>)
    requires Indexed(s.incidents) == Success(index)
    ensures RefersOnce(index, nodes) <==> MentionsOnce(s, nodes)
  {
    if !RefersOnce(index, nodes) {
      var j, k, i: nat :| 0 <= j < k < |nodes| && RefersTo(index, nodes[j], i) && RefersTo(index, nodes[k], i);
      RefersIsMentions(s, index, nodes[j], i);
      RefersIsMentions(s, index, nodes[k], i);
    }
    if !MentionsOnce(s, nodes) {
      var j, k, i: nat :| 0 <= j < k < |nodes| && i < |s.incidents| && Mentions(nodes[j], s.incidents[i])
                          && Mentions(nodes[k], s.incidents[i]);
      RefersIsMentions(s, index, nodes[j], i);
      RefersIsMentions(s, index, nodes[k], i);
    }
  }

  lemma {:induction false} CoversIffPlanCovers(s: Snapshot, index: map<string, nat>, nodes: seq<Node>)
    requires Indexed(s.incidents) == Success(index) && Parse(s.incidents, index, nodes).Success?
    ensures Covers(s, Parse(s.incidents, index, nodes).value) <==> PlanCovers(s, index, nodes)
  {
    ParsedRefsOnce(s.incidents, index, nodes);
    ParsedRunsOnce(s.incidents, index, nodes);
    RefersOnceIsMentionsOnce(s, index, nodes);
    var p := Parse(s.incidents, index, nodes).value;
    forall i: nat | i < |s.incidents|
      ensures i in p.incidentRefs <==> Mentioned(nodes, s.incidents[i])
    {
      ParsedRefs(s.incidents, index, nodes, i);
      MentionedIs(s, index, nodes, i);
    }
    forall run
      ensures run in p.analysisRefs <==> AskedFor(s, index, nodes, run)
    {
      ParsedRuns(s.incidents, index, nodes, run);
    }
  }

  lemma {:induction false} MentionedIs(s: Snapshot, index: map<string, nat>, nodes: seq<Node>, i: nat)
    requires Indexed(s.incidents) == Success(index) && i < |s.incidents|
    ensures Mentioned(nodes, s.incidents[i]) <==> exists node :: node in nodes && RefersTo(index, node, i)
  {
    forall node | node in nodes
      ensures RefersTo(index, node, i) <==> Mentions(node, s.incidents[i])
    {
      RefersIsMentions(s, index, node, i);
    }
  }

  /** A plan of blocks is accepted exactly when every node refers to this report and the
      references cover what they must. */
  lemma {:induction false} PlanIsReadIff(nodes: seq<Node>, s: Snapshot, index: map<string, nat>)
    requires Indexed(s.incidents) == Success(index)
    ensures Read(Blocks(nodes), s, index).Success? <==>
              && !s.canonical && (forall k :: 0 <= k < |nodes| ==> Parsable(s.incidents, index, nodes[k]))
              && PlanCovers(s, index, nodes)
  {
    ParseSucceedsIff(s.incidents, index, nodes);
    if Parse(s.incidents, index, nodes).Success? {
      CoversIffPlanCovers(s, index, nodes);
    }
  }

  // ---- Whose alerts appear ----

  /** Whose analyses have an alert of their own: all, or those that the plan refers to. */
  ghost predicate Alerted(plan: Plan, s: Snapshot, incident: Incident) {
    || s.incidentPolicy == All
    || (plan.Blocks? && Mentioned(plan.nodes, incident))
  }

  /** The alerts are those incidents. */
  lemma {:induction false} AlertsAre(plan: Plan, s: Snapshot, index: map<string, nat>, p: Parsed, i: nat)
    requires Indexed(s.incidents) == Success(index) && Read(plan, s, index) == Success(p) && i < |s.incidents|
    ensures i in Alerts(s, p) <==> Alerted(plan, s, s.incidents[i])
  {
    if s.incidentPolicy == All {
      assert Alerts(s, p)[i] == i;
    } else if plan.Blocks? {
      ParsedRefs(s.incidents, index, plan.nodes, i);
      MentionedIs(s, index, plan.nodes, i);
    }
  }

  /** Incidents appear in the order of their first mention. */
  lemma {:induction false} FirstMentionsInOrder(refs: seq<nat>, a: nat, b: nat)
    requires a < b < |FirstMentions(refs)|
    ensures IndexOf(refs, FirstMentions(refs)[a]) < IndexOf(refs, FirstMentions(refs)[b]) < |refs|
  {
    var n := |refs| - 1;
    var front := FirstMentions(refs[..n]);
    assert refs == refs[..n] + [refs[n]];
    assert FirstMentions(refs)[a] in refs && FirstMentions(refs)[b] in refs;
    if b < |front| {
      FirstMentionsInOrder(refs[..n], a, b);
      IndexOfFront(refs, n, front[a]);
      IndexOfFront(refs, n, front[b]);
    } else {
      IndexOfFront(refs, n, front[a]);
      assert FirstMentions(refs)[b] == refs[n] && refs[n] !in refs[..n];
    }
  }

  lemma {:induction false} IndexOfFront(refs: seq<nat>, n: nat, x: nat)
    requires n <= |refs| && x in refs[..n]
    ensures IndexOf(refs, x) == IndexOf(refs[..n], x) < n
  {
    if refs[0] != x {
      assert refs[1..][..n - 1] == refs[..n][1..];
      assert x in refs[1..][..n - 1] by {
        assert refs[..n] == [refs[0]] + refs[..n][1..];
      }
      IndexOfFront(refs[1..], n - 1, x);
    }
  }

  /** Without full coverage alerts stand in the order in which the plan first mentions them. */
  lemma {:induction false} AlertsInOrder(s: Snapshot, p: Parsed, a: nat, b: nat)
    requires InRange(s.incidents, p) && s.incidentPolicy != All && a < b < |Alerts(s, p)|
    ensures IndexOf(p.incidentRefs, Alerts(s, p)[a]) < IndexOf(p.incidentRefs, Alerts(s, p)[b])
  {
    FirstMentionsInOrder(p.incidentRefs, a, b);
  }

  // ---- Which analyses are asked for, and by which node ----

  /** The incidents meant by the analysis references, in order. */
  function Meant(incidents: seq<Incident>, index: map<string, nat>, nodes: seq<Node>): seq<nat>
    requires forall ref :: ref in index ==> index[ref] < |incidents|
  {
    if nodes == [] then [] else
      var n := |nodes| - 1;
      Meant(incidents, index, nodes[..n]) +
      if nodes[n].AnalysisReference? && Referred(incidents, index, nodes[n]).Some? then
        [Referred(incidents, index, nodes[n]).value]
      else []
  }

  predicate Means(incidents: seq<Incident>, index: map<string, nat>, node: Node, i: nat)
    requires forall ref :: ref in index ==> index[ref] < |incidents|
  {
    node.AnalysisReference? && Referred(incidents, index, node) == Some(i)
  }

  lemma {:induction false} FirstMentionsGrow(refs: seq<nat>, x: nat)
    ensures FirstMentions(refs + [x]) == FirstMentions(refs) + if x in refs then [] else [x]
  {
    assert (refs + [x])[..|refs|] == refs;
  }

  /** What one more node does to the analyses asked for. */
  lemma {:induction false} OneMoreAsked(incidents: seq<Incident>, index: map<string, nat>, nodes: seq<Node>, node: Node)
    requires forall ref :: ref in index ==> index[ref] < |incidents|
    requires Parse(incidents, index, nodes + [node]).Success?
    ensures Parse(incidents, index, nodes).Success?
    ensures var before := Parse(incidents, index, nodes).value;
            var after := Parse(incidents, index, nodes + [node]).value;
            if node.AnalysisReference? then
              && Referred(incidents, index, node).Some?
              && var i := Referred(incidents, index, node).value;
                 after.asked == before.asked + if i in before.asked then [] else [i]
            else after.asked == before.asked
  {
    assert (nodes + [node])[..|nodes|] == nodes;
    if Parse(incidents, index, nodes).Success? {
      ParsedInRange(incidents, index, nodes);
    }
  }

  /** Analyses are asked for in the order of first mention. */
  lemma {:induction false} AskedInOrder(incidents: seq<Incident>, index: map<string, nat>, nodes: seq<Node>)
    requires forall ref :: ref in index ==> index[ref] < |incidents|
    requires Parse(incidents, index, nodes).Success?
    ensures Parse(incidents, index, nodes).value.asked == FirstMentions(Meant(incidents, index, nodes))
  {
    if nodes != [] {
      var n := |nodes| - 1;
      var front, node := nodes[..n], nodes[n];
      assert nodes == front + [node];
      OneMoreAsked(incidents, index, front, node);
      AskedInOrder(incidents, index, front);
      if node.AnalysisReference? {
        FirstMentionsGrow(Meant(incidents, index, front), Referred(incidents, index, node).value);
      } else {
        assert Meant(incidents, index, nodes) == Meant(incidents, index, front);
      }
    }
  }

  /** The node kept for an incident is the last one that means it. */
  lemma {:induction false} LastNodeIsKept(incidents: seq<Incident>, index: map<string, nat>, nodes: seq<Node>, i: nat)
    returns (k: nat)
    requires forall ref :: ref in index ==> index[ref] < |incidents|
    requires Parse(incidents, index, nodes).Success? && i in Parse(incidents, index, nodes).value.nodes
    ensures k < |nodes| && Means(incidents, index, nodes[k], i)
    ensures Parse(incidents, index, nodes).value.nodes[i] == nodes[k]
    ensures forall m :: k < m < |nodes| ==> !Means(incidents, index, nodes[m], i)
  {
    var n := |nodes| - 1;
    if Means(incidents, index, nodes[n], i) {
      k := n;
    } else {
      k := LastNodeIsKept(incidents, index, nodes[..n], i);
    }
  }

  // ---- The summary ----

  /** Prose of the plan, but for the headings that the document has anyway. */
  predicate IsProse(node: Node) {
    node.Text? && !(node.prose.Heading? && node.prose.level == 1
                    && node.prose.text in {"Alerts", "General Summary", "Log Analysis"})
  }

  function ProseOf(nodes: seq<Node>): seq<Prose> {
    if nodes == [] then [] else
      ProseOf(nodes[..|nodes| - 1]) + if IsProse(nodes[|nodes| - 1]) then [nodes[|nodes| - 1].prose] else []
  }

  lemma {:induction false} SummaryIsProse(incidents: seq<Incident>, index: map<string, nat>, nodes: seq<Node>)
    requires forall ref :: ref in index ==> index[ref] < |incidents|
    requires Parse(incidents, index, nodes).Success?
    ensures Parse(incidents, index, nodes).value.summary == ProseOf(nodes)
  {
    if nodes != [] {
      SummaryIsProse(incidents, index, nodes[..|nodes| - 1]);
    }
  }

  // ---- The whole composition ----

  /** The node names this incident and its run, if it names either, and the analysis can be
      laid out, if there is one. */
  predicate Showable(incident: Incident, node: Option<Node>) {
    && (match node
        case Some(AnalysisReference(incidentId, runId)) =>
          && (incidentId != None || runId != None)
          && (incidentId != None ==> incidentId == Some(incident.id) || incidentId == Some(Shown(incident.displayId)))
          && (runId != None ==> runId == Some(Shown(incident.runId)))
        case _ => true)
    && (Given(incident.runId) && incident.exported ==> incident.presentable)
  }

  lemma {:induction false} BlocksSucceedIff(s: Snapshot, alerts: seq<nat>, which: seq<nat>, nodes: map<nat, Node>,
      mark: Mark, n: nat)
    requires n <= |which| && Within(which, |s.incidents|)
    ensures AnalysisBlocks(s, alerts, which, nodes, mark, n).Success? <==>
              forall k :: 0 <= k < n ==> Showable(s.incidents[which[k]], NodeFor(nodes, which[k]))
  {
    if n > 0 {
      BlocksSucceedIff(s, alerts, which, nodes, mark, n - 1);
    }
  }

  /** A document is composed exactly when the snapshot is of a supported kind, its incidents
      can be told apart, the plan is read, and every analysis can be shown as asked. */
  lemma {:induction false} ComposesIff(plan: Plan, s: Snapshot, mark: Mark)
    ensures Compose(plan, s, mark).Success? <==>
              && s.supported && s.dated && s.incidentPolicy != OddIncidents && s.analysisPolicy != OddAnalyses
              && Indexed(s.incidents).Success? && Read(plan, s, Indexed(s.incidents).value).Success?
              && AllShowable(s, Read(plan, s, Indexed(s.incidents).value).value)
  {
    if Indexed(s.incidents).Success? && Read(plan, s, Indexed(s.incidents).value).Success? {
      var p := Read(plan, s, Indexed(s.incidents).value).value;
      BlocksSucceedIff(s, Alerts(s, p), Analyses(s, p), p.nodes, mark, |Analyses(s, p)|);
    }
  }

  ghost predicate AllShowable(s: Snapshot, p: Parsed)
    requires InRange(s.incidents, p)
  {
    forall i :: i in Analyses(s, p) ==> i < |s.incidents| && Showable(s.incidents[i], NodeFor(p.nodes, i))
  }
}
