/** From a report plan and a frozen snapshot to a document: the plan authorizes, the
    snapshot decides. */
module Composition {
  import opened Results

  /** `exported` when there is something to report; `presentable` when it can be laid out. */
  datatype Incident = Incident(
    id: string, displayId: Option<string>, runId: Option<string>, title: string, exported: bool, presentable: bool)

  datatype Prose = Heading(text: string, level: int) | Words(text: string) | Rule

  /** A plan node; `Unsupported` is anything else. */
  datatype Node =
    | Text(prose: Prose)
    | IncidentReference(incidentId: Option<string>)
    | AnalysisReference(incidentId: Option<string>, runId: Option<string>)
    | Break
    | Unsupported

  /** `Narrative` has a general summary, `None` if it is not a pair of texts. */
  datatype Plan = Narrative(summary: Option<Prose>) | Blocks(nodes: seq<Node>) | Neither

  datatype IncidentPolicy = All | NoIncidents | OptionalIncidents | OddIncidents
  datatype AnalysisPolicy = AllAvailable | NoAnalyses | OptionalAnalyses | OddAnalyses

  /** `supported` when the composition profile is; `dated` when the shift has a date. */
  datatype Snapshot = Snapshot(
    incidents: seq<Incident>, supported: bool, canonical: bool, dated: bool,
    incidentPolicy: IncidentPolicy, analysisPolicy: AnalysisPolicy, repeatIncidents: bool, repeatAnalyses: bool)

  /** Blocks of the document; numbers are those in the alerts' headings. */
  datatype Block =
    | Section(text: string)
    | Navigation(entries: seq<Entry>)
    | Evidence(number: nat, incident: Incident, canonical: bool, target: Option<string>)
    | Analysis(number: nat, incident: Incident, available: bool, bookmark: Option<string>)
    | Summary(prose: Prose)
    | NewPage

  datatype Entry = Entry(number: nat, title: string, target: string)

  predicate Given(s: Option<string>) {
    s.Some? && s.value != ""
  }

  /** `str(value or "")` and `str(value)`. */
  function OrEmpty(s: Option<string>): string {
    match s case Some(t) => t case None => ""
  }

  function Shown(s: Option<string>): string {
    match s case Some(t) => t case None => "None"
  }

  // ---- The index of incidents ----

  /** Every id and display id, with the incident's position. */
  function Indexed(incidents: seq<Incident>): (index: Result<map<string, nat>>)
    ensures index.Success? ==> forall ref :: ref in index.value ==> index.value[ref] < |incidents|
  {
    if incidents == [] then Success(map[]) else
      var n := |incidents| - 1;
      match Indexed(incidents[..n])
      case Failure(e) => Failure(e)
      case Success(index) => WithIncident(index, incidents[n], n)
  }

  function WithIncident(index: map<string, nat>, incident: Incident, at: nat): (grown: Result<map<string, nat>>)
    ensures grown.Success? ==> forall ref :: ref in grown.value ==>
              (ref in index && grown.value[ref] == index[ref]) || grown.value[ref] == at
  {
    if incident.id == "" || incident.id in index then Failure(Rejected)
    else if !Given(incident.displayId) then Success(index[incident.id := at])
    else if incident.displayId.value in index || incident.displayId.value == incident.id then Failure(Rejected)
    else Success(index[incident.id := at][incident.displayId.value := at])
  }

  method BuildIndex(incidents: seq<Incident>) returns (index: Result<map<string, nat>>)
    ensures index == Indexed(incidents)
  {
    var built: map<string, nat> := map[];
    for n := 0 to |incidents|
      invariant Indexed(incidents[..n]) == Success(built)
    {
      assert incidents[..n + 1][..n] == incidents[..n];
      var grown := WithIncident(built, incidents[n], n);
      if grown.Failure? {
        IndexStaysFailed(incidents, n + 1);
        return Failure(Rejected);
      }
      built := grown.value;
    }
    assert incidents[..|incidents|] == incidents;
    return Success(built);
  }

  lemma {:induction false} IndexStaysFailed(incidents: seq<Incident>, n: nat)
    requires n <= |incidents| && Indexed(incidents[..n]) == Failure(Rejected)
    ensures Indexed(incidents) == Failure(Rejected)
    decreases |incidents| - n
  {
    if n < |incidents| {
      assert incidents[..n + 1][..n] == incidents[..n];
      IndexStaysFailed(incidents, n + 1);
    } else {
      assert incidents[..n] == incidents;
    }
  }

  ghost predicate DistinctIds(incidents: seq<Incident>) {
    forall i, j :: 0 <= i < j < |incidents| ==> incidents[i].id != incidents[j].id
  }

  lemma {:induction false} IndexedAreDistinct(incidents: seq<Incident>)
    requires Indexed(incidents).Success?
    ensures DistinctIds(incidents)
    ensures forall i :: 0 <= i < |incidents| ==> incidents[i].id in Indexed(incidents).value
  {
    if incidents != [] {
      IndexedAreDistinct(incidents[..|incidents| - 1]);
    }
  }

  /** The texts that stand for an incident: its id, and its display id. */
  predicate Names(incident: Incident, ref: string) {
    ref == incident.id || (Given(incident.displayId) && ref == incident.displayId.value)
  }

  /** A text finds the incident it stands for. */
  ghost predicate Finds(index: map<string, nat>, ref: string, i: nat) {
    ref in index && index[ref] == i
  }

  lemma {:induction false} IndexFinds(incidents: seq<Incident>, ref: string, i: nat)
    requires Indexed(incidents).Success? && i < |incidents|
    ensures Finds(Indexed(incidents).value, ref, i) <==> Names(incidents[i], ref)
  {
    var n := |incidents| - 1;
    if i < n {
      IndexFinds(incidents[..n], ref, i);
    }
  }

  // ---- Parsing the plan ----

  /** What parsing collects: prose, references by position, and which analyses were asked
      for, in order of first mention, with the last node that asked. */
  datatype Parsed = Parsed(
    summary: seq<Prose>, incidentRefs: seq<nat>, analysisRefs: seq<string>, asked: seq<nat>, nodes: map<nat, Node>)

  const TOP_LEVEL: set<string> := {"Alerts", "General Summary", "Log Analysis"}

  /** The first incident of the run. */
  function OfRun(incidents: seq<Incident>, run: string): (found: Option<nat>)
    ensures found.Some? ==> found.value < |incidents| && Shown(incidents[found.value].runId) == run
    ensures found.Some? ==> forall j :: 0 <= j < found.value ==> Shown(incidents[j].runId) != run
    ensures found.None? ==> forall j :: 0 <= j < |incidents| ==> Shown(incidents[j].runId) != run
  {
    if incidents == [] then None else
      var n := |incidents| - 1;
      var front := OfRun(incidents[..n], run);
      if front.Some? then front else if Shown(incidents[n].runId) == run then Some(n) else None
  }

  function Referred(incidents: seq<Incident>, index: map<string, nat>, node: Node): (found: Option<nat>)
    requires node.AnalysisReference?
    requires forall ref :: ref in index ==> index[ref] < |incidents|
    ensures found.Some? ==> found.value < |incidents|
  {
    var ref := OrEmpty(node.incidentId);
    if ref != "" then (if ref in index then Some(index[ref]) else None)
    else OfRun(incidents, OrEmpty(node.runId))
  }

  function ParseNode(incidents: seq<Incident>, index: map<string, nat>, p: Parsed, node: Node): Result<Parsed>
    requires forall ref :: ref in index ==> index[ref] < |incidents|
  {
    match node
    case Text(prose) =>
      if prose.Heading? && prose.text in TOP_LEVEL && prose.level == 1 then Success(p)
      else Success(p.(summary := p.summary + [prose]))
    case IncidentReference(incidentId) =>
      var ref := OrEmpty(incidentId);
      if ref in index then Success(p.(incidentRefs := p.incidentRefs + [index[ref]])) else Failure(Rejected)
    case AnalysisReference(_, _) =>
      (match Referred(incidents, index, node)
       case None => Failure(Rejected)
       case Some(i) =>
         Success(p.(analysisRefs := p.analysisRefs +
                                    if Given(incidents[i].runId) then [incidents[i].runId.value] else [],
                    asked := if i in p.nodes then p.asked else p.asked + [i],
                    nodes := p.nodes[i := node])))
    case Break => Success(p)
    case Unsupported => Failure(Rejected)
  }

  const NOTHING := Parsed([], [], [], [], map[])

  function Parse(incidents: seq<Incident>, index: map<string, nat>, nodes: seq<Node>): Result<Parsed>
    requires forall ref :: ref in index ==> index[ref] < |incidents|
  {
    if nodes == [] then Success(NOTHING) else
      var n := |nodes| - 1;
      match Parse(incidents, index, nodes[..n])
      case Failure(e) => Failure(e)
      case Success(p) => ParseNode(incidents, index, p, nodes[n])
  }

  method ParseNodes(incidents: seq<Incident>, index: map<string, nat>, nodes: seq<Node>)
    returns (parsed: Result<Parsed>)
    requires forall ref :: ref in index ==> index[ref] < |incidents|
    ensures parsed == Parse(incidents, index, nodes)
  {
    var p := NOTHING;
    for n := 0 to |nodes|
      invariant Parse(incidents, index, nodes[..n]) == Success(p)
    {
      assert nodes[..n + 1][..n] == nodes[..n];
      var next := ParseNode(incidents, index, p, nodes[n]);
      if next.Failure? {
        ParseStaysFailed(incidents, index, nodes, n + 1);
        return Failure(Rejected);
      }
      p := next.value;
    }
    assert nodes[..|nodes|] == nodes;
    return Success(p);
  }

  lemma {:induction false} ParseStaysFailed(incidents: seq<Incident>, index: map<string, nat>, nodes: seq<Node>, n: nat)
    requires forall ref :: ref in index ==> index[ref] < |incidents|
    requires n <= |nodes| && Parse(incidents, index, nodes[..n]) == Failure(Rejected)
    ensures Parse(incidents, index, nodes) == Failure(Rejected)
    decreases |nodes| - n
  {
    if n < |nodes| {
      assert nodes[..n + 1][..n] == nodes[..n];
      ParseStaysFailed(incidents, index, nodes, n + 1);
    } else {
      assert nodes[..n] == nodes;
    }
  }

  /** Positions are of incidents; each asked analysis is listed once. */
  ghost predicate InRange(incidents: seq<Incident>, p: Parsed) {
    && (forall i :: i in p.incidentRefs ==> i < |incidents|)
    && (forall i :: i in p.asked ==> i < |incidents|)
    && (forall i :: i in p.asked <==> i in p.nodes)
    && (forall a, b :: 0 <= a < b < |p.asked| ==> p.asked[a] != p.asked[b])
  }

  lemma {:induction false} ParsedInRange(incidents: seq<Incident>, index: map<string, nat>, nodes: seq<Node>)
    requires forall ref :: ref in index ==> index[ref] < |incidents|
    requires Parse(incidents, index, nodes).Success?
    ensures InRange(incidents, Parse(incidents, index, nodes).value)
  {
    if nodes != [] {
      ParsedInRange(incidents, index, nodes[..|nodes| - 1]);
    }
  }
  predicate RefersTo(index: map<string, nat>, node: Node, i: nat) {
    node.IncidentReference? && OrEmpty(node.incidentId) in index && index[OrEmpty(node.incidentId)] == i
  }

  /** The incidents referred to are those that some node refers to. */
  lemma {:induction false} ParsedRefs(incidents: seq<Incident>, index: map<string, nat>, nodes: seq<Node>, i: nat)
    requires forall ref :: ref in index ==> index[ref] < |incidents|
    requires Parse(incidents, index, nodes).Success?
    ensures i in Parse(incidents, index, nodes).value.incidentRefs <==>
              exists node :: node in nodes && RefersTo(index, node, i)
  {
    if nodes != [] {
      var n := |nodes| - 1;
      assert nodes == nodes[..n] + [nodes[n]];
      ParsedRefs(incidents, index, nodes[..n], i);
      assert i in Parse(incidents, index, nodes).value.incidentRefs <==>
             i in Parse(incidents, index, nodes[..n]).value.incidentRefs || RefersTo(index, nodes[n], i);
    }
  }

  /** The node asks for the analysis of this run. */
  predicate AsksFor(incidents: seq<Incident>, index: map<string, nat>, node: Node, run: string)
    requires forall ref :: ref in index ==> index[ref] < |incidents|
  {
    && node.AnalysisReference? && Referred(incidents, index, node).Some?
    && Given(incidents[Referred(incidents, index, node).value].runId)
    && incidents[Referred(incidents, index, node).value].runId.value == run
  }

  lemma {:induction false} OneMoreNode(incidents: seq<Incident>, index: map<string, nat>, nodes: seq<Node>, node: Node)
    requires forall ref :: ref in index ==> index[ref] < |incidents|
    requires Parse(incidents, index, nodes + [node]).Success?
    ensures Parse(incidents, index, nodes).Success?
    ensures var before := Parse(incidents, index, nodes).value.analysisRefs;
            var after := Parse(incidents, index, nodes + [node]).value.analysisRefs;
            if node.AnalysisReference? && Given(incidents[Referred(incidents, index, node).value].runId) then
              after == before + [incidents[Referred(incidents, index, node).value].runId.value]
            else after == before
  {
    assert (nodes + [node])[..|nodes|] == nodes;
  }

  lemma {:induction false} ParsedRuns(incidents: seq<Incident>, index: map<string, nat>, nodes: seq<Node>, run: string)
    requires forall ref :: ref in index ==> index[ref] < |incidents|
    requires Parse(incidents, index, nodes).Success?
    ensures run in Parse(incidents, index, nodes).value.analysisRefs <==>
              exists node :: node in nodes && AsksFor(incidents, index, node, run)
  {
    if nodes != [] {
      var n := |nodes| - 1;
      assert nodes == nodes[..n] + [nodes[n]];
      OneMoreNode(incidents, index, nodes[..n], nodes[n]);
      ParsedRuns(incidents, index, nodes[..n], run);
      assert run in Parse(incidents, index, nodes).value.analysisRefs <==>
             run in Parse(incidents, index, nodes[..n]).value.analysisRefs || AsksFor(incidents, index, nodes[n], run);
    }
  }

  /** An analysis is asked for by an id or display id, or else by its run, of which the first
      incident is meant. */
  lemma {:induction false} ReferredIs(incidents: seq<Incident>, node: Node, i: nat)
    requires node.AnalysisReference? && Indexed(incidents).Success?
    ensures Referred(incidents, Indexed(incidents).value, node) == Some(i) <==>
              && i < |incidents|
              && if OrEmpty(node.incidentId) != "" then Names(incidents[i], OrEmpty(node.incidentId))
                 else && Shown(incidents[i].runId) == OrEmpty(node.runId)
                      && forall j :: 0 <= j < i ==> Shown(incidents[j].runId) != OrEmpty(node.runId)
  {
    if OrEmpty(node.incidentId) != "" && i < |incidents| {
      IndexFinds(incidents, OrEmpty(node.incidentId), i);
    }
  }

  /** A node that parsing does not refuse. */
  predicate Parsable(incidents: seq<Incident>, index: map<string, nat>, node: Node)
    requires forall ref :: ref in index ==> index[ref] < |incidents|
  {
    match node
    case IncidentReference(incidentId) => OrEmpty(incidentId) in index
    case AnalysisReference(_, _) => Referred(incidents, index, node).Some?
    case Unsupported => false
    case _ => true
  }

  lemma {:induction false} ParseSucceedsIff(incidents: seq<Incident>, index: map<string, nat>, nodes: seq<Node>)
    requires forall ref :: ref in index ==> index[ref] < |incidents|
    ensures Parse(incidents, index, nodes).Success? <==>
              forall k :: 0 <= k < |nodes| ==> Parsable(incidents, index, nodes[k])
  {
    if nodes != [] {
      var n := |nodes| - 1;
      ParseSucceedsIff(incidents, index, nodes[..n]);
      assert forall k :: 0 <= k < n ==> nodes[..n][k] == nodes[k];
    }
  }

  predicate Distinct<T(==)>(s: seq<T>) {
    forall a, b :: 0 <= a < b < |s| ==> s[a] != s[b]
  }

  lemma {:induction false} DistinctGrows<T>(s: seq<T>, x: T)
    ensures Distinct(s + [x]) <==> Distinct(s) && x !in s
  {
    var longer := s + [x];
    assert longer[|s|] == x && forall a :: 0 <= a < |s| ==> longer[a] == s[a];
  }

  /** No two nodes refer to one incident. */
  ghost predicate RefersOnce(index: map<string, nat>, nodes: seq<Node>) {
    forall j, k, i :: 0 <= j < k < |nodes| && RefersTo(index, nodes[j], i) ==> !RefersTo(index, nodes[k], i)
  }

  lemma {:induction false} RefersOnceGrows(index: map<string, nat>, nodes: seq<Node>, node: Node)
    ensures RefersOnce(index, nodes + [node]) <==>
              && RefersOnce(index, nodes)
              && forall i, n :: n in nodes && RefersTo(index, n, i) ==> !RefersTo(index, node, i)
  {
    var longer := nodes + [node];
    assert longer[|nodes|] == node && forall a :: 0 <= a < |nodes| ==> longer[a] == nodes[a];
    if RefersOnce(index, longer) {
      forall i, n | n in nodes && RefersTo(index, n, i)
        ensures !RefersTo(index, node, i)
      {
        var j :| 0 <= j < |nodes| && nodes[j] == n;
        assert RefersTo(index, longer[j], i);
      }
    }
  }

  lemma {:induction false} ParsedRefsOnce(incidents: seq<Incident>, index: map<string, nat>, nodes: seq<Node>)
    requires forall ref :: ref in index ==> index[ref] < |incidents|
    requires Parse(incidents, index, nodes).Success?
    ensures Distinct(Parse(incidents, index, nodes).value.incidentRefs) <==> RefersOnce(index, nodes)
  {
    if nodes != [] {
      var n := |nodes| - 1;
      var front, node := nodes[..n], nodes[n];
      assert nodes == front + [node];
      ParsedRefsOnce(incidents, index, front);
      RefersOnceGrows(index, front, node);
      var refs := Parse(incidents, index, front).value.incidentRefs;
      if node.IncidentReference? {
        DistinctGrows(refs, index[OrEmpty(node.incidentId)]);
        ParsedRefs(incidents, index, front, index[OrEmpty(node.incidentId)]);
      }
    }
  }

  /** No two nodes ask for one run. */
  ghost predicate AsksOnce(incidents: seq<Incident>, index: map<string, nat>, nodes: seq<Node>)
    requires forall ref :: ref in index ==> index[ref] < |incidents|
  {
    forall j, k, run :: 0 <= j < k < |nodes| && AsksFor(incidents, index, nodes[j], run) ==>
      !AsksFor(incidents, index, nodes[k], run)
  }

  lemma {:induction false} AsksOnceGrows(incidents: seq<Incident>, index: map<string, nat>, nodes: seq<Node>,
      node: Node)
    requires forall ref :: ref in index ==> index[ref] < |incidents|
    ensures AsksOnce(incidents, index, nodes + [node]) <==>
              && AsksOnce(incidents, index, nodes)
              && forall run, n :: n in nodes && AsksFor(incidents, index, n, run) ==>
                   !AsksFor(incidents, index, node, run)
  {
    var longer := nodes + [node];
    assert longer[|nodes|] == node && forall a :: 0 <= a < |nodes| ==> longer[a] == nodes[a];
    if AsksOnce(incidents, index, longer) {
      forall run, n | n in nodes && AsksFor(incidents, index, n, run)
        ensures !AsksFor(incidents, index, node, run)
      {
        var j :| 0 <= j < |nodes| && nodes[j] == n;
        assert AsksFor(incidents, index, longer[j], run);
      }
    }
  }

  lemma {:induction false} ParsedRunsOnce(incidents: seq<Incident>, index: map<string, nat>, nodes: seq<Node>)
    requires forall ref :: ref in index ==> index[ref] < |incidents|
    requires Parse(incidents, index, nodes).Success?
    ensures Distinct(Parse(incidents, index, nodes).value.analysisRefs) <==> AsksOnce(incidents, index, nodes)
  {
    if nodes != [] {
      var n := |nodes| - 1;
      var front, node := nodes[..n], nodes[n];
      assert nodes == front + [node];
      OneMoreNode(incidents, index, front, node);
      ParsedRunsOnce(incidents, index, front);
      AsksOnceGrows(incidents, index, front, node);
      if node.AnalysisReference? && Given(incidents[Referred(incidents, index, node).value].runId) {
        var run := incidents[Referred(incidents, index, node).value].runId.value;
        DistinctGrows(Parse(incidents, index, front).value.analysisRefs, run);
        ParsedRuns(incidents, index, front, run);
        assert AsksFor(incidents, index, node, run);
      }
    }
  }
}
