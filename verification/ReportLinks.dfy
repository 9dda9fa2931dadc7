/** The composed document, whose links resolve and whose facts do not depend on the plan. */
module ReportLinks {
  import opened Results
  import opened Composition

  type Mark = string -> string

  // ---- Which incidents appear ----

  predicate Within(at: seq<nat>, n: nat) {
    forall k :: 0 <= k < |at| ==> at[k] < n
  }

  function FirstMentions(refs: seq<nat>): (r: seq<nat>)
    ensures forall i :: i in r <==> i in refs
    ensures forall a, b :: 0 <= a < b < |r| ==> r[a] != r[b]
  {
    if refs == [] then [] else
      var n := |refs| - 1;
      var front := FirstMentions(refs[..n]);
      assert refs == refs[..n] + [refs[n]];
      if refs[n] in front then front else front + [refs[n]]
  }

  function Positions(n: nat): (r: seq<nat>)
    ensures |r| == n && forall i :: 0 <= i < n ==> r[i] == i
  {
    seq(n, i requires 0 <= i < n => i)
  }

  /** The positions of incidents with a run, among the first `n`. */
  function WithRun(incidents: seq<Incident>, n: nat): (r: seq<nat>)
    requires n <= |incidents|
    ensures Within(r, n) && forall i: nat :: i in r <==> i < n && Given(incidents[i].runId)
    ensures forall a, b :: 0 <= a < b < |r| ==> r[a] < r[b]
  {
    if n == 0 then [] else WithRun(incidents, n - 1) + if Given(incidents[n - 1].runId) then [n - 1] else []
  }

  function Alerts(s: Snapshot, p: Parsed): (r: seq<nat>)
    requires InRange(s.incidents, p)
    ensures Within(r, |s.incidents|)
    ensures forall a, b :: 0 <= a < b < |r| ==> r[a] != r[b]
  {
    if s.incidentPolicy == All then Positions(|s.incidents|) else
      var r := FirstMentions(p.incidentRefs);
      assert forall k :: 0 <= k < |r| ==> r[k] in r;
      r
  }

  function Analyses(s: Snapshot, p: Parsed): (r: seq<nat>)
    requires InRange(s.incidents, p)
    ensures Within(r, |s.incidents|)
    ensures forall a, b :: 0 <= a < b < |r| ==> r[a] != r[b]
  {
    assert forall k :: 0 <= k < |p.asked| ==> p.asked[k] in p.asked;
    if s.analysisPolicy == AllAvailable then WithRun(s.incidents, |s.incidents|) else p.asked
  }

  // ---- Analysis blocks ----

  /** What the node that asked for an analysis may say of the incident. */
  predicate Authorized(incident: Incident, node: Option<Node>) {
    node.Some? && node.value.AnalysisReference? ==>
      && (node.value.runId.Some? || node.value.incidentId.Some?)
      && (node.value.incidentId.Some? ==>
            node.value.incidentId.value == incident.id || node.value.incidentId.value == Shown(incident.displayId))
      && (node.value.runId.Some? ==> node.value.runId.value == Shown(incident.runId))
  }

  function AnalysisBlock(incident: Incident, node: Option<Node>, number: nat, mark: Mark): Result<Block> {
    if !Authorized(incident, node) then Failure(Rejected)
    else if !Given(incident.runId) || !incident.exported then Success(Analysis(number, incident, false, None))
    else if !incident.presentable then Failure(Rejected)
    else Success(Analysis(number, incident, true, Some(mark(incident.id))))
  }

  /** Position of `i` in `at`, or its length. */
  function IndexOf(at: seq<nat>, i: nat): (k: nat)
    ensures k <= |at| && (k < |at| ==> at[k] == i) && (k == |at| ==> i !in at)
  {
    if at == [] then 0 else
      assert at == [at[0]] + at[1..];
      if at[0] == i then 0 else 1 + IndexOf(at[1..], i)
  }

  /** An incident is numbered as its alert; one without an alert by its own place. */
  function NumberOf(alerts: seq<nat>, i: nat, place: nat): nat {
    if i in alerts then IndexOf(alerts, i) + 1 else place + 1
  }

  function NodeFor(nodes: map<nat, Node>, i: nat): Option<Node> {
    if i in nodes then Some(nodes[i]) else None
  }

  /** The blocks of the first `n` analyses. */
  function AnalysisBlocks(s: Snapshot, alerts: seq<nat>, which: seq<nat>, nodes: map<nat, Node>, mark: Mark, n: nat)
    : (r: Result<seq<Block>>)
    requires n <= |which| && Within(which, |s.incidents|)
    ensures r.Success? ==> |r.value| == n
    ensures r.Success? ==> forall k :: 0 <= k < n ==>
              AnalysisBlock(s.incidents[which[k]], NodeFor(nodes, which[k]), NumberOf(alerts, which[k], k), mark) ==
                Success(r.value[k])
  {
    if n == 0 then Success([]) else
      match AnalysisBlocks(s, alerts, which, nodes, mark, n - 1)
      case Failure(e) => Failure(e)
      case Success(front) =>
        match AnalysisBlock(s.incidents[which[n - 1]], NodeFor(nodes, which[n - 1]),
          NumberOf(alerts, which[n - 1], n - 1), mark)
        case Failure(e) => Failure(e)
        case Success(b) => Success(front + [b])
  }

  predicate IsTarget(b: Block, id: string) {
    b.Analysis? && b.incident.id == id && b.available && b.bookmark.Some?
  }

  /** The bookmark of the incident's analysis block, the last one if there were several. */
  function TargetOf(blocks: seq<Block>, id: string): (target: Option<string>)
    ensures target.Some? ==> exists k :: 0 <= k < |blocks| && IsTarget(blocks[k], id) && blocks[k].bookmark == target
    ensures target.None? ==> forall k :: 0 <= k < |blocks| ==> !IsTarget(blocks[k], id)
  {
    if blocks == [] then None else
      var n := |blocks| - 1;
      if IsTarget(blocks[n], id) then blocks[n].bookmark else TargetOf(blocks[..n], id)
  }

  // ---- The alerts section ----

  function Entries(s: Snapshot, alerts: seq<nat>, analyses: seq<Block>, n: nat): seq<Entry>
    requires n <= |alerts| && Within(alerts, |s.incidents|)
  {
    if n == 0 then [] else
      var incident := s.incidents[alerts[n - 1]];
      Entries(s, alerts, analyses, n - 1) +
      match TargetOf(analyses, incident.id) case Some(t) => [Entry(n, incident.title, t)] case None => []
  }

  function EvidenceBlocks(s: Snapshot, alerts: seq<nat>, analyses: seq<Block>): (r: seq<Block>)
    requires Within(alerts, |s.incidents|)
    ensures |r| == |alerts|
    ensures forall k :: 0 <= k < |alerts| ==>
              r[k] == Evidence(k + 1, s.incidents[alerts[k]], s.canonical,
                TargetOf(analyses, s.incidents[alerts[k]].id))
  {
    seq(|alerts|, k requires 0 <= k < |alerts| =>
      Evidence(k + 1, s.incidents[alerts[k]], s.canonical, TargetOf(analyses, s.incidents[alerts[k]].id)))
  }

  /** Everything up to the summary. */
  function Opening(s: Snapshot, alerts: seq<nat>, analyses: seq<Block>): seq<Block>
    requires Within(alerts, |s.incidents|)
  {
    var entries := Entries(s, alerts, analyses, |alerts|);
    [Section("Alerts")] + (if entries == [] then [] else [Navigation(entries)]) + EvidenceBlocks(s, alerts, analyses) +
    [NewPage, Section("General Summary")]
  }

  function SummaryBlocks(prose: seq<Prose>): (r: seq<Block>)
    ensures |r| == |prose| && forall k :: 0 <= k < |prose| ==> r[k] == Summary(prose[k])
  {
    seq(|prose|, k requires 0 <= k < |prose| => Summary(prose[k]))
  }

  /** Everything after the summary. */
  function Closing(analyses: seq<Block>): seq<Block> {
    [NewPage, Section("Log Analysis")] + analyses
  }

  // ---- The whole composition ----

  /** What a plan of blocks must and must not refer to. */
  predicate Covers(s: Snapshot, p: Parsed) {
    && (s.repeatIncidents || Distinct(p.incidentRefs)) && (s.repeatAnalyses || Distinct(p.analysisRefs))
    && (s.incidentPolicy == All ==> forall i :: 0 <= i < |s.incidents| ==> i in p.incidentRefs)
    && (s.analysisPolicy == AllAvailable ==>
          forall i :: 0 <= i < |s.incidents| && Given(s.incidents[i].runId) ==>
                   s.incidents[i].runId.value in p.analysisRefs)
  }

  /** What the plan contributes. */
  function Read(plan: Plan, s: Snapshot, index: map<string, nat>): (p: Result<Parsed>)
    requires forall ref :: ref in index ==> index[ref] < |s.incidents|
    ensures p.Success? ==> InRange(s.incidents, p.value)
  {
    match plan
    case Neither => Failure(Rejected)
    case Narrative(None) => Failure(Rejected)
    case Narrative(Some(prose)) => Success(NOTHING.(summary := [prose]))
    case Blocks(nodes) =>
      if s.canonical then Failure(Rejected) else
        match Parse(s.incidents, index, nodes)
        case Failure(e) => Failure(e)
        case Success(p) =>
          ParsedInRange(s.incidents, index, nodes);
          if Covers(s, p) then Success(p) else Failure(Rejected)
  }

  function Compose(plan: Plan, s: Snapshot, mark: Mark): Result<seq<Block>> {
    if !s.supported || s.incidentPolicy == OddIncidents || s.analysisPolicy == OddAnalyses || !s.dated then
      Failure(Rejected)
    else
      match Indexed(s.incidents)
      case Failure(e) => Failure(e)
      case Success(index) =>
        match Read(plan, s, index)
        case Failure(e) => Failure(e)
        case Success(p) =>
          match AnalysisBlocks(s, Alerts(s, p), Analyses(s, p), p.nodes, mark, |Analyses(s, p)|)
          case Failure(e) => Failure(e)
          case Success(analyses) =>
            Success(Opening(s, Alerts(s, p), analyses) + SummaryBlocks(p.summary) + Closing(analyses))
  }

  method ComposeReport(plan: Plan, s: Snapshot, mark: Mark) returns (document: Result<seq<Block>>)
    ensures document == Compose(plan, s, mark)
  {
    if !s.supported || s.incidentPolicy == OddIncidents || s.analysisPolicy == OddAnalyses || !s.dated {
      return Failure(Rejected);
    }
    var index := BuildIndex(s.incidents);
    if index.Failure? {
      return Failure(index.error);
    }
    var p := NOTHING;
    match plan {
      case Neither =>
        return Failure(Rejected);
      case Narrative(summary) =>
        if summary.None? {
          return Failure(Rejected);
        }
        p := p.(summary := [summary.value]);
      case Blocks(nodes) =>
        if s.canonical {
          return Failure(Rejected);
        }
        var parsed := ParseNodes(s.incidents, index.value, nodes);
        if parsed.Failure? {
          return Failure(parsed.error);
        }
        p := parsed.value;
        if !Covers(s, p) {
          return Failure(Rejected);
        }
        ParsedInRange(s.incidents, index.value, nodes);
    }
    var alerts, which := Alerts(s, p), Analyses(s, p);
    var analyses := AnalysisBlocks(s, alerts, which, p.nodes, mark, |which|);
    if analyses.Failure? {
      return Failure(analyses.error);
    }
    return Success(Opening(s, alerts, analyses.value) + SummaryBlocks(p.summary) + Closing(analyses.value));
  }
}
