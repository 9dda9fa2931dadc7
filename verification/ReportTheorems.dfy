/** What holds of every composed report. */
module ReportTheorems {
  import opened Results
  import opened Composition
  import opened ReportLinks
  import opened ReportPlans

  ghost predicate Injective(mark: Mark) {
    forall a, b :: mark(a) == mark(b) ==> a == b
  }

  /** The analysis blocks of a document, and where everything in it comes from. */
  ghost predicate AnalysesOf(s: Snapshot, mark: Mark, p: Parsed, analyses: seq<Block>) {
    && InRange(s.incidents, p) && DistinctIds(s.incidents)
    && AnalysisBlocks(s, Alerts(s, p), Analyses(s, p), p.nodes, mark, |Analyses(s, p)|) == Success(analyses)
  }

  ghost predicate MadeOf(document: seq<Block>, opening: seq<Block>, prose: seq<Prose>, analyses: seq<Block>) {
    document == opening + SummaryBlocks(prose) + Closing(analyses)
  }

  lemma {:induction false} TakeApart(plan: Plan, s: Snapshot, mark: Mark, document: seq<Block>)
    returns (p: Parsed, analyses: seq<Block>)
    requires Compose(plan, s, mark) == Success(document)
    ensures Indexed(s.incidents).Success? && Read(plan, s, Indexed(s.incidents).value) == Success(p)
    ensures AnalysesOf(s, mark, p, analyses)
    ensures MadeOf(document, Opening(s, Alerts(s, p), analyses), p.summary, analyses)
  {
    IndexedAreDistinct(s.incidents);
    p := Read(plan, s, Indexed(s.incidents).value).value;
    analyses := AnalysisBlocks(s, Alerts(s, p), Analyses(s, p), p.nodes, mark, |Analyses(s, p)|).value;
  }

  // ---- Links ----

  predicate HasBookmark(b: Block, t: string) {
    b.Analysis? && b.available && b.bookmark == Some(t)
  }

  /** The block links to `t`. */
  ghost predicate LinksTo(b: Block, t: string) {
    (b.Evidence? && b.target == Some(t)) || (b.Navigation? && exists e :: e in b.entries && e.target == t)
  }

  lemma {:induction false} EntryComesFrom(s: Snapshot, alerts: seq<nat>, analyses: seq<Block>, n: nat, e: Entry)
    returns (j: nat)
    requires n <= |alerts| && Within(alerts, |s.incidents|) && e in Entries(s, alerts, analyses, n)
    ensures j < n && e.number == j + 1 && TargetOf(analyses, s.incidents[alerts[j]].id) == Some(e.target)
    ensures e.title == s.incidents[alerts[j]].title
  {
    if e in Entries(s, alerts, analyses, n - 1) {
      j := EntryComesFrom(s, alerts, analyses, n - 1, e);
    } else {
      j := n - 1;
    }
  }

  lemma {:induction false} EntryIsThere(s: Snapshot, alerts: seq<nat>, analyses: seq<Block>, n: nat, j: nat, t: string)
    requires j < n <= |alerts| && Within(alerts, |s.incidents|)
    requires TargetOf(analyses, s.incidents[alerts[j]].id) == Some(t)
    ensures Entry(j + 1, s.incidents[alerts[j]].title, t) in Entries(s, alerts, analyses, n)
  {
    if j < n - 1 {
      EntryIsThere(s, alerts, analyses, n - 1, j, t);
    }
  }

  /** A link in the opening goes from an alert to its incident's bookmark. */
  lemma {:induction false} OpeningLink(s: Snapshot, alerts: seq<nat>, analyses: seq<Block>, b: Block, t: string)
    returns (j: nat, m: nat)
    requires Within(alerts, |s.incidents|) && b in Opening(s, alerts, analyses) && LinksTo(b, t)
    ensures j < |alerts| && m < |analyses| && HasBookmark(analyses[m], t)
    ensures IsTarget(analyses[m], s.incidents[alerts[j]].id)
  {
    if b.Evidence? {
      j :| 0 <= j < |alerts| && b == EvidenceBlocks(s, alerts, analyses)[j];
    } else {
      var e :| e in b.entries && e.target == t;
      j := EntryComesFrom(s, alerts, analyses, |alerts|, e);
    }
    var id := s.incidents[alerts[j]].id;
    assert TargetOf(analyses, id) == Some(t);
    m :| 0 <= m < |analyses| && IsTarget(analyses[m], id) && analyses[m].bookmark == Some(t);
  }

  /** Which incident's analysis a block is, and its bookmark. */
  lemma {:induction false} BlockIsOf(s: Snapshot, mark: Mark, p: Parsed, analyses: seq<Block>, k: nat)
    requires AnalysesOf(s, mark, p, analyses) && k < |analyses|
    ensures |analyses| == |Analyses(s, p)|
    ensures var i := Analyses(s, p)[k];
            && analyses[k].Analysis? && analyses[k].incident == s.incidents[i]
            && analyses[k].number == NumberOf(Alerts(s, p), i, k)
            && (analyses[k].available <==> Given(s.incidents[i].runId) && s.incidents[i].exported)
            && analyses[k].bookmark == if analyses[k].available then Some(mark(s.incidents[i].id)) else None
  {
  }

  /** Blocks of one incident are one block. */
  lemma {:induction false} OneBlock(s: Snapshot, mark: Mark, p: Parsed, analyses: seq<Block>, j: nat, k: nat)
    requires AnalysesOf(s, mark, p, analyses) && j < |analyses| && k < |analyses|
    requires analyses[j].Analysis? && analyses[k].Analysis? && analyses[j].incident.id == analyses[k].incident.id
    ensures j == k
  {
    BlockIsOf(s, mark, p, analyses, j);
    BlockIsOf(s, mark, p, analyses, k);
    assert Analyses(s, p)[j] == Analyses(s, p)[k];
  }

  lemma {:induction false} OneBookmark(s: Snapshot, mark: Mark, p: Parsed, analyses: seq<Block>, j: nat, k: nat,
      t: string)
    requires AnalysesOf(s, mark, p, analyses) && Injective(mark)
    requires j < |analyses| && k < |analyses| && HasBookmark(analyses[j], t) && HasBookmark(analyses[k], t)
    ensures j == k
  {
    BlockIsOf(s, mark, p, analyses, j);
    BlockIsOf(s, mark, p, analyses, k);
    assert mark(analyses[j].incident.id) == mark(analyses[k].incident.id);
    OneBlock(s, mark, p, analyses, j, k);
  }

  lemma {:induction false} OpeningHasNoAnalyses(s: Snapshot, alerts: seq<nat>, analyses: seq<Block>)
    requires Within(alerts, |s.incidents|)
    ensures forall b :: b in Opening(s, alerts, analyses) ==> !b.Analysis?
  {
    var evidence := EvidenceBlocks(s, alerts, analyses);
    assert forall b :: b in evidence ==> b.Evidence?;
  }

  lemma {:induction false} AllAreAnalyses(s: Snapshot, mark: Mark, p: Parsed, analyses: seq<Block>)
    requires AnalysesOf(s, mark, p, analyses)
    ensures forall k :: 0 <= k < |analyses| ==> analyses[k].Analysis?
  {
    forall k | 0 <= k < |analyses|
      ensures analyses[k].Analysis?
    {
      BlockIsOf(s, mark, p, analyses, k);
    }
  }

  /** Where each block of a document stands. */
  lemma {:induction false} Locate(document: seq<Block>, opening: seq<Block>, prose: seq<Prose>, analyses: seq<Block>,
      k: nat)
    requires MadeOf(document, opening, prose, analyses) && k < |document|
    ensures |document| == |opening| + |prose| + 2 + |analyses|
    ensures k < |opening| ==> document[k] == opening[k]
    ensures |opening| <= k < |document| - |analyses| ==>
              document[k].Summary? || document[k].NewPage? || document[k].Section?
    ensures k >= |document| - |analyses| ==> document[k] == analyses[k - (|document| - |analyses|)]
  {
  }

  /** Analyses are nowhere but at the end. */
  lemma {:induction false} WhereAnalysesAre(document: seq<Block>, opening: seq<Block>, prose: seq<Prose>,
      analyses: seq<Block>, k: nat)
    requires MadeOf(document, opening, prose, analyses) && k < |document| && document[k].Analysis?
    requires forall b :: b in opening ==> !b.Analysis?
    ensures k >= |document| - |analyses| >= 0 && document[k] == analyses[k - (|document| - |analyses|)]
  {
    Locate(document, opening, prose, analyses, k);
  }

  /** Links are nowhere but in the opening. */
  lemma {:induction false} WhereLinksAre(document: seq<Block>, opening: seq<Block>, prose: seq<Prose>,
      analyses: seq<Block>, b: Block, t: string)
    requires MadeOf(document, opening, prose, analyses) && b in document && LinksTo(b, t)
    requires forall k :: 0 <= k < |analyses| ==> analyses[k].Analysis?
    ensures b in opening
  {
    var k :| 0 <= k < |document| && document[k] == b;
    Locate(document, opening, prose, analyses, k);
  }

  ghost predicate OnlyOne(document: seq<Block>, t: string) {
    forall j, k ::
      0 <= j < |document| && 0 <= k < |document| && HasBookmark(document[j], t) && HasBookmark(document[k], t) ==>
        j == k
  }

  lemma {:induction false} WhereBookmarkIs(document: seq<Block>, opening: seq<Block>, prose: seq<Prose>,
      analyses: seq<Block>, k: nat, t: string)
    requires MadeOf(document, opening, prose, analyses) && k < |document| && HasBookmark(document[k], t)
    requires forall b :: b in opening ==> !b.Analysis?
    ensures k >= |document| - |analyses| >= 0 && HasBookmark(analyses[k - (|document| - |analyses|)], t)
  {
    WhereAnalysesAre(document, opening, prose, analyses, k);
  }

  lemma {:induction false} OnePlace(s: Snapshot, mark: Mark, p: Parsed, document: seq<Block>, opening: seq<Block>,
      analyses: seq<Block>, t: string, i: nat, j: nat)
    requires AnalysesOf(s, mark, p, analyses) && Injective(mark) && MadeOf(document, opening, p.summary, analyses)
    requires forall b :: b in opening ==> !b.Analysis?
    requires i < |document| && j < |document| && HasBookmark(document[i], t) && HasBookmark(document[j], t)
    ensures i == j
  {
    var from := |document| - |analyses|;
    WhereBookmarkIs(document, opening, p.summary, analyses, i, t);
    WhereBookmarkIs(document, opening, p.summary, analyses, j, t);
    OneBookmark(s, mark, p, analyses, i - from, j - from, t);
  }

  lemma {:induction false} BookmarksAreUnique(s: Snapshot, mark: Mark, p: Parsed, document: seq<Block>,
      opening: seq<Block>, analyses: seq<Block>, t: string)
    requires AnalysesOf(s, mark, p, analyses) && Injective(mark) && MadeOf(document, opening, p.summary, analyses)
    requires forall b :: b in opening ==> !b.Analysis?
    ensures OnlyOne(document, t)
  {
    forall i, j | 0 <= i < |document| && 0 <= j < |document| && HasBookmark(document[i], t) &&
             HasBookmark(document[j], t)
      ensures i == j
    {
      OnePlace(s, mark, p, document, opening, analyses, t, i, j);
    }
  }

  lemma {:induction false} BookmarkIsThere(document: seq<Block>, opening: seq<Block>, prose: seq<Prose>,
      analyses: seq<Block>, t: string)
    requires MadeOf(document, opening, prose, analyses)
    requires exists k :: 0 <= k < |analyses| && HasBookmark(analyses[k], t)
    ensures exists k :: 0 <= k < |document| && HasBookmark(document[k], t)
  {
    var k :| 0 <= k < |analyses| && HasBookmark(analyses[k], t);
    var at := |opening| + |prose| + 2 + k;
    assert |document| == |opening| + |prose| + 2 + |analyses|;
    Locate(document, opening, prose, analyses, at);
    assert HasBookmark(document[at], t);
  }

  /** Every navigation entry and every evidence link names the bookmark of exactly one
      available analysis block. */
  lemma {:induction false} LinksResolve(plan: Plan, s: Snapshot, mark: Mark, document: seq<Block>, b: Block, t: string)
    requires Compose(plan, s, mark) == Success(document) && Injective(mark)
    requires b in document && LinksTo(b, t)
    ensures (exists k :: 0 <= k < |document| && HasBookmark(document[k], t)) && OnlyOne(document, t)
  {
    var p, analyses := TakeApart(plan, s, mark, document);
    var alerts := Alerts(s, p);
    AllAreAnalyses(s, mark, p, analyses);
    OpeningHasNoAnalyses(s, alerts, analyses);
    WhereLinksAre(document, Opening(s, alerts, analyses), p.summary, analyses, b, t);
    var _, m := OpeningLink(s, alerts, analyses, b, t);
    BookmarkIsThere(document, Opening(s, alerts, analyses), p.summary, analyses, t);
    BookmarksAreUnique(s, mark, p, document, Opening(s, alerts, analyses), analyses, t);
  }

  lemma {:induction false} InOpening(s: Snapshot, alerts: seq<nat>, analyses: seq<Block>, i: nat)
    requires Within(alerts, |s.incidents|) && i < |alerts|
    ensures EvidenceBlocks(s, alerts, analyses)[i] in Opening(s, alerts, analyses)
    ensures var entries := Entries(s, alerts, analyses, |alerts|);
            entries != [] ==> Navigation(entries) in Opening(s, alerts, analyses)
  {
    var entries, evidence := Entries(s, alerts, analyses, |alerts|), EvidenceBlocks(s, alerts, analyses);
    var front := [Section("Alerts")] + if entries == [] then [] else [Navigation(entries)];
    assert evidence[i] in evidence;
    assert entries != [] ==> Navigation(entries) in front;
  }

  /** The target of an incident is its own block's bookmark. */
  lemma {:induction false} TargetIs(s: Snapshot, mark: Mark, p: Parsed, analyses: seq<Block>, m: nat)
    requires AnalysesOf(s, mark, p, analyses) && m < |analyses| && analyses[m].Analysis? && analyses[m].bookmark.Some?
    ensures TargetOf(analyses, analyses[m].incident.id) == analyses[m].bookmark
  {
    BlockIsOf(s, mark, p, analyses, m);
    var n := TargetsBlock(analyses, analyses[m].incident.id, m);
    OneBlock(s, mark, p, analyses, m, n);
  }

  lemma {:induction false} TargetsBlock(analyses: seq<Block>, id: string, m: nat) returns (n: nat)
    requires m < |analyses| && IsTarget(analyses[m], id)
    ensures n < |analyses| && IsTarget(analyses[n], id) && analyses[n].bookmark == TargetOf(analyses, id)
  {
    n :| 0 <= n < |analyses| && IsTarget(analyses[n], id) && analyses[n].bookmark == TargetOf(analyses, id);
  }

  /** What links back to an analysis block: its alert, and an entry of the navigation. */
  ghost predicate LinkedFrom(document: seq<Block>, a: Block, canonical: bool)
    requires a.Analysis? && a.bookmark.Some?
  {
    && Evidence(a.number, a.incident, canonical, a.bookmark) in document
    && exists b :: b in document && b.Navigation? && Entry(a.number, a.incident.title, a.bookmark.value) in b.entries
  }

  /** An alert with a target links to it, and so does its navigation entry. */
  lemma {:induction false} AlertLinks(s: Snapshot, alerts: seq<nat>, analyses: seq<Block>, j: nat, a: Block)
    requires Within(alerts, |s.incidents|) && j < |alerts| && a.Analysis? && a.bookmark.Some?
    requires a.incident == s.incidents[alerts[j]] && a.number == j + 1
    requires TargetOf(analyses, a.incident.id) == a.bookmark
    ensures LinkedFrom(Opening(s, alerts, analyses), a, s.canonical)
  {
    var entries := Entries(s, alerts, analyses, |alerts|);
    EntryIsThere(s, alerts, analyses, |alerts|, j, a.bookmark.value);
    InOpening(s, alerts, analyses, j);
    assert EvidenceBlocks(s, alerts, analyses)[j] == Evidence(a.number, a.incident, s.canonical, a.bookmark);
    assert Navigation(entries) in Opening(s, alerts, analyses);
  }

  lemma {:induction false} LinkedInOpening(s: Snapshot, mark: Mark, p: Parsed, analyses: seq<Block>, m: nat)
    requires AnalysesOf(s, mark, p, analyses) && m < |analyses| == |Analyses(s, p)|
    requires analyses[m].Analysis? && analyses[m].bookmark.Some? && Analyses(s, p)[m] in Alerts(s, p)
    ensures LinkedFrom(Opening(s, Alerts(s, p), analyses), analyses[m], s.canonical)
  {
    BlockIsOf(s, mark, p, analyses, m);
    TargetIs(s, mark, p, analyses, m);
    AlertLinks(s, Alerts(s, p), analyses, IndexOf(Alerts(s, p), Analyses(s, p)[m]), analyses[m]);
  }

  lemma {:induction false} WhichAlert(s: Snapshot, alerts: seq<nat>, analyses: seq<Block>, b: Block) returns (k: nat)
    requires Within(alerts, |s.incidents|) && b in Opening(s, alerts, analyses) && b.Evidence?
    ensures k < |alerts| && b.incident == s.incidents[alerts[k]]
  {
    k :| 0 <= k < |alerts| && b == EvidenceBlocks(s, alerts, analyses)[k];
  }

  /** The alert that links to a block is the alert of its incident. */
  lemma {:induction false} LinkedIsAlert(s: Snapshot, mark: Mark, p: Parsed, analyses: seq<Block>, m: nat, b: Block)
    requires AnalysesOf(s, mark, p, analyses) && m < |analyses| == |Analyses(s, p)| && analyses[m].Analysis?
    requires b in Opening(s, Alerts(s, p), analyses) && b.Evidence? && b.incident == analyses[m].incident
    ensures Analyses(s, p)[m] in Alerts(s, p)
  {
    BlockIsOf(s, mark, p, analyses, m);
    var k := WhichAlert(s, Alerts(s, p), analyses, b);
    assert Alerts(s, p)[k] == Analyses(s, p)[m];
  }

  /** Where a bookmarked analysis of a document comes from. */
  lemma {:induction false} TakeOutBlock(plan: Plan, s: Snapshot, mark: Mark, document: seq<Block>, k: nat)
    returns (p: Parsed, analyses: seq<Block>, m: nat)
    requires Compose(plan, s, mark) == Success(document) && k < |document| && document[k].Analysis?
    ensures AnalysesOf(s, mark, p, analyses) && m < |analyses| == |Analyses(s, p)| && analyses[m] == document[k]
    ensures MadeOf(document, Opening(s, Alerts(s, p), analyses), p.summary, analyses)
    ensures document[k].incident == s.incidents[Analyses(s, p)[m]]
    ensures Analyses(s, p)[m] in Alerts(s, p) <==> Alerted(plan, s, document[k].incident)
  {
    p, analyses := TakeApart(plan, s, mark, document);
    OpeningHasNoAnalyses(s, Alerts(s, p), analyses);
    WhereAnalysesAre(document, Opening(s, Alerts(s, p), analyses), p.summary, analyses, k);
    m := k - (|document| - |analyses|);
    BlockIsOf(s, mark, p, analyses, m);
    AlertsAre(plan, s, Indexed(s.incidents).value, p, Analyses(s, p)[m]);
  }

  /** Whatever is not an analysis or a summary of a document is in its opening. */
  lemma {:induction false} WhereAlertsAre(document: seq<Block>, opening: seq<Block>, prose: seq<Prose>,
      analyses: seq<Block>, b: Block)
    requires MadeOf(document, opening, prose, analyses) && b in document && (b.Evidence? || b.Navigation?)
    requires forall k :: 0 <= k < |analyses| ==> analyses[k].Analysis?
    ensures b in opening
  {
    var k :| 0 <= k < |document| && document[k] == b;
    Locate(document, opening, prose, analyses, k);
  }

  /** A bookmarked analysis is linked from its alert and from the navigation, under the
      alert's number, if and only if the policy or the plan gives its incident an alert. */
  lemma {:induction false} BackLinkLandsIff(plan: Plan, s: Snapshot, mark: Mark, document: seq<Block>, k: nat)
    requires Compose(plan, s, mark) == Success(document)
    requires k < |document| && document[k].Analysis? && document[k].bookmark.Some?
    ensures LinkedFrom(document, document[k], s.canonical) <==> Alerted(plan, s, document[k].incident)
  {
    var p, analyses, m := TakeOutBlock(plan, s, mark, document, k);
    var opening, a := Opening(s, Alerts(s, p), analyses), document[k];
    AllAreAnalyses(s, mark, p, analyses);
    if Alerted(plan, s, a.incident) {
      LinkedInOpening(s, mark, p, analyses, m);
      assert forall b :: b in opening ==> b in document;
    }
    if LinkedFrom(document, a, s.canonical) {
      var alert := Evidence(a.number, a.incident, s.canonical, a.bookmark);
      WhereAlertsAre(document, opening, p.summary, analyses, alert);
      LinkedIsAlert(s, mark, p, analyses, m, alert);
    }
  }

  /** Under full incident coverage every one of them is linked. */
  lemma {:induction false} BackLinksLand(plan: Plan, s: Snapshot, mark: Mark, document: seq<Block>, k: nat)
    requires Compose(plan, s, mark) == Success(document) && s.incidentPolicy == All
    requires k < |document| && document[k].Analysis? && document[k].bookmark.Some?
    ensures LinkedFrom(document, document[k], s.canonical)
  {
    BackLinkLandsIff(plan, s, mark, document, k);
  }

  ghost predicate HasNavigation(document: seq<Block>) {
    exists b :: b in document && b.Navigation?
  }

  /** A bookmarked analysis with an alert of its own. */
  ghost predicate AlertedAnalysis(plan: Plan, s: Snapshot, b: Block) {
    b.Analysis? && b.bookmark.Some? && Alerted(plan, s, b.incident)
  }

  /** Without an alert of its own, nothing links to it. */
  lemma {:induction false} UnalertedHasNoLink(plan: Plan, s: Snapshot, mark: Mark, document: seq<Block>, k: nat,
      b: Block)
    requires Compose(plan, s, mark) == Success(document) && Injective(mark)
    requires k < |document| && document[k].Analysis? && document[k].bookmark.Some?
    requires b in document && LinksTo(b, document[k].bookmark.value)
    ensures Alerted(plan, s, document[k].incident)
  {
    var p, analyses, m := TakeOutBlock(plan, s, mark, document, k);
    var opening, t := Opening(s, Alerts(s, p), analyses), document[k].bookmark.value;
    AllAreAnalyses(s, mark, p, analyses);
    WhereLinksAre(document, opening, p.summary, analyses, b, t);
    var j, n := OpeningLink(s, Alerts(s, p), analyses, b, t);
    BlockIsOf(s, mark, p, analyses, m);
    OneBookmark(s, mark, p, analyses, m, n, t);
    assert Analyses(s, p)[m] == Alerts(s, p)[j];
  }

  lemma {:induction false} NavigationTarget(s: Snapshot, alerts: seq<nat>, analyses: seq<Block>, b: Block)
    returns (j: nat, m: nat)
    requires Within(alerts, |s.incidents|) && b in Opening(s, alerts, analyses) && b.Navigation?
    ensures j < |alerts| && m < |analyses| && IsTarget(analyses[m], s.incidents[alerts[j]].id)
  {
    assert b.entries != [] && b.entries == Entries(s, alerts, analyses, |alerts|);
    j := EntryComesFrom(s, alerts, analyses, |alerts|, b.entries[0]);
    m :| 0 <= m < |analyses| && IsTarget(analyses[m], s.incidents[alerts[j]].id);
  }

  /** The navigation has an entry, whose incident is an alert with a bookmarked analysis. */
  lemma {:induction false} NavigationHasAlert(s: Snapshot, mark: Mark, p: Parsed, analyses: seq<Block>, b: Block)
    returns (m: nat)
    requires AnalysesOf(s, mark, p, analyses) && b in Opening(s, Alerts(s, p), analyses) && b.Navigation?
    ensures m < |analyses| == |Analyses(s, p)| && analyses[m].Analysis? && analyses[m].bookmark.Some?
    ensures Analyses(s, p)[m] in Alerts(s, p)
  {
    var j, k := NavigationTarget(s, Alerts(s, p), analyses, b);
    m := k;
    BlockIsOf(s, mark, p, analyses, m);
    assert Analyses(s, p)[m] == Alerts(s, p)[j];
  }

  /** A document has a navigation if and only if some bookmarked analysis has an alert. */
  lemma {:induction false} NavigationIff(plan: Plan, s: Snapshot, mark: Mark, document: seq<Block>)
    requires Compose(plan, s, mark) == Success(document)
    ensures HasNavigation(document) <==> exists b :: b in document && AlertedAnalysis(plan, s, b)
  {
    if HasNavigation(document) {
      var p, analyses := TakeApart(plan, s, mark, document);
      var opening := Opening(s, Alerts(s, p), analyses);
      AllAreAnalyses(s, mark, p, analyses);
      var b :| b in document && b.Navigation?;
      WhereAlertsAre(document, opening, p.summary, analyses, b);
      var m := NavigationHasAlert(s, mark, p, analyses, b);
      BlockIsOf(s, mark, p, analyses, m);
      AlertsAre(plan, s, Indexed(s.incidents).value, p, Analyses(s, p)[m]);
      assert analyses[m] in analyses && analyses[m] in document;
      assert AlertedAnalysis(plan, s, analyses[m]);
    }
    if a :| a in document && AlertedAnalysis(plan, s, a) {
      var k :| 0 <= k < |document| && document[k] == a;
      BackLinkLandsIff(plan, s, mark, document, k);
    }
  }

  // ---- Independence from the plan ----

  lemma {:induction false} SameBlocks(s: Snapshot, alerts: seq<nat>, which: seq<nat>, nodes: map<nat, Node>,
      nodes': map<nat, Node>, mark: Mark, n: nat)
    requires n <= |which| && Within(which, |s.incidents|)
    requires AnalysisBlocks(s, alerts, which, nodes, mark, n).Success?
    requires AnalysisBlocks(s, alerts, which, nodes', mark, n).Success?
    ensures AnalysisBlocks(s, alerts, which, nodes, mark, n) == AnalysisBlocks(s, alerts, which, nodes', mark, n)
  {
    if n > 0 {
      SameBlocks(s, alerts, which, nodes, nodes', mark, n - 1);
    }
  }

  /** Under full coverage the documents of two accepted plans differ only in the summary. */
  lemma {:induction false} PlansDifferInSummaryOnly(plan: Plan, plan': Plan, s: Snapshot, mark: Mark,
      document: seq<Block>, document': seq<Block>)
    returns (before: seq<Block>, summary: seq<Block>, summary': seq<Block>, after: seq<Block>)
    requires Compose(plan, s, mark) == Success(document) && Compose(plan', s, mark) == Success(document')
    requires s.incidentPolicy == All && s.analysisPolicy == AllAvailable
    ensures document == before + summary + after && document' == before + summary' + after
    ensures forall b :: b in summary || b in summary' ==> b.Summary?
  {
    var p, analyses := TakeApart(plan, s, mark, document);
    var p', analyses' := TakeApart(plan', s, mark, document');
    SameBlocks(s, Alerts(s, p), Analyses(s, p), p.nodes, p'.nodes, mark, |Analyses(s, p)|);
    before, after := Opening(s, Alerts(s, p), analyses), Closing(analyses);
    summary, summary' := SummaryBlocks(p.summary), SummaryBlocks(p'.summary);
  }

  // ---- Without full coverage ----

  const ALONE := Incident("i", None, Some("r"), "t", true, true)
  const PARTIAL := Snapshot([ALONE], true, false, true, OptionalIncidents, OptionalAnalyses, false, false)

  lemma {:induction false} AskedAlone() returns (index: map<string, nat>, p: Parsed)
    ensures Indexed(PARTIAL.incidents) == Success(index)
    ensures Read(Blocks([AnalysisReference(Some("i"), None)]), PARTIAL, index) == Success(p)
    ensures p == Parsed([], [], ["r"], [0], map[0 := AnalysisReference(Some("i"), None)])
  {
    var node := AnalysisReference(Some("i"), None);
    assert PARTIAL.incidents[..0] == [];
    index := map["i" := 0];
    assert [node][..0] == [] && Parse(PARTIAL.incidents, index, []) == Success(NOTHING);
    assert Referred(PARTIAL.incidents, index, node) == Some(0);
    p := ParseNode(PARTIAL.incidents, index, NOTHING, node).value;
    assert p.analysisRefs == ["r"] && p.asked == [0] && p.nodes == map[0 := node];
  }

  lemma {:induction false} BlockAlone(p: Parsed, mark: Mark, block: Block)
    requires p == Parsed([], [], ["r"], [0], map[0 := AnalysisReference(Some("i"), None)])
    requires block == Analysis(1, ALONE, true, Some(mark("i")))
    ensures Alerts(PARTIAL, p) == [] && Analyses(PARTIAL, p) == [0]
    ensures AnalysisBlocks(PARTIAL, [], [0], p.nodes, mark, 1) == Success([block])
  {
    assert AnalysisBlock(ALONE, NodeFor(p.nodes, 0), NumberOf([], 0, 0), mark) == Success(block);
    assert AnalysisBlocks(PARTIAL, [], [0], p.nodes, mark, 0) == Success([]);
    assert [] + [block] == [block] && PARTIAL.incidents[0] == ALONE;
  }

  lemma {:induction false} ShapeAlone(block: Block)
    requires block.Analysis?
    ensures Opening(PARTIAL, [], [block]) + SummaryBlocks([]) + Closing([block]) ==
            [Section("Alerts"), NewPage, Section("General Summary"), NewPage, Section("Log Analysis"), block]
  {
    assert Entries(PARTIAL, [], [block], 0) == [];
  }

  /** Without it, an analysis can have a bookmark, and so a back link, with no navigation
      to go back to. */
  lemma {:induction false} BackLinkToNowhere(mark: Mark) returns (plan: Plan, document: seq<Block>)
    ensures Compose(plan, PARTIAL, mark) == Success(document)
    ensures HasBookmark(document[|document| - 1], mark("i")) && !HasNavigation(document)
  {
    plan := Blocks([AnalysisReference(Some("i"), None)]);
    var index, p := AskedAlone();
    var block := Analysis(1, ALONE, true, Some(mark("i")));
    BlockAlone(p, mark, block);
    ShapeAlone(block);
    document := Compose(plan, PARTIAL, mark).value;
  }
}
