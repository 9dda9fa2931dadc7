/** The worker around the reconciliation: the bounded output attempts, and the check
    of an artifact that a crashed worker left behind. */
module Recovery {
  import opened Results
  import opened Findings
  import opened Components
  import opened ValidatePass
  import opened MergePass
  import opened PatternReconciliation
  import opened Entries
  import opened EntryPass
  import opened EntryTheorems
  import opened EntryNumbers
  import opened EntryStability

  /** A model result: findings that cite patterns, or findings that cite entries. */
  datatype Analysis = ByPattern(report: Report) | ByEntry(entryReport: EntryReport)

  datatype Log = Log(stats: Statistics, entries: seq<Entry>)

  ghost predicate WellFormedLog(log: Log) {
    WellFormed(log.stats) && FamilyComplete(log.entries)
  }

  ghost predicate WellFormedAnalysis(a: Analysis) {
    a.ByPattern? ==> IsReport(a.report)
  }

  /** Some reconciliation produced it. */
  ghost predicate IsReconciled(log: Log, a: Analysis) {
    match a
    case ByPattern(r) => Reconciled(log.stats, r)
    case ByEntry(r) => exists fs :: Groupable(log.entries, fs) && r.findings == Reconciliation(log.entries, fs)
  }

  /** The same analysis with the evidence of every finding in order. */
  function InOrder(log: Log, a: Analysis): Analysis {
    match a
    case ByPattern(_) => a
    case ByEntry(r) =>
      ByEntry(r.(findings := OrderedAll(log.entries, r.findings)))
  }

  lemma {:induction false} RepeatedEntries(log: Log, r: EntryReport)
    requires WellFormedLog(log)
    ensures IsReconciled(log, ByEntry(r)) ==>
              && Groupable(log.entries, r.findings)
              && ByEntry(r.(findings := Reconciliation(log.entries, r.findings))) == InOrder(log, ByEntry(r))
  {
    if IsReconciled(log, ByEntry(r)) {
      var fs :| Groupable(log.entries, fs) && r.findings == Reconciliation(log.entries, fs);
      RepeatingOrdersAll(log.entries, fs, r.findings);
    }
  }

  /** Whether strict reconciliation raises nothing. */
  ghost predicate StrictlyOk(log: Log, a: Analysis) {
    match a
    case ByPattern(r) => Acceptable(log.stats, false, r.findings)
    case ByEntry(r) => Groupable(log.entries, r.findings)
  }

  /** Whether it ends in the lookup of a missing key. */
  ghost predicate LooksUp(log: Log, a: Analysis) {
    a.ByPattern? && LooksUpMarker(log.stats, false, a.report.findings)
  }

  /** What strict reconciliation may make of `a`. */
  ghost predicate StrictOutcome(log: Log, a: Analysis, out: Result<Analysis>) {
    && (out.Success? <==> StrictlyOk(log, a))
    && (out.Failure? ==> out.error == if LooksUp(log, a) then MissingKey else Rejected)
    && (out.Success? ==> IsReconciled(log, out.value) && WellFormedAnalysis(out.value))
    && (out.Success? ==> out.value.ByPattern? == a.ByPattern?)
    && (IsReconciled(log, a) ==> out == Success(InOrder(log, a)))
  }

  /** Strict reconciliation of either kind of result. */
  method ReconcileStrict(log: Log, a: Analysis) returns (out: Result<Analysis>)
    requires WellFormedLog(log) && WellFormedAnalysis(a)
    ensures StrictOutcome(log, a, out)
  {
    match a
    case ByPattern(r) =>
      var done := Reconcile(log.stats, r, false, _ => None);
      out := if done.Success? then Success(ByPattern(done.value)) else Failure(done.error);
    case ByEntry(r) =>
      RepeatedEntries(log, r);
      var done := ReconcileEntries(log.entries, r);
      out := if done.Success? then Success(ByEntry(done.value)) else Failure(done.error);
  }

  // ---- What a failed or discarded attempt leaves behind ----

  /** The entry findings after a pass that rejected finding `bad`: the earlier ones
      already hold their expanded evidence. */
  ghost predicate PartlyGrouped(entries: seq<Entry>, fs: seq<EntryFinding>, bad: nat, left: seq<EntryFinding>) {
    && bad < |fs| && |left| == |fs|
    && (forall i :: 0 <= i < bad ==> FindingGroupable(entries, fs, i) && left[i] == Grouped(entries, fs, i))
    && (forall i :: bad <= i < |fs| ==> left[i] == fs[i])
  }

  lemma {:induction false} PrefixClaims(entries: seq<Entry>, fs: seq<EntryFinding>, n: nat, m: nat)
    requires n <= m <= |fs|
    ensures Claimed(entries, fs[..m], n) == Claimed(entries, fs, n)
  {
    if n > 0 {
      PrefixClaims(entries, fs, n - 1, m);
    }
  }

  lemma {:induction false} PrefixIsGroupable(entries: seq<Entry>, fs: seq<EntryFinding>, n: nat)
    requires n <= |fs| && forall i :: 0 <= i < n ==> FindingGroupable(entries, fs, i)
    ensures Groupable(entries, fs[..n])
    ensures forall i :: 0 <= i < n ==> Grouped(entries, fs[..n], i) == Grouped(entries, fs, i)
  {
    forall i | 0 <= i < n
      ensures FindingGroupable(entries, fs[..n], i) && Grouped(entries, fs[..n], i) == Grouped(entries, fs, i)
    {
      assert FindingGroupable(entries, fs, i);
      PrefixClaims(entries, fs, i, n);
    }
  }

  /** Expanding evidence that is already expanded brings in nothing new. */
  lemma {:induction false} GroupedExpandsToItself(entries: seq<Entry>, fs: seq<EntryFinding>, i: nat)
    requires FamilyComplete(entries) && Groupable(entries, fs) && i < |fs| && fs[i].evidence.Listed?
    ensures Grouped(entries, fs, i).evidence.Listed?
    ensures Expansion(entries, Grouped(entries, fs, i).evidence.ids) == Expansion(entries, fs[i].evidence.ids)
  {
    GroupedIsClosed(entries, fs, i);
    OwnedIffCites(entries, fs, i);
    ExpansionOfClosed(entries, EvidenceOf(Grouped(entries, fs, i)));
    forall x
      ensures x in EvidenceOf(Grouped(entries, fs, i)) <==> x in Expansion(entries, fs[i].evidence.ids)
    {
      OwnsItsFamilies(entries, fs, i, x);
      ClaimsItsFamilies(entries, fs, i, x);
      assert ClaimedBy(entries, fs, i, x) <==> x in Expansion(entries, fs[i].evidence.ids);
    }
  }

  lemma {:induction false} PartialExpansion(entries: seq<Entry>, fs: seq<EntryFinding>, bad: nat,
      left: seq<EntryFinding>, i: nat)
    requires FamilyComplete(entries) && PartlyGrouped(entries, fs, bad, left) && i < bad
    ensures left[i].evidence.Listed? <==> fs[i].evidence.Listed?
    ensures fs[i].evidence.Listed? ==>
              Expansion(entries, left[i].evidence.ids) == Expansion(entries, fs[i].evidence.ids)
  {
    PrefixIsGroupable(entries, fs, bad);
    assert left[i] == Grouped(entries, fs[..bad], i);
    if fs[i].evidence.Listed? {
      GroupedExpandsToItself(entries, fs[..bad], i);
    }
  }

  /** Claims do not change when earlier findings already hold their expanded evidence. */
  lemma {:induction false} PartialClaims(entries: seq<Entry>, fs: seq<EntryFinding>, bad: nat,
      left: seq<EntryFinding>, n: nat)
    requires FamilyComplete(entries) && PartlyGrouped(entries, fs, bad, left) && n <= bad
    ensures Claimed(entries, left, n) == Claimed(entries, fs, n)
  {
    if n > 0 {
      PartialClaims(entries, fs, bad, left, n - 1);
      PartialExpansion(entries, fs, bad, left, n - 1);
    }
  }

  /** A rejected entry report is rejected again, although the first pass rewrote part of it. */
  lemma {:induction false} RejectedAgain(entries: seq<Entry>, fs: seq<EntryFinding>, bad: nat, left: seq<EntryFinding>)
    requires FamilyComplete(entries) && PartlyGrouped(entries, fs, bad, left) && !FindingGroupable(entries, fs, bad)
    ensures !Groupable(entries, left)
  {
    PartialClaims(entries, fs, bad, left, bad);
    assert !FindingGroupable(entries, left, bad);
  }

  /** The pattern findings after a strict pass that merged: every class's first finding
      holds the ids of the whole class, and the others still hold their own. */
  ghost predicate MergedInPlace(fs: seq<Finding>, at: seq<nat>, groups: seq<seq<nat>>, left: seq<Finding>)
    requires PointsAt(fs, at, groups)
  {
    && |left| == |fs|
    && (forall g, p :: 0 <= g < |groups| && p in MemberIds(fs, at, groups[g]) ==> p in left[at[groups[g][0]]].ids)
    && (forall i, p :: 0 <= i < |fs| && p in fs[i].ids ==> p in left[i].ids)
  }

  /** A strict pass that merged findings cannot be followed by a fallback pass over the
      same findings: the merged ids are now cited twice, which every mode rejects. */
  lemma {:induction false} MergedInPlaceIsRejected(stats: Statistics, fs: seq<Finding>, at: seq<nat>,
      groups: seq<seq<nat>>, left: seq<Finding>, fallback: bool)
    requires WellFormed(stats) && CitesKnown(stats, fs) && at == QuantifiedAt(fs, |fs|)
    requires PointsAt(fs, at, groups) && IsClasses(ItemFamilies(stats, fs, at), groups) && !Singletons(groups)
    requires MergedInPlace(fs, at, groups, left)
    ensures !Acceptable(stats, fallback, left)
  {
    var g :| 0 <= g < |groups| && |groups[g]| != 1;
    var first, other := at[groups[g][0]], at[groups[g][1]];
    var p := SharedItem(stats, fs, at, groups, g);
    MemberIdsAre(fs, at, groups[g], p);
    CitedTwice(stats, fallback, left, first, other, p);
  }

  /** A finding that was merged away cites something. */
  lemma {:induction false} SharedItem(stats: Statistics, fs: seq<Finding>, at: seq<nat>, groups: seq<seq<nat>>, g: nat)
    returns (p: string)
    requires at == QuantifiedAt(fs, |fs|) && PointsAt(fs, at, groups)
    requires IsClasses(ItemFamilies(stats, fs, at), groups) && g < |groups| && |groups[g]| > 1
    ensures p in fs[at[groups[g][1]]].ids && p in stats.patterns
  {
    var keys := ItemFamilies(stats, fs, at);
    var k := groups[g][1];
    assert groups[g][0] != k && Linked(keys, k, groups[g][0]);
    var family := SharedFamily(keys, k, groups[g][0]);
    p :| p in fs[at[k]].ids && p in stats.patterns && p != OTHER && stats.patterns[p].family == family;
  }

  lemma {:induction false} CitedTwice(stats: Statistics, fallback: bool, fs: seq<Finding>, i: nat, j: nat, p: string)
    requires WellFormed(stats) && i < |fs| && j < |fs| && i != j
    requires p in fs[i].ids && p in fs[j].ids && p in stats.patterns
    ensures !Acceptable(stats, fallback, fs)
  {
    var stripped := StrippedAll(stats, fallback, fs);
    StrippingKeeps(stats, fallback, fs[i], p);
    StrippingKeeps(stats, fallback, fs[j], p);
    assert CitedBy(stripped, i, p) && CitedBy(stripped, j, p);
  }

  lemma {:induction false} StrippingKeeps(stats: Statistics, fallback: bool, f: Finding, p: string)
    requires WellFormed(stats) && p in f.ids && p in stats.patterns
    ensures Stripped(stats, fallback, f).Quantified() && p in Stripped(stats, fallback, f).ids
  {
    assert p in KnownOnly(stats, f.ids);
  }

  // ---- The output attempts ----

  /** `b` says what `a` says, with other narrative texts or in another order of evidence. */
  ghost predicate SameFacts(a: Analysis, b: Analysis) {
    match (a, b)
    case (ByPattern(r), ByPattern(s)) =>
      && s.keyCount == r.keyCount && |s.findings| == |r.findings|
      && forall i :: 0 <= i < |r.findings| ==> s.findings[i] == r.findings[i].(details := s.findings[i].details)
    case (ByEntry(r), ByEntry(s)) => s == r
    case _ => false
  }

  /** Bounding the narrative texts of a report keeps it reconciled. */
  lemma {:induction false} SameFactsReconciled(log: Log, a: Analysis, b: Analysis)
    requires IsReconciled(log, a) && SameFacts(a, b) && WellFormedAnalysis(a)
    ensures IsReconciled(log, b) && WellFormedAnalysis(b)
  {
    if a.ByPattern? {
      var fs, gs := a.report.findings, b.report.findings;
      assert forall i, p :: CitedBy(fs, i, p) <==> CitedBy(gs, i, p);
      forall p | Cited(fs, p)
        ensures Cited(gs, p)
      {
        var i :| CitedBy(fs, i, p);
        assert CitedBy(gs, i, p);
      }
    }
  }

  /** What the inference may do with a result, as parameters: the checks an output must
      pass, the bounding of narratives, and the family a text hints at. */
  datatype Surroundings = Surroundings(
    valid: Analysis -> bool, compact: Analysis -> Option<Analysis>, hint: Finding -> Option<string>)

  /** The checks read no order of evidence; bounding touches narratives only. */
  ghost predicate Reasonable(log: Log, env: Surroundings) {
    && (forall a :: IsReconciled(log, a) ==> env.valid(InOrder(log, a)) == env.valid(a))
    && (forall a :: env.compact(a).Some? ==> SameFacts(a, env.compact(a).value))
  }

  // ---- The result validator is such a check ----

  /** The validator: the numbers of every entry finding, and `others`, whatever it reads. */
  predicate Passes(total: nat, others: Analysis -> bool, a: Analysis) {
    others(a) && (a.ByEntry? ==> forall f :: f in a.entryReport.findings ==> PassesChecks(f, total))
  }

  ghost predicate Reordered(f: EntryFinding, g: EntryFinding) {
    || g == f
    || (&& f.evidence.Listed? && g.evidence.Listed? && g == f.(evidence := g.evidence)
        && multiset(g.evidence.ids) == multiset(f.evidence.ids))
  }

  /** `b` lists the evidence of `a`'s findings in another order at most. */
  ghost predicate SameButOrder(a: Analysis, b: Analysis) {
    match (a, b)
    case (ByPattern(_), ByPattern(_)) => b == a
    case (ByEntry(r), ByEntry(s)) =>
      && s.keyCount == r.keyCount && |s.findings| == |r.findings|
      && forall i :: 0 <= i < |r.findings| ==> Reordered(r.findings[i], s.findings[i])
    case _ => false
  }

  ghost predicate IgnoresOrder(check: Analysis -> bool) {
    forall a, b :: SameButOrder(a, b) ==> check(a) == check(b)
  }

  /** Ordering distinct entries of the log drops none. */
  lemma {:induction false} OrderedIsReordered(entries: seq<Entry>, f: EntryFinding)
    requires Distinct(EvidenceOf(f)) && forall id :: id in EvidenceOf(f) ==> InLog(entries, id)
    ensures Reordered(f, Ordered(entries, f))
  {
    if f.evidence.Listed? {
      var ids := f.evidence.ids;
      var held := set id | id in ids;
      DistinctIsSet(ids);
      DistinctIsSet(SortedBelow(|entries|, held));
      assert (set id | id in SortedBelow(|entries|, held)) == held;
    }
  }

  lemma {:induction false} DistinctIsSet(ids: seq<int>)
    requires Distinct(ids)
    ensures multiset(ids) == multiset(set id | id in ids)
  {
    if ids != [] {
      var n := |ids| - 1;
      DistinctIsSet(ids[..n]);
      assert ids == ids[..n] + [ids[n]];
      assert (set id | id in ids) == (set id | id in ids[..n]) + {ids[n]};
    }
  }

  lemma {:induction false} ReorderedPasses(f: EntryFinding, g: EntryFinding, total: nat)
    requires Reordered(f, g)
    ensures PassesChecks(f, total) <==> PassesChecks(g, total)
  {
    if g != f {
      var a, b := f.evidence.ids, g.evidence.ids;
      assert forall id :: id in a <==> id in multiset(a);
      assert forall id :: id in b <==> id in multiset(b);
      assert |a| == |multiset(a)| == |multiset(b)| == |b|;
      SameDistinctness(a, b);
      SameDistinctness(b, a);
    }
  }

  lemma {:induction false} SameDistinctness(a: seq<int>, b: seq<int>)
    requires multiset(a) == multiset(b)
    ensures Distinct(a) ==> Distinct(b)
  {
    forall j, k | Distinct(a) && 0 <= j < k < |b|
      ensures b[j] != b[k]
    {
      DistinctIsSet(a);
      assert b == b[..j] + [b[j]] + b[j + 1..k] + [b[k]] + b[k + 1..];
      assert multiset(b)[b[j]] <= 1;
    }
  }

  lemma {:induction false} ReconciledInOrder(log: Log, a: Analysis)
    requires IsReconciled(log, a)
    ensures SameButOrder(a, InOrder(log, a))
  {
    if a.ByEntry? {
      var out := a.entryReport.findings;
      var fs :| Groupable(log.entries, fs) && out == Reconciliation(log.entries, fs);
      EvidencePartitionsLog(log.entries, fs);
      forall i | 0 <= i < |out|
        ensures Reordered(out[i], Ordered(log.entries, out[i]))
      {
        OrderedIsReordered(log.entries, out[i]);
      }
    }
  }

  lemma {:induction false} ReorderedAllPass(a: Analysis, b: Analysis, total: nat, others: Analysis -> bool)
    requires SameButOrder(a, b) && IgnoresOrder(others)
    ensures Passes(total, others, a) <==> Passes(total, others, b)
  {
    if a.ByEntry? {
      var fs, gs := a.entryReport.findings, b.entryReport.findings;
      forall i | 0 <= i < |fs|
        ensures PassesChecks(fs[i], total) <==> PassesChecks(gs[i], total)
      {
        ReorderedPasses(fs[i], gs[i], total);
      }
      assert forall i :: 0 <= i < |fs| ==> fs[i] in fs && gs[i] in gs;
    }
  }

  /** The validator asks the same of a reconciled analysis and of its ordered form. */
  lemma {:induction false} ValidatorIsReasonable(log: Log, others: Analysis -> bool, env: Surroundings)
    requires IgnoresOrder(others) && env.valid == (a => Passes(|log.entries|, others, a))
    requires forall a :: env.compact(a).Some? ==> SameFacts(a, env.compact(a).value)
    ensures Reasonable(log, env)
  {
    forall a | IsReconciled(log, a)
      ensures env.valid(InOrder(log, a)) == env.valid(a)
    {
      ReconciledInOrder(log, a);
      ReorderedAllPass(a, InOrder(log, a), |log.entries|, others);
    }
  }

  // ---- Repairing and trying again ----

  /** Whether the repair's reconciliation, in fallback mode where there is one, raises nothing. */
  ghost predicate RepairablyOk(log: Log, left: Analysis) {
    match left
    case ByPattern(r) => Acceptable(log.stats, true, r.findings)
    case ByEntry(r) => Groupable(log.entries, r.findings)
  }

  /** `out` is `repaired` with bounded narratives, where they can be bounded and it is valid. */
  ghost predicate IsBounded(env: Surroundings, repaired: Analysis, out: Option<Analysis>) {
    var bounded := env.compact(repaired);
    out == if bounded.Some? && env.valid(bounded.value) then bounded else None
  }

  /** `out` is a repair of `left`: there is one exactly when reconciling `left` raises
      nothing and the bounded result is valid. */
  ghost predicate IsRepair(log: Log, left: Analysis, env: Surroundings, out: Option<Analysis>) {
    if !RepairablyOk(log, left) then out.None? else
      exists repaired :: IsReconciled(log, repaired) && WellFormedAnalysis(repaired) && IsBounded(env, repaired, out)
  }

  lemma {:induction false} RepairIsValid(log: Log, left: Analysis, env: Surroundings, out: Option<Analysis>)
    requires Reasonable(log, env) && IsRepair(log, left, env, out) && out.Some?
    ensures IsReconciled(log, out.value) && env.valid(out.value) && WellFormedAnalysis(out.value)
  {
    var repaired :| IsReconciled(log, repaired) && WellFormedAnalysis(repaired) && IsBounded(env, repaired, out);
    SameFactsReconciled(log, repaired, out.value);
  }

  /** The last attempt's repair: a fallback reconciliation of what the strict one left. */
  method Repair(log: Log, left: Analysis, env: Surroundings) returns (out: Option<Analysis>)
    requires WellFormedLog(log) && WellFormedAnalysis(left) && Reasonable(log, env)
    ensures IsRepair(log, left, env, out)
    ensures out.Some? ==> IsReconciled(log, out.value) && env.valid(out.value) && WellFormedAnalysis(out.value)
    ensures left.ByPattern? && !Acceptable(log.stats, true, left.report.findings) ==> out.None?
  {
    var repaired: Result<Analysis>;
    match left {
      case ByPattern(r) =>
        var done := Reconcile(log.stats, r, true, env.hint);
        repaired := if done.Success? then Success(ByPattern(done.value)) else Failure(done.error);
      case ByEntry(_) =>
        repaired := ReconcileStrict(log, left);
    }
    if repaired.Failure? {
      return None;
    }
    out := env.compact(repaired.value);
    if out.Some? && !env.valid(out.value) {
      out := None;
    }
    assert IsBounded(env, repaired.value, out);
    if out.Some? {
      RepairIsValid(log, left, env, out);
    }
  }

  /** Writes the ids of every class into its first finding, as the merge pass does. */
  method MergeInPlace(stats: Statistics, fs: seq<Finding>, at: seq<nat>, groups: seq<seq<nat>>)
    returns (left: seq<Finding>)
    requires PointsAt(fs, at, groups)
    ensures MergedInPlace(fs, at, groups, left)
  {
    left := fs;
    for g := 0 to |groups|
      invariant |left| == |fs|
      invariant forall h, p :: 0 <= h < g && p in MemberIds(fs, at, groups[h]) ==> p in left[at[groups[h][0]]].ids
      invariant forall i, p :: 0 <= i < |fs| && p in fs[i].ids ==> p in left[i].ids
    {
      var first := at[groups[g][0]];
      left := left[first := left[first].(ids := Deduplicated(left[first].ids + MemberIds(fs, at, groups[g])))];
    }
  }

  /** What is left of `a` after the outcome `out`. */
  ghost predicate Leaves(log: Log, a: Analysis, out: Result<Analysis>, left: Analysis) {
    && (out.Failure? ==> left == a)
    && (out.Success? && a.ByEntry? ==> left == out.value)
    && (out.Success? && a.ByPattern? ==>
          if FamiliesWhole(log.stats, a.report.findings) then left == out.value
          else left.ByPattern? && forall fallback :: !Acceptable(log.stats, fallback, left.report.findings))
  }

  /** What a strict attempt at `a` leaves in the caller's hands.  The reconciliation
      rewrites the findings it is given, but after a merge its result is a new report:
      the caller still lists the merged findings, with the merged ids written into the
      first of each class.  A rejected report keeps its ids; where a rejected entry report
      is partly expanded it stays rejected, see `RejectedAgain`. */
  method LeaveBehind(log: Log, a: Analysis, out: Result<Analysis>) returns (left: Analysis)
    requires WellFormedLog(log) && WellFormedAnalysis(a) && (out.Success? ==> WellFormedAnalysis(out.value))
    requires out.Success? ==> IsReconciled(log, out.value) && out.value.ByPattern? == a.ByPattern?
    requires out.Success? && a.ByPattern? ==> Acceptable(log.stats, false, a.report.findings)
    ensures WellFormedAnalysis(left) && Leaves(log, a, out, left)
    ensures out.Success? && a.ByPattern? ==>
              && left.ByPattern?
              && (Acceptable(log.stats, true, left.report.findings) <==> FamiliesWhole(log.stats, a.report.findings))
  {
    if out.Failure? {
      return a;
    }
    if a.ByEntry? {
      return out.value;
    }
    var fs := a.report.findings;
    StrippedStrict(log.stats, fs);
    var at := QuantifiedAt(fs, |fs|);
    var groups := Classes(ItemFamilies(log.stats, fs, at));
    SingletonsIffWhole(log.stats, fs, at, groups);
    if forall g :: 0 <= g < |groups| ==> |groups[g]| == 1 {
      ReconciledIsRepairable(log.stats, out.value.report);
      return out.value;
    }
    var findings := MergeInPlace(log.stats, fs, at, groups);
    forall fallback {
      MergedInPlaceIsRejected(log.stats, fs, at, groups, findings, fallback);
    }
    return ByPattern(Report(findings, a.report.keyCount));
  }

  /** What came of one response: no usable answer, or the outcome of a strict attempt. */
  datatype Attempt = Silent | Tried(outcome: Result<Analysis>)

  /** The attempt is the last: its result is valid, or a key was missing. */
  predicate Ends(env: Surroundings, t: Attempt) {
    t.Tried? && (t.outcome == Failure(MissingKey) || (t.outcome.Success? && env.valid(t.outcome.value)))
  }

  ghost predicate IsAttempt(log: Log, response: Option<Analysis>, t: Attempt) {
    && (t.Tried? <==> response.Some?)
    && (t.Tried? ==> StrictOutcome(log, response.value, t.outcome))
  }

  /** The course of the attempts, with the result `out`. */
  ghost predicate IsCourse(log: Log, responses: seq<Option<Analysis>>, env: Surroundings, tries: seq<Attempt>,
      out: Option<Analysis>) {
    && |tries| <= |responses|
    && (forall k :: 0 <= k < |tries| ==> IsAttempt(log, responses[k], tries[k]))
    && (forall k :: 0 <= k < |tries| - 1 ==> !Ends(env, tries[k]))
    && if tries != [] && Ends(env, tries[|tries| - 1]) then
         out == if tries[|tries| - 1].outcome.Success? then Some(tries[|tries| - 1].outcome.value) else None
       else |tries| == |responses| && IsLastResort(log, responses, env, tries, out)
  }

  /** When no attempt ended the course, the last answer is repaired, if there is one. */
  ghost predicate IsLastResort(log: Log, responses: seq<Option<Analysis>>, env: Surroundings, tries: seq<Attempt>,
      out: Option<Analysis>)
    requires |tries| == |responses|
  {
    var n := |responses| - 1;
    if responses == [] || responses[n].None? || !tries[n].Tried? then out.None? else
      exists left :: Leaves(log, responses[n].value, tries[n].outcome, left) && IsRepair(log, left, env, out)
  }

  /** Some course of attempts leads to `out`. */
  ghost predicate Explains(log: Log, responses: seq<Option<Analysis>>, env: Surroundings, out: Option<Analysis>) {
    exists tries :: IsCourse(log, responses, env, tries, out)
  }

  /** No attempt so far ended the course. */
  ghost predicate Undecided(log: Log, responses: seq<Option<Analysis>>, env: Surroundings, tries: seq<Attempt>) {
    && |tries| <= |responses|
    && forall k :: 0 <= k < |tries| ==> IsAttempt(log, responses[k], tries[k]) && !Ends(env, tries[k])
  }

  lemma {:induction false} GoesOn(log: Log, responses: seq<Option<Analysis>>, env: Surroundings, tries: seq<Attempt>,
      t: Attempt)
    requires Undecided(log, responses, env, tries) && |tries| < |responses|
    requires IsAttempt(log, responses[|tries|], t) && !Ends(env, t)
    ensures Undecided(log, responses, env, tries + [t])
  {
  }

  lemma {:induction false} EndsHere(log: Log, responses: seq<Option<Analysis>>, env: Surroundings, tries: seq<Attempt>,
      t: Attempt)
    requires Undecided(log, responses, env, tries) && |tries| < |responses|
    requires IsAttempt(log, responses[|tries|], t) && Ends(env, t)
    ensures Explains(log, responses, env, if t.outcome.Success? then Some(t.outcome.value) else None)
  {
    var course := tries + [t];
    assert forall k :: 0 <= k < |tries| ==> course[k] == tries[k];
    assert IsCourse(log, responses, env, course, if t.outcome.Success? then Some(t.outcome.value) else None);
  }

  lemma {:induction false} EndsAtLast(log: Log, responses: seq<Option<Analysis>>, env: Surroundings,
      tries: seq<Attempt>, out: Option<Analysis>)
    requires Undecided(log, responses, env, tries) && |tries| == |responses|
    requires IsLastResort(log, responses, env, tries, out)
    ensures Explains(log, responses, env, out)
  {
    assert IsCourse(log, responses, env, tries, out);
  }

  lemma {:induction false} AttemptIsValid(log: Log, response: Option<Analysis>, env: Surroundings, t: Attempt)
    requires IsAttempt(log, response, t) && Ends(env, t) && t.outcome.Success?
    ensures IsReconciled(log, t.outcome.value) && env.valid(t.outcome.value) && WellFormedAnalysis(t.outcome.value)
  {
  }

  lemma {:induction false} LastResortIsValid(log: Log, responses: seq<Option<Analysis>>, env: Surroundings,
      tries: seq<Attempt>, out: Option<Analysis>)
    requires Reasonable(log, env) && |tries| == |responses| && out.Some?
    requires IsLastResort(log, responses, env, tries, out)
    ensures IsReconciled(log, out.value) && env.valid(out.value) && WellFormedAnalysis(out.value)
  {
    var n := |responses| - 1;
    var left :| Leaves(log, responses[n].value, tries[n].outcome, left) && IsRepair(log, left, env, out);
    RepairIsValid(log, left, env, out);
  }

  /** Whatever the course, what it leads to is reconciled and valid. */
  lemma {:induction false} OutputIsValid(log: Log, responses: seq<Option<Analysis>>, env: Surroundings,
      out: Option<Analysis>)
    requires Reasonable(log, env) && Explains(log, responses, env, out) && out.Some?
    ensures IsReconciled(log, out.value) && env.valid(out.value) && WellFormedAnalysis(out.value)
  {
    var tries: seq<Attempt> :| IsCourse(log, responses, env, tries, out);
    if tries != [] && Ends(env, tries[|tries| - 1]) {
      AttemptIsValid(log, responses[|tries| - 1], env, tries[|tries| - 1]);
    } else {
      LastResortIsValid(log, responses, env, tries, out);
    }
  }

  /** A first answer that is reconciled and valid is the output. */
  lemma {:induction false} FirstAnswerStands(log: Log, responses: seq<Option<Analysis>>, env: Surroundings,
      out: Option<Analysis>)
    requires Reasonable(log, env) && Explains(log, responses, env, out)
    requires responses != [] && responses[0].Some? && IsReconciled(log, responses[0].value)
    requires env.valid(responses[0].value)
    ensures out == Some(InOrder(log, responses[0].value))
  {
    var tries: seq<Attempt> :| IsCourse(log, responses, env, tries, out);
    assert tries != [] && IsAttempt(log, responses[0], tries[0]);
    assert Ends(env, tries[0]);
  }

  /** Tries the responses of the model in turn, repairing only the last one.  A lookup of
      a missing key is not among the errors that lead to a repair. */
  method ProduceOutput(log: Log, responses: seq<Option<Analysis>>, env: Surroundings) returns (out: Option<Analysis>)
    requires WellFormedLog(log) && Reasonable(log, env)
    requires forall r :: r in responses && r.Some? ==> WellFormedAnalysis(r.value)
    ensures Explains(log, responses, env, out)
    ensures out.Some? ==> IsReconciled(log, out.value) && env.valid(out.value) && WellFormedAnalysis(out.value)
    ensures responses != [] && responses[0].Some? && IsReconciled(log, responses[0].value) &&
            env.valid(responses[0].value) ==>
              out == Some(InOrder(log, responses[0].value))
  {
    out := TryInTurn(log, responses, env);
    if out.Some? {
      OutputIsValid(log, responses, env, out);
    }
    if responses != [] && responses[0].Some? {
      if IsReconciled(log, responses[0].value) && env.valid(responses[0].value) {
        FirstAnswerStands(log, responses, env, out);
      }
    }
  }

  method TryInTurn(log: Log, responses: seq<Option<Analysis>>, env: Surroundings) returns (out: Option<Analysis>)
    requires WellFormedLog(log) && Reasonable(log, env)
    requires forall r :: r in responses && r.Some? ==> WellFormedAnalysis(r.value)
    ensures Explains(log, responses, env, out)
  {
    ghost var tries: seq<Attempt> := [];
    for attempt := 0 to |responses|
      invariant |tries| == attempt && Undecided(log, responses, env, tries)
      invariant attempt == |responses| && responses != [] ==> responses[attempt - 1].None?
    {
      if responses[attempt].Some? {
        var response := responses[attempt].value;
        assert responses[attempt] in responses;
        var candidate := ReconcileStrict(log, response);
        if candidate.Success? && env.valid(candidate.value) {
          EndsHere(log, responses, env, tries, Tried(candidate));
          return Some(candidate.value);
        }
        if candidate == Failure(MissingKey) {
          EndsHere(log, responses, env, tries, Tried(candidate));
          return None;
        }
        GoesOn(log, responses, env, tries, Tried(candidate));
        tries := tries + [Tried(candidate)];
        if attempt + 1 == |responses| {
          var left := LeaveBehind(log, response, candidate);
          out := Repair(log, left, env);
          EndsAtLast(log, responses, env, tries, out);
          return;
        }
      } else {
        GoesOn(log, responses, env, tries, Silent);
        tries := tries + [Silent];
      }
    }
    EndsAtLast(log, responses, env, tries, None);
    return None;
  }

  // ---- When there is an output ----

  /** Surroundings that accept every reconciled analysis, and can bound it. */
  ghost predicate Lenient(log: Log, env: Surroundings) {
    forall a :: IsReconciled(log, a) && WellFormedAnalysis(a) ==> env.valid(a) && env.compact(a).Some?
  }

  /** No answer before `k` ends in the lookup of a missing key. */
  ghost predicate NoLookupBefore(log: Log, responses: seq<Option<Analysis>>, k: nat)
    requires k <= |responses|
  {
    forall j :: 0 <= j < k && responses[j].Some? ==> !LooksUp(log, responses[j].value)
  }

  /** Some answer can be reconciled, or the last one repaired, before a key is missing. */
  ghost predicate CanProduce(log: Log, responses: seq<Option<Analysis>>) {
    || (exists k: nat :: k < |responses| && Answers(log, responses, k))
    || (responses != [] && responses[|responses| - 1].Some? && NoLookupBefore(log, responses, |responses|)
        && RepairablyOk(log, responses[|responses| - 1].value))
  }

  ghost predicate Answers(log: Log, responses: seq<Option<Analysis>>, k: nat)
    requires k < |responses|
  {
    responses[k].Some? && StrictlyOk(log, responses[k].value) && NoLookupBefore(log, responses, k)
  }

  lemma {:induction false} LenientRepair(log: Log, left: Analysis, env: Surroundings, out: Option<Analysis>)
    requires Reasonable(log, env) && Lenient(log, env) && IsRepair(log, left, env, out)
    ensures out.Some? <==> RepairablyOk(log, left)
  {
    if RepairablyOk(log, left) {
      var repaired :| IsReconciled(log, repaired) && WellFormedAnalysis(repaired) && IsBounded(env, repaired, out);
      SameFactsReconciled(log, repaired, env.compact(repaired).value);
    }
  }

  /** In lenient surroundings an attempt ends the course exactly when it succeeds or looks up
      a missing key. */
  lemma {:induction false} LenientEnds(log: Log, response: Option<Analysis>, env: Surroundings, t: Attempt)
    requires Lenient(log, env) && IsAttempt(log, response, t)
    ensures Ends(env, t) <==> response.Some? && (StrictlyOk(log, response.value) || LooksUp(log, response.value))
  {
    if response.Some? && StrictlyOk(log, response.value) {
      assert t.outcome.Success? && IsReconciled(log, t.outcome.value);
    }
  }

  /** Where every reconciled analysis is accepted, the attempts produce an output exactly when
      the answers allow it. */
  lemma {:induction false} ProducesIff(log: Log, responses: seq<Option<Analysis>>, env: Surroundings,
      out: Option<Analysis>)
    requires WellFormedLog(log) && Reasonable(log, env) && Lenient(log, env) && Explains(log, responses, env, out)
    ensures out.Some? <==> CanProduce(log, responses)
  {
    var tries: seq<Attempt> :| IsCourse(log, responses, env, tries, out);
    var n := |tries| - 1;
    forall k | 0 <= k < |tries|
      ensures Ends(env, tries[k]) <==>
                responses[k].Some? && (StrictlyOk(log, responses[k].value) || LooksUp(log, responses[k].value))
    {
      LenientEnds(log, responses[k], env, tries[k]);
    }
    assert NoLookupBefore(log, responses, if n < 0 then 0 else n);
    if tries != [] && Ends(env, tries[n]) {
      EndedCourse(log, responses, env, tries, out);
    } else {
      UnendedIsUndecided(log, responses, env, tries, out);
      UnendedCourse(log, responses, env, tries, out);
    }
  }

  ghost predicate EndsRight(log: Log, responses: seq<Option<Analysis>>, env: Surroundings, tries: seq<Attempt>) {
    && |tries| <= |responses|
    && forall k :: 0 <= k < |tries| ==>
         (Ends(env, tries[k]) <==>
           responses[k].Some? && (StrictlyOk(log, responses[k].value) || LooksUp(log, responses[k].value)))
  }

  /** After a lookup nothing comes. */
  lemma {:induction false} NothingAfterLookup(log: Log, responses: seq<Option<Analysis>>, n: nat)
    requires n < |responses| && responses[n].Some? && LooksUp(log, responses[n].value)
    requires forall k :: 0 <= k <= n && responses[k].Some? ==> !StrictlyOk(log, responses[k].value)
    ensures !CanProduce(log, responses)
  {
    forall k: nat | k < |responses|
      ensures !Answers(log, responses, k)
    {
      assert k > n ==> !NoLookupBefore(log, responses, k);
    }
    assert !NoLookupBefore(log, responses, |responses|);
  }

  lemma {:induction false} EndedCourse(log: Log, responses: seq<Option<Analysis>>, env: Surroundings,
      tries: seq<Attempt>, out: Option<Analysis>)
    requires WellFormedLog(log) && IsCourse(log, responses, env, tries, out) && EndsRight(log, responses, env, tries)
    requires tries != [] && Ends(env, tries[|tries| - 1])
    ensures out.Some? <==> CanProduce(log, responses)
  {
    var n := |tries| - 1;
    assert IsAttempt(log, responses[n], tries[n]);
    forall k | 0 <= k < n && responses[k].Some?
      ensures !StrictlyOk(log, responses[k].value) && !LooksUp(log, responses[k].value)
    {
      assert !Ends(env, tries[k]);
    }
    if StrictlyOk(log, responses[n].value) {
      assert Answers(log, responses, n);
    } else {
      NothingAfterLookup(log, responses, n);
    }
  }

  lemma {:induction false} LenientLastResort(log: Log, responses: seq<Option<Analysis>>, env: Surroundings,
      tries: seq<Attempt>, out: Option<Analysis>)
    requires Reasonable(log, env) && Lenient(log, env) && |tries| == |responses| != 0
    requires IsAttempt(log, responses[|responses| - 1], tries[|responses| - 1])
    requires IsLastResort(log, responses, env, tries, out)
    requires responses[|responses| - 1].Some? ==> !StrictlyOk(log, responses[|responses| - 1].value)
    ensures out.Some? <==>
              responses[|responses| - 1].Some? && RepairablyOk(log, responses[|responses| - 1].value)
  {
    var n := |responses| - 1;
    if responses[n].Some? {
      var left :| Leaves(log, responses[n].value, tries[n].outcome, left) && IsRepair(log, left, env, out);
      LenientRepair(log, left, env, out);
    }
  }

  /** When nothing ended the course, there was neither a success nor a lookup. */
  lemma {:induction false} UnendedSays(log: Log, responses: seq<Option<Analysis>>, env: Surroundings,
      tries: seq<Attempt>, k: nat)
    requires EndsRight(log, responses, env, tries) && k < |tries| && !Ends(env, tries[k])
    ensures responses[k].Some? ==> !StrictlyOk(log, responses[k].value) && !LooksUp(log, responses[k].value)
  {
  }

  lemma {:induction false} UnendedIsUndecided(log: Log, responses: seq<Option<Analysis>>, env: Surroundings,
      tries: seq<Attempt>, out: Option<Analysis>)
    requires IsCourse(log, responses, env, tries, out) && (tries == [] || !Ends(env, tries[|tries| - 1]))
    ensures Undecided(log, responses, env, tries) && |tries| == |responses|
    ensures IsLastResort(log, responses, env, tries, out)
  {
  }

  lemma {:induction false} UnendedCourse(log: Log, responses: seq<Option<Analysis>>, env: Surroundings,
      tries: seq<Attempt>, out: Option<Analysis>)
    requires Reasonable(log, env) && Lenient(log, env) && EndsRight(log, responses, env, tries)
    requires Undecided(log, responses, env, tries) && |tries| == |responses|
    requires IsLastResort(log, responses, env, tries, out)
    ensures out.Some? <==> CanProduce(log, responses)
  {
    forall k | 0 <= k < |responses| && responses[k].Some?
      ensures !StrictlyOk(log, responses[k].value) && !LooksUp(log, responses[k].value)
    {
      UnendedSays(log, responses, env, tries, k);
    }
    OnlyByRepair(log, responses);
    if responses != [] {
      LenientLastResort(log, responses, env, tries, out);
    }
  }

  lemma {:induction false} OnlyByRepair(log: Log, responses: seq<Option<Analysis>>)
    requires forall k :: 0 <= k < |responses| && responses[k].Some? ==>
               !StrictlyOk(log, responses[k].value) && !LooksUp(log, responses[k].value)
    ensures CanProduce(log, responses) <==>
              && responses != [] && responses[|responses| - 1].Some?
              && RepairablyOk(log, responses[|responses| - 1].value)
  {
  }

  /** A stored artifact is accepted when it is valid, and is valid again once reconciled. */
  ghost predicate IsVerdict(log: Log, stored: Option<Analysis>, env: Surroundings, ok: bool) {
    if stored.None? || !env.valid(stored.value) then !ok else
      exists again :: StrictOutcome(log, stored.value, again) && (ok <==> again.Success? && env.valid(again.value))
  }

  /** Whether a stored artifact is accepted in place of a new inference. */
  method ArtifactExistsAndValid(log: Log, stored: Option<Analysis>, env: Surroundings) returns (ok: bool)
    requires WellFormedLog(log) && Reasonable(log, env)
    requires stored.Some? ==> WellFormedAnalysis(stored.value)
    ensures stored.Some? && IsReconciled(log, stored.value) && env.valid(stored.value) ==> ok
    ensures ok ==> stored.Some? && env.valid(stored.value) && StrictlyOk(log, stored.value)
    ensures IsVerdict(log, stored, env, ok)
  {
    if stored.None? || !env.valid(stored.value) {
      return false;
    }
    var again := ReconcileStrict(log, stored.value);
    return again.Success? && env.valid(again.value);
  }

  /** A worker that crashed after storing an accepted output: its successor accepts it. */
  method CrashAndRecover(log: Log, responses: seq<Option<Analysis>>, env: Surroundings)
    returns (stored: Option<Analysis>, accepted: bool)
    requires WellFormedLog(log) && Reasonable(log, env)
    requires forall r :: r in responses && r.Some? ==> WellFormedAnalysis(r.value)
    ensures accepted <==> stored.Some?
    ensures stored.Some? ==> IsReconciled(log, stored.value) && env.valid(stored.value)
  {
    stored := ProduceOutput(log, responses, env);
    accepted := ArtifactExistsAndValid(log, stored, env);
  }

  /** The same for the validator itself, whatever it checks beside the numbers. */
  method CrashAndRecoverValidated(log: Log, responses: seq<Option<Analysis>>, others: Analysis -> bool,
      compact: Analysis -> Option<Analysis>, hint: Finding -> Option<string>)
    returns (stored: Option<Analysis>, accepted: bool)
    requires WellFormedLog(log) && IgnoresOrder(others)
    requires forall a :: compact(a).Some? ==> SameFacts(a, compact(a).value)
    requires forall r :: r in responses && r.Some? ==> WellFormedAnalysis(r.value)
    ensures accepted <==> stored.Some?
    ensures stored.Some? ==> IsReconciled(log, stored.value) && others(stored.value)
    ensures stored.Some? && stored.value.ByEntry? ==>
              forall f :: f in stored.value.entryReport.findings ==> PassesChecks(f, |log.entries|)
  {
    var env := Surroundings(a => Passes(|log.entries|, others, a), compact, hint);
    ValidatorIsReasonable(log, others, env);
    stored, accepted := CrashAndRecover(log, responses, env);
  }

  // ---- An attempt that cannot be repaired ----

  /** A log with two patterns of one family. */
  function OneFamily(): (log: Log)
    ensures log.stats.order == ["p", "q"] && log.stats.patterns.Keys == {"p", "q"}
    ensures log.stats.patterns["p"].family == log.stats.patterns["q"].family
  {
    Log(Statistics(["p", "q"], map["p" := Pattern("timeout", 1), "q" := Pattern("timeout", 2)], 3), [])
  }

  /** Two findings that cite one of them each. */
  function Divided(): (fs: seq<Finding>)
    ensures |fs| == 2 && fs[0].ids == ["p"] && fs[1].ids == ["q"]
  {
    [Finding("one", ["p"], None, None, []), Finding("two", ["q"], None, None, [])]
  }

  lemma {:induction false} DividedIsAcceptable()
    ensures WellFormedLog(OneFamily()) && Acceptable(OneFamily().stats, false, Divided())
    ensures !FamiliesWhole(OneFamily().stats, Divided())
  {
    var stats, fs := OneFamily().stats, Divided();
    StrippedStrict(stats, fs);
    assert "p"[0] == 'p' && "q"[0] == 'q' && UNQUANTIFIED[0] == 'u' && OTHER[0] == 'o';
    assert fs[0].Quantified() && fs[1].Quantified() by {
      assert fs[0].ids[0] != UNQUANTIFIED && fs[1].ids[0] != UNQUANTIFIED;
    }
    assert forall i, p :: CitedBy(fs, i, p) <==> (i == 0 && p == "p") || (i == 1 && p == "q");
    assert CitedBy(fs, 0, "p") && CitedBy(fs, 1, "q") && Related(stats, "p", "q");
  }

  /** An attempt that succeeds by merging.  Should its result fail a later check, the
      repair of what it leaves fails as well. */
  method MergingAttempt(env: Surroundings) returns (out: Result<Analysis>, left: Analysis, repaired: Option<Analysis>)
    requires Reasonable(OneFamily(), env)
    ensures WellFormedLog(OneFamily()) && out.Success? && IsReconciled(OneFamily(), out.value)
    ensures left.ByPattern? && forall fallback :: !Acceptable(OneFamily().stats, fallback, left.report.findings)
    ensures repaired.None?
  {
    DividedIsAcceptable();
    var log, a := OneFamily(), ByPattern(Report(Divided(), 2));
    out := ReconcileStrict(log, a);
    left := LeaveBehind(log, a, out);
    repaired := Repair(log, left, env);
  }
}
