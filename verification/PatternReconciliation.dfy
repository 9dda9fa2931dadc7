/** The pattern path from end to end. */
module PatternReconciliation {
  import opened Results
  import opened Findings
  import opened ValidatePass
  import opened MergePass
  import opened DetailPass
  import opened AttachPass
  import opened AppendPass

  /** Unquantified findings carry no numbers. */
  ghost predicate LooseUnnumbered(stats: Statistics, fs: seq<Finding>) {
    forall i :: 0 <= i < |fs| && !fs[i].Quantified() ==> fs[i] == Measured(stats, fs[i])
  }

  /** The first `n` quantified findings are recounted, the others as they were. */
  ghost predicate Recounted(stats: Statistics, before: seq<Finding>, n: nat, after: seq<Finding>) {
    && |after| == |before|
    && forall i :: 0 <= i < |before| ==>
         after[i] == if i < n && before[i].Quantified() then Measured(stats, before[i]) else before[i]
  }

  /** Recounts every finding from its ids. */
  method Recount(stats: Statistics, r: Report) returns (out: Report)
    requires IsReport(r) && Accounted(stats, r.findings) && LooseUnnumbered(stats, r.findings)
    ensures IsReport(out) && out.keyCount == r.keyCount && Recounted(stats, r.findings, |r.findings|, out.findings)
    ensures Accounted(stats, out.findings) && AllMeasured(stats, out.findings) && Together(r.findings, out.findings)
    ensures forall p :: Cited(out.findings, p) <==> Cited(r.findings, p)
    ensures AllMeasured(stats, r.findings) ==> out == r
  {
    var findings := r.findings;
    for i := 0 to |findings|
      invariant Recounted(stats, r.findings, i, findings)
    {
      if findings[i].Quantified() {
        findings := findings[i := Measured(stats, findings[i])];
      }
    }
    RecountKeepsAccount(stats, r.findings, findings);
    out := Report(findings, r.keyCount);
  }

  lemma {:induction false} RecountKeepsAccount(stats: Statistics, before: seq<Finding>, after: seq<Finding>)
    requires Accounted(stats, before) && LooseUnnumbered(stats, before)
    requires Recounted(stats, before, |before|, after)
    ensures Accounted(stats, after) && AllMeasured(stats, after) && Together(before, after)
    ensures forall p :: Cited(after, p) <==> Cited(before, p)
    ensures AllMeasured(stats, before) ==> after == before
  {
    assert forall i, p :: CitedBy(after, i, p) <==> CitedBy(before, i, p);
    StayTogether(before, after);
    forall i | 0 <= i < |after|
      ensures after[i] == Measured(stats, after[i])
    {
    }
  }

  /** Gives a report without key findings its first secondary one. */
  method Promote(stats: Statistics, r: Report) returns (out: Report)
    requires WellFormed(stats) && Reconciled(stats, r)
    ensures out.findings == r.findings && IsReport(out)
    ensures r.keyCount > 0 ==> out == r
    ensures r.keyCount == 0 ==> out.keyCount == if r.findings == [] then 0 else 1
    ensures (exists p :: p in stats.patterns && p != OTHER) ==> out.keyCount > 0
  {
    if r.keyCount > 0 {
      return r;
    }
    if |r.findings| > 0 {
      return Report(r.findings, 1);
    }
    if exists p :: p in stats.patterns && p != OTHER {
      // The synthetic finding would be appended here; a reconciled report is never so bare.
      assert false;
    }
    return r;
  }

  lemma {:induction false} StillUnnumbered(stats: Statistics, before: seq<Finding>, after: seq<Finding>)
    requires AllMeasured(stats, before)
    requires forall f :: f in after && !f.Quantified() ==> f in before
    ensures LooseUnnumbered(stats, after)
  {
  }

  // ---- Whose text a finding carries, and where omitted patterns go ----

  /** `after` has the ids, texts and places of `before`. */
  ghost predicate SameStory(before: Report, after: Report) {
    && after.keyCount == before.keyCount && |after.findings| == |before.findings|
    && forall i :: 0 <= i < |before.findings| ==>
         after.findings[i].ids == before.findings[i].ids && SameText(after.findings[i], before.findings[i])
  }

  lemma {:induction false} SameStoryKeepsText(r: Report, before: Report, after: Report)
    requires KeepsText(r, before) && SameStory(before, after)
    ensures KeepsText(r, after)
  {
    forall h, i |
      0 <= h < |after.findings| && after.findings[h].Quantified() && FirstTeller(r.findings, i, after.findings[h])
      ensures SameText(after.findings[h], r.findings[i]) && (h < after.keyCount <==> i < r.keyCount)
    {
      assert FirstTeller(r.findings, i, before.findings[h]);
    }
  }

  /** A pattern of `r` is still where it was before appending. */
  lemma {:induction false} OldIsInPlace(stats: Statistics, r: Report, before: Report, after: Report, h: int, p: string)
    requires Appended(stats, before, after) && Exclusive(after.findings)
    requires forall p :: Cited(before.findings, p) <==> Cited(r.findings, p)
    requires CitedBy(after.findings, h, p) && Cited(r.findings, p)
    ensures CitedBy(before.findings, h, p)
  {
    assert Cited(before.findings, p);
    var k :| CitedBy(before.findings, k, p);
    assert Grown(before.findings[k], after.findings[k]);
    assert CitedBy(after.findings, k, p);
  }

  lemma {:induction false} AppendedKeepsText(stats: Statistics, r: Report, before: Report, after: Report)
    requires KeepsText(r, before) && Appended(stats, before, after) && Exclusive(after.findings)
    requires forall p :: Cited(before.findings, p) <==> Cited(r.findings, p)
    ensures KeepsText(r, after)
  {
    forall h, i |
      0 <= h < |after.findings| && after.findings[h].Quantified() && FirstTeller(r.findings, i, after.findings[h])
      ensures SameText(after.findings[h], r.findings[i]) && (h < after.keyCount <==> i < r.keyCount)
    {
      var p :| p in r.findings[i].ids && p in after.findings[h].ids;
      assert CitedBy(r.findings, i, p) && CitedBy(after.findings, h, p);
      OldIsInPlace(stats, r, before, after, h, p);
      assert Grown(before.findings[h], after.findings[h]);
      assert FirstTeller(r.findings, i, before.findings[h]);
    }
  }

  /** Where the appending pass puts a pattern. */
  lemma {:induction false} AppendedIsFiled(stats: Statistics, r: Report, before: Report, after: Report, h: int,
      p: string)
    requires Appended(stats, before, after) && Accounted(stats, after.findings)
    requires forall p :: Cited(before.findings, p) <==> Cited(r.findings, p)
    requires CitedBy(after.findings, h, p) && !Cited(r.findings, p)
    ensures FiledUnder(stats, r, after, h, p)
  {
    assert !CitedBy(before.findings, h, p);
    if q :| Cited(r.findings, q) && Related(stats, p, q) {
      assert Cited(before.findings, q);
      var k :| CitedBy(before.findings, k, q);
      assert Grown(before.findings[k], after.findings[k]);
      assert CitedBy(after.findings, k, q);
    } else if h < |before.findings| {
      assert GainsOwn(stats, before.findings[h], after.findings[h]) && Grown(before.findings[h], after.findings[h]);
      var q :| q in before.findings[h].ids && Related(stats, p, q);
      assert CitedBy(before.findings, h, q);
    } else {
      NewIsOfOneFamily(stats, before, after, h, p);
    }
  }

  lemma {:induction false} NewIsOfOneFamily(stats: Statistics, before: Report, after: Report, h: int, p: string)
    requires Appended(stats, before, after) && |before.findings| <= h && CitedBy(after.findings, h, p)
    ensures forall q :: CitedBy(after.findings, h, q) ==> Related(stats, p, q) && !Cited(before.findings, q)
    ensures p in stats.patterns && after.findings[h].name == "unlabeled-" + stats.patterns[p].family
  {
    var used := UsedBy(before.findings);
    assert IsUnlabeled(stats, used, after.findings[h]);
    var family :| after.findings[h] == Unlabeled(stats, family, OmittedOf(stats, used, family, stats.order));
    assert after.findings[h].ids == OmittedOf(stats, used, family, stats.order);
  }

  lemma {:induction false} AppendedFiles(stats: Statistics, r: Report, before: Report, after: Report)
    requires Appended(stats, before, after) && Accounted(stats, after.findings)
    requires forall p :: Cited(before.findings, p) <==> Cited(r.findings, p)
    ensures OmittedFiled(stats, r, after)
  {
    forall h, p | CitedBy(after.findings, h, p) && !Cited(r.findings, p)
      ensures FiledUnder(stats, r, after, h, p)
    {
      AppendedIsFiled(stats, r, before, after, h, p);
    }
  }

  lemma {:induction false} AccountedIsExclusive(stats: Statistics, fs: seq<Finding>)
    requires Accounted(stats, fs)
    ensures Exclusive(fs)
  {
    assert forall p :: Related(stats, p, p);
  }

  lemma {:induction false} RecountedIsSameStory(stats: Statistics, before: Report, after: Report)
    requires Recounted(stats, before.findings, |before.findings|, after.findings) && after.keyCount == before.keyCount
    ensures SameStory(before, after)
  {
  }

  ghost predicate SameCitations(a: seq<Finding>, b: seq<Finding>) {
    forall p :: Cited(a, p) <==> Cited(b, p)
  }

  /** From the merge to the end of strict mode. */
  lemma {:induction false} StrictKeepsText(stats: Statistics, valid: Report, merged: Report, counted: Report,
      out: Report)
    requires KeepsText(valid, merged) && SameCitations(merged.findings, valid.findings)
    requires Recounted(stats, merged.findings, |merged.findings|, counted.findings)
    requires counted.keyCount == merged.keyCount && SameCitations(counted.findings, merged.findings)
    requires Appended(stats, counted, out) && Accounted(stats, out.findings)
    ensures KeepsText(valid, out) && OmittedFiled(stats, valid, out)
  {
    RecountedIsSameStory(stats, merged, counted);
    SameStoryKeepsText(valid, merged, counted);
    AccountedIsExclusive(stats, out.findings);
    AppendedKeepsText(stats, valid, counted, out);
    AppendedFiles(stats, valid, counted, out);
  }

  // ---- Strict mode after the first pass ----

  /** Every pass but the first, in strict mode. */
  method FinishStrict(stats: Statistics, valid: Report) returns (out: Report)
    requires WellFormed(stats) && IsReport(valid)
    requires CitesKnown(stats, valid.findings) && Exclusive(valid.findings) && AllMeasured(stats, valid.findings)
    ensures Reconciled(stats, out) && Together(valid.findings, out.findings)
    ensures KeepsText(valid, out) && OmittedFiled(stats, valid, out)
    ensures Cited(out.findings, OTHER) <==> Cited(valid.findings, OTHER)
    ensures Reconciled(stats, valid) ==> out == valid
  {
    var merged := MergeFamilies(stats, valid);
    StillUnnumbered(stats, valid.findings, merged.findings);
    var counted := Recount(stats, merged);
    out := AppendOmitted(stats, counted);
    GrownStayTogether(counted.findings, out.findings);
    TogetherIsTransitive(valid.findings, merged.findings, counted.findings);
    TogetherIsTransitive(valid.findings, counted.findings, out.findings);
    StrictKeepsText(stats, valid, merged, counted, out);
  }

  lemma {:induction false} GrownStayTogether(before: seq<Finding>, after: seq<Finding>)
    requires |before| <= |after|
    requires forall i :: 0 <= i < |before| ==> Grown(before[i], after[i])
    ensures Together(before, after)
  {
    assert forall i :: 0 <= i < |before| ==> Grown(before[i], after[i]);
    StayTogether(before, after);
  }

  // ---- What is left of the narratives in fallback mode ----

  /** No unquantified finding is left that hints at one family of the manifest. */
  ghost predicate Unhinted(stats: Statistics, hint: Finding -> Option<string>, fs: seq<Finding>) {
    forall i :: 0 <= i < |fs| && !fs[i].Quantified() ==> Hinted(stats, hint, fs[i]).None?
  }

  /** The narratives of `f` are those of an unquantified finding. */
  ghost predicate FromLoose(fs: seq<Finding>, f: Finding) {
    exists g :: g in fs && !g.Quantified() && g.details == f.details
  }

  /** Findings repeat a distinctive narrative only where one was unquantified at first. */
  ghost predicate Undoubled(fs: seq<Finding>, out: seq<Finding>) {
    forall i, j :: 0 <= i < j < |out| ==> ToldOnce(fs, out[i], out[j])
  }

  ghost predicate ToldOnce(fs: seq<Finding>, f: Finding, g: Finding) {
    (exists text :: Tells(f, text) && Tells(g, text)) ==> FromLoose(fs, f) || FromLoose(fs, g)
  }

  lemma {:induction false} AttachedFrom(stats: Statistics, hint: Finding -> Option<string>, before: seq<Finding>,
      after: seq<Finding>, drop: set<nat>, out: seq<Finding>, a: nat)
    requires Attached(stats, hint, before, after) && Drops(after, drop, out) && a < |out|
    ensures out[a].details == before[Remaining(drop, |after|)[a]].details
    ensures before[Remaining(drop, |after|)[a]].Quantified() || FromLoose(before, out[a])
  {
  }

  lemma {:induction false} PairToldOnce(stats: Statistics, hint: Finding -> Option<string>, before: seq<Finding>,
      after: seq<Finding>, drop: set<nat>, out: seq<Finding>, i: nat, j: nat)
    requires OthersDiffer(before, map[]) && Attached(stats, hint, before, after) && Drops(after, drop, out)
    requires i < j < |out|
    ensures ToldOnce(before, out[i], out[j])
  {
    var at := Remaining(drop, |after|);
    AttachedFrom(stats, hint, before, after, drop, out, i);
    AttachedFrom(stats, hint, before, after, drop, out, j);
    if text :| Tells(out[i], text) && Tells(out[j], text) {
      assert at[i] < at[j] && !(Tells(before[at[i]], text) && Tells(before[at[j]], text));
    }
  }

  lemma {:induction false} AttachedUndoubled(stats: Statistics, hint: Finding -> Option<string>, r: Report, out: Report)
    requires OthersDiffer(r.findings, map[]) && Attaches(stats, hint, r, out)
    ensures Undoubled(r.findings, out.findings)
  {
    var attached: seq<Finding>, drop: set<nat> :| AttachesBy(stats, hint, r, out, attached, drop);
    forall i, j | 0 <= i < j < |out.findings|
      ensures ToldOnce(r.findings, out.findings[i], out.findings[j])
    {
      PairToldOnce(stats, hint, r.findings, attached, drop, out.findings, i, j);
    }
  }

  lemma {:induction false} RecountedDiffer(stats: Statistics, before: seq<Finding>, after: seq<Finding>)
    requires OthersDiffer(before, map[]) && Recounted(stats, before, |before|, after)
    ensures OthersDiffer(after, map[])
    ensures forall f :: f in after && !f.Quantified() ==> f in before
  {
    forall i: nat, j: nat, text | i < |after| && j < |after| && Tells(after[i], text) && Tells(after[j], text)
      ensures i == j
    {
      assert Tells(before[i], text) && Tells(before[j], text);
    }
  }

  lemma {:induction false} AppendedUndoubled(stats: Statistics, used: set<string>, fs: seq<Finding>,
      before: seq<Finding>, after: seq<Finding>)
    requires Undoubled(fs, before) && |before| <= |after|
    requires forall i :: 0 <= i < |before| ==> Grown(before[i], after[i])
    requires forall i :: |before| <= i < |after| ==> IsUnlabeled(stats, used, after[i]) && after[i].Quantified()
    ensures Undoubled(fs, after)
  {
    forall i, j | 0 <= i < j < |after|
      ensures ToldOnce(fs, after[i], after[j])
    {
      if text :| Tells(after[i], text) && Tells(after[j], text) {
        assert j < |before| && Grown(before[i], after[i]) && Grown(before[j], after[j]);
        assert Tells(before[i], text) && Tells(before[j], text);
        assert ToldOnce(fs, before[i], before[j]);
      }
    }
  }

  lemma {:induction false} FewerLoose(fs: seq<Finding>, gs: seq<Finding>, out: seq<Finding>)
    requires Undoubled(gs, out) && forall g :: g in gs && !g.Quantified() ==> g in fs
    ensures Undoubled(fs, out)
  {
    forall i, j | 0 <= i < j < |out|
      ensures ToldOnce(fs, out[i], out[j])
    {
      assert ToldOnce(gs, out[i], out[j]);
    }
  }

  lemma {:induction false} GrownUnhinted(stats: Statistics, hint: Finding -> Option<string>, before: seq<Finding>,
      after: seq<Finding>)
    requires Unhinted(stats, hint, before) && |before| <= |after|
    requires forall i :: 0 <= i < |before| ==> Grown(before[i], after[i])
    requires forall i :: |before| <= i < |after| ==> after[i].Quantified()
    ensures Unhinted(stats, hint, after)
  {
    assert forall i :: 0 <= i < |before| ==> Grown(before[i], after[i]);
  }

  /** Every pass but the first, in fallback mode. */
  method FinishFallback(stats: Statistics, valid: Report, hint: Finding -> Option<string>) returns (out: Report)
    requires WellFormed(stats) && IsReport(valid)
    requires CitesKnown(stats, valid.findings) && Exclusive(valid.findings) && AllMeasured(stats, valid.findings)
    ensures Reconciled(stats, out)
    ensures Unhinted(stats, hint, out.findings) && Undoubled(valid.findings, out.findings)
    ensures (exists p :: p in stats.patterns && p != OTHER) ==> out.keyCount > 0
  {
    var merged := MergeFamilies(stats, valid);
    var distinct, _ := MergeDuplicateDetails(stats, merged);
    StillUnnumbered(stats, valid.findings, distinct.findings);
    var counted := Recount(stats, distinct);
    RecountedDiffer(stats, distinct.findings, counted.findings);
    var attached := AttachUnquantified(stats, counted, hint);
    AttachedUndoubled(stats, hint, counted, attached);
    FewerLoose(valid.findings, counted.findings, attached.findings);
    var whole := AppendOmitted(stats, attached);
    AppendedUndoubled(stats, UsedBy(attached.findings), valid.findings, attached.findings, whole.findings);
    GrownUnhinted(stats, hint, attached.findings, whole.findings);
    out := Promote(stats, whole);
  }

  lemma {:induction false} StrippedStrict(stats: Statistics, fs: seq<Finding>)
    ensures StrippedAll(stats, false, fs) == fs
  {
  }

  /** A reconciled report passes the strict first pass unchanged. */
  lemma {:induction false} ReconciledIsAcceptable(stats: Statistics, r: Report)
    requires Reconciled(stats, r)
    ensures Acceptable(stats, false, r.findings) && Kept(stats, false, r.findings) == r.findings
    ensures |Kept(stats, false, r.findings[..r.keyCount])| == r.keyCount
  {
    StrippedStrict(stats, r.findings);
    StrictKeepsAll(stats, r.findings);
    StrictKeepsAll(stats, r.findings[..r.keyCount]);
    assert forall p :: Related(stats, p, p);
  }

  /** The fallback pass accepts it as well. */
  lemma {:induction false} ReconciledIsRepairable(stats: Statistics, r: Report)
    requires Reconciled(stats, r)
    ensures Acceptable(stats, true, r.findings)
  {
    var fs, stripped := r.findings, StrippedAll(stats, true, r.findings);
    assert forall p :: Related(stats, p, p);
    forall i | 0 <= i < |fs| && fs[i].Quantified()
      ensures stripped[i] == fs[i]
    {
      assert forall p :: p in fs[i].ids ==> CitedBy(fs, i, p);
    }
    forall i | 0 <= i < |fs| && !fs[i].Quantified()
      ensures stripped[i] == fs[i]
    {
    }
    assert stripped == fs;
  }

  lemma {:induction false} StrictIsIdentity(stats: Statistics, r: Report)
    requires IsReport(r)
    ensures Reconciled(stats, r) ==>
              && Acceptable(stats, false, r.findings)
              && Report(Kept(stats, false, r.findings), |Kept(stats, false, r.findings[..r.keyCount])|) == r
  {
    if Reconciled(stats, r) {
      ReconciledIsAcceptable(stats, r);
    }
  }

  lemma {:induction false} StrictKeepsTogether(stats: Statistics, fs: seq<Finding>)
    ensures Together(fs, Kept(stats, false, fs))
    ensures forall p :: Cited(Kept(stats, false, fs), p) <==> Cited(fs, p)
  {
    StrictKeepsAll(stats, fs);
    var kept := Kept(stats, false, fs);
    assert forall i, p :: CitedBy(fs, i, p) <==> CitedBy(kept, i, p);
    StayTogether(fs, kept);
  }

  /** The first pass changes no id and no text in strict mode. */
  lemma {:induction false} ValidIsSameStory(stats: Statistics, r: Report, valid: Report)
    requires IsReport(r) && valid.findings == Kept(stats, false, r.findings)
    requires valid.keyCount == |Kept(stats, false, r.findings[..r.keyCount])|
    ensures SameStory(r, valid)
  {
    StrictKeepsAll(stats, r.findings);
    StrictKeepsAll(stats, r.findings[..r.keyCount]);
  }

  lemma {:induction false} SameStorySameTellers(stats: Statistics, r: Report, valid: Report, out: Report)
    requires SameStory(r, valid) && KeepsText(valid, out) && OmittedFiled(stats, valid, out)
    requires forall p :: Cited(valid.findings, p) <==> Cited(r.findings, p)
    ensures KeepsText(r, out) && OmittedFiled(stats, r, out)
  {
    forall h, i | 0 <= h < |out.findings| && out.findings[h].Quantified() && FirstTeller(r.findings, i, out.findings[h])
      ensures SameText(out.findings[h], r.findings[i]) && (h < out.keyCount <==> i < r.keyCount)
    {
      assert FirstTeller(valid.findings, i, out.findings[h]);
    }
    forall h, p | CitedBy(out.findings, h, p) && !Cited(r.findings, p)
      ensures FiledUnder(stats, r, out, h, p)
    {
      assert FiledUnder(stats, valid, out, h, p);
    }
  }

  /** Reconciles a report whose findings cite patterns.  It raises exactly when the
      citations are unacceptable; otherwise every manifest pattern ends in exactly one
      finding, every family in one finding, and every count is exact.  A reconciled
      report is its own strict reconciliation. */
  method Reconcile(stats: Statistics, r: Report, fallback: bool, hint: Finding -> Option<string>)
    returns (out: Result<Report>)
    requires WellFormed(stats) && IsReport(r)
    ensures out.Success? <==> Acceptable(stats, fallback, r.findings)
    ensures out.Failure? ==> out.error == if LooksUpMarker(stats, fallback, r.findings) then MissingKey else Rejected
    ensures out.Success? ==> Reconciled(stats, out.value)
    ensures out.Success? && !fallback ==> Together(r.findings, out.value.findings)
    ensures out.Success? && !fallback ==> KeepsText(r, out.value) && OmittedFiled(stats, r, out.value)
    ensures out.Success? && !fallback ==> (Cited(out.value.findings, OTHER) <==> Cited(r.findings, OTHER))
    ensures out.Success? && fallback && (exists p :: p in stats.patterns && p != OTHER) ==> out.value.keyCount > 0
    ensures out.Success? && fallback ==>
              && Unhinted(stats, hint, out.value.findings)
              && Undoubled(Kept(stats, true, r.findings), out.value.findings)
    ensures !fallback && Reconciled(stats, r) ==> out == Success(r)
  {
    if !fallback {
      StrictIsIdentity(stats, r);
    }
    var valid := Validate(stats, fallback, r);
    if valid.Failure? {
      return valid;
    }
    KeptCites(stats, fallback, r.findings);
    if fallback {
      var whole := FinishFallback(stats, valid.value, hint);
      out := Success(whole);
    } else {
      StrictKeepsTogether(stats, r.findings);
      var whole := FinishStrict(stats, valid.value);
      ValidIsSameStory(stats, r, valid.value);
      SameStorySameTellers(stats, r, valid.value, whole);
      TogetherIsTransitive(r.findings, valid.value.findings, whole.findings);
      out := Success(whole);
    }
  }
}
