/** The first pass: check the cited ids, replace the model's numbers. */
module ValidatePass {
  import opened Results
  import opened Findings

  predicate CitesUnknown(stats: Statistics, ids: seq<string>) {
    exists p :: p in ids && p != UNQUANTIFIED && p !in stats.patterns
  }

  function KnownOnly(stats: Statistics, ids: seq<string>): (r: seq<string>)
    ensures forall p :: p in r <==> p in ids && p in stats.patterns
  {
    if ids == [] then [] else
      var n := |ids| - 1;
      var front := KnownOnly(stats, ids[..n]);
      assert ids == ids[..n] + [ids[n]];
      if ids[n] in stats.patterns then front + [ids[n]] else front
  }

  /** In fallback mode unknown references are stripped; a finding left with none is unquantified. */
  function Stripped(stats: Statistics, fallback: bool, f: Finding): Finding {
    if !fallback || !CitesUnknown(stats, f.ids) then f else
      var known := Deduplicated(KnownOnly(stats, f.ids));
      f.(ids := if known == [] then [UNQUANTIFIED] else known)
  }

  function StrippedAll(stats: Statistics, fallback: bool, fs: seq<Finding>): (r: seq<Finding>)
    ensures |r| == |fs|
    ensures forall i :: 0 <= i < |fs| ==> r[i] == Stripped(stats, fallback, fs[i])
  {
    seq(|fs|, i requires 0 <= i < |fs| => Stripped(stats, fallback, fs[i]))
  }

  /** Exactly when the pass raises nothing. */
  ghost predicate Acceptable(stats: Statistics, fallback: bool, fs: seq<Finding>) {
    var stripped := StrippedAll(stats, fallback, fs);
    CitesKnown(stats, stripped) && Exclusive(stripped)
  }

  predicate HasUnquantified(fs: seq<Finding>) {
    exists i :: 0 <= i < |fs| && !fs[i].Quantified()
  }

  /** What the pass keeps: everything, but in fallback mode one unquantified finding at most. */
  function Kept(stats: Statistics, fallback: bool, fs: seq<Finding>): seq<Finding> {
    if fs == [] then [] else
      var n := |fs| - 1;
      var front := Kept(stats, fallback, fs[..n]);
      var f := Measured(stats, Stripped(stats, fallback, fs[n]));
      if fallback && !f.Quantified() && HasUnquantified(front) then front else front + [f]
  }

  lemma {:induction false} AppendHasUnquantified(fs: seq<Finding>, f: Finding)
    ensures HasUnquantified(fs + [f]) <==> HasUnquantified(fs) || !f.Quantified()
  {
    var grown := fs + [f];
    if i :| 0 <= i < |fs| && !fs[i].Quantified() {
      assert grown[i] == fs[i];
    }
    assert grown[|fs|] == f;
  }

  /** Keeping drops no citation and adds none. */
  lemma {:induction false} KeptCites(stats: Statistics, fallback: bool, fs: seq<Finding>)
    requires Acceptable(stats, fallback, fs)
    ensures var kept := Kept(stats, fallback, fs);
            CitesKnown(stats, kept) && Exclusive(kept) && AllMeasured(stats, kept)
    ensures forall p :: Cited(Kept(stats, fallback, fs), p) <==> Cited(StrippedAll(stats, fallback, fs), p)
  {
    if fs != [] {
      var n := |fs| - 1;
      var front, stripped := fs[..n], StrippedAll(stats, fallback, fs);
      var frontStripped := StrippedAll(stats, fallback, front);
      assert frontStripped == stripped[..n];
      assert forall i, p :: CitedBy(frontStripped, i, p) ==> CitedBy(stripped, i, p);
      KeptCites(stats, fallback, front);
      AppendCites(stripped[..n], stripped[n]);
      assert stripped == stripped[..n] + [stripped[n]];
      var f := Measured(stats, stripped[n]);
      AppendCites(Kept(stats, fallback, front), f);
      if f.Quantified() {
        forall p | p in f.ids
          ensures !Cited(frontStripped, p)
        {
          assert CitedBy(stripped, n, p);
        }
      }
    }
  }

  /** Stripping leaves a finding without unknown ids alone, and of the others the known
      ids, once each; only one that cites nothing known becomes unquantified. */
  lemma {:induction false} WhatStrippingLeaves(stats: Statistics, f: Finding)
    requires WellFormed(stats)
    ensures var g := Stripped(stats, true, f);
            if exists p :: p in f.ids && p != UNQUANTIFIED && p !in stats.patterns then
              && g == f.(ids := g.ids) && NoDuplicates(g.ids)
              && if exists p :: p in f.ids && p in stats.patterns then
                   forall p :: p in g.ids <==> p in f.ids && p in stats.patterns
                 else !g.Quantified()
            else g == f
  {
    if CitesUnknown(stats, f.ids) {
      var known := Deduplicated(KnownOnly(stats, f.ids));
      if p :| p in f.ids && p in stats.patterns {
        assert p in known;
      }
      assert known != [] ==> known[0] in known;
    }
  }

  /** What the pass keeps in fallback mode cites exactly the known ids that were cited. */
  lemma {:induction false} FallbackCites(stats: Statistics, fs: seq<Finding>, p: string)
    requires WellFormed(stats) && Acceptable(stats, true, fs)
    ensures Cited(Kept(stats, true, fs), p) <==> Cited(fs, p) && p in stats.patterns
  {
    KeptCites(stats, true, fs);
    var stripped := StrippedAll(stats, true, fs);
    if i :| CitedBy(fs, i, p) && p in stats.patterns {
      StrippedCites(stats, fs[i], p);
      assert CitedBy(stripped, i, p);
    }
    if i :| CitedBy(stripped, i, p) {
      StrippedCites(stats, fs[i], p);
      assert CitedBy(fs, i, p);
    }
  }

  lemma {:induction false} StrippedCites(stats: Statistics, f: Finding, p: string)
    requires WellFormed(stats) && p in stats.patterns
    ensures Stripped(stats, true, f).Quantified() && p in Stripped(stats, true, f).ids <==> f.Quantified() && p in f.ids
  {
    assert p in KnownOnly(stats, f.ids) <==> p in f.ids;
    assert [UNQUANTIFIED][0] != p;
  }

  lemma {:induction false} StrictKeepsAll(stats: Statistics, fs: seq<Finding>)
    ensures |Kept(stats, false, fs)| == |fs|
    ensures forall i :: 0 <= i < |fs| ==> Kept(stats, false, fs)[i] == Measured(stats, fs[i])
  {
    if fs != [] {
      StrictKeepsAll(stats, fs[..|fs| - 1]);
    }
  }

  /** `f` cites known patterns once each, and none that `fs` cites. */
  ghost predicate Addable(stats: Statistics, fs: seq<Finding>, f: Finding) {
    f.Quantified() ==>
      NoDuplicates(f.ids) && forall p :: p in f.ids ==> p in stats.patterns && !Cited(fs, p)
  }

  lemma {:induction false} AddOne(stats: Statistics, fs: seq<Finding>, f: Finding)
    requires CitesKnown(stats, fs) && Exclusive(fs)
    ensures CitesKnown(stats, fs + [f]) && Exclusive(fs + [f]) <==> Addable(stats, fs, f)
  {
    var grown := fs + [f];
    AppendCites(fs, f);
    if f.Quantified() && CitesKnown(stats, grown) && Exclusive(grown) {
      assert grown[|fs|] == f;
      forall p | p in f.ids
        ensures p in stats.patterns && !Cited(fs, p)
      {
        assert CitedBy(grown, |fs|, p);
        assert forall i :: CitedBy(fs, i, p) ==> CitedBy(grown, i, p);
      }
    }
  }

  lemma {:induction false} StrippedStep(stats: Statistics, fallback: bool, fs: seq<Finding>, i: nat)
    requires i < |fs|
    ensures StrippedAll(stats, fallback, fs[..i + 1]) ==
            StrippedAll(stats, fallback, fs[..i]) + [Stripped(stats, fallback, fs[i])]
  {
  }

  /** A prefix of an acceptable report is acceptable. */
  lemma {:induction false} AcceptablePrefix(stats: Statistics, fallback: bool, fs: seq<Finding>, i: nat)
    requires i <= |fs| && Acceptable(stats, fallback, fs)
    ensures Acceptable(stats, fallback, fs[..i])
  {
    var whole, part := StrippedAll(stats, fallback, fs), StrippedAll(stats, fallback, fs[..i]);
    assert part == whole[..i];
    assert forall j, p :: CitedBy(part, j, p) ==> CitedBy(whole, j, p);
  }

  /** How acceptance and citations grow by one finding. */
  lemma {:induction false} PrefixStep(stats: Statistics, fallback: bool, fs: seq<Finding>, i: nat)
    requires i < |fs| && Acceptable(stats, fallback, fs[..i])
    ensures var before, f := StrippedAll(stats, fallback, fs[..i]), Stripped(stats, fallback, fs[i]);
            && (Acceptable(stats, fallback, fs[..i + 1]) <==> Addable(stats, before, f))
            && (forall p :: Cited(StrippedAll(stats, fallback, fs[..i + 1]), p) <==>
                  Cited(before, p) || (f.Quantified() && p in f.ids))
    ensures fs[..i + 1][..i] == fs[..i]
  {
    StrippedStep(stats, fallback, fs, i);
    AddOne(stats, StrippedAll(stats, fallback, fs[..i]), Stripped(stats, fallback, fs[i]));
    AppendCites(StrippedAll(stats, fallback, fs[..i]), Stripped(stats, fallback, fs[i]));
  }

  /** The first `i` findings are acceptable and `used` is what they cite. */
  ghost predicate Checked(stats: Statistics, fallback: bool, fs: seq<Finding>, i: nat, used: set<string>) {
    && i <= |fs|
    && Acceptable(stats, fallback, fs[..i])
    && forall p :: p in used <==> Cited(StrippedAll(stats, fallback, fs[..i]), p)
  }

  ghost predicate Claimable(stats: Statistics, ids: seq<string>, used: set<string>) {
    NoDuplicates(ids) && forall p :: p in ids ==> p in stats.patterns && p !in used
  }

  lemma {:induction false} CheckOne(stats: Statistics, fallback: bool, fs: seq<Finding>, i: nat, used: set<string>)
    requires i < |fs| && Checked(stats, fallback, fs, i, used)
    ensures var f := Stripped(stats, fallback, fs[i]);
            if !f.Quantified() then Checked(stats, fallback, fs, i + 1, used)
            else if Claimable(stats, f.ids, used) then Checked(stats, fallback, fs, i + 1, used + set p | p in f.ids)
            else !Acceptable(stats, fallback, fs)
  {
    PrefixStep(stats, fallback, fs, i);
    if Acceptable(stats, fallback, fs) {
      AcceptablePrefix(stats, fallback, fs, i + 1);
    }
  }

  /** What the first `i` findings leave, and how many of those are key findings. */
  ghost predicate KeptSoFar(stats: Statistics, fallback: bool, r: Report, i: nat, kept: seq<Finding>, keyCount: nat,
      seen: bool) {
    && i <= |r.findings| && IsReport(r)
    && kept == Kept(stats, fallback, r.findings[..i])
    && keyCount == |Kept(stats, fallback, r.findings[..if i < r.keyCount then i else r.keyCount])| <= |kept|
    && (seen <==> HasUnquantified(kept))
  }

  lemma {:induction false} KeepOne(stats: Statistics, fallback: bool, r: Report, i: nat, kept: seq<Finding>,
      keyCount: nat, seen: bool)
    requires i < |r.findings| && KeptSoFar(stats, fallback, r, i, kept, keyCount, seen)
    ensures var f := Stripped(stats, fallback, r.findings[i]);
            if fallback && seen && !f.Quantified() then KeptSoFar(stats, fallback, r, i + 1, kept, keyCount, seen)
            else KeptSoFar(stats, fallback, r, i + 1, kept + [Measured(stats, f)],
                           if i < r.keyCount then keyCount + 1 else keyCount, seen || !f.Quantified())
  {
    assert r.findings[..i + 1][..i] == r.findings[..i];
    AppendHasUnquantified(kept, Measured(stats, Stripped(stats, fallback, r.findings[i])));
  }

  // ---- Which error is raised ----

  /** Claimable but for the marker, which is looked up among the patterns at last. */
  ghost predicate ClaimableBut(stats: Statistics, ids: seq<string>, used: set<string>) {
    && UNQUANTIFIED in ids
    && (forall p :: p in ids ==> p == UNQUANTIFIED || (p in stats.patterns && p !in used))
    && (forall a, b :: 0 <= a < b < |ids| && ids[a] != UNQUANTIFIED ==> ids[a] != ids[b])
  }

  /** Finding `n` mixes the marker with ids that could be claimed after the earlier findings. */
  ghost predicate MarkerAt(stats: Statistics, fallback: bool, fs: seq<Finding>, n: nat)
    requires n < |fs|
  {
    var before, f := StrippedAll(stats, fallback, fs[..n]), Stripped(stats, fallback, fs[n]);
    && Acceptable(stats, fallback, fs[..n]) && f.Quantified() && UNQUANTIFIED in f.ids
    && (forall p :: p in f.ids ==> p == UNQUANTIFIED || (p in stats.patterns && !Cited(before, p)))
    && (forall a, b :: 0 <= a < b < |f.ids| && f.ids[a] != UNQUANTIFIED ==> f.ids[a] != f.ids[b])
  }

  /** The pass ends in the lookup of the marker. */
  ghost predicate LooksUpMarker(stats: Statistics, fallback: bool, fs: seq<Finding>) {
    exists n :: 0 <= n < |fs| && MarkerAt(stats, fallback, fs, n)
  }

  lemma {:induction false} MarkerIsUnacceptable(stats: Statistics, fallback: bool, fs: seq<Finding>, n: nat)
    requires WellFormed(stats) && n < |fs| && MarkerAt(stats, fallback, fs, n)
    ensures !Acceptable(stats, fallback, fs[..n + 1])
  {
    PrefixStep(stats, fallback, fs, n);
  }

  /** Only the first finding that cannot be accepted can end the pass. */
  lemma {:induction false} FirstBadDecides(stats: Statistics, fallback: bool, fs: seq<Finding>, i: nat)
    requires WellFormed(stats) && i < |fs|
    requires Acceptable(stats, fallback, fs[..i]) && !Acceptable(stats, fallback, fs[..i + 1])
    ensures LooksUpMarker(stats, fallback, fs) <==> MarkerAt(stats, fallback, fs, i)
  {
    forall n | 0 <= n < |fs| && MarkerAt(stats, fallback, fs, n)
      ensures n == i
    {
      MarkerIsUnacceptable(stats, fallback, fs, n);
      if n < i {
        assert fs[..i][..n + 1] == fs[..n + 1];
        AcceptablePrefix(stats, fallback, fs[..i], n + 1);
      }
      if n > i {
        assert fs[..n][..i + 1] == fs[..i + 1];
        AcceptablePrefix(stats, fallback, fs[..n], i + 1);
      }
    }
  }

  lemma {:induction false} AcceptableHasNoMarker(stats: Statistics, fallback: bool, fs: seq<Finding>)
    requires WellFormed(stats) && Acceptable(stats, fallback, fs)
    ensures !LooksUpMarker(stats, fallback, fs)
  {
    forall n | 0 <= n < |fs|
      ensures !MarkerAt(stats, fallback, fs, n)
    {
      AcceptablePrefix(stats, fallback, fs, n + 1);
      if MarkerAt(stats, fallback, fs, n) {
        MarkerIsUnacceptable(stats, fallback, fs, n);
      }
    }
  }

  lemma {:induction false} BadFindingEnds(stats: Statistics, fallback: bool, fs: seq<Finding>, i: nat,
      used: set<string>)
    requires WellFormed(stats) && i < |fs| && Checked(stats, fallback, fs, i, used)
    requires Stripped(stats, fallback, fs[i]).Quantified()
    requires !Claimable(stats, Stripped(stats, fallback, fs[i]).ids, used)
    ensures LooksUpMarker(stats, fallback, fs) <==> ClaimableBut(stats, Stripped(stats, fallback, fs[i]).ids, used)
  {
    PrefixStep(stats, fallback, fs, i);
    FirstBadDecides(stats, fallback, fs, i);
  }

  /** Claims `ids` one by one; rejects an unknown id, a second use, and a stray marker. */
  method ClaimIds(stats: Statistics, ids: seq<string>, used: set<string>) returns (out: Result<set<string>>)
    requires WellFormed(stats)
    ensures out.Success? <==> Claimable(stats, ids, used)
    ensures out.Success? ==> out.value == used + set p | p in ids
    ensures out == Failure(MissingKey) <==> ClaimableBut(stats, ids, used)
    ensures out.Failure? ==> out.error == MissingKey || out.error == Rejected
  {
    var claimed := used;
    for k := 0 to |ids|
      invariant forall p :: p in ids[..k] ==> p == UNQUANTIFIED || (p in stats.patterns && p !in used)
      invariant forall a, b :: 0 <= a < b < k && ids[a] != UNQUANTIFIED ==> ids[a] != ids[b]
      invariant claimed == used + set p | p in ids[..k] && p != UNQUANTIFIED
    {
      assert ids[..k + 1] == ids[..k] + [ids[k]];
      if ids[k] == UNQUANTIFIED {
        continue;
      }
      if ids[k] !in stats.patterns {
        return Failure(Rejected);
      }
      if ids[k] in claimed {
        return Failure(Rejected);
      }
      claimed := claimed + {ids[k]};
    }
    assert ids[..|ids|] == ids;
    if UNQUANTIFIED in ids {
      return Failure(MissingKey);
    }
    return Success(claimed);
  }

  /** Checks every citation, strips or rejects unknown ones, and recounts each finding. */
  method Validate(stats: Statistics, fallback: bool, r: Report) returns (out: Result<Report>)
    requires WellFormed(stats) && IsReport(r)
    ensures out.Success? <==> Acceptable(stats, fallback, r.findings)
    ensures out.Failure? ==> out.error == if LooksUpMarker(stats, fallback, r.findings) then MissingKey else Rejected
    ensures out.Success? ==>
              && IsReport(out.value)
              && out.value.findings == Kept(stats, fallback, r.findings)
              && out.value.keyCount == |Kept(stats, fallback, r.findings[..r.keyCount])|
  {
    var used: set<string> := {};
    var unquantifiedSeen := false;
    var kept: seq<Finding> := [];
    var keyCount := 0;
    for i := 0 to |r.findings|
      invariant Checked(stats, fallback, r.findings, i, used)
      invariant KeptSoFar(stats, fallback, r, i, kept, keyCount, unquantifiedSeen)
    {
      var finding := Stripped(stats, fallback, r.findings[i]);
      CheckOne(stats, fallback, r.findings, i, used);
      KeepOne(stats, fallback, r, i, kept, keyCount, unquantifiedSeen);
      if finding.Quantified() {
        var claimed := ClaimIds(stats, finding.ids, used);
        if claimed.Failure? {
          BadFindingEnds(stats, fallback, r.findings, i, used);
          return Failure(claimed.error);
        }
        used := claimed.value;
      } else if unquantifiedSeen && fallback {
        continue;
      } else {
        unquantifiedSeen := true;
      }
      kept := kept + [Measured(stats, finding)];
      if i < r.keyCount {
        keyCount := keyCount + 1;
      }
    }
    assert r.findings[..|r.findings|] == r.findings;
    out := Success(Report(kept, keyCount));
  }
}
