/** The numbers of the entry pass: counts, occurrences and percentages, against the
    checks that the result validator makes. */
module EntryNumbers {
  import opened Results
  import opened Findings
  import opened Entries
  import opened EntryTheorems

  /** A finding with evidence has every number derived from it. */
  ghost predicate Numbered(entries: seq<Entry>, f: EntryFinding) {
    EvidenceOf(f) != [] ==> f == Quantify(entries, f, f.evidence.ids)
  }

  ghost predicate AllNumbered(entries: seq<Entry>, fs: seq<EntryFinding>) {
    forall i :: 0 <= i < |fs| ==> Numbered(entries, fs[i])
  }

  lemma {:induction false} RecoveredIsNumbered(entries: seq<Entry>, ids: seq<int>, families: seq<string>)
    ensures AllNumbered(entries, Recovered(entries, ids, families))
  {
    if families != [] {
      RecoveredIsNumbered(entries, ids, families[..|families| - 1]);
    }
  }

  lemma {:induction false} ReconciliationIsNumbered(entries: seq<Entry>, fs: seq<EntryFinding>)
    requires Groupable(entries, fs)
    ensures AllNumbered(entries, Reconciliation(entries, fs))
  {
    var loose := Unclaimed(entries, fs);
    RecoveredIsNumbered(entries, loose, FamilyOrder(entries, loose));
    forall i | 0 <= i < |fs|
      ensures Numbered(entries, Grouped(entries, fs, i))
    {
      if fs[i].evidence.Listed? {
        OwnedIffCites(entries, fs, i);
      }
    }
  }

  // ---- Counts ----

  /** The entries held as evidence, in order. */
  ghost function Flat(fs: seq<EntryFinding>): seq<int> {
    if fs == [] then [] else Flat(fs[..|fs| - 1]) + EvidenceOf(fs[|fs| - 1])
  }

  lemma {:induction false} FlatHolds(fs: seq<EntryFinding>, x: int)
    ensures Times(Flat(fs), x) == Held(fs, x)
  {
    if fs != [] {
      FlatHolds(fs[..|fs| - 1], x);
      TimesConcat(Flat(fs[..|fs| - 1]), EvidenceOf(fs[|fs| - 1]), x);
    }
  }

  lemma {:induction false} DistinctSize(s: seq<int>)
    requires Distinct(s)
    ensures |set x | x in s| == |s|
  {
    if s != [] {
      var n := |s| - 1;
      DistinctSize(s[..n]);
      assert (set x | x in s) == (set x | x in s[..n]) + {s[n]};
    }
  }

  lemma {:induction false} LogSize(entries: seq<Entry>)
    ensures |LogIds(entries)| == |entries|
  {
    if entries != [] {
      var n := |entries| - 1;
      LogSize(entries[..n]);
      assert LogIds(entries) == LogIds(entries[..n]) + {n};
    }
  }

  lemma {:induction false} HeldOnceInFlat(entries: seq<Entry>, out: seq<EntryFinding>)
    requires HoldsOnce(entries, out)
    ensures Distinct(Flat(out)) && forall x :: x in Flat(out) <==> x in LogIds(entries)
  {
    var flat := Flat(out);
    forall x
      ensures Times(flat, x) == if InLog(entries, x) then 1 else 0
    {
      FlatHolds(out, x);
    }
    forall j, k | 0 <= j < k < |flat|
      ensures flat[j] != flat[k]
    {
      if flat[j] == flat[k] {
        TwoTimes(flat, j, k);
      }
    }
    forall x
      ensures x in flat <==> x in LogIds(entries)
    {
      OnlyMembers(flat, x);
    }
  }

  /** The evidence lists have as many entries as the log. */
  lemma {:induction false} EvidenceCoversLog(entries: seq<Entry>, out: seq<EntryFinding>)
    requires HoldsOnce(entries, out)
    ensures |Flat(out)| == |entries|
  {
    HeldOnceInFlat(entries, out);
    DistinctSize(Flat(out));
    assert (set x | x in Flat(out)) == LogIds(entries);
    LogSize(entries);
  }

  /** The sum of the counts of the findings with evidence. */
  ghost function CountTotal(fs: seq<EntryFinding>): nat {
    if fs == [] then 0 else
      var f := fs[|fs| - 1];
      CountTotal(fs[..|fs| - 1]) + if EvidenceOf(f) != [] && f.count.Some? then f.count.value else 0
  }

  lemma {:induction false} CountTotalIsSize(entries: seq<Entry>, fs: seq<EntryFinding>)
    requires AllNumbered(entries, fs)
    ensures CountTotal(fs) == |Flat(fs)|
  {
    if fs != [] {
      CountTotalIsSize(entries, fs[..|fs| - 1]);
      assert Numbered(entries, fs[|fs| - 1]);
    }
  }

  /** The counts add up to the size of the log. */
  lemma {:induction false} CountsAddUp(entries: seq<Entry>, fs: seq<EntryFinding>)
    requires Groupable(entries, fs)
    ensures CountTotal(Reconciliation(entries, fs)) == |entries|
  {
    ReconciliationHoldsOnce(entries, fs);
    EvidenceCoversLog(entries, Reconciliation(entries, fs));
    ReconciliationIsNumbered(entries, fs);
    CountTotalIsSize(entries, Reconciliation(entries, fs));
  }

  // ---- Occurrences ----

  /** Between one occurrence and one for each entry. */
  lemma {:induction false} OccurrencesInRange(entries: seq<Entry>, ids: seq<int>)
    ensures OccurrenceCount(entries, ids) <= |ids|
    ensures ids != [] ==> OccurrenceCount(entries, ids) >= 1
  {
    if ids != [] {
      var n := |ids| - 1;
      OccurrencesInRange(entries, ids[..n]);
      var before := set id | id in ids[..n] :: OccurrenceKey(entries, id);
      var all := set id | id in ids :: OccurrenceKey(entries, id);
      assert all == before + {OccurrenceKey(entries, ids[n])};
    }
  }

  predicate HasTrace(entries: seq<Entry>, id: int) {
    InLog(entries, id) && entries[id].trace.Some? && entries[id].trace.value != ""
  }

  /** The distinct traces among the entries `ids`. */
  ghost function TracesOf(entries: seq<Entry>, ids: seq<int>): set<string> {
    set id | id in ids && HasTrace(entries, id) :: entries[id].trace.value
  }

  /** The entries among `ids` without a trace. */
  ghost function Untraced(entries: seq<Entry>, ids: seq<int>): set<int> {
    set id | id in ids && !HasTrace(entries, id)
  }

  ghost function KeysOf(entries: seq<Entry>, ids: seq<int>): set<Key> {
    set id | id in ids :: OccurrenceKey(entries, id)
  }

  /** Entries of one trace count once, entries without one count each. */
  lemma {:induction false} OccurrencesAreTraces(entries: seq<Entry>, ids: seq<int>)
    ensures OccurrenceCount(entries, ids) == |KeysOf(entries, ids)|
    ensures |KeysOf(entries, ids)| == |TracesOf(entries, ids)| + |Untraced(entries, ids)|
  {
    if ids != [] {
      var n := |ids| - 1;
      var front, id := ids[..n], ids[n];
      assert ids == front + [id];
      OccurrencesAreTraces(entries, front);
      OneMoreTrace(entries, front, id);
      KeyIsNew(entries, front, id);
      var keys, key := KeysOf(entries, front), OccurrenceKey(entries, id);
      AddOne(keys, key);
      if HasTrace(entries, id) {
        AddOne(TracesOf(entries, front), entries[id].trace.value);
      } else {
        AddOne(Untraced(entries, front), id);
      }
    }
  }

  lemma {:induction false} AddOne<T>(s: set<T>, x: T)
    ensures |s + {x}| == |s| + if x in s then 0 else 1
  {
    if x in s {
      assert s + {x} == s;
    }
  }

  lemma {:induction false} OneMoreTrace(entries: seq<Entry>, ids: seq<int>, id: int)
    ensures KeysOf(entries, ids + [id]) == KeysOf(entries, ids) + {OccurrenceKey(entries, id)}
    ensures TracesOf(entries, ids + [id]) ==
            TracesOf(entries, ids) + if HasTrace(entries, id) then {entries[id].trace.value} else {}
    ensures Untraced(entries, ids + [id]) == Untraced(entries, ids) + if HasTrace(entries, id) then {} else {id}
  {
  }

  /** A key is met before exactly when its trace, or the entry itself, is. */
  lemma {:induction false} KeyIsNew(entries: seq<Entry>, ids: seq<int>, id: int)
    ensures OccurrenceKey(entries, id) in KeysOf(entries, ids) <==>
            if HasTrace(entries, id) then entries[id].trace.value in TracesOf(entries, ids)
            else id in Untraced(entries, ids)
  {
    if HasTrace(entries, id) {
      if entries[id].trace.value in TracesOf(entries, ids) {
        var i :| i in ids && HasTrace(entries, i) && entries[i].trace.value == entries[id].trace.value;
        assert OccurrenceKey(entries, i) == OccurrenceKey(entries, id);
      }
    } else if id in ids {
      assert id in Untraced(entries, ids);
    }
  }

  /** The numbers of a reconciled finding with evidence: as many physical records as it has
      entries, and as many occurrences as distinct traces and entries without one. */
  lemma {:induction false} NumbersOf(entries: seq<Entry>, fs: seq<EntryFinding>, f: EntryFinding)
    requires Groupable(entries, fs) && f in Reconciliation(entries, fs) && EvidenceOf(f) != []
    ensures f.count == f.physical == Some(|f.evidence.ids|) && |f.patternIds| == 1
    ensures f.occurrences == Some(|TracesOf(entries, f.evidence.ids)| + |Untraced(entries, f.evidence.ids)|)
    ensures f.percentage.Some? && (entries != [] ==>
              -|entries| <= 2 * (f.percentage.value * |entries| - 10000 * |f.evidence.ids|) <= |entries|)
  {
    ReconciliationIsNumbered(entries, fs);
    var i :| 0 <= i < |Reconciliation(entries, fs)| && Reconciliation(entries, fs)[i] == f;
    assert Numbered(entries, f);
    OccurrencesAreTraces(entries, f.evidence.ids);
    if entries != [] {
      PercentageIsNearest(|f.evidence.ids|, |entries|);
    }
  }

  lemma {:induction false} SemanticIdIsInjective(a: string, b: string)
    ensures SemanticId(a) == SemanticId(b) <==> a == b || (a in {"", "finding"} && b in {"", "finding"})
  {
    var n := |"semantic-v1:"|;
    assert SemanticId(a)[n..] == if a == "" then "finding" else a;
    assert SemanticId(b)[n..] == if b == "" then "finding" else b;
  }

  /** Reconciled findings with evidence are told apart by their names alone; one without a
      name passes for one named "finding". */
  lemma {:induction false} IdentityIsByName(entries: seq<Entry>, fs: seq<EntryFinding>, f: EntryFinding,
      g: EntryFinding)
    requires Groupable(entries, fs) && f in Reconciliation(entries, fs) && g in Reconciliation(entries, fs)
    requires EvidenceOf(f) != [] && EvidenceOf(g) != []
    ensures f.patternIds == g.patternIds <==>
              f.name == g.name || (f.name in {"", "finding"} && g.name in {"", "finding"})
  {
    var out := Reconciliation(entries, fs);
    ReconciliationIsNumbered(entries, fs);
    var i :| 0 <= i < |out| && out[i] == f;
    var j :| 0 <= j < |out| && out[j] == g;
    assert Numbered(entries, f) && Numbered(entries, g);
    assert f.patternIds[0] == SemanticId(f.name) && g.patternIds[0] == SemanticId(g.name);
    SemanticIdIsInjective(f.name, g.name);
  }

  // ---- The validator ----

  /** The checks of the result validator on one finding's evidence and numbers; the
      percentages are in hundredths, so the tolerance of 0.01 is one. */
  predicate PassesChecks(f: EntryFinding, total: nat) {
    && (match f.evidence
        case Absent => true
        case Malformed => false
        case Listed(ids) =>
          && ids != [] && (forall id :: id in ids ==> id >= 0)
          && (forall j, k :: 0 <= j < k < |ids| ==> ids[j] != ids[k]))
    && (f.physical.Some? ==> f.physical.value <= total)
    && (f.occurrences.Some? && f.physical.Some? ==> f.occurrences.value <= f.physical.value)
    && if f.patternIds == [UNQUANTIFIED] then f.count.None? && f.percentage.None? else
         && f.count.Some? && f.count.value <= total
         && (f.physical.Some? ==> f.count.value <= f.physical.value)
         && f.percentage.Some? && f.percentage.value <= 10000
         && -1 <= f.percentage.value - Percentage(f.count.value, total) <= 1
  }

  lemma {:induction false} FlatHasPart(fs: seq<EntryFinding>, i: nat)
    requires i < |fs|
    ensures |EvidenceOf(fs[i])| <= |Flat(fs)|
  {
    if i < |fs| - 1 {
      FlatHasPart(fs[..|fs| - 1], i);
    }
  }

  lemma {:induction false} NumberedPasses(entries: seq<Entry>, f: EntryFinding)
    requires Numbered(entries, f) && EvidenceOf(f) != [] && Distinct(EvidenceOf(f)) && |EvidenceOf(f)| <= |entries|
    requires forall id :: id in EvidenceOf(f) ==> InLog(entries, id)
    ensures PassesChecks(f, |entries|)
    ensures f.occurrences.Some? && 1 <= f.occurrences.value <= |EvidenceOf(f)|
  {
    var ids := f.evidence.ids;
    OccurrencesInRange(entries, ids);
    PercentageInRange(|ids|, |entries|);
    assert f.patternIds[0][0] == 's' && UNQUANTIFIED[0] == 'u';
  }

  lemma {:induction false} AllPass(entries: seq<Entry>, out: seq<EntryFinding>, i: nat)
    requires HoldsOnce(entries, out) && AllNumbered(entries, out) && i < |out| && EvidenceOf(out[i]) != []
    ensures PassesChecks(out[i], |entries|)
    ensures out[i].occurrences.Some? && 1 <= out[i].occurrences.value <= |EvidenceOf(out[i])|
  {
    HoldingOncePartitions(entries, out);
    FlatHasPart(out, i);
    EvidenceCoversLog(entries, out);
    NumberedPasses(entries, out[i]);
  }

  /** Every finding with evidence passes the validator's checks. */
  lemma {:induction false} ReconciledPassChecks(entries: seq<Entry>, fs: seq<EntryFinding>, f: EntryFinding)
    requires Groupable(entries, fs) && f in Reconciliation(entries, fs) && EvidenceOf(f) != []
    ensures PassesChecks(f, |entries|)
    ensures f.occurrences.Some? && 1 <= f.occurrences.value <= |EvidenceOf(f)|
  {
    var out := Reconciliation(entries, fs);
    var i :| 0 <= i < |out| && out[i] == f;
    ReconciliationIsNumbered(entries, fs);
    ReconciliationHoldsOnce(entries, fs);
    AllPass(entries, out, i);
  }

  // ---- The percentages together ----

  ghost function PercentageTotal(fs: seq<EntryFinding>): nat {
    if fs == [] then 0 else
      var f := fs[|fs| - 1];
      PercentageTotal(fs[..|fs| - 1]) + if EvidenceOf(f) != [] && f.percentage.Some? then f.percentage.value else 0
  }

  ghost function WithEvidence(fs: seq<EntryFinding>): nat {
    if fs == [] then 0 else WithEvidence(fs[..|fs| - 1]) + if EvidenceOf(fs[|fs| - 1]) != [] then 1 else 0
  }

  /** `2 * |pct * total - 10000 * count| <= n * total`, as two inequalities. */
  ghost predicate Near(pct: nat, count: nat, n: nat, total: nat) {
    -(n * total) <= 2 * (pct * total - 10000 * count) <= n * total
  }

  lemma {:induction false} NearAdds(pct: nat, count: nat, n: nat, more: nat, size: nat, total: nat)
    requires Near(pct, count, n, total) && Near(more, size, 1, total)
    ensures Near(pct + more, count + size, n + 1, total)
  {
    assert (pct + more) * total == pct * total + more * total;
    assert (n + 1) * total == n * total + total;
  }

  lemma {:induction false} PercentagesNear(entries: seq<Entry>, fs: seq<EntryFinding>)
    requires AllNumbered(entries, fs) && entries != []
    ensures Near(PercentageTotal(fs), |Flat(fs)|, WithEvidence(fs), |entries|)
  {
    if fs != [] {
      var n := |fs| - 1;
      var f := fs[n];
      PercentagesNear(entries, fs[..n]);
      if EvidenceOf(f) != [] {
        assert Numbered(entries, f);
        var ids := f.evidence.ids;
        PercentageIsNearest(|ids|, |entries|);
        NearAdds(PercentageTotal(fs[..n]), |Flat(fs[..n])|, WithEvidence(fs[..n]),
                 Percentage(|ids|, |entries|), |ids|, |entries|);
      }
    }
  }

  lemma {:induction false} NearWhole(pct: nat, n: nat, total: nat)
    requires total > 0 && Near(pct, total, n, total)
    ensures -(n as int) <= 2 * (pct - 10000) <= n
  {
    var d := 2 * (pct - 10000);
    assert d * total == 2 * (pct * total - 10000 * total);
    if d > n {
      ScaleUp(total, n, d);
    }
    if d < -(n as int) {
      ScaleUp(total, n, -d);
    }
  }

  /** The n rounded percentages add up to 100 within half a hundredth each. */
  lemma {:induction false} PercentagesAddUp(entries: seq<Entry>, fs: seq<EntryFinding>)
    requires Groupable(entries, fs) && entries != []
    ensures var out := Reconciliation(entries, fs);
            -(WithEvidence(out) as int) <= 2 * (PercentageTotal(out) - 10000) <= WithEvidence(out)
  {
    var out := Reconciliation(entries, fs);
    ReconciliationIsNumbered(entries, fs);
    PercentagesNear(entries, out);
    ReconciliationHoldsOnce(entries, fs);
    EvidenceCoversLog(entries, out);
    NearWhole(PercentageTotal(out), WithEvidence(out), |entries|);
  }
}
