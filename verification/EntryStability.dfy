/** Reconciling a reconciled entry report again: the crash-recovery case. */
module EntryStability {
  import opened Results
  import opened Findings
  import opened Entries
  import opened EntryTheorems
  import opened EntryNumbers

  /** Evidence made of whole families. */
  ghost predicate Closed(entries: seq<Entry>, ids: seq<int>) {
    && (forall a :: a in ids ==> InLog(entries, a))
    && forall a, b :: a in ids && InLog(entries, b) && FamilyKey(entries[b]) == FamilyKey(entries[a]) ==> b in ids
  }

  /** `f` with its evidence in ascending order. */
  function Ordered(entries: seq<Entry>, f: EntryFinding): EntryFinding {
    if f.evidence.Listed? then
      f.(evidence := Listed(SortedBelow(|entries|, set id | id in f.evidence.ids)))
    else f
  }

  lemma {:induction false} WithoutLast(s: seq<int>)
    requires s != [] && InOrderBelow(s)
    ensures s[|s| - 1] in s && forall x :: x in s ==> x <= s[|s| - 1]
    ensures forall x :: x in s[..|s| - 1] <==> x in s && x != s[|s| - 1]
  {
    var n := |s| - 1;
    assert s == s[..n] + [s[n]];
  }

  /** Two ascending lists of the same numbers are one list. */
  lemma {:induction false} AscendingIsUnique(a: seq<int>, b: seq<int>)
    requires InOrderBelow(a) && InOrderBelow(b)
    requires forall x :: x in a <==> x in b
    ensures a == b
  {
    if a != [] {
      WithoutLast(a);
    }
    if b != [] {
      WithoutLast(b);
    }
    if a != [] && b != [] {
      var m, n := |a| - 1, |b| - 1;
      assert a[m] == b[n];
      forall x
        ensures x in a[..m] <==> x in b[..n]
      {
        assert x in a <==> x in b;
      }
      AscendingIsUnique(a[..m], b[..n]);
      assert a == a[..m] + [a[m]] && b == b[..n] + [b[n]];
    }
  }

  lemma {:induction false} SortedIsOrdered(entries: seq<Entry>, f: EntryFinding)
    requires f.evidence.Listed? && InOrderBelow(f.evidence.ids)
    requires forall id :: id in f.evidence.ids ==> InLog(entries, id)
    ensures Ordered(entries, f) == f
  {
    var ids := f.evidence.ids;
    AscendingIsUnique(SortedBelow(|entries|, set id | id in ids), ids);
  }

  // ---- Every evidence list of a reconciled report is closed ----

  lemma {:induction false} GroupedIsClosed(entries: seq<Entry>, fs: seq<EntryFinding>, i: nat)
    requires FamilyComplete(entries) && Groupable(entries, fs) && i < |fs|
    ensures Closed(entries, EvidenceOf(Grouped(entries, fs, i)))
  {
    if fs[i].evidence.Listed? {
      forall id {
        OwnsItsFamilies(entries, fs, i, id);
      }
    } else {
      assert FindingGroupable(entries, fs, i);
    }
  }

  /** What is loose is loose by whole families. */
  lemma {:induction false} LooseIsClosed(entries: seq<Entry>, fs: seq<EntryFinding>)
    requires FamilyComplete(entries) && Groupable(entries, fs)
    ensures Closed(entries, Unclaimed(entries, fs))
  {
    forall a, b | InLog(entries, a) && InLog(entries, b) && FamilyKey(entries[b]) == FamilyKey(entries[a])
      ensures a in Claimed(entries, fs, |fs|) <==> b in Claimed(entries, fs, |fs|)
    {
      ClaimedByEarlier(entries, fs, |fs|, a);
      ClaimedByEarlier(entries, fs, |fs|, b);
      forall k: nat | k < |fs|
        ensures ClaimedBy(entries, fs, k, a) <==> ClaimedBy(entries, fs, k, b)
      {
        ClaimsItsFamilies(entries, fs, k, a);
        ClaimsItsFamilies(entries, fs, k, b);
      }
    }
  }

  /** A finding recovered from loose entries, or the bucket: closed and not empty. */
  ghost predicate Sound(entries: seq<Entry>, f: EntryFinding) {
    f.evidence.Listed? && f.evidence.ids != [] && Closed(entries, f.evidence.ids)
  }

  ghost predicate InOrderBelow(ids: seq<int>) {
    forall j, k :: 0 <= j < k < |ids| ==> ids[j] < ids[k]
  }

  lemma {:induction false} OfFamilyKeepsOrder(entries: seq<Entry>, ids: seq<int>, family: string)
    requires InOrderBelow(ids)
    ensures InOrderBelow(OfFamily(entries, ids, family))
  {
    if ids != [] {
      var n := |ids| - 1;
      OfFamilyKeepsOrder(entries, ids[..n], family);
      var front := OfFamily(entries, ids[..n], family);
      forall k | 0 <= k < |front|
        ensures front[k] < ids[n]
      {
        assert front[k] in front;
      }
    }
  }

  lemma {:induction false} RecoveredIsSound(entries: seq<Entry>, ids: seq<int>, families: seq<string>)
    requires Closed(entries, ids) && InOrderBelow(ids)
    requires forall family :: family in families ==> OfFamily(entries, ids, family) != []
    ensures forall i :: 0 <= i < |Recovered(entries, ids, families)| ==>
              && Sound(entries, Recovered(entries, ids, families)[i])
              && InOrderBelow(Recovered(entries, ids, families)[i].evidence.ids)
  {
    if families != [] {
      var n := |families| - 1;
      assert families[n] in families;
      RecoveredIsSound(entries, ids, families[..n]);
      OfFamilyKeepsOrder(entries, ids, families[n]);
    }
  }

  lemma {:induction false} RestIs(entries: seq<Entry>, ids: seq<int>, families: seq<string>)
    ensures forall x :: x in Rest(entries, ids, families) <==>
              x in ids && InLog(entries, x) && FamilyKey(entries[x]) in families &&
                FamilyKey(entries[x]) !in RECOVERABLE
  {
    if families != [] {
      RestIs(entries, ids, families[..|families| - 1]);
      assert families == families[..|families| - 1] + [families[|families| - 1]];
    }
  }

  lemma {:induction false} KeysHaveMembers(entries: seq<Entry>, ids: seq<int>, family: string)
    requires family in FamilyKeys(entries, ids)
    ensures OfFamily(entries, ids, family) != []
  {
    var n := |ids| - 1;
    assert ids == ids[..n] + [ids[n]];
    if family in FamilyKeys(entries, ids[..n]) {
      KeysHaveMembers(entries, ids[..n], family);
    }
  }

  /** All the findings that recovery adds. */
  function Added(entries: seq<Entry>, fs: seq<EntryFinding>): seq<EntryFinding> {
    var loose := Unclaimed(entries, fs);
    var families := FamilyOrder(entries, loose);
    Recovered(entries, loose, families) + Bucket(entries, Rest(entries, loose, families))
  }

  /** Every added finding holds whole families; only the bucket may be out of order. */
  lemma {:induction false} AddedIsSound(entries: seq<Entry>, fs: seq<EntryFinding>)
    requires FamilyComplete(entries) && Groupable(entries, fs)
    ensures forall i :: 0 <= i < |Added(entries, fs)| ==>
              && Sound(entries, Added(entries, fs)[i])
              && (Added(entries, fs)[i].name != "other-observed-log-activity" ==>
                    InOrderBelow(Added(entries, fs)[i].evidence.ids))
  {
    var loose := Unclaimed(entries, fs);
    var families := FamilyOrder(entries, loose);
    LooseIsClosed(entries, fs);
    forall family | family in families
      ensures OfFamily(entries, loose, family) != []
    {
      KeysHaveMembers(entries, loose, family);
    }
    RecoveredIsSound(entries, loose, families);
    RestIs(entries, loose, families);
  }

  // ---- Reconciling again ----

  lemma {:induction false} SplitReconciliation(entries: seq<Entry>, fs: seq<EntryFinding>)
    ensures Reconciliation(entries, fs) == GroupedAll(entries, fs) + Added(entries, fs)
  {
  }

  /** What a second pass may rely on for each finding. */
  ghost predicate Settled(entries: seq<Entry>, f: EntryFinding) {
    && !f.evidence.Malformed? && Closed(entries, EvidenceOf(f)) && Numbered(entries, f)
    && (f.evidence == Listed([]) ==> f.patternIds == [UNQUANTIFIED] && f.count == None && f.percentage == None)
  }

  lemma {:induction false} GroupedIsSettled(entries: seq<Entry>, fs: seq<EntryFinding>, i: nat)
    requires FamilyComplete(entries) && Groupable(entries, fs) && i < |fs| && Numbered(entries, Grouped(entries, fs, i))
    ensures Settled(entries, Grouped(entries, fs, i))
  {
    GroupedIsClosed(entries, fs, i);
    assert FindingGroupable(entries, fs, i);
  }

  lemma {:induction false} SoundIsSettled(entries: seq<Entry>, f: EntryFinding)
    requires Sound(entries, f) && Numbered(entries, f)
    ensures Settled(entries, f)
  {
  }

  lemma {:induction false} AllSettled(entries: seq<Entry>, fs: seq<EntryFinding>)
    requires FamilyComplete(entries) && Groupable(entries, fs)
    ensures forall i :: 0 <= i < |Reconciliation(entries, fs)| ==> Settled(entries, Reconciliation(entries, fs)[i])
  {
    var out := Reconciliation(entries, fs);
    SplitReconciliation(entries, fs);
    AddedIsSound(entries, fs);
    ReconciliationIsNumbered(entries, fs);
    forall i | 0 <= i < |out|
      ensures Settled(entries, out[i])
    {
      assert Numbered(entries, out[i]);
      if i < |fs| {
        assert out[i] == Grouped(entries, fs, i);
        GroupedIsSettled(entries, fs, i);
      } else {
        assert out[i] == Added(entries, fs)[i - |fs|];
        SoundIsSettled(entries, out[i]);
      }
    }
  }

  lemma {:induction false} ExpansionOfClosed(entries: seq<Entry>, ids: seq<int>)
    requires FamilyComplete(entries) && Closed(entries, ids)
    ensures Expansion(entries, ids) == set id | id in ids
  {
    forall b
      ensures BroughtIn(entries, ids, b) <==> b in ids
    {
      if a :| a in ids && BringsIn(entries, a, b) {
        assert entries[a] in entries;
      }
      if b in ids {
        assert BringsIn(entries, b, b);
      }
    }
  }

  /** A settled partition is acceptable, and each of its findings claims its own evidence. */
  lemma {:induction false} SettledClaims(entries: seq<Entry>, fs: seq<EntryFinding>, i: nat, x: int)
    requires FamilyComplete(entries) && i <= |fs|
    requires forall k :: 0 <= k < |fs| ==> Settled(entries, fs[k])
    ensures x in Claimed(entries, fs, i) <==> exists k :: 0 <= k < i && x in EvidenceOf(fs[k])
  {
    ClaimedByEarlier(entries, fs, i, x);
    forall k: nat | k < i
      ensures ClaimedBy(entries, fs, k, x) <==> x in EvidenceOf(fs[k])
    {
      if fs[k].evidence.Listed? {
        ExpansionOfClosed(entries, fs[k].evidence.ids);
      }
    }
  }

  lemma {:induction false} SettledIsAcceptable(entries: seq<Entry>, fs: seq<EntryFinding>)
    requires FamilyComplete(entries) && Partitions(entries, fs)
    requires forall k :: 0 <= k < |fs| ==> Settled(entries, fs[k])
    ensures Groupable(entries, fs)
  {
    forall i | 0 <= i < |fs|
      ensures FindingGroupable(entries, fs, i)
    {
      assert Settled(entries, fs[i]);
      forall x | x in EvidenceOf(fs[i])
        ensures x !in Claimed(entries, fs, i)
      {
        SettledClaims(entries, fs, i, x);
      }
    }
  }

  lemma {:induction false} SameOccurrences(entries: seq<Entry>, a: seq<int>, b: seq<int>)
    requires forall x :: x in a <==> x in b
    ensures OccurrenceCount(entries, a) == OccurrenceCount(entries, b)
  {
    assert (set id | id in a :: OccurrenceKey(entries, id)) == (set id | id in b :: OccurrenceKey(entries, id));
  }

  lemma {:induction false} SameSize(a: seq<int>, b: seq<int>)
    requires Distinct(a) && Distinct(b) && forall x :: x in a <==> x in b
    ensures |a| == |b|
  {
    DistinctSize(a);
    DistinctSize(b);
    assert (set x | x in a) == (set x | x in b);
  }

  lemma {:induction false} OwnsItsEvidence(entries: seq<Entry>, fs: seq<EntryFinding>, i: nat)
    requires FamilyComplete(entries) && Partitions(entries, fs) && i < |fs| && fs[i].evidence.Listed?
    requires forall k :: 0 <= k < |fs| ==> Settled(entries, fs[k])
    ensures Expansion(entries, fs[i].evidence.ids) - Claimed(entries, fs, i) == set id | id in fs[i].evidence.ids
  {
    var ids := fs[i].evidence.ids;
    ExpansionOfClosed(entries, ids);
    forall x | x in EvidenceOf(fs[i])
      ensures x !in Claimed(entries, fs, i)
    {
      SettledClaims(entries, fs, i, x);
    }
  }

  /** Numbers do not depend on the order of the evidence. */
  lemma {:induction false} SameNumbers(entries: seq<Entry>, f: EntryFinding, a: seq<int>, b: seq<int>)
    requires Distinct(a) && Distinct(b) && forall x :: x in a <==> x in b
    ensures Quantify(entries, f, a) == Quantify(entries, f, b).(evidence := Listed(a))
  {
    SameSize(a, b);
    SameOccurrences(entries, a, b);
  }

  lemma {:induction false} OrderedKeepsNumbers(entries: seq<Entry>, f: EntryFinding)
    requires Numbered(entries, f) && EvidenceOf(f) != [] && Distinct(EvidenceOf(f))
    requires forall id :: id in EvidenceOf(f) ==> InLog(entries, id)
    ensures var owned := SortedBelow(|entries|, set id | id in f.evidence.ids);
            owned != [] && Quantify(entries, f, owned) == Ordered(entries, f)
  {
    var ids := f.evidence.ids;
    var held := set id | id in ids;
    var owned := SortedBelow(|entries|, held);
    forall x
      ensures x in owned <==> x in ids
    {
      assert x in held <==> x in ids;
    }
    assert ids[0] in owned;
    SameNumbers(entries, f, owned, ids);
  }

  /** Regrouping a settled finding only orders its evidence. */
  lemma {:induction false} RegroupedIsOrdered(entries: seq<Entry>, fs: seq<EntryFinding>, i: nat)
    requires FamilyComplete(entries) && Partitions(entries, fs) && i < |fs|
    requires forall k :: 0 <= k < |fs| ==> Settled(entries, fs[k])
    ensures Grouped(entries, fs, i) == Ordered(entries, fs[i])
  {
    assert Settled(entries, fs[i]);
    if fs[i].evidence.Listed? {
      OwnsItsEvidence(entries, fs, i);
      if fs[i].evidence.ids == [] {
        AscendingIsUnique(SortedBelow(|entries|, set id | id in fs[i].evidence.ids), []);
      } else {
        OrderedKeepsNumbers(entries, fs[i]);
      }
    }
  }

  lemma {:induction false} NothingAdded(entries: seq<Entry>, fs: seq<EntryFinding>)
    requires Unclaimed(entries, fs) == []
    ensures Added(entries, fs) == []
  {
    assert FamilyOrder(entries, []) == [];
  }

  /** Nothing is loose once the evidence partitions the log. */
  lemma {:induction false} NothingLoose(entries: seq<Entry>, fs: seq<EntryFinding>)
    requires FamilyComplete(entries) && Partitions(entries, fs)
    requires forall k :: 0 <= k < |fs| ==> Settled(entries, fs[k])
    ensures Unclaimed(entries, fs) == []
  {
    forall x | InLog(entries, x)
      ensures x in Claimed(entries, fs, |fs|)
    {
      SettledClaims(entries, fs, |fs|, x);
    }
    AscendingIsUnique(Unclaimed(entries, fs), []);
  }

  /** A settled report that partitions the log is only put in order. */
  lemma {:induction false} SettledIsOnlyOrdered(entries: seq<Entry>, once: seq<EntryFinding>)
    requires FamilyComplete(entries) && Partitions(entries, once)
    requires forall k :: 0 <= k < |once| ==> Settled(entries, once[k])
    ensures |Reconciliation(entries, once)| == |once|
    ensures forall i :: 0 <= i < |once| ==> Reconciliation(entries, once)[i] == Ordered(entries, once[i])
  {
    NothingLoose(entries, once);
    NothingAdded(entries, once);
    SplitReconciliation(entries, once);
    forall i | 0 <= i < |once|
      ensures Grouped(entries, once, i) == Ordered(entries, once[i])
    {
      RegroupedIsOrdered(entries, once, i);
    }
  }

  /** Reconciling a reconciled report raises nothing and changes at most the order of
      the ids inside the catch-all bucket. */
  lemma {:induction false} RepeatingOnlyOrders(entries: seq<Entry>, fs: seq<EntryFinding>)
    requires FamilyComplete(entries) && Groupable(entries, fs)
    ensures var once := Reconciliation(entries, fs);
            && Groupable(entries, once)
            && |Reconciliation(entries, once)| == |once|
            && (forall i :: 0 <= i < |once| ==> Reconciliation(entries, once)[i] == Ordered(entries, once[i]))
            && (forall i :: 0 <= i < |once| && (i < |fs| || once[i].name != "other-observed-log-activity") ==>
                  Ordered(entries, once[i]) == once[i])
  {
    var once := Reconciliation(entries, fs);
    EvidencePartitionsLog(entries, fs);
    AllSettled(entries, fs);
    SettledIsAcceptable(entries, once);
    SettledIsOnlyOrdered(entries, once);
    forall i | 0 <= i < |once| && (i < |fs| || once[i].name != "other-observed-log-activity")
      ensures Ordered(entries, once[i]) == once[i]
    {
      InOrderOnce(entries, fs, i);
    }
  }

  lemma {:induction false} InOrderOnce(entries: seq<Entry>, fs: seq<EntryFinding>, i: nat)
    requires FamilyComplete(entries) && Groupable(entries, fs) && i < |Reconciliation(entries, fs)|
    requires i < |fs| || Reconciliation(entries, fs)[i].name != "other-observed-log-activity"
    ensures Ordered(entries, Reconciliation(entries, fs)[i]) == Reconciliation(entries, fs)[i]
  {
    var f := Reconciliation(entries, fs)[i];
    SplitReconciliation(entries, fs);
    AllSettled(entries, fs);
    assert Settled(entries, f);
    if f.evidence.Listed? {
      if i < |fs| {
        assert f == Grouped(entries, fs, i);
        assert FindingGroupable(entries, fs, i);
        OwnedIffCites(entries, fs, i);
      } else {
        AddedIsSound(entries, fs);
        assert f == Added(entries, fs)[i - |fs|];
      }
      SortedIsOrdered(entries, f);
    }
  }

  function OrderedAll(entries: seq<Entry>, fs: seq<EntryFinding>): (r: seq<EntryFinding>)
    ensures |r| == |fs|
    ensures forall i :: 0 <= i < |fs| ==> r[i] == Ordered(entries, fs[i])
  {
    seq(|fs|, i requires 0 <= i < |fs| => Ordered(entries, fs[i]))
  }

  /** The same, for a report known only to be some reconciliation. */
  lemma {:induction false} RepeatingOrdersAll(entries: seq<Entry>, fs: seq<EntryFinding>, once: seq<EntryFinding>)
    requires FamilyComplete(entries) && Groupable(entries, fs) && once == Reconciliation(entries, fs)
    ensures Groupable(entries, once) && Reconciliation(entries, once) == OrderedAll(entries, once)
  {
    RepeatingOnlyOrders(entries, fs);
  }

  /** From the second pass on, nothing changes at all. */
  lemma {:induction false} SecondPassIsFixed(entries: seq<Entry>, fs: seq<EntryFinding>)
    requires FamilyComplete(entries) && Groupable(entries, fs)
    ensures var twice := Reconciliation(entries, Reconciliation(entries, fs));
            Groupable(entries, twice) && Reconciliation(entries, twice) == twice
  {
    var once := Reconciliation(entries, fs);
    var twice := Reconciliation(entries, once);
    RepeatingOnlyOrders(entries, fs);
    RepeatingOnlyOrders(entries, once);
    forall i | 0 <= i < |twice|
      ensures Ordered(entries, twice[i]) == twice[i]
    {
    }
  }
}
