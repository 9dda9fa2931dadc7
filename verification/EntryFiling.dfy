/** Where the entry pass files what no finding claims. */
module EntryFiling {
  import opened CodePointOrder
  import opened Results
  import opened Findings
  import opened Entries
  import opened EntryTheorems
  import opened EntryStability

  /** An entry that none of the given findings owns. */
  ghost predicate Loose(entries: seq<Entry>, fs: seq<EntryFinding>, x: int) {
    InLog(entries, x) && forall i: nat :: i < |fs| ==> x !in EvidenceOf(Grouped(entries, fs, i))
  }

  lemma {:induction false} UnclaimedIsLoose(entries: seq<Entry>, fs: seq<EntryFinding>, x: int)
    requires Groupable(entries, fs)
    ensures x in Unclaimed(entries, fs) <==> Loose(entries, fs, x)
  {
    var grouped := GroupedAll(entries, fs);
    assert grouped[..|fs|] == grouped;
    GroupedHolds(entries, fs, grouped, |fs|, x);
    if x in Claimed(entries, fs, |fs|) {
      var i := SomeHolder(grouped, x);
      assert grouped[i] == Grouped(entries, fs, i);
    } else {
      forall i: nat | i < |fs|
        ensures x !in EvidenceOf(Grouped(entries, fs, i))
      {
        HeldBy(grouped, i, x);
        OnlyMembers(EvidenceOf(grouped[i]), x);
      }
    }
  }

  /** The `k`th recovered finding and its family. */
  ghost predicate Recovers(entries: seq<Entry>, ids: seq<int>, f: EntryFinding, family: string) {
    && family in RECOVERABLE && f.name == "recovered-" + family && f.evidence.Listed?
    && forall x :: x in f.evidence.ids <==> x in ids && InLog(entries, x) && entries[x].family == Some(family)
  }

  lemma {:induction false} RecoverableIsNamed(entries: seq<Entry>, x: int, family: string)
    requires InLog(entries, x) && family in RECOVERABLE
    ensures FamilyKey(entries[x]) == family <==> entries[x].family == Some(family)
  {
    OtherIsNotRecoverable();
  }

  lemma {:induction false} OtherIsNotRecoverable()
    ensures OTHER !in RECOVERABLE
  {
    assert |OTHER| == 5;
    assert forall family :: family in RECOVERABLE ==> |family| > 5;
  }

  lemma {:induction false} RecoveredFrom(entries: seq<Entry>, ids: seq<int>, families: seq<string>, k: nat)
    returns (m: nat)
    requires k < |Recovered(entries, ids, families)|
    ensures m < |families| && Recovers(entries, ids, Recovered(entries, ids, families)[k], families[m])
  {
    var n := |families| - 1;
    if k < |Recovered(entries, ids, families[..n])| {
      m := RecoveredFrom(entries, ids, families[..n], k);
    } else {
      m := n;
      forall x | InLog(entries, x) {
        RecoverableIsNamed(entries, x, families[n]);
      }
    }
  }

  /** Recovered findings come in the order of their families. */
  lemma {:induction false} RecoveredInOrder(entries: seq<Entry>, ids: seq<int>, families: seq<string>, k: nat, l: nat)
    returns (m: nat, n: nat)
    requires k < l < |Recovered(entries, ids, families)|
    ensures m < n < |families|
    ensures Recovers(entries, ids, Recovered(entries, ids, families)[k], families[m])
    ensures Recovers(entries, ids, Recovered(entries, ids, families)[l], families[n])
  {
    var last := |families| - 1;
    if l < |Recovered(entries, ids, families[..last])| {
      m, n := RecoveredInOrder(entries, ids, families[..last], k, l);
    } else {
      m := RecoveredFrom(entries, ids, families[..last], k);
      n := last;
      forall x | InLog(entries, x) {
        RecoverableIsNamed(entries, x, families[n]);
      }
    }
  }

  /** The bucket holds the loose entries of all other families. */
  ghost predicate IsBucket(entries: seq<Entry>, ids: seq<int>, f: EntryFinding) {
    && f.name == "other-observed-log-activity" && f.evidence.Listed?
    && forall x :: x in f.evidence.ids <==>
         x in ids && InLog(entries, x) && (entries[x].family == None || entries[x].family.value !in RECOVERABLE)
  }

  lemma {:induction false} FamiliesAre(entries: seq<Entry>, ids: seq<int>, family: string)
    ensures family in FamilyOrder(entries, ids) <==> exists x :: x in ids && IsOfFamily(entries, x, family)
  {
    if x :| x in ids && IsOfFamily(entries, x, family) {
      OnlyMembers(ids, x);
      FamilyKeysHold(entries, ids, x);
    }
    if family in FamilyOrder(entries, ids) {
      KeysHaveMembers(entries, ids, family);
      var x := OfFamily(entries, ids, family)[0];
      assert x in OfFamily(entries, ids, family) && IsOfFamily(entries, x, family);
    }
  }

  lemma {:induction false} BucketIs(entries: seq<Entry>, ids: seq<int>, f: EntryFinding)
    requires f in Bucket(entries, Rest(entries, ids, FamilyOrder(entries, ids)))
    ensures IsBucket(entries, ids, f)
  {
    var families := FamilyOrder(entries, ids);
    RestIs(entries, ids, families);
    OtherIsNotRecoverable();
    forall x | x in ids && InLog(entries, x)
      ensures FamilyKey(entries[x]) in families
    {
      assert IsOfFamily(entries, x, FamilyKey(entries[x]));
      FamiliesAre(entries, ids, FamilyKey(entries[x]));
    }
  }

  /** Every finding the pass adds holds either all loose entries of one recoverable family,
      or, as the last one, all those of the other families; none is empty. */
  lemma {:induction false} AddedHolds(entries: seq<Entry>, fs: seq<EntryFinding>, i: nat)
    requires Groupable(entries, fs) && |fs| <= i < |Reconciliation(entries, fs)|
    ensures var f, loose := Reconciliation(entries, fs)[i], Unclaimed(entries, fs);
            && EvidenceOf(f) != []
            && ((exists family :: Recovers(entries, loose, f, family))
                || (i == |Reconciliation(entries, fs)| - 1 && IsBucket(entries, loose, f)))
  {
    var loose := Unclaimed(entries, fs);
    var families := FamilyOrder(entries, loose);
    var recovered := Recovered(entries, loose, families);
    var f := Reconciliation(entries, fs)[i];
    if i < |fs| + |recovered| {
      assert f == recovered[i - |fs|];
      var m := RecoveredFrom(entries, loose, families, i - |fs|);
      FamiliesAre(entries, loose, families[m]);
      var x :| x in loose && IsOfFamily(entries, x, families[m]);
      RecoverableIsNamed(entries, x, families[m]);
      assert x in f.evidence.ids;
    } else {
      assert f in Bucket(entries, Rest(entries, loose, families));
      BucketIs(entries, loose, f);
    }
  }

  lemma {:induction false} GroupedComeFirst(entries: seq<Entry>, fs: seq<EntryFinding>, i: nat)
    ensures |fs| <= |Reconciliation(entries, fs)|
    ensures i < |fs| ==> Reconciliation(entries, fs)[i] == Grouped(entries, fs, i)
  {
  }

  /** Every loose entry of a recoverable family is in the finding of that family. */
  lemma {:induction false} LooseIsRecovered(entries: seq<Entry>, fs: seq<EntryFinding>, x: int) returns (i: nat)
    requires Groupable(entries, fs) && Loose(entries, fs, x)
    ensures |fs| <= i < |Reconciliation(entries, fs)| && x in EvidenceOf(Reconciliation(entries, fs)[i])
    ensures var f, family := Reconciliation(entries, fs)[i], FamilyKey(entries[x]);
            if family in RECOVERABLE then Recovers(entries, Unclaimed(entries, fs), f, family)
            else IsBucket(entries, Unclaimed(entries, fs), f)
  {
    EvidencePartitionsLog(entries, fs);
    var out := Reconciliation(entries, fs);
    i :| 0 <= i < |out| && x in EvidenceOf(out[i]);
    GroupedComeFirst(entries, fs, i);
    AddedHolds(entries, fs, i);
    OtherIsNotRecoverable();
  }

  lemma {:induction false} FamilyOrderIsSorted(entries: seq<Entry>, ids: seq<int>)
    ensures InOrder(FamilyOrder(entries, ids)) && NoDuplicates(FamilyOrder(entries, ids))
  {
    SortedIsInOrder(Deduplicated(FamilyKeys(entries, ids)));
  }

  lemma {:induction false} WhereAdded(entries: seq<Entry>, fs: seq<EntryFinding>, j: nat)
    requires |fs| <= j < |Reconciliation(entries, fs)|
    ensures var loose := Unclaimed(entries, fs);
            var recovered := Recovered(entries, loose, FamilyOrder(entries, loose));
            if j < |fs| + |recovered| then Reconciliation(entries, fs)[j] == recovered[j - |fs|]
            else Reconciliation(entries, fs)[j].name == "other-observed-log-activity"
  {
  }

  lemma {:induction false} NamesTellFamily(entries: seq<Entry>, ids: seq<int>, f: EntryFinding, a: string, b: string)
    requires Recovers(entries, ids, f, a)
    ensures f.name != "other-observed-log-activity" && (Recovers(entries, ids, f, b) ==> a == b)
  {
    assert "other-observed-log-activity"[0] == 'o' && ("recovered-" + a)[0] == 'r';
    assert ("recovered-" + a)[|"recovered-"|..] == a && ("recovered-" + b)[|"recovered-"|..] == b;
  }

  /** The recovered findings stand in the code point order of their families. */
  lemma {:induction false} RecoveredBySortedFamily(entries: seq<Entry>, fs: seq<EntryFinding>, i: nat, j: nat,
      a: string, b: string)
    requires Groupable(entries, fs) && |fs| <= i < j < |Reconciliation(entries, fs)|
    requires Recovers(entries, Unclaimed(entries, fs), Reconciliation(entries, fs)[i], a)
    requires Recovers(entries, Unclaimed(entries, fs), Reconciliation(entries, fs)[j], b)
    ensures a != b && Precedes(a, b)
  {
    var loose := Unclaimed(entries, fs);
    WhereAdded(entries, fs, i);
    WhereAdded(entries, fs, j);
    NamesTellFamily(entries, loose, Reconciliation(entries, fs)[i], a, a);
    NamesTellFamily(entries, loose, Reconciliation(entries, fs)[j], b, b);
    var recovered := Recovered(entries, loose, FamilyOrder(entries, loose));
    InFamilyOrder(entries, loose, recovered, i - |fs|, j - |fs|, a, b);
  }

  lemma {:induction false} InFamilyOrder(entries: seq<Entry>, ids: seq<int>, recovered: seq<EntryFinding>, k: nat,
      l: nat, a: string, b: string)
    requires recovered == Recovered(entries, ids, FamilyOrder(entries, ids)) && k < l < |recovered|
    requires Recovers(entries, ids, recovered[k], a) && Recovers(entries, ids, recovered[l], b)
    ensures a != b && Precedes(a, b)
  {
    var families := FamilyOrder(entries, ids);
    var m, n := RecoveredInOrder(entries, ids, families, k, l);
    NamesTellFamily(entries, ids, recovered[k], a, families[m]);
    NamesTellFamily(entries, ids, recovered[l], b, families[n]);
    FamilyOrderIsSorted(entries, ids);
  }

  // ---- The order inside the bucket ----

  /** Entries without a family are filed as "other". */
  function Shelf(e: Entry): string {
    if e.family.Some? then e.family.value else "other"
  }

  /** One after the other: by shelf in code point order, and in log order on one shelf. */
  predicate Follows(entries: seq<Entry>, x: int, y: int) {
    && InLog(entries, x) && InLog(entries, y)
    && if Shelf(entries[x]) == Shelf(entries[y]) then x < y else Precedes(Shelf(entries[x]), Shelf(entries[y]))
  }

  lemma {:induction false} RestInOrder(entries: seq<Entry>, ids: seq<int>, families: seq<string>, j: nat, k: nat)
    requires InOrder(families) && NoDuplicates(families) && InOrderBelow(ids)
    requires j < k < |Rest(entries, ids, families)|
    ensures Follows(entries, Rest(entries, ids, families)[j], Rest(entries, ids, families)[k])
  {
    var n := |families| - 1;
    var front, last := Rest(entries, ids, families[..n]), OfFamily(entries, ids, families[n]);
    OfFamilyKeepsOrder(entries, ids, families[n]);
    if k < |front| {
      RestInOrder(entries, ids, families[..n], j, k);
    } else if j < |front| {
      RestIs(entries, ids, families[..n]);
      var x, y := front[j], last[k - |front|];
      assert x in front && y in last;
      var m :| 0 <= m < n && families[m] == FamilyKey(entries[x]);
    } else {
      var x, y := last[j - |front|], last[k - |front|];
      assert x in last && y in last;
    }
  }

  /** The bucket is filed shelf by shelf. */
  lemma {:induction false} BucketInOrder(entries: seq<Entry>, fs: seq<EntryFinding>, f: EntryFinding, j: nat, k: nat)
    requires f in Bucket(entries, Rest(entries, Unclaimed(entries, fs), FamilyOrder(entries, Unclaimed(entries, fs))))
    requires j < k < |EvidenceOf(f)|
    ensures Follows(entries, EvidenceOf(f)[j], EvidenceOf(f)[k])
  {
    var loose := Unclaimed(entries, fs);
    FamilyOrderIsSorted(entries, loose);
    RestInOrder(entries, loose, FamilyOrder(entries, loose), j, k);
  }
}
