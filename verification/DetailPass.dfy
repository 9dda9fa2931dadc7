/** The third pass, in fallback mode only: findings with the same narrative are
    one finding.  Ids handed to a finding that is itself a duplicate are lost
    here; the last pass restores them. */
module DetailPass {
  import opened Findings

  const DISTINCTIVE := 32

  /** A narrative long enough to identify a finding. */
  ghost predicate Tells(f: Finding, text: string) {
    f.Quantified() && text in f.details && |text| >= DISTINCTIVE
  }

  /** `owner` of each duplicate: an earlier quantified finding with a common narrative. */
  ghost predicate IsDuplicates(fs: seq<Finding>, owner: map<nat, nat>) {
    forall i :: i in owner ==> Repeats(fs, i, owner[i])
  }

  ghost predicate Repeats(fs: seq<Finding>, i: nat, o: nat) {
    && o < i < |fs| && fs[i].Quantified() && fs[o].Quantified()
    && exists text :: Tells(fs[i], text) && Tells(fs[o], text)
  }

  /** No two findings outside `owner` share a distinctive narrative. */
  ghost predicate OthersDiffer(fs: seq<Finding>, owner: map<nat, nat>) {
    forall i: nat, j: nat, text ::
      i < |fs| && j < |fs| && i !in owner && j !in owner && Tells(fs[i], text) && Tells(fs[j], text) ==> i == j
  }

  // ---- Who owns a narrative ----

  /** Finding `j` is the first to register `text`: it has it as a distinctive narrative, and
      neither that one nor any of its earlier ones belongs to a finding before `j`. */
  ghost predicate Owns(fs: seq<Finding>, j: nat, text: string)
    decreases j
  {
    && j < |fs| && fs[j].Quantified()
    && |text| >= DISTINCTIVE
    && exists d :: 0 <= d < |fs[j].details| && fs[j].details[d] == text && FreeUpTo(fs, j, d + 1)
  }

  /** The first `n` distinctive narratives of finding `j` belong to no finding before it. */
  ghost predicate FreeUpTo(fs: seq<Finding>, j: nat, n: nat)
    requires j < |fs| && n <= |fs[j].details|
    decreases j, 0
  {
    forall e, i: nat :: 0 <= e < n && |fs[j].details[e]| >= DISTINCTIVE && i < j ==> !Owns(fs, i, fs[j].details[e])
  }

  /** The first narrative of `i` that belongs to an earlier finding belongs to `o`. */
  ghost predicate FirstOwner(fs: seq<Finding>, i: nat, o: nat) {
    && o < i < |fs| && fs[i].Quantified()
    && exists d :: 0 <= d < |fs[i].details| && FreeUpTo(fs, i, d) && |fs[i].details[d]| >= DISTINCTIVE
                   && Owns(fs, o, fs[i].details[d])
  }

  /** Registers the narratives of finding `i`, stopping at one that another finding owns. */
  method Register(fs: seq<Finding>, i: nat, telling: map<string, nat>)
    returns (telling': map<string, nat>, duplicateOf: int)
    requires i < |fs| && fs[i].Quantified() && IsRegister(fs, telling, i)
    ensures IsRegister(fs, telling', i + 1)
    ensures -1 <= duplicateOf < i
    ensures duplicateOf >= 0 ==> FirstOwner(fs, i, duplicateOf)
    ensures duplicateOf == -1 ==> FreeUpTo(fs, i, |fs[i].details|)
  {
    telling', duplicateOf := telling, -1;
    for d := 0 to |fs[i].details|
      invariant FreeUpTo(fs, i, d) && Registering(fs, telling, i, d, telling')
    {
      var text := fs[i].details[d];
      if |text| >= DISTINCTIVE {
        if text in telling' && telling'[text] != i {
          duplicateOf := telling'[text];
          StoppedRegister(fs, telling, i, d, telling');
          return;
        }
        telling' := telling'[text := i];
      }
    }
    StoppedRegister(fs, telling, i, |fs[i].details|, telling');
  }

  /** `telling` names the owner of each narrative that a finding before `n` owns. */
  ghost predicate IsRegister(fs: seq<Finding>, telling: map<string, nat>, n: nat) {
    && (forall text :: text in telling ==> telling[text] < n && Owns(fs, telling[text], text))
    && (forall j: nat, text :: j < n && Owns(fs, j, text) ==> text in telling && telling[text] == j)
  }

  /** After the first `d` narratives of finding `i`. */
  ghost predicate Registering(fs: seq<Finding>, telling: map<string, nat>, i: nat, d: nat, telling': map<string, nat>)
    requires i < |fs| && d <= |fs[i].details|
  {
    && (forall text :: text in telling ==> text in telling' && telling'[text] == telling[text])
    && (forall text :: text in telling' && text !in telling ==> telling'[text] == i && TellsBefore(fs[i], d, text))
    && (forall e :: 0 <= e < d && |fs[i].details[e]| >= DISTINCTIVE ==>
          fs[i].details[e] in telling' && telling'[fs[i].details[e]] == i)
  }

  ghost predicate TellsBefore(f: Finding, d: nat, text: string)
    requires d <= |f.details|
  {
    exists e :: 0 <= e < d && f.details[e] == text && |text| >= DISTINCTIVE
  }

  lemma {:induction false} OwnsBeforeStop(fs: seq<Finding>, i: nat, d: nat, o: nat, text: string)
    requires i < |fs| && d < |fs[i].details| && |fs[i].details[d]| >= DISTINCTIVE
    requires o < i && Owns(fs, o, fs[i].details[d]) && Owns(fs, i, text)
    ensures TellsBefore(fs[i], d, text)
  {
    var e :| 0 <= e < |fs[i].details| && fs[i].details[e] == text && FreeUpTo(fs, i, e + 1);
  }

  /** Stopping where the next distinctive narrative is owned, or there is none. */
  lemma {:induction false} StoppedRegister(fs: seq<Finding>, telling: map<string, nat>, i: nat, d: nat,
      telling': map<string, nat>)
    requires i < |fs| && fs[i].Quantified() && IsRegister(fs, telling, i) && d <= |fs[i].details|
    requires FreeUpTo(fs, i, d) && Registering(fs, telling, i, d, telling')
    requires d < |fs[i].details| ==> |fs[i].details[d]| >= DISTINCTIVE && fs[i].details[d] in telling
    ensures IsRegister(fs, telling', i + 1)
  {
    forall text | text in telling' && text !in telling
      ensures Owns(fs, i, text)
    {
      var e :| 0 <= e < d && fs[i].details[e] == text && |text| >= DISTINCTIVE;
      assert FreeUpTo(fs, i, e + 1);
    }
    forall text | Owns(fs, i, text)
      ensures text in telling' && telling'[text] == i
    {
      if d < |fs[i].details| {
        OwnsBeforeStop(fs, i, d, telling[fs[i].details[d]], text);
      } else {
        var e :| 0 <= e < |fs[i].details| && fs[i].details[e] == text && |text| >= DISTINCTIVE;
      }
    }
  }

  /** The duplicates among the first `n` findings: those one of whose narratives belongs
      to an earlier one. */
  ghost predicate DuplicatesUpTo(fs: seq<Finding>, owner: map<nat, nat>, n: nat) {
    n <= |fs| && (forall i :: i in owner ==> i < n) && forall i: nat :: i < n ==> Marked(fs, owner, i)
  }

  ghost predicate Marked(fs: seq<Finding>, owner: map<nat, nat>, i: nat)
    requires i < |fs|
  {
    if i in owner then FirstOwner(fs, i, owner[i]) else fs[i].Quantified() ==> FreeUpTo(fs, i, |fs[i].details|)
  }

  lemma {:induction false} OwnersAreRepeated(fs: seq<Finding>, owner: map<nat, nat>)
    requires DuplicatesUpTo(fs, owner, |fs|)
    ensures IsDuplicates(fs, owner)
  {
    forall i | i in owner
      ensures Repeats(fs, i, owner[i])
    {
      assert Marked(fs, owner, i);
      var d :| 0 <= d < |fs[i].details| && FreeUpTo(fs, i, d) && |fs[i].details[d]| >= DISTINCTIVE
               && Owns(fs, owner[i], fs[i].details[d]);
      assert Tells(fs[i], fs[i].details[d]) && Tells(fs[owner[i]], fs[i].details[d]);
    }
  }

  /** A finding that is no duplicate owns all its distinctive narratives. */
  lemma {:induction false} OthersOwn(fs: seq<Finding>, i: nat, text: string)
    requires i < |fs| && FreeUpTo(fs, i, |fs[i].details|) && Tells(fs[i], text)
    ensures Owns(fs, i, text)
  {
    var d :| 0 <= d < |fs[i].details| && fs[i].details[d] == text;
    assert FreeUpTo(fs, i, d + 1);
  }

  lemma {:induction false} OthersAreDifferent(fs: seq<Finding>, owner: map<nat, nat>)
    requires DuplicatesUpTo(fs, owner, |fs|)
    ensures OthersDiffer(fs, owner)
  {
    forall i: nat, j: nat, text |
      i < |fs| && j < |fs| && i !in owner && j !in owner && Tells(fs[i], text) && Tells(fs[j], text)
      ensures i == j
    {
      assert Marked(fs, owner, i) && Marked(fs, owner, j);
      OthersOwn(fs, i, text);
      OthersOwn(fs, j, text);
      var d :| 0 <= d < |fs[i].details| && fs[i].details[d] == text;
      var e :| 0 <= e < |fs[j].details| && fs[j].details[e] == text;
    }
  }

  lemma {:induction false} NextDuplicate(fs: seq<Finding>, owner: map<nat, nat>, i: nat, duplicateOf: int)
    requires i < |fs| && DuplicatesUpTo(fs, owner, i) && -1 <= duplicateOf < i
    requires duplicateOf >= 0 ==> FirstOwner(fs, i, duplicateOf)
    requires duplicateOf == -1 ==> !fs[i].Quantified() || FreeUpTo(fs, i, |fs[i].details|)
    ensures DuplicatesUpTo(fs, if duplicateOf >= 0 then owner[i := duplicateOf] else owner, i + 1)
  {
    var next := if duplicateOf >= 0 then owner[i := duplicateOf] else owner;
    assert Marked(fs, next, i);
    forall j: nat | j < i
      ensures Marked(fs, next, j)
    {
      StaysMarked(fs, owner, next, j);
    }
  }

  lemma {:induction false} StaysMarked(fs: seq<Finding>, owner: map<nat, nat>, next: map<nat, nat>, j: nat)
    requires j < |fs| && Marked(fs, owner, j) && (j in next <==> j in owner) && (j in owner ==> next[j] == owner[j])
    ensures Marked(fs, next, j)
  {
  }

  lemma {:induction false} NothingToRegister(fs: seq<Finding>, telling: map<string, nat>, i: nat)
    requires i < |fs| && !fs[i].Quantified() && IsRegister(fs, telling, i)
    ensures IsRegister(fs, telling, i + 1)
  {
  }

  method FindDuplicates(fs: seq<Finding>) returns (owner: map<nat, nat>)
    ensures IsDuplicates(fs, owner) && OthersDiffer(fs, owner) && DuplicatesUpTo(fs, owner, |fs|)
  {
    owner := map[];
    var telling: map<string, nat> := map[];
    for i := 0 to |fs|
      invariant DuplicatesUpTo(fs, owner, i) && IsRegister(fs, telling, i)
    {
      if fs[i].Quantified() {
        var duplicateOf;
        telling, duplicateOf := Register(fs, i, telling);
        NextDuplicate(fs, owner, i, duplicateOf);
        if duplicateOf >= 0 {
          owner := owner[i := duplicateOf];
        }
      } else {
        NothingToRegister(fs, telling, i);
        NextDuplicate(fs, owner, i, -1);
      }
    }
    OwnersAreRepeated(fs, owner);
    OthersAreDifferent(fs, owner);
  }

  // ---- Merging ----

  /** Finding `e` survives, or hands its ids to `o`. */
  ghost predicate BelongsTo(owner: map<nat, nat>, e: nat, o: nat) {
    e == o || (e in owner && owner[e] == o)
  }

  ghost function IdSet(f: Finding): set<string> {
    set p | p in f.ids
  }

  /** The ids of `o` and of its direct duplicates below `n`. */
  ghost function Contributed(fs: seq<Finding>, owner: map<nat, nat>, o: nat, n: nat): set<string>
    requires o < |fs| && n <= |fs|
  {
    if n == 0 then IdSet(fs[o]) else
      Contributed(fs, owner, o, n - 1) +
      if n - 1 in owner && owner[n - 1] == o then IdSet(fs[n - 1]) else {}
  }

  lemma {:induction false} ContributedBy(fs: seq<Finding>, owner: map<nat, nat>, o: nat, n: nat, p: string)
    returns (e: nat)
    requires o < |fs| && n <= |fs| && p in Contributed(fs, owner, o, n)
    ensures e < |fs| && p in fs[e].ids && BelongsTo(owner, e, o)
  {
    if p in fs[o].ids {
      e := o;
    } else if n > 0 && p in Contributed(fs, owner, o, n - 1) {
      e := ContributedBy(fs, owner, o, n - 1, p);
    } else {
      e := n - 1;
    }
  }

  lemma {:induction false} Contributes(fs: seq<Finding>, owner: map<nat, nat>, o: nat, n: nat, e: nat, p: string)
    requires o < |fs| && e < |fs| && n <= |fs| && p in fs[e].ids && BelongsTo(owner, e, o) && (e == o || e < n)
    ensures p in Contributed(fs, owner, o, n)
  {
    if n > 0 && (e == o || e < n - 1) {
      Contributes(fs, owner, o, n - 1, e, p);
    }
  }

  lemma {:induction false} NothingYet(fs: seq<Finding>, owner: map<nat, nat>, o: nat, n: nat)
    requires IsDuplicates(fs, owner) && n <= o + 1 <= |fs|
    ensures Contributed(fs, owner, o, n) == IdSet(fs[o])
  {
    if n > 0 {
      NothingYet(fs, owner, o, n - 1);
    }
  }

  /** After the first `n` duplicates have handed their ids on. */
  ghost predicate Handed(fs: seq<Finding>, owner: map<nat, nat>, n: nat, cur: seq<Finding>) {
    && |cur| == |fs| && n <= |fs|
    && (forall i: nat :: i < |fs| ==> IsHanded(fs, owner, n, i, cur[i]))
  }

  ghost predicate IsHanded(fs: seq<Finding>, owner: map<nat, nat>, n: nat, i: nat, f: Finding)
    requires i < |fs| && n <= |fs|
  {
    && (n <= i || !fs[i].Quantified() ==> f == fs[i])
    && f == fs[i].(ids := f.ids) && fs[i].ids <= f.ids
    && IdSet(f) == Contributed(fs, owner, i, n)
    && (fs[i].Quantified() ==> NoDuplicates(f.ids))
  }

  lemma {:induction false} HandOne(stats: Statistics, fs: seq<Finding>, owner: map<nat, nat>, n: nat, cur: seq<Finding>)
    requires CitesKnown(stats, fs) && IsDuplicates(fs, owner) && Handed(fs, owner, n, cur) && n < |fs| && n in owner
    ensures var o := owner[n];
            o < n && Handed(fs, owner, n + 1, cur[o := cur[o].(ids := Deduplicated(cur[o].ids + cur[n].ids))])
  {
    var o := owner[n];
    assert Repeats(fs, n, o);
    var f := cur[o].(ids := Deduplicated(cur[o].ids + cur[n].ids));
    assert IsHanded(fs, owner, n, o, cur[o]) && IsHanded(fs, owner, n, n, cur[n]);
    DeduplicatedBegins(cur[o].ids, cur[n].ids);
    NothingYet(fs, owner, n, n + 1);
    assert IdSet(f) == IdSet(cur[o]) + IdSet(cur[n]);
    var next := cur[o := f];
    forall i: nat | i < |fs|
      ensures IsHanded(fs, owner, n + 1, i, next[i])
    {
      assert IsHanded(fs, owner, n, i, cur[i]);
    }
  }

  /** Hands the ids of every duplicate to its owner. */
  method HandOn(stats: Statistics, fs: seq<Finding>, owner: map<nat, nat>) returns (cur: seq<Finding>)
    requires CitesKnown(stats, fs) && IsDuplicates(fs, owner)
    ensures Handed(fs, owner, |fs|, cur)
  {
    cur := fs;
    for i := 0 to |fs|
      invariant Handed(fs, owner, i, cur)
    {
      if i in owner {
        var o := owner[i];
        HandOne(stats, fs, owner, i, cur);
        cur := cur[o := cur[o].(ids := Deduplicated(cur[o].ids + cur[i].ids))];
      }
    }
  }

  /** The survivors, with the ids handed to them. */
  ghost predicate Survive(fs: seq<Finding>, owner: map<nat, nat>, out: seq<Finding>) {
    && |out| == |Remaining(owner.Keys, |fs|)|
    && forall a :: 0 <= a < |out| ==>
         Remaining(owner.Keys, |fs|)[a] < |fs| && IsHanded(fs, owner, |fs|, Remaining(owner.Keys, |fs|)[a], out[a])
  }

  lemma {:induction false} SurvivorCites(stats: Statistics, fs: seq<Finding>, owner: map<nat, nat>, out: seq<Finding>,
      a: nat, p: string) returns (e: nat)
    requires IsDuplicates(fs, owner) && Survive(fs, owner, out) && CitedBy(out, a, p)
    ensures a < |Remaining(owner.Keys, |fs|)| && CitedBy(fs, e, p)
    ensures BelongsTo(owner, e, Remaining(owner.Keys, |fs|)[a])
  {
    var o := Remaining(owner.Keys, |fs|)[a];
    assert p in IdSet(out[a]);
    e := ContributedBy(fs, owner, o, |fs|, p);
  }

  /** The pass keeps the account, and its survivors tell different stories. */
  lemma {:induction false} SurvivorsAreAccounted(stats: Statistics, fs: seq<Finding>, owner: map<nat, nat>,
      out: seq<Finding>)
    requires Accounted(stats, fs) && IsDuplicates(fs, owner) && Survive(fs, owner, out)
    ensures Accounted(stats, out)
  {
    forall a, b, p, q | CitedBy(out, a, p) && CitedBy(out, b, q) && Related(stats, p, q)
      ensures a == b
    {
      var e := SurvivorCites(stats, fs, owner, out, a, p);
      var e' := SurvivorCites(stats, fs, owner, out, b, q);
    }
    forall a, p | CitedBy(out, a, p)
      ensures p in stats.patterns
    {
      var e := SurvivorCites(stats, fs, owner, out, a, p);
    }
    forall a | 0 <= a < |out| && out[a].Quantified()
      ensures NoDuplicates(out[a].ids)
    {
    }
  }

  lemma {:induction false} SurvivorsDiffer(fs: seq<Finding>, owner: map<nat, nat>, out: seq<Finding>)
    requires OthersDiffer(fs, owner) && Survive(fs, owner, out)
    ensures OthersDiffer(out, map[])
  {
    var at := Remaining(owner.Keys, |fs|);
    forall a: nat, b: nat, text | a < |out| && b < |out| && Tells(out[a], text) && Tells(out[b], text)
      ensures a == b
    {
      assert Tells(fs[at[a]], text) && Tells(fs[at[b]], text);
    }
  }

  /** A survivor, or a direct duplicate of one, cites `p`. */
  ghost predicate StillCited(fs: seq<Finding>, owner: map<nat, nat>, p: string) {
    exists e: nat :: CitedBy(fs, e, p) && (e !in owner || owner[e] !in owner)
  }

  /** Exactly the ids of survivors and of their direct duplicates are still cited. */
  lemma {:induction false} WhatSurvives(stats: Statistics, fs: seq<Finding>, owner: map<nat, nat>, out: seq<Finding>,
      p: string)
    requires WellFormed(stats) && Accounted(stats, fs) && IsDuplicates(fs, owner) && Survive(fs, owner, out)
    ensures Cited(out, p) <==> StillCited(fs, owner, p)
  {
    if a: nat :| CitedBy(out, a, p) {
      var e := SurvivorCites(stats, fs, owner, out, a, p);
    }
    if StillCited(fs, owner, p) {
      StillCitedSurvives(stats, fs, owner, out, p);
    }
  }

  lemma {:induction false} StillCitedSurvives(stats: Statistics, fs: seq<Finding>, owner: map<nat, nat>,
      out: seq<Finding>, p: string)
    requires WellFormed(stats) && Accounted(stats, fs) && IsDuplicates(fs, owner) && Survive(fs, owner, out)
    requires StillCited(fs, owner, p)
    ensures Cited(out, p)
  {
    var at := Remaining(owner.Keys, |fs|);
    var e: nat :| CitedBy(fs, e, p) && (e !in owner || owner[e] !in owner);
    var o := if e in owner then owner[e] else e;
    assert o in at;
    var a: nat :| a < |at| && at[a] == o;
    Contributes(fs, owner, o, |fs|, e, p);
    assert p in IdSet(out[a]);
    SurvivorQuantified(stats, fs, owner, out, a, p);
  }

  lemma {:induction false} SurvivorQuantified(stats: Statistics, fs: seq<Finding>, owner: map<nat, nat>,
      out: seq<Finding>, a: nat, p: string)
    requires WellFormed(stats) && Accounted(stats, fs) && IsDuplicates(fs, owner) && Survive(fs, owner, out)
    requires a < |out| && p in out[a].ids && p in stats.patterns
    ensures CitedBy(out, a, p)
  {
    assert [UNQUANTIFIED][0] != p;
  }

  /** Unquantified findings are passed on as they are. */
  lemma {:induction false} LooseSurvive(stats: Statistics, fs: seq<Finding>, owner: map<nat, nat>, out: seq<Finding>)
    requires WellFormed(stats) && Accounted(stats, fs) && IsDuplicates(fs, owner) && Survive(fs, owner, out)
    ensures forall f :: f in out && !f.Quantified() ==> f in fs
  {
    forall a | 0 <= a < |out| && !out[a].Quantified()
      ensures out[a] in fs
    {
      var o := Remaining(owner.Keys, |fs|)[a];
      if fs[o].Quantified() {
        assert UNQUANTIFIED in [UNQUANTIFIED];
        assert UNQUANTIFIED in IdSet(out[a]);
        var e := ContributedBy(fs, owner, o, |fs|, UNQUANTIFIED);
        NoMarkerCited(stats, fs, e);
      }
    }
  }

  lemma {:induction false} NoMarkerCited(stats: Statistics, fs: seq<Finding>, e: nat)
    requires WellFormed(stats) && CitesKnown(stats, fs) && e < |fs| && fs[e].Quantified()
    ensures UNQUANTIFIED !in fs[e].ids
  {
    assert CitedBy(fs, e, UNQUANTIFIED) <==> UNQUANTIFIED in fs[e].ids;
  }

  lemma {:induction false} SurvivorsSummary(stats: Statistics, fs: seq<Finding>, owner: map<nat, nat>,
      out: seq<Finding>)
    requires WellFormed(stats) && Accounted(stats, fs)
    requires IsDuplicates(fs, owner) && OthersDiffer(fs, owner) && Survive(fs, owner, out)
    ensures Accounted(stats, out) && OthersDiffer(out, map[])
    ensures forall f :: f in out && !f.Quantified() ==> f in fs
    ensures forall p :: Cited(out, p) <==> StillCited(fs, owner, p)
  {
    SurvivorsAreAccounted(stats, fs, owner, out);
    SurvivorsDiffer(fs, owner, out);
    LooseSurvive(stats, fs, owner, out);
    forall p
      ensures Cited(out, p) <==> StillCited(fs, owner, p)
    {
      WhatSurvives(stats, fs, owner, out, p);
    }
  }

  /** Merges findings whose narratives repeat an earlier finding's. */
  method MergeDuplicateDetails(stats: Statistics, r: Report) returns (out: Report, owner: map<nat, nat>)
    requires WellFormed(stats) && IsReport(r) && Accounted(stats, r.findings)
    ensures IsReport(out) && Accounted(stats, out.findings)
    ensures forall f :: f in out.findings && !f.Quantified() ==> f in r.findings
    ensures IsDuplicates(r.findings, owner) && OthersDiffer(out.findings, map[])
    ensures DuplicatesUpTo(r.findings, owner, |r.findings|)
    ensures Survive(r.findings, owner, out.findings) && out.keyCount == |Remaining(owner.Keys, r.keyCount)|
    ensures forall p :: Cited(out.findings, p) <==> StillCited(r.findings, owner, p)
  {
    owner := FindDuplicates(r.findings);
    var cur := HandOn(stats, r.findings, owner);
    var at := Remaining(owner.Keys, |r.findings|);
    var findings := seq(|at|, a requires 0 <= a < |at| => cur[at[a]]);
    RemainingPrefix(owner.Keys, r.keyCount, |r.findings|);
    out := Report(findings, |Remaining(owner.Keys, r.keyCount)|);
    assert Survive(r.findings, owner, out.findings);
    SurvivorsSummary(stats, r.findings, owner, out.findings);
  }
}
