/** Counting labels, as a `Counter` does, and ranking them by their counts. */
module Tallies {
  import opened CodePointOrder
  import opened Findings

  function Count(labels: seq<string>, x: string): nat {
    if labels == [] then 0 else
      var n := |labels| - 1;
      Count(labels[..n], x) + if labels[n] == x then 1 else 0
  }

  function SumOf(labels: seq<string>, ids: seq<string>): nat {
    if ids == [] then 0 else
      var n := |ids| - 1;
      SumOf(labels, ids[..n]) + Count(labels, ids[n])
  }

  lemma {:induction false} CountPositive(labels: seq<string>, x: string)
    ensures Count(labels, x) > 0 <==> x in labels
  {
    if labels != [] {
      var n := |labels| - 1;
      CountPositive(labels[..n], x);
      assert labels == labels[..n] + [labels[n]];
    }
  }

  lemma {:induction false} SumOfNothing(ids: seq<string>)
    ensures SumOf([], ids) == 0
  {
    if ids != [] {
      SumOfNothing(ids[..|ids| - 1]);
    }
  }

  /** One more label adds one to the sum over distinct ids, if it is among them. */
  lemma {:induction false} SumOfOneMore(labels: seq<string>, x: string, ids: seq<string>)
    requires NoDuplicates(ids)
    ensures SumOf(labels + [x], ids) == SumOf(labels, ids) + if x in ids then 1 else 0
  {
    if ids != [] {
      var n := |ids| - 1;
      SumOfOneMore(labels, x, ids[..n]);
      assert (labels + [x])[..|labels|] == labels;
      assert ids == ids[..n] + [ids[n]];
    }
  }

  /** Distinct ids that cover the labels count each of them once. */
  lemma {:induction false} CoverCountsAll(labels: seq<string>, ids: seq<string>)
    requires NoDuplicates(ids) && forall x :: x in labels ==> x in ids
    ensures SumOf(labels, ids) == |labels|
  {
    if labels == [] {
      SumOfNothing(ids);
    } else {
      var n := |labels| - 1;
      assert labels == labels[..n] + [labels[n]];
      CoverCountsAll(labels[..n], ids);
      SumOfOneMore(labels[..n], labels[n], ids);
    }
  }

  lemma {:induction false} SumOfConcat(labels: seq<string>, a: seq<string>, b: seq<string>)
    ensures SumOf(labels, a + b) == SumOf(labels, a) + SumOf(labels, b)
  {
    if b == [] {
      assert a + b == a;
    } else {
      var n := |b| - 1;
      SumOfConcat(labels, a, b[..n]);
      assert (a + b)[..|a + b| - 1] == a + b[..n];
    }
  }

  function Relabelled(labels: seq<string>, of: map<string, string>): (r: seq<string>)
    requires forall x :: x in labels ==> x in of
    ensures |r| == |labels| && forall i :: 0 <= i < |labels| ==> r[i] == of[labels[i]]
  {
    seq(|labels|, i requires 0 <= i < |labels| => of[labels[i]])
  }

  /** The sum over a class of labels counts the labels of the class. */
  lemma {:induction false} ClassCount(labels: seq<string>, of: map<string, string>, members: seq<string>,
      class_: string)
    requires forall x :: x in labels ==> x in of
    requires NoDuplicates(members) && forall x :: x in labels ==> (x in members <==> of[x] == class_)
    ensures SumOf(labels, members) == Count(Relabelled(labels, of), class_)
  {
    if labels == [] {
      SumOfNothing(members);
    } else {
      var n := |labels| - 1;
      assert labels == labels[..n] + [labels[n]];
      ClassCount(labels[..n], of, members, class_);
      SumOfOneMore(labels[..n], labels[n], members);
      assert Relabelled(labels, of)[..n] == Relabelled(labels[..n], of);
    }
  }

  // ---- Ranking ----

  /** Higher counts first, then code point order. */
  predicate Outranks(labels: seq<string>, a: string, b: string) {
    || Count(labels, a) > Count(labels, b)
    || (Count(labels, a) == Count(labels, b) && Precedes(a, b))
  }

  function InsertRanked(labels: seq<string>, x: string, s: seq<string>): (r: seq<string>)
    ensures forall y :: y in r <==> y == x || y in s
    ensures NoDuplicates(s) && x !in s ==> NoDuplicates(r)
  {
    if s == [] then [x]
    else if Outranks(labels, x, s[0]) then [x] + s
    else
      assert s == [s[0]] + s[1..];
      var tail := InsertRanked(labels, x, s[1..]);
      assert NoDuplicates(s) && x !in s ==> s[0] !in tail;
      assert forall k :: 0 <= k < |tail| ==> tail[k] in tail;
      [s[0]] + tail
  }

  function Ranked(labels: seq<string>, s: seq<string>): (r: seq<string>)
    ensures forall y :: y in r <==> y in s
    ensures NoDuplicates(s) ==> NoDuplicates(r)
  {
    if s == [] then [] else
      assert s == [s[0]] + s[1..];
      InsertRanked(labels, s[0], Ranked(labels, s[1..]))
  }

  ghost predicate InRank(labels: seq<string>, s: seq<string>) {
    forall j, k :: 0 <= j < k < |s| ==> Outranks(labels, s[j], s[k])
  }

  lemma {:induction false} OutranksTransitive(labels: seq<string>, a: string, b: string, c: string)
    requires Outranks(labels, a, b) && Outranks(labels, b, c)
    ensures Outranks(labels, a, c)
  {
    if Precedes(a, b) && Precedes(b, c) {
      PrecedesTransitive(a, b, c);
    }
  }

  lemma {:induction false} InsertKeepsRank(labels: seq<string>, x: string, s: seq<string>)
    requires InRank(labels, s)
    ensures InRank(labels, InsertRanked(labels, x, s))
  {
    if s != [] {
      if Outranks(labels, x, s[0]) {
        forall k | 0 <= k < |s|
          ensures Outranks(labels, x, s[k])
        {
          if k > 0 {
            OutranksTransitive(labels, x, s[0], s[k]);
          }
        }
      } else {
        PrecedesTotal(x, s[0]);
        InsertKeepsRank(labels, x, s[1..]);
        var tail := InsertRanked(labels, x, s[1..]);
        forall k | 0 <= k < |tail|
          ensures Outranks(labels, s[0], tail[k])
        {
          assert tail[k] in tail;
        }
      }
    }
  }

  lemma {:induction false} RankedIsInRank(labels: seq<string>, s: seq<string>)
    ensures InRank(labels, Ranked(labels, s))
  {
    if s != [] {
      RankedIsInRank(labels, s[1..]);
      InsertKeepsRank(labels, s[0], Ranked(labels, s[1..]));
    }
  }

  /** A ranking lists its labels by falling count, and those of one count in code point order. */
  lemma {:induction false} RankingIs(labels: seq<string>, s: seq<string>, j: nat, k: nat)
    requires j < k < |Ranked(labels, s)|
    ensures var r := Ranked(labels, s);
            Count(labels, r[j]) >= Count(labels, r[k]) &&
            (Count(labels, r[j]) == Count(labels, r[k]) ==> Precedes(r[j], r[k]))
  {
    RankedIsInRank(labels, s);
  }

  lemma {:induction false} InsertAddsOne(labels: seq<string>, x: string, s: seq<string>)
    ensures |InsertRanked(labels, x, s)| == |s| + 1
  {
    if s != [] && !Outranks(labels, x, s[0]) {
      InsertAddsOne(labels, x, s[1..]);
    }
  }

  lemma {:induction false} RankedHasSize(labels: seq<string>, s: seq<string>)
    ensures |Ranked(labels, s)| == |s|
  {
    if s != [] {
      RankedHasSize(labels, s[1..]);
      InsertAddsOne(labels, s[0], Ranked(labels, s[1..]));
    }
  }
}
