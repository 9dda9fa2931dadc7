/** How often a lease is renewed, and how many renewals in a row may fail before another
    worker can take the job. */
module Leases {
  import opened Results
  import opened JobRows

  // ---- The renewal thread ----

  /** What one renewal comes back with; `Unreachable` when it raised. */
  datatype Answer = Renewed | Refused | Unreachable

  function Max(x: real, y: real): real { if x < y then y else x }

  function Min(x: real, y: real): real { if x < y then x else y }

  function Interval(leaseSeconds: nat): real {
    Max(1.0, Min(60.0, leaseSeconds as real / 3.0))
  }

  class LeaseRenewer {
    var lost: bool

    constructor ()
      ensures !lost
    {
      lost := false;
    }

    /** One renewal every interval until the thread is stopped, after `|answers|` of them,
        or refused: only a refusal loses the lease, and nothing is asked after it. */
    method Run(answers: seq<Answer>) returns (asked: nat)
      modifies this
      ensures lost == (old(lost) || Refused in answers)
      ensures Refused in answers ==>
                0 < asked <= |answers| && answers[asked - 1] == Refused && Refused !in answers[..asked - 1]
      ensures Refused !in answers ==> asked == |answers|
    {
      asked := 0;
      while asked < |answers|
        invariant asked <= |answers| && lost == old(lost) && Refused !in answers[..asked]
      {
        asked := asked + 1;
        if answers[asked - 1] == Refused {
          lost := true;
          return;
        }
      }
    }
  }

  // ---- A claim against the clock ----

  /** What another worker, with a token of its own, asks of the row. */
  datatype Act = Claim(token: Token) | Renew(token: Token) | Complete(token: Token) | Fail(token: Token)

  datatype Moment = Tick(at: real, reached: bool) | Other(at: real, act: Act)

  function AfterAct(row: Row, leaseSeconds: nat, at: real, act: Act): Row {
    match act
    case Claim(t) => if Claimable(row, at) then AsClaimed(row, t, at, leaseSeconds) else row
    case Renew(t) => if row.status == Processing && HeldBy(row, t) then AsRenewed(row, at, leaseSeconds) else row
    case Complete(t) => if HeldBy(row, t) then AsReleased(row, Completed) else row
    case Fail(t) => if HeldBy(row, t) then AsReleased(row, Failed) else row
  }

  function After(row: Row, token: Token, leaseSeconds: nat, m: Moment): Row {
    match m
    case Tick(at, reached) =>
      if reached && row.status == Processing && HeldBy(row, token) then AsRenewed(row, at, leaseSeconds) else row
    case Other(at, act) => AfterAct(row, leaseSeconds, at, act)
  }

  function Played(row: Row, token: Token, leaseSeconds: nat, moments: seq<Moment>): Row
    decreases |moments|
  {
    if moments == [] then row
    else Played(After(row, token, leaseSeconds, moments[0]), token, leaseSeconds, moments[1..])
  }

  /** Ticks come an interval apart, at most `allowed` in a row fail, `missed` already have;
      anything else happens no later than the tick that is due. */
  predicate Ideal(moments: seq<Moment>, token: Token, interval: real, lastTick: real, missed: nat, allowed: nat) {
    moments == [] ||
    match moments[0]
    case Tick(at, reached) =>
      && at == lastTick + interval && (reached || missed < allowed)
      && Ideal(moments[1..], token, interval, at, if reached then 0 else missed + 1, allowed)
    case Other(at, act) =>
      lastTick <= at <= lastTick + interval && act.token != token &&
        Ideal(moments[1..], token, interval, lastTick, missed, allowed)
  }

  /** The claim is in force, and will be until the tick after `allowed` misses is due. */
  ghost predicate InForce(row: Row, token: Token, interval: real, lastTick: real, missed: nat, allowed: nat) {
    && row.status == Processing && HeldBy(row, token) && row.lease.Some? && missed <= allowed
    && row.lease.value >= lastTick + (allowed - missed + 1) as real * interval
  }

  /** The claim was never displaced, nor a renewal refused, nor another claim given. */
  ghost predicate Undisplaced(row: Row, token: Token, leaseSeconds: nat, moments: seq<Moment>)
    decreases |moments|
  {
    && row.status == Processing && HeldBy(row, token)
    && (moments != [] ==>
          && (moments[0].Other? && moments[0].act.Claim? ==>
                Classify(row, moments[0].at) == LeaseBusy && !Claimable(row, moments[0].at))
          && Undisplaced(After(row, token, leaseSeconds, moments[0]), token, leaseSeconds, moments[1..]))
  }

  lemma {:induction false} MomentKeepsForce(row: Row, token: Token, leaseSeconds: nat, m: Moment, interval: real,
      lastTick: real, missed: nat, allowed: nat)
    requires interval > 0.0 && (allowed + 1) as real * interval <= leaseSeconds as real
    requires InForce(row, token, interval, lastTick, missed, allowed)
    requires Ideal([m], token, interval, lastTick, missed, allowed)
    ensures m.Tick? ==>
              InForce(After(row, token, leaseSeconds, m), token, interval, m.at,
                      if m.reached then 0 else missed + 1, allowed)
    ensures m.Other? ==> After(row, token, leaseSeconds, m) == row
    ensures m.Other? ==> Classify(row, m.at) == LeaseBusy && !Claimable(row, m.at)
  {
    assert [m][0] == m;
    if m.Tick? {
      assert (allowed - missed + 1) as real * interval == interval + (allowed - missed) as real * interval;
    } else {
      assert (allowed - missed + 1) as real * interval >= interval;
    }
  }

  lemma {:induction false} ForceLasts(row: Row, token: Token, leaseSeconds: nat, moments: seq<Moment>,
                                      interval: real, lastTick: real, missed: nat, allowed: nat)
    requires interval > 0.0 && (allowed + 1) as real * interval <= leaseSeconds as real
    requires InForce(row, token, interval, lastTick, missed, allowed)
    requires Ideal(moments, token, interval, lastTick, missed, allowed)
    ensures Undisplaced(row, token, leaseSeconds, moments)
    decreases |moments|
  {
    if moments != [] {
      var m := moments[0];
      assert [m][1..] == [];
      MomentKeepsForce(row, token, leaseSeconds, m, interval, lastTick, missed, allowed);
      var next := After(row, token, leaseSeconds, m);
      if m.Tick? {
        ForceLasts(next, token, leaseSeconds, moments[1..], interval, m.at,
                   if m.reached then 0 else missed + 1, allowed);
      } else {
        ForceLasts(next, token, leaseSeconds, moments[1..], interval, lastTick, missed, allowed);
      }
    }
  }

  /** No claim can be displaced while at most `allowed` renewals in a row fail. */
  ghost predicate Tolerates(leaseSeconds: nat, allowed: nat) {
    forall row, token, start, moments ::
      Ideal(moments, token, Interval(leaseSeconds), start, 0, allowed) ==>
        Undisplaced(AsClaimed(row, token, start, leaseSeconds), token, leaseSeconds, moments)
  }

  /** `n` ticks in a row that fail. */
  function Missing(n: nat, interval: real, lastTick: real): (moments: seq<Moment>)
    ensures |moments| == n
  {
    if n == 0 then [] else [Tick(lastTick + interval, false)] + Missing(n - 1, interval, lastTick + interval)
  }

  /** Failed ticks leave the row as it was, and a claim after the lease is given. */
  lemma {:induction false} MissesDisplace(row: Row, token: Token, leaseSeconds: nat, n: nat, interval: real,
                                          lastTick: real, missed: nat, at: real, other: Token)
    requires interval > 0.0 && row.status == Processing && row.lease.Some? && row.lease.value < at && other != token
    requires lastTick + n as real * interval <= at <= lastTick + (n + 1) as real * interval
    ensures var moments := Missing(n, interval, lastTick) + [Other(at, Claim(other))];
            && Ideal(moments, token, interval, lastTick, missed, missed + n)
            && !Undisplaced(row, token, leaseSeconds, moments)
            && HeldBy(Played(row, token, leaseSeconds, moments), other)
    decreases n
  {
    var moments := Missing(n, interval, lastTick) + [Other(at, Claim(other))];
    if n > 0 {
      assert n as real * interval == interval + (n - 1) as real * interval;
      assert (n + 1) as real * interval == interval + n as real * interval;
      MissesDisplace(row, token, leaseSeconds, n - 1, interval, lastTick + interval, missed + 1, at, other);
      assert moments[1..] == Missing(n - 1, interval, lastTick + interval) + [Other(at, Claim(other))];
    } else {
      assert moments == [Other(at, Claim(other))] && moments[1..] == [];
    }
  }

  /** Exactly as many misses in a row are tolerated as leave the next tick within the
      lease: the bound is tight because a lease is over strictly after it expires. */
  lemma {:induction false} ToleratesIff(leaseSeconds: nat, allowed: nat)
    ensures Tolerates(leaseSeconds, allowed) <==> (allowed + 1) as real * Interval(leaseSeconds) <= leaseSeconds as real
  {
    var interval := Interval(leaseSeconds);
    if (allowed + 1) as real * interval <= leaseSeconds as real {
      forall row, token, start, moments | Ideal(moments, token, interval, start, 0, allowed)
        ensures Undisplaced(AsClaimed(row, token, start, leaseSeconds), token, leaseSeconds, moments)
      {
        ForceLasts(AsClaimed(row, token, start, leaseSeconds), token, leaseSeconds, moments, interval, start, 0,
          allowed);
      }
    } else {
      var row := AsClaimed(NEW_ROW, 0, 0.0, leaseSeconds);
      var at := (allowed + 1) as real * interval;
      assert at == interval + allowed as real * interval;
      MissesDisplace(row, 0, leaseSeconds, allowed, interval, 0.0, 0, at, 1);
    }
  }

  /** Two misses in a row do no harm exactly when the lease is at least three seconds;
      three in a row do, up to a lease of four minutes. */
  lemma {:induction false} TwoMissesTolerated(leaseSeconds: nat)
    ensures leaseSeconds >= 3 <==> Tolerates(leaseSeconds, 2)
    ensures Tolerates(leaseSeconds, 3) <==> leaseSeconds >= 240
  {
    ToleratesIff(leaseSeconds, 2);
    ToleratesIff(leaseSeconds, 3);
  }
}
