/** One row of the jobs table and the guarded updates that workers make to it. */
module JobRows {
  import opened Results

  type Token = nat

  datatype Status = Queued | Processing | Completed | Failed | Retrying

  /** `lease` is when the claim expires. */
  datatype Row = Row(status: Status, token: Option<Token>, lease: Option<real>, attempt: nat)

  datatype Disposition = Claimed | AlreadyCompleted | LeaseBusy | NotClaimable

  /** A row as `enqueue_job` writes it. */
  const NEW_ROW := Row(Queued, None, None, 1)

  predicate Claimable(row: Row, now: real) {
    || row.status == Queued || row.status == Failed || row.status == Retrying
    || (row.status == Processing && (row.lease.None? || row.lease.value < now))
  }

  function AsClaimed(row: Row, token: Token, now: real, leaseSeconds: nat): Row {
    row.(status := Processing, token := Some(token), lease := Some(now + leaseSeconds as real))
  }

  /** How a row that could not be claimed at `now` is classified when it is read again. */
  function Classify(row: Row, now: real): Disposition {
    if row.status == Completed then AlreadyCompleted
    else if row.status == Processing && row.lease.Some? && row.lease.value >= now then LeaseBusy
    else NotClaimable
  }

  predicate HeldBy(row: Row, token: Token) {
    row.token == Some(token)
  }

  function AsRenewed(row: Row, now: real, leaseSeconds: nat): Row {
    row.(lease := Some(now + leaseSeconds as real))
  }

  function AsReleased(row: Row, status: Status): Row {
    row.(status := status, token := None, lease := None)
  }

  /** Every status a row can have, with what its claim fields must then be. */
  ghost predicate Consistent(row: Row) {
    (row.token.Some? <==> row.status == Processing) && (row.lease.Some? <==> row.status == Processing)
  }

  /** Read without interference, a row that cannot be claimed is completed or busy: the
      remaining answer needs another writer between the two reads. */
  lemma {:induction false} UndisturbedClassification(row: Row, now: real)
    ensures Claimable(row, now) <==> Classify(row, now) == NotClaimable
  {
  }

  /** The row as the workers' connections change it. */
  class JobRow {
    var row: Row

    constructor ()
      ensures row == NEW_ROW
    {
      row := NEW_ROW;
    }

    method ClaimJob(token: Token, now: real, leaseSeconds: nat) returns (disposition: Disposition)
      modifies this
      ensures disposition == Claimed <==> Claimable(old(row), now)
      ensures row == if disposition == Claimed then AsClaimed(old(row), token, now, leaseSeconds) else old(row)
      ensures disposition == LeaseBusy <==>
                old(row.status) == Processing && old(row.lease).Some? && old(row.lease).value >= now
      ensures disposition == AlreadyCompleted <==> old(row.status) == Completed
      ensures disposition != NotClaimable
      ensures disposition == Claimed ==>
                row == Row(Processing, Some(token), Some(now + leaseSeconds as real), old(row.attempt))
      ensures old(Consistent(row)) ==> Consistent(row)
    {
      if Claimable(row, now) {
        row := AsClaimed(row, token, now, leaseSeconds);
        return Claimed;
      }
      return Classify(row, now);
    }

    method RenewJobLease(token: Token, now: real, leaseSeconds: nat) returns (renewed: bool)
      modifies this
      ensures renewed <==> old(row.status) == Processing && HeldBy(old(row), token)
      ensures row == if renewed then AsRenewed(old(row), now, leaseSeconds) else old(row)
      ensures renewed ==> row == old(row).(lease := Some(now + leaseSeconds as real))
      ensures old(Consistent(row)) ==> Consistent(row)
    {
      renewed := row.status == Processing && HeldBy(row, token);
      if renewed {
        row := AsRenewed(row, now, leaseSeconds);
      }
    }

    /** Without a token the update is unconditional. */
    method MarkCompleted(token: Option<Token>) returns (updated: bool)
      modifies this
      ensures updated <==> token.None? || old(row.token) == token
      ensures row == if updated then AsReleased(old(row), Completed) else old(row)
      ensures updated ==> row == Row(Completed, None, None, old(row.attempt))
      ensures old(Consistent(row)) ==> Consistent(row)
    {
      updated := token.None? || row.token == token;
      if updated {
        row := AsReleased(row, Completed);
      }
    }

    method MarkFailed(token: Option<Token>) returns (updated: bool)
      modifies this
      ensures updated <==> token.None? || old(row.token) == token
      ensures row == if updated then AsReleased(old(row), Failed) else old(row)
      ensures updated ==> row == Row(Failed, None, None, old(row.attempt))
      ensures old(Consistent(row)) ==> Consistent(row)
    {
      updated := token.None? || row.token == token;
      if updated {
        row := AsReleased(row, Failed);
      }
    }

    /** No guard: whatever the row was, it is `RETRYING` now. */
    method MarkRetrying()
      modifies this
      ensures row == AsReleased(old(row), Retrying) && Consistent(row)
      ensures row == Row(Retrying, None, None, old(row.attempt))
    {
      row := AsReleased(row, Retrying);
    }

    /** No guard either, but it touches no claim. */
    method BumpAttempt(attempt: nat)
      modifies this
      ensures row == old(row).(attempt := attempt) && (Consistent(row) <==> Consistent(old(row)))
    {
      row := row.(attempt := attempt);
    }
  }
}
