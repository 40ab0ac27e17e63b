/** The states and the times of jobs, field by field, over every history of the ledger. */
module JobStates {
  import opened Common
  import opened JobModel
  import opened JobHistory

  /** Every record in every history has the times and the error that its state asks
      for, and the key and digest of its own request. */
  lemma RecordsAreSound(h: seq<Ledger>, k: nat, id: JobId)
    requires Chain(h) && k < |h| && LedgerInv(h[0]) && id in h[k].disk.records
    ensures var s := h[k].disk.records[id];
            && s.job.id == id && s.job.key == s.request.key && s.job.requestDigest == OfRequest(s.request)
            && (s.job.state == Running ==> s.job.startedAt.Some?)
            && (s.job.state in {Succeeded, FailedJob, Cancelled} ==> s.job.completedAt.Some?)
            && (s.job.state == FailedJob ==> s.job.error.Some?)
  {
    HistoryKeepsInv(h, k);
    FiledUnderId(h[k].disk, id);
  }

  /** One write changes a record only from queued to running or cancelled, or from
      running to a final state, and never what was asked, by whom and when. */
  lemma StatesChange(h: seq<Ledger>, k: nat, id: JobId)
    requires Chain(h) && k + 1 < |h| && LedgerInv(h[0])
    requires id in h[k].disk.records && id in h[k + 1].disk.records && h[k].disk.records[id] != h[k + 1].disk.records[id]
    ensures var a, b := h[k].disk.records[id], h[k + 1].disk.records[id];
            && (a.job.state, b.job.state) in {(Queued, Running), (Queued, Cancelled),
                                              (Running, Succeeded), (Running, FailedJob), (Running, Cancelled)}
            && b.request == a.request && b.job.kind == a.job.kind && b.job.expectedRevision == a.job.expectedRevision
            && b.job.confirmation == a.job.confirmation && b.job.createdAt == a.job.createdAt
  {
    HistoryKeepsInv(h, k);
    assert LeadsAt(h, k);
    StepMovesRecord(h[k], h[k + 1], id);
  }

  /** A finished job stays as it is while its record is there, and a running one is not queued again. */
  lemma FinishedStays(h: seq<Ledger>, i: nat, k: nat, id: JobId)
    requires Chain(h) && i <= k < |h| && LedgerInv(h[0]) && forall m :: i <= m <= k ==> id in h[m].disk.records
    ensures h[i].disk.records[id].job.state in {Succeeded, FailedJob, Cancelled} ==> h[k].disk.records[id] == h[i].disk.records[id]
    ensures h[i].disk.records[id].job.state == Running ==> h[k].disk.records[id].job.state != Queued
  {
    RecordsMoveOnward(h, i, k, id);
  }

  /** A transition stamps the start of a job once and its completion when it ends, keeps
      a receipt for success and cancellation and an error for failure, and leaves
      everything else as it was. */
  lemma TransitionStamps(s: StoredJob, to: JobState, now: Time, receipt: Option<string>, error: Option<string>)
    ensures var a, b := s.job, Moved(s, to, now, receipt, error).job;
            && b.state == to && Moved(s, to, now, receipt, error).request == s.request
            && b == a.(state := b.state, startedAt := b.startedAt, completedAt := b.completedAt, receipt := b.receipt, error := b.error)
            && (to == Running && a.startedAt.None? ==> b.startedAt == Some(now))
            && (to != Running || a.startedAt.Some? ==> b.startedAt == a.startedAt)
            && (to in {Succeeded, FailedJob, Cancelled} ==> b.completedAt == Some(now))
            && (to in {Queued, Running} ==> b.completedAt == a.completedAt)
            && (to in {Succeeded, Cancelled} && receipt.Some? ==> b.receipt == receipt)
            && (to !in {Succeeded, Cancelled} || receipt.None? ==> b.receipt == a.receipt)
            && (to == FailedJob && error.Some? ==> b.error == error)
            && (to != FailedJob || error.None? ==> b.error == a.error)
  {
  }

  /** A new job is queued, with the time of its creation, its request and the digest of
      both; its anchor embeds it under its key. */
  lemma NewJobsAreQueued(r: Request, id: JobId, now: Time)
    ensures var s, e := NewJob(r, id, now), NewEntry(r, id, now);
            && s.job.id == id && s.job.state == Queued && s.job.createdAt == now
            && s.job.startedAt.None? && s.job.completedAt.None? && s.job.receipt.None? && s.job.error.None?
            && s.request.key == OfKey(r.key) == s.job.key && s.request.body == r.body
            && s.job.kind == r.body.kind && s.job.expectedRevision == r.body.expectedRevision
            && s.job.confirmation == r.body.confirmation
            && s.job.requestDigest == OfRequest(s.request) == e.requestDigest && e.id == id && e.stored == Some(s)
            && NameOf(r) == AnchorOf(OfKey(r.key))
  {
  }
}
