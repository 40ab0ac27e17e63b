/** What admission and repeated requests come to, over the specification of the ledger operations. */
module JobAdmission {
  import opened Common
  import opened JobModel
  import opened JobHistory
  import opened JobLedger

  /** The four outcomes of admission into a full ledger. It is refused because of the
      scan cap exactly when records and temporary files together are more than 160.
      Otherwise it is refused for a missing record exactly when a legacy anchor, which
      embeds no job, has lost its record; such an anchor is beyond repair. It is
      refused for want of capacity exactly when every job has a record, none is
      terminal, and at most 32 temporary files lie beside them. Otherwise exactly one
      job goes: of the finished ones the one that completed first. */
  lemma AdmissionOutcome(d: Disk, e: Disk, d': Disk, failed: Option<JobError>)
    requires Inv(d) && |d.anchors| == 128 && RepairsTo(d, d.anchors.Keys, e) && Admits(d, d', failed)
    ensures failed == Some(TooManyEntries) <==> |e.records| + |d.temps| > 160
    ensures failed == Some(NotFound) <==> |e.records| + |d.temps| <= 160 && SomeLost(d)
    ensures failed == Some(Capacity) <==> |d.temps| <= 32 && AllRecorded(e) && NoneTerminal(e)
    ensures failed.None? ==> exists n :: Evicts(e, n, d') && RetiresFirst(e, n, d')
    ensures failed.Some? ==> d' == e && failed.value in {TooManyEntries, NotFound, Capacity}
  {
    AdmitsRepaired(d, e, d', failed);
    RecordedUnlessLegacy(d, e);
    RepairKeepsInv(d, e);
    OutcomeOf(d, e, d', failed);
    if failed.None? { OutcomeRetires(e, d', failed); }
  }

  lemma OutcomeRetires(e: Disk, d': Disk, failed: Option<JobError>)
    requires Inv(e) && AdmitsFull(e, d', failed) && failed.None?
    ensures exists n :: Evicts(e, n, d') && RetiresFirst(e, n, d')
  {
    var n :| Evicts(e, n, d');
    EvictionRetires(e, n, d');
  }

  /** An anchor without an embedded job whose record is gone. */
  predicate LegacyLost(d: Disk, n: Name) {
    n in d.anchors && d.anchors[n].stored.None? && d.anchors[n].id !in d.records
  }

  ghost predicate SomeLost(d: Disk) { exists n :: LegacyLost(d, n) }

  lemma AdmitsRepaired(d: Disk, e: Disk, d': Disk, failed: Option<JobError>)
    requires |d.anchors| == MAX_ENTRIES && RepairsTo(d, d.anchors.Keys, e) && Admits(d, d', failed)
    ensures AdmitsFull(e, d', failed)
  {
    var f: Disk :| RepairsTo(d, d.anchors.Keys, f) && AdmitsFull(f, d', failed);
    RepairUnique(d, e, f);
  }

  /** The same once the records are repaired. */
  lemma OutcomeOf(d: Disk, e: Disk, d': Disk, failed: Option<JobError>)
    requires Inv(e) && |e.anchors| == MAX_ENTRIES && e.temps == d.temps && (AllRecorded(e) <==> !SomeLost(d))
    requires AdmitsFull(e, d', failed)
    ensures failed == Some(TooManyEntries) <==> |e.records| + |d.temps| > SIDE_MAX_ENTRIES
    ensures failed == Some(NotFound) <==> |e.records| + |d.temps| <= SIDE_MAX_ENTRIES && SomeLost(d)
    ensures failed == Some(Capacity) <==> |d.temps| <= SIDE_MAX_ENTRIES - MAX_ENTRIES && AllRecorded(e) && NoneTerminal(e)
    ensures failed.None? ==> exists n :: Evicts(e, n, d')
    ensures failed.Some? ==> d' == e && failed.value in {TooManyEntries, NotFound, Capacity}
  {
    if AllRecorded(e) { OneRecordEach(e); }
  }

  /** Where every job has a record there are as many records as anchors. */
  lemma OneRecordEach(d: Disk)
    requires Inv(d) && AllRecorded(d)
    ensures |d.records| == |d.anchors|
  {
    var idOf := (n: Name) => if n in d.anchors then d.anchors[n].id else 0;
    var ids := Image(idOf, d.anchors.Keys);
    ImageSize(idOf, d.anchors.Keys);
    forall id | id in d.records ensures id in ids {
      var n :| n in d.anchors && d.anchors[n].id == id;
      assert idOf(n) == id;
    }
    forall id | id in ids ensures id in d.records {
      var n :| n in d.anchors && idOf(n) == id;
    }
    assert d.records.Keys == ids;
    assert |d.records| == |d.records.Keys| && |d.anchors| == |d.anchors.Keys|;
  }

  lemma {:induction false} ImageSize<A, B>(f: A -> B, s: set<A>)
    requires forall x, y :: x in s && y in s && f(x) == f(y) ==> x == y
    ensures |Image(f, s)| == |s|
  {
    if s == {} {
      assert Image(f, s) == {};
    } else {
      var y :| y in s;
      ImageSize(f, s - {y});
      assert Image(f, s) == Image(f, s - {y}) + {f(y)};
      assert f(y) !in Image(f, s - {y});
    }
  }

  lemma RecordedUnlessLegacy(d: Disk, e: Disk)
    requires Inv(d) && RepairsTo(d, d.anchors.Keys, e)
    ensures AllRecorded(e) <==> !SomeLost(d)
  {
    forall n | n in d.anchors ensures d.anchors[n].id in e.records <==> !LegacyLost(d, n) {
      assert AnchorFits(n, d.anchors[n]);
      if d.anchors[n].stored.Some? { assert d.anchors[n].id in RepairIds(d, d.anchors.Keys); }
    }
  }

  /** The job of anchor `m` is as it was. */
  ghost predicate Spared(e: Disk, d': Disk, m: Name)
    requires m in e.anchors
  {
    && m in d'.anchors && d'.anchors[m] == e.anchors[m]
    && (e.anchors[m].id in e.records ==>
          e.anchors[m].id in d'.records && d'.records[e.anchors[m].id] == e.records[e.anchors[m].id])
  }

  /** Eviction takes one job and leaves every other file as it was. */
  lemma EvictsOne(e: Disk, n: Name, d': Disk)
    requires Inv(e) && Evicts(e, n, d')
    ensures |d'.anchors| == |e.anchors| - 1 && Terminal(e.records[e.anchors[n].id].job.state)
    ensures forall m :: m in e.anchors && m != n ==> Spared(e, d', m)
  {
    OneLess(e.anchors, n);
    forall m | m in e.anchors && m != n ensures Spared(e, d', m) {
      assert AnchorFits(m, e.anchors[m]) && e.anchors[m].id != e.anchors[n].id;
    }
  }

  /** From creation until its anchor is evicted, whatever is written or crashes
      in between, the same key and request finds the same job and creates
      nothing, and the same key with another request is refused. */
  lemma RepeatedRequest(h: seq<Ledger>, i: nat, k: nat, r: Request, id: JobId, now: Time,
                        r2: Request, id2: JobId, now2: Time, d': Disk, res: Result<(StoredJob, bool), JobError>)
    requires Chain(h) && i <= k < |h| && LedgerInv(h[0])
    requires forall m :: i <= m <= k ==> NameOf(r) in h[m].disk.anchors
    requires h[i].disk.anchors[NameOf(r)] == NewEntry(r, id, now)
    requires r2.key == r.key && Creates(h[k].disk, d', r2, id2, now2, res)
    ensures r2 == r ==> res.Ok? && !res.value.1 && res.value.0.job.id == id && SameIdentity(res.value.0, NewJob(r, id, now))
    ensures r2 == r ==> d'.anchors == h[k].disk.anchors && id in d'.records
    ensures r2 != r ==> res == Err(RequestConflict) && d' == h[k].disk
  {
    AnchorsStay(h, i, k, NameOf(r));
    HistoryKeepsInv(h, k);
    var d := h[k].disk;
    var n := NameOf(r);
    if r2 == r {
      if id in d.records { assert RecordFits(d.anchors[n], d.records[id]); }
    }
  }
}
