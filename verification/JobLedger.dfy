/** The operations of the job ledger as they write, file by file, while they hold
    the ledger lock. `history` lists every state the files went through; a crash
    leaves the files in one of them. */
module JobLedger {
  import opened Common
  import opened JobModel
  import opened JobHistory

  datatype JobError =
    | RequestConflict | RecordConflict | IdentityMismatch | LegacyMissing | Inconsistent | InvalidJob
    | NotFound | IllegalTransition | Capacity | TooManyEntries | DuplicateAnchor | Unanchored
    | CancellationConflict | CancellationMismatch | AboveMaximum

  /** What `ensureJobRecord` returns for the anchor named `n`. */
  function EnsureOutcome(d: Disk, n: Name): Result<StoredJob, JobError>
    requires n in d.anchors
  {
    var e := d.anchors[n];
    if e.id in d.records then
      var s := d.records[e.id];
      if !ValidStored(s) then Err(InvalidJob)
      else if s.job.requestDigest != e.requestDigest then Err(RecordConflict)
      else if e.stored.Some? && !SameIdentity(s, e.stored.value) then Err(IdentityMismatch)
      else Ok(s)
    else if e.stored.None? then Err(LegacyMissing)
    else if !ValidStored(e.stored.value) then Err(InvalidJob)
    else if e.stored.value.job.id != e.id || e.stored.value.job.requestDigest != e.requestDigest then Err(Inconsistent)
    else Ok(e.stored.value)
  }

  /** The jobs of the repairable anchors among `names`. */
  ghost function RepairIds(d: Disk, names: set<Name>): set<JobId> {
    set n | n in names && n in d.anchors && Repairable(d.anchors[n]) :: d.anchors[n].id
  }

  /** `e` is `d` with the records of the repairable anchors among `names` put
      back, exactly as embedded; no record that was there changes. */
  ghost predicate RepairsTo(d: Disk, names: set<Name>, e: Disk) {
    && e.anchors == d.anchors && e.cancellations == d.cancellations && e.temps == d.temps
    && e.records.Keys == d.records.Keys + RepairIds(d, names)
    && (forall id :: id in d.records ==> e.records[id] == d.records[id])
    && (forall n :: n in names && n in d.anchors && Repairable(d.anchors[n]) && d.anchors[n].id !in d.records ==>
          e.records[d.anchors[n].id] == d.anchors[n].stored.value)
  }

  /** Repair has one possible outcome. */
  lemma RepairUnique(d: Disk, e: Disk, f: Disk)
    requires RepairsTo(d, d.anchors.Keys, e) && RepairsTo(d, d.anchors.Keys, f)
    ensures e == f
  {
    forall id | id in e.records ensures e.records[id] == f.records[id] {
      if id !in d.records {
        var n :| n in d.anchors && Repairable(d.anchors[n]) && d.anchors[n].id == id;
      }
    }
    assert e.records == f.records;
  }

  lemma RepairOne(d: Disk, done: set<Name>, n: Name, e: Disk, f: Disk)
    requires OneAnchorEach(d.anchors) && n in d.anchors && n !in done && RepairsTo(d, done, e)
    requires f.anchors == e.anchors && f.cancellations == e.cancellations && f.temps == e.temps
    requires var r := EnsureOutcome(e, n);
             if d.anchors[n].stored.Some? then r.Ok? && f.records == e.records[d.anchors[n].id := r.value] else f.records == e.records
    ensures RepairsTo(d, done + {n}, f)
  {
    var entry := d.anchors[n];
    OneMoreRepair(d, done, n);
    if entry.stored.Some? { EnsuredRecord(e, n); }
    assert entry.id in e.records <==> entry.id in d.records;
    if entry.id in e.records { assert f.records == e.records; }
  }

  /** An ensured record is the one that was there, or else the embedded one. */
  lemma EnsuredRecord(e: Disk, n: Name)
    requires n in e.anchors && EnsureOutcome(e, n).Ok?
    ensures e.anchors[n].id in e.records ==> EnsureOutcome(e, n).value == e.records[e.anchors[n].id]
    ensures e.anchors[n].id !in e.records ==> Repairable(e.anchors[n]) && Some(EnsureOutcome(e, n).value) == e.anchors[n].stored
  {
  }

  lemma OneMoreRepair(d: Disk, done: set<Name>, n: Name)
    requires OneAnchorEach(d.anchors) && n in d.anchors && n !in done
    ensures RepairIds(d, done + {n}) == RepairIds(d, done) + (if Repairable(d.anchors[n]) then {d.anchors[n].id} else {})
    ensures d.anchors[n].id !in RepairIds(d, done)
  {
    forall m | m in done && m in d.anchors ensures d.anchors[m].id != d.anchors[n].id {
    }
  }

  lemma RepairSucceeds(d: Disk, done: set<Name>, n: Name, e: Disk)
    requires Inv(d) && n in d.anchors && n !in done && d.anchors[n].stored.Some? && RepairsTo(d, done, e)
    ensures EnsureOutcome(e, n).Ok?
  {
    assert d.anchors[n].id !in RepairIds(d, done);
    assert AnchorFits(n, d.anchors[n]);
  }

  /** The disk without the entry of one anchor. */
  function Evicted(d: Disk, n: Name): Disk
    requires n in d.anchors
  {
    d.(anchors := d.anchors - {n}, records := d.records - {d.anchors[n].id},
       cancellations := d.cancellations - {d.anchors[n].id})
  }

  /** The disk with one new job. */
  function Added(d: Disk, r: Request, id: JobId, now: Time): Disk {
    d.(anchors := d.anchors[NameOf(r) := NewEntry(r, id, now)], records := d.records[id := NewJob(r, id, now)])
  }

  /** `byId` finds the one anchor of every anchored job. */
  ghost predicate Indexes(byId: map<JobId, Name>, anchors: map<Name, Entry>) {
    && (forall id :: id in byId ==> byId[id] in anchors && anchors[byId[id]].id == id)
    && (forall n :: n in anchors ==> anchors[n].id in byId && byId[anchors[n].id] == n)
  }

  lemma AnchoredIndex(byId: map<JobId, Name>, d: Disk)
    requires Indexes(byId, d.anchors)
    ensures forall id :: id in byId <==> Anchored(d, id)
  {
    forall id | id in byId ensures Anchored(d, id) {
      assert d.anchors[byId[id]].id == id;
    }
  }

  ghost function Image<A, B>(f: A -> B, s: set<A>): set<B> {
    set x | x in s :: f(x)
  }

  lemma {:induction false} ImageBound<A, B>(f: A -> B, s: set<A>)
    ensures |Image(f, s)| <= |s|
  {
    if s == {} {
      assert Image(f, s) == {};
    } else {
      var y :| y in s;
      ImageBound(f, s - {y});
      assert Image(f, s) == Image(f, s - {y}) + {f(y)};
    }
  }

  /** The records and the cancellations are never more than the anchors. The record
      directory also holds temporary files, so its scan may still fail. */
  lemma SideBounds(d: Disk)
    requires Inv(d)
    ensures |d.records| <= MAX_ENTRIES && |d.cancellations| <= MAX_ENTRIES
  {
    var idOf := (n: Name) => if n in d.anchors then d.anchors[n].id else 0;
    var ids := Image(idOf, d.anchors.Keys);
    ImageBound(idOf, d.anchors.Keys);
    forall id | Anchored(d, id) ensures id in ids {
      var n :| n in d.anchors && d.anchors[n].id == id;
      assert idOf(n) == id;
    }
    Smaller(d.records.Keys, ids);
    Smaller(d.cancellations.Keys, ids);
    assert |d.records| == |d.records.Keys| && |d.cancellations| == |d.cancellations.Keys|;
  }

  /** Where the ledger invariant holds there is nothing to clean up. */
  lemma NothingToClean(d: Disk, byId: map<JobId, Name>)
    requires Inv(d) && Indexes(byId, d.anchors)
    ensures d.records - (d.records.Keys - byId.Keys) == d.records
    ensures d.cancellations - (d.cancellations.Keys - byId.Keys) == d.cancellations
    ensures Cleanable(d, byId) <==> Scannable(d)
  {
    AnchoredIndex(byId, d);
    SideBounds(d);
    assert d.records.Keys <= byId.Keys && d.cancellations.Keys <= byId.Keys;
    NothingOutside(d.records, byId.Keys);
    NothingOutside(d.cancellations, byId.Keys);
  }

  lemma NothingOutside<V>(m: map<JobId, V>, ids: set<JobId>)
    requires m.Keys <= ids
    ensures m - (m.Keys - ids) == m
  {
  }

  lemma OneLess<K, V>(m: map<K, V>, k: K)
    requires k in m
    ensures |m - {k}| == |m| - 1
  {
    assert (m - {k}).Keys == m.Keys - {k};
    assert |m| == |m.Keys| && |m - {k}| == |(m - {k}).Keys|;
  }

  lemma PutAndRemove<K, V>(m: map<K, V>, k: K, v: V)
    requires k !in m
    ensures m[k := v] - {k} == m
  {
  }

  lemma NothingRemoved<V>(m: map<JobId, V>, id: JobId)
    requires id !in m
    ensures m - {id} == m
  {
  }

  lemma KeptInside<V>(m: map<JobId, V>, kept: map<JobId, V>, ids: set<JobId>)
    requires kept.Keys <= m.Keys && kept.Keys <= ids && forall id :: id in kept ==> kept[id] == m[id]
    requires forall id :: id in m && id in ids ==> id in kept
    ensures kept == m - (m.Keys - ids)
  {
  }

  ghost predicate Cleanable(d: Disk, byId: map<JobId, Name>) {
    && Scannable(d) && |d.cancellations| <= MAX_ENTRIES
    && forall id :: id in d.cancellations && id in byId ==> d.cancellations[id].id == id
  }

  ghost predicate AllRecorded(d: Disk) {
    forall n :: n in d.anchors ==> d.anchors[n].id in d.records
  }

  /** `jobs` lists exactly the records of the indexed jobs. */
  ghost predicate AreRecords(jobs: seq<StoredJob>, byId: map<JobId, Name>, records: map<JobId, StoredJob>) {
    forall s :: s in jobs <==> exists id :: id in byId && id in records && records[id] == s
  }

  ghost predicate NoneTerminal(d: Disk) {
    forall id :: id in d.records ==> !Terminal(d.records[id].job.state)
  }

  /** `d'` is `e` without its oldest terminal job, whose anchor is `n`. */
  ghost predicate Evicts(e: Disk, n: Name, d': Disk) {
    n in e.anchors && OldestTerminal(e, e.anchors[n].id) && d' == Evicted(e, n)
  }

  /** Admission into a full ledger whose records were just repaired. */
  ghost predicate AdmitsFull(e: Disk, d': Disk, failed: Option<JobError>) {
    if !Scannable(e) then d' == e && failed == Some(TooManyEntries)
    else if !AllRecorded(e) then d' == e && failed == Some(NotFound)
    else if NoneTerminal(e) then d' == e && failed == Some(Capacity)
    else failed.None? && exists n :: Evicts(e, n, d')
  }

  /** What admission does: nothing while there is room; in a full ledger it
      repairs, and then evicts exactly the oldest terminal job, or refuses
      because the record directory has too many names, a record is missing,
      or no job is terminal. */
  ghost predicate Admits(d: Disk, d': Disk, failed: Option<JobError>) {
    if |d.anchors| < MAX_ENTRIES then d' == d && failed.None?
    else exists e :: RepairsTo(d, d.anchors.Keys, e) && AdmitsFull(e, d', failed)
  }

  /** Admission took one job from a full ledger: of the finished jobs the one that
      completed first, and among equal times the one with the least id. */
  ghost predicate RetiresFirst(d: Disk, n: Name, d': Disk) {
    && n in d.anchors && d'.anchors == d.anchors - {n}
    && var id := d.anchors[n].id;
       && id in d.records && d.records[id].job.state in {Succeeded, FailedJob, Cancelled} && d.records[id].job.completedAt.Some?
       && id !in d'.records && id !in d'.cancellations
       && (forall o :: o in d.records && o != id ==> o in d'.records && d'.records[o] == d.records[o])
       && forall o :: o in d.records && d.records[o].job.state in {Succeeded, FailedJob, Cancelled} ==>
            var mine, other := d.records[id].job.completedAt, d.records[o].job.completedAt;
            other.Some? && (mine.value < other.value || (mine.value == other.value && id <= o))
  }

  /** What admission into a full ledger takes. */
  lemma AdmissionRetires(d: Disk, d': Disk, failed: Option<JobError>) returns (n: Name)
    requires Inv(d) && |d.anchors| == MAX_ENTRIES && Admits(d, d', failed) && failed.None?
    ensures RetiresFirst(d, n, d')
  {
    var e: Disk :| RepairsTo(d, d.anchors.Keys, e) && AdmitsFull(e, d', failed);
    n := FullRetires(d, e, d', failed);
  }

  lemma FullRetires(d: Disk, e: Disk, d': Disk, failed: Option<JobError>) returns (n: Name)
    requires Inv(d) && RepairsTo(d, d.anchors.Keys, e) && AdmitsFull(e, d', failed) && failed.None?
    ensures RetiresFirst(d, n, d')
  {
    RepairKeepsInv(d, e);
    n :| Evicts(e, n, d');
    EvictionRetires(e, n, d');
    RetiresBefore(d, e, n, d');
  }

  lemma EvictionRetires(e: Disk, n: Name, d': Disk)
    requires Inv(e) && Evicts(e, n, d')
    ensures RetiresFirst(e, n, d')
  {
    CompletedFirst(e, e.anchors[n].id);
  }

  /** The job was finished before the repair too. */
  lemma RetiresBefore(d: Disk, e: Disk, n: Name, d': Disk)
    requires Inv(d) && RepairsTo(d, d.anchors.Keys, e) && RetiresFirst(e, n, d')
    ensures RetiresFirst(d, n, d')
  {
    RepairedAreQueued(d, e);
  }

  /** A record that repair puts back is queued, so no finished job comes back. */
  lemma RepairedAreQueued(d: Disk, e: Disk)
    requires Inv(d) && RepairsTo(d, d.anchors.Keys, e)
    ensures forall id :: id in e.records && id !in d.records ==> e.records[id].job.state == Queued
  {
    forall id | id in e.records && id !in d.records ensures e.records[id].job.state == Queued {
      var n :| n in d.anchors && Repairable(d.anchors[n]) && d.anchors[n].id == id;
      assert AnchorFits(n, d.anchors[n]);
    }
  }

  lemma RepairKeepsInv(d: Disk, e: Disk)
    requires Inv(d) && RepairsTo(d, d.anchors.Keys, e)
    ensures Inv(e)
  {
    forall id | id in e.records ensures Anchored(e, id) {
      if id in d.records {
        var n :| n in d.anchors && d.anchors[n].id == id;
        assert n in e.anchors && e.anchors[n].id == id;
      } else {
        var n :| n in d.anchors && Repairable(d.anchors[n]) && d.anchors[n].id == id;
        assert n in e.anchors && e.anchors[n].id == id;
      }
    }
    forall id | id in e.cancellations ensures Anchored(e, id) {
      var n :| n in d.anchors && d.anchors[n].id == id;
      assert n in e.anchors && e.anchors[n].id == id;
    }
    forall n | n in e.anchors && e.anchors[n].id in e.records ensures RecordFits(e.anchors[n], e.records[e.anchors[n].id]) {
      assert AnchorFits(n, d.anchors[n]);
      if d.anchors[n].id !in d.records {
        var m :| m in d.anchors && Repairable(d.anchors[m]) && d.anchors[m].id == d.anchors[n].id;
      }
    }
  }

  /** The first of the sorted terminal jobs is the one to evict. */
  lemma FirstIsOldest(d: Disk, byId: map<JobId, Name>, jobs: seq<StoredJob>)
    requires Inv(d) && Indexes(byId, d.anchors)
    requires AreRecords(jobs, byId, d.records)
    ensures OldestFirst(jobs) == [] <==> NoneTerminal(d)
    ensures var t := OldestFirst(jobs); t != [] ==>
              && t[0].job.id in byId && byId[t[0].job.id] in d.anchors && d.anchors[byId[t[0].job.id]].id == t[0].job.id
              && OldestTerminal(d, t[0].job.id)
    ensures var t := OldestFirst(jobs); t != [] ==>
              t[0].job.completedAt.Some?
              && forall o :: o in d.records && d.records[o].job.state in {Succeeded, FailedJob, Cancelled} ==>
                   var mine, other := t[0].job.completedAt, d.records[o].job.completedAt;
                   other.Some? && (mine.value < other.value || (mine.value == other.value && t[0].job.id <= o))
  {
    var t := OldestFirst(jobs);
    HeadIsOldest(d, byId, jobs);
    if t != [] {
      CompletedFirst(d, t[0].job.id);
      assert d.records[t[0].job.id] == t[0];
    }
  }

  lemma HeadIsOldest(d: Disk, byId: map<JobId, Name>, jobs: seq<StoredJob>)
    requires Inv(d) && Indexes(byId, d.anchors)
    requires AreRecords(jobs, byId, d.records)
    ensures OldestFirst(jobs) == [] <==> NoneTerminal(d)
    ensures var t := OldestFirst(jobs); t != [] ==>
              && t[0].job.id in byId && byId[t[0].job.id] in d.anchors && d.anchors[byId[t[0].job.id]].id == t[0].job.id
              && OldestTerminal(d, t[0].job.id) && d.records[t[0].job.id] == t[0]
  {
    OldestFirstSorts(jobs);
    AnchoredIndex(byId, d);
    var t := OldestFirst(jobs);
    forall id | id in d.records ensures d.records[id] in jobs && d.records[id].job.id == id {
      var n :| n in d.anchors && d.anchors[n].id == id;
      assert RecordFits(d.anchors[n], d.records[id]);
    }
    if t != [] {
      assert t[0] in t;
      var id :| id in byId && id in d.records && d.records[id] == t[0];
      forall o | o in d.records && Terminal(d.records[o].job.state) ensures Older(t[0], d.records[o]) {
        assert d.records[o] in t;
      }
    } else {
      forall id | id in d.records ensures !Terminal(d.records[id].job.state) {
        assert d.records[id] !in t;
      }
    }
  }

  lemma IndexSize(byId: map<JobId, Name>, anchors: map<Name, Entry>)
    requires Indexes(byId, anchors)
    ensures |byId| == |anchors|
  {
    var idOf := (n: Name) => if n in anchors then anchors[n].id else 0;
    var nameOf := (id: JobId) => if id in byId then byId[id] else AnchorOf(OfKey(""));
    forall id | id in byId ensures id in Image(idOf, anchors.Keys) { assert idOf(byId[id]) == id; }
    forall n | n in anchors ensures n in Image(nameOf, byId.Keys) { assert nameOf(anchors[n].id) == n; }
    ImageBound(idOf, anchors.Keys);
    ImageBound(nameOf, byId.Keys);
    Smaller(byId.Keys, Image(idOf, anchors.Keys));
    Smaller(anchors.Keys, Image(nameOf, byId.Keys));
    assert |byId| == |byId.Keys| && |anchors| == |anchors.Keys|;
  }

  /** What creating a job does to the files and returns. */
  ghost predicate Creates(d: Disk, d': Disk, r: Request, id: JobId, now: Time, res: Result<(StoredJob, bool), JobError>) {
    var n := NameOf(r);
    if n in d.anchors then
      if d.anchors[n].requestDigest != DigestOf(r) then d' == d && res == Err(RequestConflict)
      else if EnsureOutcome(d, n).Err? then d' == d && res == Err(EnsureOutcome(d, n).error)
      else
        && d' == d.(records := d.records[d.anchors[n].id := EnsureOutcome(d, n).value])
        && res == Ok((EnsureOutcome(d, n).value, false))
    else exists e, failed :: Admits(d, e, failed) && CreatesAfter(e, failed, d', r, id, now, res)
  }

  ghost predicate CreatesAfter(e: Disk, failed: Option<JobError>, d': Disk, r: Request, id: JobId, now: Time,
                               res: Result<(StoredJob, bool), JobError>) {
    if failed.Some? then d' == e && res == Err(failed.value)
    else d' == Added(e, r, id, now) && res == Ok((NewJob(r, id, now), true))
  }

  lemma RepairKeepsUnused(d: Disk, e: Disk, id: JobId)
    requires RepairsTo(d, d.anchors.Keys, e) && Unused(d, id)
    ensures Unused(e, id)
  {
    assert forall n :: n in d.anchors ==> d.anchors[n].id != id;
    assert id !in RepairIds(d, d.anchors.Keys);
  }

  lemma EvictionLeavesRoom(d: Disk, n: Name, id: JobId)
    requires n in d.anchors && |d.anchors| <= MAX_ENTRIES && Unused(d, id)
    ensures |Evicted(d, n).anchors| < MAX_ENTRIES && Unused(Evicted(d, n), id)
  {
    var e := Evicted(d, n);
    assert e.anchors.Keys == d.anchors.Keys - {n};
    assert |e.anchors| == |e.anchors.Keys| && |d.anchors| == |d.anchors.Keys|;
    assert forall m :: m in d.anchors ==> d.anchors[m].id != id;
  }

  lemma FullLeavesRoom(d: Disk, e: Disk, n: Name, id: JobId)
    requires AdmitsFull(d, e, None) && |d.anchors| <= MAX_ENTRIES && Unused(d, id) && n !in d.anchors
    ensures |e.anchors| < MAX_ENTRIES && n !in e.anchors && Unused(e, id)
  {
    var v :| Evicts(d, v, e);
    EvictionLeavesRoom(d, v, id);
  }

  lemma AdmitsLeavesRoom(d: Disk, e: Disk, n: Name, id: JobId)
    requires |d.anchors| <= MAX_ENTRIES && Admits(d, e, None) && n !in d.anchors && Unused(d, id)
    ensures |e.anchors| < MAX_ENTRIES && n !in e.anchors && Unused(e, id)
  {
    if |d.anchors| >= MAX_ENTRIES {
      var m: Disk :| RepairsTo(d, d.anchors.Keys, m) && AdmitsFull(m, e, None);
      RepairKeepsUnused(d, m, id);
      FullLeavesRoom(m, e, n, id);
    }
  }

  /** The record belongs to the anchor. */
  predicate FiledUnder(d: Disk, n: Name, id: JobId)
    requires id in d.records
  {
    n in d.anchors && d.anchors[n].id == id && d.records[id].job.requestDigest == d.anchors[n].requestDigest
  }

  ghost predicate FiledOnce(d: Disk, id: JobId) {
    id in d.records && ValidStored(d.records[id]) && d.records[id].job.id == id && exists n :: FiledUnder(d, n, id)
  }

  ghost predicate Filed(d: Disk) { forall id {:trigger FiledOnce(d, id)} :: id in d.records ==> FiledOnce(d, id) }

  /** A filed record passes the checks of the listing. */
  lemma FiledRecord(byId: map<JobId, Name>, d: Disk, id: JobId)
    requires Filed(d) && Indexes(byId, d.anchors) && id in d.records
    ensures id in byId && byId[id] in d.anchors && ValidStored(d.records[id]) && d.records[id].job.id == id
    ensures d.records[id].job.requestDigest == d.anchors[byId[id]].requestDigest
  {
    assert FiledOnce(d, id);
    var n :| FiledUnder(d, n, id);
  }

  /** In a sound ledger every record belongs to exactly the job it is filed under. */
  lemma RecordsAreAnchored(d: Disk)
    requires Inv(d)
    ensures Filed(d)
  {
    forall id | id in d.records ensures FiledOnce(d, id) {
      var n :| n in d.anchors && d.anchors[n].id == id;
      assert RecordFits(d.anchors[n], d.records[id]) && FiledUnder(d, n, id);
    }
  }

  lemma FiledAt(d: Disk, id: JobId)
    requires Inv(d)
    ensures id in d.records ==> Anchored(d, id) && ValidStored(d.records[id])
  {
    if id in d.records { FiledUnderId(d, id); }
  }

  /** `s` lists every record once. */
  ghost predicate Lists(s: seq<StoredJob>, records: map<JobId, StoredJob>) {
    |s| == |records| && forall x :: x in s <==> x.job.id in records && records[x.job.id] == x
  }

  lemma SameElements(a: seq<StoredJob>, b: seq<StoredJob>, records: map<JobId, StoredJob>)
    requires multiset(a) == multiset(b) && Lists(a, records)
    ensures Lists(b, records)
  {
    assert |a| == |multiset(a)| && |b| == |multiset(b)|;
    forall x ensures x in b <==> x in a {
      assert x in b <==> x in multiset(b);
      assert x in a <==> x in multiset(a);
    }
  }

  predicate ListsId(jobs: seq<StoredJob>, records: map<JobId, StoredJob>, id: JobId) {
    id in records && records[id] in jobs && records[id].job.id == id
  }

  predicate ListedFrom(records: map<JobId, StoredJob>, done: set<JobId>, s: StoredJob) {
    s.job.id in done && s.job.id in records && records[s.job.id] == s
  }

  /** The jobs are the records of the ids in `done`, each once. */
  ghost predicate Gathered(jobs: seq<StoredJob>, records: map<JobId, StoredJob>, done: set<JobId>) {
    && |jobs| == |done|
    && (forall id {:trigger ListsId(jobs, records, id)} :: id in done ==> ListsId(jobs, records, id))
    && (forall s {:trigger ListedFrom(records, done, s)} :: s in jobs ==> ListedFrom(records, done, s))
  }

  lemma GatherOne(jobs: seq<StoredJob>, records: map<JobId, StoredJob>, done: set<JobId>, id: JobId)
    requires Gathered(jobs, records, done) && id in records && id !in done && records[id].job.id == id
    ensures Gathered(jobs + [records[id]], records, done + {id})
  {
    var more := jobs + [records[id]];
    forall i | i in done + {id} ensures ListsId(more, records, i) {
      if i == id { assert more[|jobs|] == records[id]; } else { assert ListsId(jobs, records, i); }
    }
    forall s | s in more ensures ListedFrom(records, done + {id}, s) {
      if s in jobs { assert ListedFrom(records, done, s); }
    }
  }

  lemma Listed(jobs: seq<StoredJob>, records: map<JobId, StoredJob>, done: set<JobId>)
    requires Gathered(jobs, records, done) && done == records.Keys
    ensures Descending(NewestFirst(jobs)) && Lists(NewestFirst(jobs), records)
  {
    forall s ensures s in jobs <==> s.job.id in records && records[s.job.id] == s {
      if s in jobs { assert ListedFrom(records, done, s); }
      if s.job.id in records { assert ListsId(jobs, records, s.job.id); }
    }
    NewestFirstSorts(jobs);
    SameElements(jobs, NewestFirst(jobs), records);
  }

  /** Newest first, ties by job id: the order of a listing. */
  predicate Newer(a: StoredJob, b: StoredJob) {
    a.job.createdAt > b.job.createdAt || (a.job.createdAt == b.job.createdAt && a.job.id <= b.job.id)
  }

  function InsertNewer(s: StoredJob, sorted: seq<StoredJob>): seq<StoredJob> {
    if sorted == [] || Newer(s, sorted[0]) then [s] + sorted else [sorted[0]] + InsertNewer(s, sorted[1..])
  }

  function NewestFirst(jobs: seq<StoredJob>): seq<StoredJob> {
    if jobs == [] then [] else InsertNewer(jobs[0], NewestFirst(jobs[1..]))
  }

  ghost predicate Descending(s: seq<StoredJob>) {
    forall i, k :: 0 <= i < k < |s| ==> Newer(s[i], s[k])
  }

  lemma {:induction false} InsertNewerKeeps(s: StoredJob, sorted: seq<StoredJob>)
    requires Descending(sorted)
    ensures Descending(InsertNewer(s, sorted)) && multiset(InsertNewer(s, sorted)) == multiset(sorted) + multiset{s}
  {
    if sorted != [] && !Newer(s, sorted[0]) {
      InsertNewerKeeps(s, sorted[1..]);
      assert sorted == [sorted[0]] + sorted[1..];
      assert forall x :: x in sorted[1..] ==> Newer(sorted[0], x);
      DescendingAfter(sorted[0], s, sorted[1..], InsertNewer(s, sorted[1..]));
    }
  }

  lemma DescendingAfter(first: StoredJob, s: StoredJob, rest: seq<StoredJob>, more: seq<StoredJob>)
    requires multiset(more) == multiset(rest) + multiset{s} && Newer(first, s) && forall x :: x in rest ==> Newer(first, x)
    ensures forall x :: x in more ==> Newer(first, x)
  {
    forall x | x in more ensures Newer(first, x) { assert x in multiset(more); }
  }

  lemma {:induction false} NewestFirstSorts(jobs: seq<StoredJob>)
    ensures Descending(NewestFirst(jobs)) && multiset(NewestFirst(jobs)) == multiset(jobs)
  {
    if jobs != [] {
      NewestFirstSorts(jobs[1..]);
      InsertNewerKeeps(jobs[0], NewestFirst(jobs[1..]));
      assert jobs == [jobs[0]] + jobs[1..];
    }
  }

  /** A job id no file uses, as a random UUID is. */
  ghost predicate Unused(d: Disk, id: JobId) {
    !Anchored(d, id) && id !in d.records && id !in d.cancellations
  }

  function Insert(s: StoredJob, sorted: seq<StoredJob>): seq<StoredJob> {
    if sorted == [] || Older(s, sorted[0]) then [s] + sorted else [sorted[0]] + Insert(s, sorted[1..])
  }

  /** The terminal jobs, oldest first. */
  function OldestFirst(jobs: seq<StoredJob>): seq<StoredJob> {
    if jobs == [] then []
    else if Terminal(jobs[0].job.state) then Insert(jobs[0], OldestFirst(jobs[1..]))
    else OldestFirst(jobs[1..])
  }

  ghost predicate Ascending(s: seq<StoredJob>) {
    forall i, k :: 0 <= i < k < |s| ==> Older(s[i], s[k])
  }

  lemma {:induction false} InsertKeeps(s: StoredJob, sorted: seq<StoredJob>)
    requires Ascending(sorted)
    ensures Ascending(Insert(s, sorted))
    ensures forall x :: x in Insert(s, sorted) <==> x == s || x in sorted
  {
    if sorted != [] && !Older(s, sorted[0]) {
      assert sorted == [sorted[0]] + sorted[1..];
      InsertKeeps(s, sorted[1..]);
      assert forall x :: x in sorted[1..] ==> Older(sorted[0], x);
    }
  }

  /** Retention sees exactly the terminal jobs, in order of age. */
  lemma {:induction false} OldestFirstSorts(jobs: seq<StoredJob>)
    ensures Ascending(OldestFirst(jobs))
    ensures forall x :: x in OldestFirst(jobs) <==> x in jobs && Terminal(x.job.state)
  {
    if jobs != [] {
      OldestFirstSorts(jobs[1..]);
      if Terminal(jobs[0].job.state) { InsertKeeps(jobs[0], OldestFirst(jobs[1..])); }
      assert jobs == [jobs[0]] + jobs[1..];
    }
  }

  lemma ExtendChain(h: seq<Ledger>, l: Ledger)
    requires h != [] && Chain(h) && Leads(h[|h| - 1], l)
    ensures Chain(h + [l])
  {
    var g := h + [l];
    forall i: nat | i + 1 < |g| ensures LeadsAt(g, i) {
      if i + 1 < |h| { assert LeadsAt(h, i); }
    }
  }

  class JobLedger {
    var anchors: map<Name, Entry>
    var records: map<JobId, StoredJob>
    var cancellations: map<JobId, Cancellation>
    var temps: map<Temp, StoredJob>
    ghost var phase: Phase
    ghost var history: seq<Ledger>

    function Files(): Disk
      reads this
    {
      Disk(anchors, records, cancellations, temps)
    }

    /** The history is a chain of single writes that ends in the present. */
    ghost predicate Consistent()
      reads this
    {
      history != [] && Chain(history) && history[|history| - 1] == Ledger(Files(), phase)
    }

    ghost predicate Valid()
      reads this
    {
      Consistent() && phase.Idle?
    }

    /** Opens the ledger on whatever files a crash has left. */
    constructor (d: Disk)
      ensures Valid() && Files() == d && history == [Ledger(d, Idle)]
    {
      anchors, records, cancellations, temps := d.anchors, d.records, d.cancellations, d.temps;
      phase := Idle;
      history := [Ledger(d, Idle)];
    }

    /** Notes the state after the write `a`. */
    ghost method Note(a: Action)
      requires history != [] && Chain(history)
      requires Enabled(history[|history| - 1], a) && Ledger(Files(), phase) == Next(history[|history| - 1], a)
      modifies this`history
      ensures Consistent() && history == old(history) + [Ledger(Files(), phase)]
    {
      ExtendChain(history, Ledger(Files(), phase));
      history := history + [Ledger(Files(), phase)];
    }

    method EnsureRecord(n: Name) returns (r: Result<StoredJob, JobError>)
      requires Valid() && n in anchors
      modifies this
      ensures Valid() && old(history) <= history
      ensures r == EnsureOutcome(old(Files()), n)
      ensures anchors == old(anchors) && cancellations == old(cancellations) && temps == old(temps)
      ensures records == if r.Ok? then old(records)[anchors[n].id := r.value] else old(records)
    {
      var e := anchors[n];
      if e.id in records {
        var s := records[e.id];
        if !ValidStored(s) { return Err(InvalidJob); }
        if s.job.requestDigest != e.requestDigest { return Err(RecordConflict); }
        if e.stored.Some? && !SameIdentity(s, e.stored.value) { return Err(IdentityMismatch); }
        assert records == records[e.id := s];
        return Ok(s);
      }
      if e.stored.None? { return Err(LegacyMissing); }
      var s := e.stored.value;
      if !ValidStored(s) { return Err(InvalidJob); }
      if s.job.id != e.id || s.job.requestDigest != e.requestDigest { return Err(Inconsistent); }
      records := records[e.id := s];
      Note(PutRecord(n));
      return Ok(s);
    }

    /** Reads the anchors as a map from job ids, in whatever order the directory lists them. */
    method ReadAnchors() returns (r: Result<map<JobId, Name>, JobError>)
      ensures r.Ok? <==> |anchors| <= MAX_ENTRIES && OneAnchorEach(anchors)
      ensures r.Ok? ==> Indexes(r.value, anchors)
    {
      if |anchors| > MAX_ENTRIES { return Err(TooManyEntries); }
      var byId: map<JobId, Name> := map[];
      var todo := anchors.Keys;
      while todo != {}
        invariant todo <= anchors.Keys
        invariant forall id :: id in byId ==> byId[id] in anchors.Keys - todo && anchors[byId[id]].id == id
        invariant forall n :: n in anchors.Keys - todo ==> anchors[n].id in byId && byId[anchors[n].id] == n
      {
        var n :| n in todo;
        if anchors[n].id in byId { return Err(DuplicateAnchor); }
        byId := byId[anchors[n].id := n];
        todo := todo - {n};
      }
      assert anchors.Keys - todo == anchors.Keys;
      return Ok(byId);
    }

    /** One turn of the repair of a disk that was `start`. */
    method ReconcileOne(n: Name, ghost start: Disk, ghost done: set<Name>) returns (failed: Option<JobError>)
      requires Valid() && OneAnchorEach(start.anchors) && n in anchors && n !in done && RepairsTo(start, done, Files())
      modifies this
      ensures Valid() && old(history) <= history
      ensures anchors == old(anchors) && cancellations == old(cancellations) && temps == old(temps)
      ensures failed.None? ==> RepairsTo(start, done + {n}, Files())
      ensures Inv(start) ==> failed.None?
    {
      ghost var before := Files();
      if anchors[n].stored.Some? {
        if Inv(start) { RepairSucceeds(start, done, n, before); }
        var r := EnsureRecord(n);
        if r.Err? { return Some(r.error); }
      }
      RepairOne(start, done, n, before, Files());
      return None;
    }

    /** Gives every anchor that embeds a job its record back. */
    method Reconcile() returns (failed: Option<JobError>)
      requires Valid() && OneAnchorEach(anchors)
      modifies this
      ensures Valid() && old(history) <= history
      ensures anchors == old(anchors) && cancellations == old(cancellations) && temps == old(temps)
      ensures failed.None? ==> RepairsTo(old(Files()), anchors.Keys, Files())
      ensures old(Inv(Files())) ==> failed.None?
    {
      ghost var start := Files();
      var todo := anchors.Keys;
      while todo != {}
        invariant Valid() && old(history) <= history && todo <= anchors.Keys
        invariant RepairsTo(start, start.anchors.Keys - todo, Files())
      {
        var n :| n in todo;
        failed := ReconcileOne(n, start, start.anchors.Keys - todo);
        if failed.Some? { return; }
        assert start.anchors.Keys - todo + {n} == start.anchors.Keys - (todo - {n});
        todo := todo - {n};
      }
      assert anchors.Keys - todo == anchors.Keys;
      return None;
    }

    /** Removes one record file, during an eviction or as an orphan. */
    method RemoveRecord(id: JobId, ghost a: Action)
      requires Consistent() && id in records && Enabled(Ledger(Files(), phase), a)
      requires (a == SweepRecord(id)) || (a == DropRecord && phase.Pruning? && phase.id == id)
      modifies this`records, this`history
      ensures Consistent() && old(history) <= history && records == old(records) - {id}
    {
      records := records - {id};
      Note(a);
    }

    method RemoveCancellation(id: JobId, ghost a: Action)
      requires Consistent() && id in cancellations && Enabled(Ledger(Files(), phase), a)
      requires (a == SweepCancellation(id)) || (a == DropCancellation && phase.Pruning? && phase.id == id)
      modifies this`cancellations, this`history
      ensures Consistent() && old(history) <= history && cancellations == old(cancellations) - {id}
    {
      cancellations := cancellations - {id};
      Note(a);
    }

    /** Removes the records that have no anchor. */
    method CleanupRecords(byId: map<JobId, Name>)
      requires Valid() && Indexes(byId, anchors)
      modifies this`records, this`history
      ensures Valid() && old(history) <= history
      ensures records == old(records) - (old(records).Keys - byId.Keys)
    {
      AnchoredIndex(byId, Files());
      ghost var start := records;
      var todo := records.Keys;
      while todo != {}
        invariant Valid() && old(history) <= history
        invariant todo <= start.Keys && records == start - (start.Keys - todo - byId.Keys)
        invariant forall id :: id in byId <==> Anchored(Files(), id)
      {
        var id :| id in todo;
        if id !in byId {
          RemoveRecord(id, SweepRecord(id));
          AnchoredIndex(byId, Files());
        }
        todo := todo - {id};
      }
    }

    /** Removes the cancellations that have no anchor; the others must name their own job. */
    method CleanupCancellations(byId: map<JobId, Name>) returns (failed: Option<JobError>)
      requires Valid() && Indexes(byId, anchors)
      modifies this`cancellations, this`history
      ensures Valid() && old(history) <= history
      ensures cancellations.Keys <= old(cancellations).Keys
      ensures forall id :: id in cancellations ==> cancellations[id] == old(cancellations)[id]
      ensures forall id :: id in old(cancellations) && id in byId ==> id in cancellations
      ensures failed.None? <==> forall id :: id in old(cancellations) && id in byId ==> old(cancellations)[id].id == id
      ensures failed.None? ==> cancellations.Keys <= byId.Keys
    {
      AnchoredIndex(byId, Files());
      ghost var start := cancellations;
      var todo := cancellations.Keys;
      while todo != {}
        invariant Valid() && old(history) <= history
        invariant todo <= start.Keys && cancellations == start - (start.Keys - todo - byId.Keys)
        invariant forall id :: id in start.Keys - todo && id in byId ==> start[id].id == id
        invariant forall id :: id in byId <==> Anchored(Files(), id)
      {
        var id :| id in todo;
        if id !in byId {
          RemoveCancellation(id, SweepCancellation(id));
          AnchoredIndex(byId, Files());
        } else if cancellations[id].id != id {
          return Some(CancellationMismatch);
        }
        todo := todo - {id};
      }
      return None;
    }

    /** `cleanupJobSideDirectories`: afterwards no record and no cancellation is without an anchor. */
    method Cleanup(byId: map<JobId, Name>) returns (failed: Option<JobError>)
      requires Valid() && Indexes(byId, anchors)
      modifies this`records, this`cancellations, this`history
      ensures Valid() && old(history) <= history
      ensures failed.None? <==> Cleanable(old(Files()), byId)
      ensures !Scannable(old(Files())) ==> failed == Some(TooManyEntries) && Files() == old(Files())
      ensures failed.None? ==> records == old(records) - (old(records).Keys - byId.Keys)
      ensures failed.None? ==> cancellations == old(cancellations) - (old(cancellations).Keys - byId.Keys)
    {
      if |records| + |temps| > SIDE_MAX_ENTRIES { return Some(TooManyEntries); }
      CleanupRecords(byId);
      if |cancellations| > MAX_ENTRIES { return Some(TooManyEntries); }
      failed := CleanupCancellations(byId);
      if failed.None? {
        KeptInside(old(cancellations), cancellations, byId.Keys);
      }
    }

    /** Reads the record of every anchored job. */
    method ReadAnchored(byId: map<JobId, Name>) returns (r: Result<seq<StoredJob>, JobError>)
      requires Indexes(byId, anchors)
      ensures r.Ok? ==> AreRecords(r.value, byId, records) && AllRecorded(Files())
      ensures Inv(Files()) ==> (r.Ok? <==> AllRecorded(Files())) && (r.Err? ==> r.error == NotFound)
    {
      var jobs: seq<StoredJob> := [];
      var todo := byId.Keys;
      while todo != {}
        invariant todo <= byId.Keys
        invariant forall id :: id in byId.Keys - todo ==> id in records && records[id] in jobs
        invariant forall s :: s in jobs ==> exists id :: id in byId && id in records && records[id] == s
      {
        var id :| id in todo;
        assert anchors[byId[id]].id == id;
        if id !in records { return Err(NotFound); }
        if !ValidStored(records[id]) { return Err(InvalidJob); }
        if records[id].job.requestDigest != anchors[byId[id]].requestDigest { return Err(RecordConflict); }
        jobs := jobs + [records[id]];
        todo := todo - {id};
      }
      return Ok(jobs);
    }

    method BeginPrune(n: Name)
      requires Valid() && Enabled(Ledger(Files(), Idle), Action.BeginPrune(n))
      modifies this`phase, this`history
      ensures Consistent() && old(history) <= history && phase == Pruning(n, anchors[n].id)
    {
      phase := Pruning(n, anchors[n].id);
      Note(Action.BeginPrune(n));
    }

    method RemoveAnchor(n: Name)
      requires Consistent() && phase.Pruning? && phase.name == n && Enabled(Ledger(Files(), phase), DropAnchor)
      modifies this`anchors, this`phase, this`history
      ensures Valid() && old(history) <= history && anchors == old(anchors) - {n}
    {
      anchors := anchors - {n};
      phase := Idle;
      Note(DropAnchor);
    }

    /** Evicts one entry: cancellation, record, and the anchor last. */
    method Prune(n: Name)
      requires Valid() && Enabled(Ledger(Files(), Idle), Action.BeginPrune(n))
      modifies this
      ensures Valid() && old(history) <= history && Files() == Evicted(old(Files()), n)
    {
      BeginPrune(n);
      RemoveFiles(n);
    }

    /** The three removals of an eviction. */
    method RemoveFiles(n: Name)
      requires Consistent() && n in anchors && anchors[n].id in records && phase == Pruning(n, anchors[n].id)
      modifies this
      ensures Valid() && old(history) <= history && Files() == Evicted(old(Files()), n)
    {
      DropSide(n, anchors[n].id);
      RemoveAnchor(n);
    }

    /** The first two removals of an eviction. */
    method DropSide(n: Name, id: JobId)
      requires Consistent() && phase == Pruning(n, id) && id in records
      modifies this`records, this`cancellations, this`history
      ensures Consistent() && old(history) <= history
      ensures records == old(records) - {id} && cancellations == old(cancellations) - {id}
    {
      if id in cancellations {
        RemoveCancellation(id, DropCancellation);
      } else {
        NothingRemoved(cancellations, id);
      }
      RemoveRecord(id, DropRecord);
    }

    /** The retention loop of admission, over the records it has read. */
    method MakeRoom(index: map<JobId, Name>, jobs: seq<StoredJob>) returns (failed: Option<JobError>)
      requires Valid() && Inv(Files()) && Scannable(Files()) && AllRecorded(Files()) && Indexes(index, anchors)
      requires |index| == |anchors| == MAX_ENTRIES
      requires AreRecords(jobs, index, records)
      modifies this
      ensures Valid() && old(history) <= history
      ensures AdmitsFull(old(Files()), Files(), failed)
    {
      ghost var e := Files();
      var byId := index;
      var terminal := OldestFirst(jobs);
      FirstIsOldest(e, byId, jobs);
      ghost var evicted: Option<Name> := None;
      while |byId| >= MAX_ENTRIES
        invariant Valid() && old(history) <= history
        invariant evicted.None? ==> byId == index && Files() == e && terminal == OldestFirst(jobs)
        invariant evicted.Some? ==>
                    |byId| < MAX_ENTRIES && !NoneTerminal(e) && Evicts(e, evicted.value, Files())
        decreases |byId|
      {
        if terminal == [] { return Some(Capacity); }
        var victim := terminal[0].job.id;
        terminal := terminal[1..];
        var n := byId[victim];
        Prune(n);
        evicted := Some(n);
        OneLess(byId, victim);
        byId := byId - {victim};
      }
      return None;
    }

    /** Cleanup and retention of a full ledger whose records were just repaired. */
    method Retain(byId: map<JobId, Name>) returns (failed: Option<JobError>)
      requires Valid() && Inv(Files()) && Indexes(byId, anchors) && |byId| == |anchors| == MAX_ENTRIES
      modifies this
      ensures Valid() && old(history) <= history
      ensures AdmitsFull(old(Files()), Files(), failed)
    {
      failed := CleanupSound(byId);
      if failed.Some? { return failed; }
      failed := RetainScanned(byId);
    }

    /** Cleanup of a sound ledger, which finds nothing to remove. */
    method CleanupSound(byId: map<JobId, Name>) returns (failed: Option<JobError>)
      requires Valid() && Inv(Files()) && Indexes(byId, anchors)
      modifies this`records, this`cancellations, this`history
      ensures Valid() && old(history) <= history && Files() == old(Files())
      ensures failed == if Scannable(old(Files())) then None else Some(TooManyEntries)
    {
      NothingToClean(Files(), byId);
      failed := Cleanup(byId);
    }

    /** Retention of a ledger whose record directory could be scanned. */
    method RetainScanned(byId: map<JobId, Name>) returns (failed: Option<JobError>)
      requires Valid() && Inv(Files()) && Scannable(Files()) && Indexes(byId, anchors) && |byId| == |anchors| == MAX_ENTRIES
      modifies this
      ensures Valid() && old(history) <= history
      ensures AdmitsFull(old(Files()), Files(), failed)
    {
      var read := ReadAnchored(byId);
      match read
      case Err(error) => failed := Some(error);
      case Ok(jobs) => failed := MakeRoom(byId, jobs);
    }

    /** `admitJobLedgerEntry`. */
    method Admit() returns (failed: Option<JobError>)
      requires Valid() && Inv(Files())
      modifies this
      ensures Valid() && old(history) <= history
      ensures Admits(old(Files()), Files(), failed)
      ensures failed.None? && |old(anchors)| == MAX_ENTRIES ==> exists n :: RetiresFirst(old(Files()), n, Files())
    {
      failed := AdmitEntry();
      if failed.None? && |old(anchors)| == MAX_ENTRIES { ghost var n := AdmissionRetires(old(Files()), Files(), failed); }
    }

    method AdmitEntry() returns (failed: Option<JobError>)
      requires Valid() && Inv(Files())
      modifies this
      ensures Valid() && old(history) <= history
      ensures Admits(old(Files()), Files(), failed)
    {
      var listed := ReadAnchors();
      match listed
      case Err(error) => failed := Some(error);
      case Ok(byId) =>
        IndexSize(byId, anchors);
        if |byId| < MAX_ENTRIES { return None; }
        failed := Reconcile();
        if failed.Some? { return failed; }
        ghost var e := Files();
        RepairKeepsInv(old(Files()), e);
        failed := Retain(byId);
        assert AdmitsFull(e, Files(), failed);
    }

    /** `createJob`: the anchor is written before the record. */
    method CreateJob(r: Request, id: JobId, now: Time) returns (res: Result<(StoredJob, bool), JobError>)
      requires Valid() && Inv(Files()) && Unused(Files(), id)
      modifies this
      ensures Valid() && old(history) <= history
      ensures Creates(old(Files()), Files(), r, id, now, res)
    {
      ghost var d := Files();
      var n := NameOf(r);
      if n in anchors {
        if anchors[n].requestDigest != DigestOf(r) { return Err(RequestConflict); }
        var found := EnsureRecord(n);
        match found
        case Err(error) => return Err(error);
        case Ok(s) => return Ok((s, false));
      }
      var failed := Admit();
      ghost var e := Files();
      if failed.Some? {
        assert CreatesAfter(e, failed, Files(), r, id, now, Err(failed.value));
        return Err(failed.value);
      }
      AdmitsLeavesRoom(d, e, n, id);
      WriteNew(r, id, now);
      res := Ok((NewJob(r, id, now), true));
      assert CreatesAfter(e, failed, Files(), r, id, now, res);
    }

    /** The two writes of a new job. */
    method WriteNew(r: Request, id: JobId, now: Time)
      requires Valid() && |anchors| < MAX_ENTRIES && NameOf(r) !in anchors && Unused(Files(), id)
      modifies this
      ensures Valid() && old(history) <= history
      ensures Files() == Added(old(Files()), r, id, now)
    {
      var n, entry := NameOf(r), NewEntry(r, id, now);
      anchors := anchors[n := entry];
      Note(PutAnchor(n, entry));
      records := records[id := NewJob(r, id, now)];
      Note(PutRecord(n));
    }

    /** `findIdempotentJob`. */
    method FindIdempotentJob(r: Request) returns (res: Result<Option<StoredJob>, JobError>)
      requires Valid()
      modifies this
      ensures Valid() && old(history) <= history
      ensures NameOf(r) !in old(anchors) ==> res == Ok(None) && Files() == old(Files())
      ensures NameOf(r) in old(anchors) && old(anchors)[NameOf(r)].requestDigest != DigestOf(r) ==>
                res == Err(RequestConflict) && Files() == old(Files())
      ensures NameOf(r) in old(anchors) && old(anchors)[NameOf(r)].requestDigest == DigestOf(r) ==>
                match EnsureOutcome(old(Files()), NameOf(r))
                case Err(e) => res == Err(e) && Files() == old(Files())
                case Ok(s) => res == Ok(Some(s))
                              && Files() == old(Files()).(records := old(records)[old(anchors)[NameOf(r)].id := s])
    {
      var n := NameOf(r);
      if n !in anchors { return Ok(None); }
      if anchors[n].requestDigest != DigestOf(r) { return Err(RequestConflict); }
      var found := EnsureRecord(n);
      match found
      case Err(e) => res := Err(e);
      case Ok(s) => res := Ok(Some(s));
    }

    /** `readJob`. */
    method ReadJob(id: JobId) returns (r: Result<StoredJob, JobError>)
      ensures id !in records ==> r == Err(NotFound)
      ensures id in records ==> r == if ValidStored(records[id]) then Ok(records[id]) else Err(InvalidJob)
    {
      if id !in records { return Err(NotFound); }
      if !ValidStored(records[id]) { return Err(InvalidJob); }
      return Ok(records[id]);
    }

    /** `transitionJob`, by the holder of the execution claim; `nonce` is the random
        part of the temporary name, which no file has yet. */
    method Transition(id: JobId, to: JobState, now: Time, receipt: Option<string>, error: Option<string>, nonce: nat)
      returns (r: Result<StoredJob, JobError>)
      requires Valid() && Temp(id, nonce) !in temps
      modifies this
      ensures Valid() && old(history) <= history
      ensures anchors == old(anchors) && cancellations == old(cancellations) && temps == old(temps)
      ensures r.Ok? <==>
                && id in old(records) && ValidStored(old(records)[id])
                && LegalTransition(old(records)[id].job.state, to)
                && (to.FailedJob? ==> error.Some? || old(records)[id].job.error.Some?)
      ensures r.Ok? ==> r.value == Moved(old(records)[id], to, now, receipt, error) && records == old(records)[id := r.value]
      ensures r.Err? ==> records == old(records)
    {
      var read := ReadJob(id);
      match read
      case Err(e) => return Err(e);
      case Ok(s) =>
        if !LegalTransition(s.job.state, to) { return Err(IllegalTransition); }
        var next := Moved(s, to, now, receipt, error);
        if !ValidJob(next.job) { return Err(InvalidJob); }
        AtomicReplace(Temp(id, nonce), to, now, receipt, error);
        return Ok(next);
    }

    /** `atomicReplace`: a whole temporary file, and then its rename. A crash between
        the two leaves the temporary file behind. */
    method AtomicReplace(t: Temp, to: JobState, now: Time, receipt: Option<string>, error: Option<string>)
      requires Valid() && Enabled(Ledger(Files(), Idle), PutTemp(t, to, now, receipt, error))
      modifies this
      ensures Valid() && old(history) <= history
      ensures Files() == old(Files()).(records := old(records)[t.id := Moved(old(records)[t.id], to, now, receipt, error)])
    {
      ghost var start := temps;
      WriteTemp(t, to, now, receipt, error);
      Rename(t);
      PutAndRemove(start, t, Moved(old(records)[t.id], to, now, receipt, error));
    }

    method WriteTemp(t: Temp, to: JobState, now: Time, receipt: Option<string>, error: Option<string>)
      requires Valid() && Enabled(Ledger(Files(), Idle), PutTemp(t, to, now, receipt, error))
      modifies this`temps, this`phase, this`history
      ensures Consistent() && old(history) <= history && phase == Replacing(t)
      ensures temps == old(temps)[t := Moved(records[t.id], to, now, receipt, error)]
    {
      temps := temps[t := Moved(records[t.id], to, now, receipt, error)];
      phase := Replacing(t);
      Note(PutTemp(t, to, now, receipt, error));
    }

    method Rename(t: Temp)
      requires Consistent() && phase == Replacing(t) && t in temps
      modifies this`records, this`temps, this`phase, this`history
      ensures Valid() && old(history) <= history
      ensures records == old(records)[t.id := old(temps)[t]] && temps == old(temps) - {t}
    {
      records, temps := records[t.id := temps[t]], temps - {t};
      phase := Idle;
      Note(RenameTemp);
    }

    /** `requestJobCancellation`: one durable cancellation for each job. */
    method RequestCancellation(id: JobId, key: string, now: Time) returns (r: Result<(Cancellation, bool), JobError>)
      requires Valid() && Inv(Files())
      modifies this
      ensures Valid() && old(history) <= history
      ensures anchors == old(anchors) && records == old(records) && temps == old(temps)
      ensures id !in old(records) ==> r == Err(NotFound) && cancellations == old(cancellations)
      ensures id in old(records) && !Scannable(old(Files())) ==> r == Err(TooManyEntries) && cancellations == old(cancellations)
      ensures id in old(records) && Scannable(old(Files())) && id in old(cancellations) ==>
                && cancellations == old(cancellations)
                && r == if old(cancellations)[id].requestDigest == OfCancellation(id, key)
                        then Ok((old(cancellations)[id], false)) else Err(CancellationConflict)
      ensures id in old(records) && Scannable(old(Files())) && id !in old(cancellations) ==>
                var c := Cancellation(id, OfCancellation(id, key), now);
                r == Ok((c, true)) && cancellations == old(cancellations)[id := c]
    {
      var read := ReadJob(id);
      FiledAt(Files(), id);
      match read
      case Err(e) => return Err(e);
      case Ok(_) =>
        var failed := CheckAnchored(id);
        match failed {
          case Some(e) => return Err(e);
          case None =>
        }
        if id in cancellations {
          if cancellations[id].requestDigest != OfCancellation(id, key) { return Err(CancellationConflict); }
          return Ok((cancellations[id], false));
        }
        var c := Cancellation(id, OfCancellation(id, key), now);
        PutCancellationFile(c);
        return Ok((c, true));
    }

    method PutCancellationFile(c: Cancellation)
      requires Valid() && Enabled(Ledger(Files(), Idle), PutCancellation(c))
      modifies this`cancellations, this`history
      ensures Valid() && old(history) <= history && cancellations == old(cancellations)[c.id := c]
    {
      cancellations := cancellations[c.id := c];
      Note(PutCancellation(c));
    }

    /** Reads the anchors, cleans the side directories, and looks for the anchor of one job. */
    method CheckAnchored(id: JobId) returns (failed: Option<JobError>)
      requires Valid() && Inv(Files())
      modifies this
      ensures Valid() && old(history) <= history && Files() == old(Files())
      ensures failed.None? <==> Scannable(Files()) && Anchored(Files(), id)
      ensures !Scannable(Files()) ==> failed == Some(TooManyEntries)
    {
      var listed := ReadAnchors();
      match listed
      case Err(e) => return Some(e);
      case Ok(byId) =>
        failed := CleanupSound(byId);
        AnchoredIndex(byId, Files());
        if failed.None? && id !in byId { return Some(Unanchored); }
    }

    /** `listAllJobs`: afterwards every anchor that embeds a job has its record
        again, and the listing is exactly the records, newest first, if the
        record directory can be scanned. */
    method ListAllJobs(maximum: nat) returns (r: Result<seq<StoredJob>, JobError>)
      requires Valid() && Inv(Files())
      modifies this
      ensures Valid() && old(history) <= history
      ensures |old(anchors)| > maximum ==> r == Err(AboveMaximum) && Files() == old(Files())
      ensures |old(anchors)| <= maximum ==> RepairsTo(old(Files()), old(anchors).Keys, Files())
      ensures |old(anchors)| <= maximum ==> if Scannable(Files()) then r.Ok? && Descending(r.value) && Lists(r.value, records)
                                            else r == Err(TooManyEntries)
    {
      ghost var d := Files();
      var listed := ReadAnchors();
      match listed
      case Err(e) => return Err(e);
      case Ok(byId) =>
        IndexSize(byId, anchors);
        if |byId| > maximum { return Err(AboveMaximum); }
        var failed := Reconcile();
        if failed.Some? { return Err(NotFound); }
        RepairKeepsInv(d, Files());
        RecordsAreAnchored(Files());
        r := ReadListing(byId);
    }

    /** Adds one record file to the listing, if its job is anchored and it passes the checks. */
    method ReadRow(byId: map<JobId, Name>, id: JobId, jobs: seq<StoredJob>, ghost done: set<JobId>)
      returns (r: Result<seq<StoredJob>, JobError>)
      requires Filed(Files()) && Indexes(byId, anchors) && id in records && id !in done && Gathered(jobs, records, done)
      ensures r.Ok? && Gathered(r.value, records, done + {id})
    {
      FiledRecord(byId, Files(), id);
      GatherOne(jobs, records, done, id);
      if id !in byId { return Ok(jobs); }
      if !ValidStored(records[id]) { return Err(InvalidJob); }
      if records[id].job.requestDigest != anchors[byId[id]].requestDigest { return Err(RecordConflict); }
      return Ok(jobs + [records[id]]);
    }

    /** The records of the anchored jobs, newest first. */
    method ReadListing(byId: map<JobId, Name>) returns (r: Result<seq<StoredJob>, JobError>)
      requires Filed(Files()) && Indexes(byId, anchors)
      ensures if Scannable(Files()) then r.Ok? && Descending(r.value) && Lists(r.value, records) else r == Err(TooManyEntries)
    {
      if |records| + |temps| > SIDE_MAX_ENTRIES { return Err(TooManyEntries); }
      r := Ok([]);
      var todo := records.Keys;
      ghost var done: set<JobId> := {};
      while todo != {}
        invariant done + todo == records.Keys && done !! todo && r.Ok? && Gathered(r.value, records, done)
      {
        var id :| id in todo;
        r := ReadRow(byId, id, r.value, done);
        todo, done := todo - {id}, done + {id};
      }
      Listed(r.value, records, done);
      r := Ok(NewestFirst(r.value));
    }
  }
}
