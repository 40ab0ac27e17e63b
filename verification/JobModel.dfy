/** The job ledger: its files, the single writes made under the ledger lock, and
    what every state keeps, crash points included. */
module JobModel {
  import opened Common

  /** The greatest number of anchored jobs, and the scan cap of the record directory. */
  const MAX_ENTRIES: nat := 128
  const SIDE_MAX_ENTRIES: nat := MAX_ENTRIES + 32

  type JobId = nat
  type Time = nat

  datatype JobState = Queued | Running | Succeeded | FailedJob | Cancelled

  datatype RequestBody = RequestBody(kind: string, expectedRevision: string, requestedBy: string, confirmation: string, parameters: string)

  /** A job request as a caller sends it, and as it is stored: its key only as a digest. */
  datatype Request = Request(key: string, body: RequestBody)
  datatype StoredRequest = StoredRequest(key: Digest, body: RequestBody)

  /** A digest is a free constructor over what it hashes. */
  datatype Digest = OfKey(key: string) | OfRequest(request: StoredRequest) | OfCancellation(id: JobId, key: string)

  /** The name of the anchor file of a stored key. */
  datatype Name = AnchorOf(key: Digest)

  datatype Job = Job(
    id: JobId, kind: string, state: JobState, expectedRevision: string, key: Digest, requestDigest: Digest,
    confirmation: string, createdAt: Time, startedAt: Option<Time>, completedAt: Option<Time>,
    receipt: Option<string>, error: Option<string>)

  datatype StoredJob = StoredJob(job: Job, request: StoredRequest)

  /** The durable transaction anchor; legacy anchors carry no embedded job. */
  datatype Entry = Entry(id: JobId, requestDigest: Digest, stored: Option<StoredJob>)

  datatype Cancellation = Cancellation(id: JobId, requestDigest: Digest, requestedAt: Time)

  /** The temporary file of one replacement of a record; the nonce is a random UUID. */
  datatype Temp = Temp(id: JobId, nonce: nat)

  /** `temps` are the temporary files, which lie in the directory of the records. */
  datatype Disk = Disk(
    anchors: map<Name, Entry>, records: map<JobId, StoredJob>, cancellations: map<JobId, Cancellation>,
    temps: map<Temp, StoredJob>)

  /** Which eviction or replacement is in progress; a crash forgets it. */
  datatype Phase = Idle | Pruning(name: Name, id: JobId) | Replacing(temp: Temp)

  datatype Ledger = Ledger(disk: Disk, phase: Phase)

  function Stored(r: Request): StoredRequest { StoredRequest(OfKey(r.key), r.body) }
  function NameOf(r: Request): Name { AnchorOf(OfKey(r.key)) }
  function DigestOf(r: Request): Digest { OfRequest(Stored(r)) }

  predicate Terminal(s: JobState) { s.Succeeded? || s.FailedJob? || s.Cancelled? }

  predicate LegalTransition(from: JobState, to: JobState) {
    || (from.Queued? && (to.Running? || to.Cancelled?))
    || (from.Running? && Terminal(to))
  }

  /** `assertJob`, for the fields that depend on the state. */
  predicate ValidJob(j: Job) {
    && (j.state.Running? ==> j.startedAt.Some?)
    && (Terminal(j.state) ==> j.completedAt.Some?)
    && (j.state.FailedJob? ==> j.error.Some?)
  }

  predicate ValidStored(s: StoredJob) {
    ValidJob(s.job) && s.request.key == s.job.key && s.job.requestDigest == OfRequest(s.request)
  }

  predicate SameIdentity(a: StoredJob, b: StoredJob) {
    && a.request == b.request && a.job.id == b.job.id && a.job.kind == b.job.kind
    && a.job.expectedRevision == b.job.expectedRevision && a.job.key == b.job.key
    && a.job.requestDigest == b.job.requestDigest && a.job.confirmation == b.job.confirmation
    && a.job.createdAt == b.job.createdAt
  }

  /** The job a creation makes. */
  function NewJob(r: Request, id: JobId, now: Time): StoredJob {
    StoredJob(Job(id, r.body.kind, Queued, r.body.expectedRevision, OfKey(r.key), DigestOf(r),
                  r.body.confirmation, now, None, None, None, None), Stored(r))
  }

  function NewEntry(r: Request, id: JobId, now: Time): Entry {
    Entry(id, DigestOf(r), Some(NewJob(r, id, now)))
  }

  /** The record a transition writes. */
  function Moved(s: StoredJob, to: JobState, now: Time, receipt: Option<string>, error: Option<string>): StoredJob {
    var j := s.job;
    s.(job := j.(
      state := to,
      startedAt := if to.Running? && j.startedAt.None? then Some(now) else j.startedAt,
      completedAt := if Terminal(to) then Some(now) else j.completedAt,
      receipt := if (to.Succeeded? || to.Cancelled?) && receipt.Some? then receipt else j.receipt,
      error := if to.FailedJob? && error.Some? then error else j.error))
  }

  predicate Anchored(d: Disk, id: JobId) {
    exists n :: n in d.anchors && d.anchors[n].id == id
  }

  /** No job has two anchors. */
  predicate OneAnchorEach(anchors: map<Name, Entry>) {
    forall n, m :: n in anchors && m in anchors && anchors[n].id == anchors[m].id ==> n == m
  }

  /** An anchor whose embedded job can recreate a record. */
  predicate Repairable(e: Entry) {
    e.stored.Some? && ValidStored(e.stored.value) && e.stored.value.job.id == e.id
    && e.stored.value.job.requestDigest == e.requestDigest
  }

  /** What retention orders by: completion, else creation, then the job id. */
  function Age(s: StoredJob): Time {
    if s.job.completedAt.Some? then s.job.completedAt.value else s.job.createdAt
  }

  predicate Older(a: StoredJob, b: StoredJob) {
    Age(a) < Age(b) || (Age(a) == Age(b) && a.job.id <= b.job.id)
  }

  /** `id` is terminal, and no anchored terminal job is older. */
  predicate OldestTerminal(d: Disk, id: JobId) {
    && Anchored(d, id) && id in d.records && Terminal(d.records[id].job.state)
    && forall o :: o in d.records && Anchored(d, o) && Terminal(d.records[o].job.state) ==>
         Older(d.records[id], d.records[o])
  }

  /** How many names a scan of the record directory meets. */
  function Names(d: Disk): nat { |d.records| + |d.temps| }

  predicate Scannable(d: Disk) { Names(d) <= SIDE_MAX_ENTRIES }

  /** Every single write, rename and unlink, and a crash. */
  datatype Action =
    | PutAnchor(name: Name, entry: Entry)
    | PutRecord(name: Name)
    | PutTemp(temp: Temp, to: JobState, now: Time, receipt: Option<string>, error: Option<string>)
    | RenameTemp
    | PutCancellation(cancellation: Cancellation)
    | BeginPrune(name: Name)
    | DropCancellation
    | DropRecord
    | DropAnchor
    | SweepRecord(id: JobId)
    | SweepCancellation(id: JobId)
    | Crash

  predicate Enabled(l: Ledger, a: Action) {
    var d := l.disk;
    match a
    case PutAnchor(n, e) =>
      && l.phase.Idle? && n !in d.anchors && |d.anchors| < MAX_ENTRIES && !Anchored(d, e.id)
      && Repairable(e) && e.stored.value.job.state == Queued && n == AnchorOf(e.stored.value.request.key)
      && e.id !in d.records && e.id !in d.cancellations
    case PutRecord(n) =>
      l.phase.Idle? && n in d.anchors && Repairable(d.anchors[n]) && d.anchors[n].id !in d.records
    case PutTemp(t, to, now, receipt, error) =>
      && l.phase.Idle? && t !in d.temps && t.id in d.records && LegalTransition(d.records[t.id].job.state, to)
      && ValidStored(Moved(d.records[t.id], to, now, receipt, error))
    case RenameTemp => l.phase.Replacing? && l.phase.temp in d.temps
    case PutCancellation(c) =>
      l.phase.Idle? && Anchored(d, c.id) && c.id in d.records && c.id !in d.cancellations
    case BeginPrune(n) =>
      && l.phase.Idle? && n in d.anchors && |d.anchors| >= MAX_ENTRIES && OldestTerminal(d, d.anchors[n].id)
      && Scannable(d) && forall m :: m in d.anchors ==> d.anchors[m].id in d.records
    case DropCancellation => l.phase.Pruning? && l.phase.id in d.cancellations
    case DropRecord => l.phase.Pruning? && l.phase.id in d.records && l.phase.id !in d.cancellations
    case DropAnchor =>
      l.phase.Pruning? && l.phase.name in d.anchors && l.phase.id !in d.records && l.phase.id !in d.cancellations
    case SweepRecord(id) => l.phase.Idle? && id in d.records && !Anchored(d, id)
    case SweepCancellation(id) => l.phase.Idle? && id in d.cancellations && !Anchored(d, id)
    case Crash => true
  }

  /** A rename puts the contents of the temporary file in the place of the record. */
  function Renamed(d: Disk, t: Temp): Disk
    requires t in d.temps
  {
    d.(records := d.records[t.id := d.temps[t]], temps := d.temps - {t})
  }

  function Next(l: Ledger, a: Action): Ledger
    requires Enabled(l, a)
  {
    var d := l.disk;
    match a
    case PutAnchor(n, e) => l.(disk := d.(anchors := d.anchors[n := e]))
    case PutRecord(n) => l.(disk := d.(records := d.records[d.anchors[n].id := d.anchors[n].stored.value]))
    case PutTemp(t, to, now, receipt, error) =>
      Ledger(d.(temps := d.temps[t := Moved(d.records[t.id], to, now, receipt, error)]), Replacing(t))
    case RenameTemp => Ledger(Renamed(d, l.phase.temp), Idle)
    case PutCancellation(c) => l.(disk := d.(cancellations := d.cancellations[c.id := c]))
    case BeginPrune(n) => l.(phase := Pruning(n, d.anchors[n].id))
    case DropCancellation => l.(disk := d.(cancellations := d.cancellations - {l.phase.id}))
    case DropRecord => l.(disk := d.(records := d.records - {l.phase.id}))
    case DropAnchor => Ledger(d.(anchors := d.anchors - {l.phase.name}), Idle)
    case SweepRecord(id) => l.(disk := d.(records := d.records - {id}))
    case SweepCancellation(id) => l.(disk := d.(cancellations := d.cancellations - {id}))
    case Crash => l.(phase := Idle)
  }

  ghost predicate Leads(l: Ledger, l': Ledger) {
    exists a :: Enabled(l, a) && l' == Next(l, a)
  }

  ghost predicate LeadsAt(h: seq<Ledger>, i: nat)
    requires i + 1 < |h|
  {
    Leads(h[i], h[i + 1])
  }

  /** A history: every state comes from the one before it by one write or by a crash. */
  ghost predicate Chain(h: seq<Ledger>) {
    forall i: nat :: i + 1 < |h| ==> LeadsAt(h, i)
  }

  /** What an anchor and its record must agree on. */
  predicate RecordFits(e: Entry, s: StoredJob) {
    && ValidStored(s) && s.job.id == e.id && s.job.requestDigest == e.requestDigest
    && (e.stored.Some? ==> SameIdentity(s, e.stored.value))
  }

  predicate AnchorFits(n: Name, e: Entry) {
    e.stored.Some? ==> Repairable(e) && e.stored.value.job.state == Queued && n == AnchorOf(e.stored.value.request.key)
  }

  /** What every state keeps, at every crash point. */
  ghost predicate Inv(d: Disk) {
    && |d.anchors| <= MAX_ENTRIES
    && OneAnchorEach(d.anchors)
    && (forall id :: id in d.records ==> Anchored(d, id))
    && (forall id :: id in d.cancellations ==> Anchored(d, id) && d.cancellations[id].id == id)
    && (forall n :: n in d.anchors ==> AnchorFits(n, d.anchors[n]))
    && (forall n :: n in d.anchors && d.anchors[n].id in d.records ==> RecordFits(d.anchors[n], d.records[d.anchors[n].id]))
  }

  /** The temporary file holds a legal successor of its record. */
  predicate Succeeds(d: Disk, t: Temp) {
    && t in d.temps && t.id in d.records && ValidStored(d.temps[t]) && SameIdentity(d.records[t.id], d.temps[t])
    && LegalTransition(d.records[t.id].job.state, d.temps[t].job.state)
  }

  /** While an entry is being pruned its anchor is still there and its record is
      terminal; a replacement in progress has its temporary file. */
  ghost predicate LedgerInv(l: Ledger) {
    && Inv(l.disk)
    && (l.phase.Pruning? ==>
          && l.phase.name in l.disk.anchors && l.disk.anchors[l.phase.name].id == l.phase.id
          && (l.phase.id in l.disk.records ==> Terminal(l.disk.records[l.phase.id].job.state)))
    && (l.phase.Replacing? ==> Succeeds(l.disk, l.phase.temp))
  }
}
