/** What holds of every history of the job ledger, crashes between any two writes included. */
module JobHistory {
  import opened Common
  import opened JobModel

  lemma LeadsKeepsInv(l: Ledger, l': Ledger)
    requires LedgerInv(l) && Leads(l, l')
    ensures LedgerInv(l')
  {
    var a :| Enabled(l, a) && l' == Next(l, a);
    NextKeepsInv(l, a);
  }

  lemma NextKeepsInv(l: Ledger, a: Action)
    requires LedgerInv(l) && Enabled(l, a)
    ensures LedgerInv(Next(l, a))
  {
    var d, d' := l.disk, Next(l, a).disk;
    match a
    case PutAnchor(n, e) => AnchorKeepsInv(l, n, e);
    case DropAnchor => DropKeepsInv(l);
    case RenameTemp => RenameKeepsInv(d, l.phase.temp);
    case _ => Same(d, d');
  }

  lemma AnchorKeepsInv(l: Ledger, n: Name, e: Entry)
    requires LedgerInv(l) && Enabled(l, PutAnchor(n, e))
    ensures LedgerInv(Next(l, PutAnchor(n, e)))
  {
    var d, d' := l.disk, Next(l, PutAnchor(n, e)).disk;
    assert |d'.anchors| == |d.anchors| + 1;
    forall id | Anchored(d, id) ensures Anchored(d', id) {
      var m :| m in d.anchors && d.anchors[m].id == id;
      assert m in d'.anchors && d'.anchors[m].id == id;
    }
  }

  lemma DropKeepsInv(l: Ledger)
    requires LedgerInv(l) && Enabled(l, DropAnchor)
    ensures LedgerInv(Next(l, DropAnchor))
  {
    var d, d' := l.disk, Next(l, DropAnchor).disk;
    assert |d'.anchors| <= |d.anchors| by { assert d'.anchors.Keys <= d.anchors.Keys; Smaller(d'.anchors.Keys, d.anchors.Keys); }
    forall id | Anchored(d, id) && id != l.phase.id ensures Anchored(d', id) {
      var m :| m in d.anchors && d.anchors[m].id == id;
      assert m in d'.anchors && d'.anchors[m].id == id;
    }
  }

  lemma RenameKeepsInv(d: Disk, t: Temp)
    requires Inv(d) && Succeeds(d, t)
    ensures Inv(Renamed(d, t))
  {
    var e := Renamed(d, t);
    Same(d, e);
    forall n | n in e.anchors && e.anchors[n].id in e.records ensures RecordFits(e.anchors[n], e.records[e.anchors[n].id]) {
      assert RecordFits(d.anchors[n], d.records[d.anchors[n].id]);
    }
  }

  lemma Same(d: Disk, d': Disk)
    requires d.anchors == d'.anchors
    ensures forall id :: Anchored(d, id) <==> Anchored(d', id)
  {
  }

  lemma Smaller<T>(a: set<T>, b: set<T>)
    requires a <= b
    ensures |a| <= |b|
  {
    if a != {} {
      var x :| x in a;
      Smaller(a - {x}, b - {x});
    }
  }

  /** Every state of every history keeps the ledger invariant: at most 128
      anchors, one for each job, none of the records and cancellations without
      one, and every record of the same identity as the job its anchor embeds. */
  lemma {:induction false} HistoryKeepsInv(h: seq<Ledger>, k: nat)
    requires Chain(h) && k < |h| && LedgerInv(h[0])
    ensures LedgerInv(h[k])
  {
    if k > 0 {
      HistoryKeepsInv(h, k - 1);
      assert LeadsAt(h, k - 1);
      LeadsKeepsInv(h[k - 1], h[k]);
    }
  }

  /** The anchor of a key never changes while it is there, so a repeated key
      finds the same job and the same request digest until eviction. */
  lemma {:induction false} AnchorsStay(h: seq<Ledger>, i: nat, k: nat, n: Name)
    requires Chain(h) && i <= k < |h|
    requires forall m :: i <= m <= k ==> n in h[m].disk.anchors
    ensures h[k].disk.anchors[n] == h[i].disk.anchors[n]
  {
    if i < k {
      AnchorsStay(h, i, k - 1, n);
      assert LeadsAt(h, k - 1);
    }
  }

  /** Where the pruning step that is in progress began. */
  lemma {:induction false} PruneBegan(h: seq<Ledger>, k: nat) returns (b: nat)
    requires Chain(h) && k < |h| && h[0].phase.Idle? && h[k].phase.Pruning?
    ensures b < k && Enabled(h[b], BeginPrune(h[k].phase.name)) && h[k].phase.name in h[b].disk.anchors
    ensures h[b].disk.anchors[h[k].phase.name].id == h[k].phase.id
    ensures h[k].disk.anchors == h[b].disk.anchors
  {
    assert LeadsAt(h, k - 1);
    if h[k - 1].phase.Idle? {
      b := k - 1;
    } else {
      b := PruneBegan(h, k - 1);
    }
  }

  /** Of the finished jobs the one to evict completed first, and among equal times it has the least id. */
  lemma CompletedFirst(d: Disk, id: JobId)
    requires Inv(d) && OldestTerminal(d, id)
    ensures id in d.records && d.records[id].job.state in {Succeeded, FailedJob, Cancelled} && d.records[id].job.completedAt.Some?
    ensures forall o :: o in d.records && d.records[o].job.state in {Succeeded, FailedJob, Cancelled} ==>
              var mine, other := d.records[id].job.completedAt, d.records[o].job.completedAt;
              other.Some? && (mine.value < other.value || (mine.value == other.value && id <= o))
  {
    FiledUnderId(d, id);
    forall o | o in d.records && d.records[o].job.state in {Succeeded, FailedJob, Cancelled}
      ensures var mine, other := d.records[id].job.completedAt, d.records[o].job.completedAt;
              other.Some? && (mine.value < other.value || (mine.value == other.value && id <= o))
    {
      FiledUnderId(d, o);
      assert Older(d.records[id], d.records[o]);
    }
  }

  lemma FiledUnderId(d: Disk, id: JobId)
    requires Inv(d) && id in d.records
    ensures Anchored(d, id) && ValidStored(d.records[id]) && d.records[id].job.id == id
  {
    var n :| n in d.anchors && d.anchors[n].id == id;
    assert RecordFits(d.anchors[n], d.records[id]);
  }

  /** An anchor disappears only as the last write of an eviction that began when
      the ledger was full, its record directory could be scanned, every anchored job
      had a record, and of the finished jobs this one had completed first. A queued
      or running job is never evicted. */
  lemma EvictsOldestTerminal(h: seq<Ledger>, k: nat, n: Name) returns (b: nat)
    requires Chain(h) && k + 1 < |h| && h[0].phase.Idle? && LedgerInv(h[0])
    requires n in h[k].disk.anchors && n !in h[k + 1].disk.anchors
    ensures b < k && n in h[b].disk.anchors && h[b].disk.anchors == h[k].disk.anchors
    ensures |h[b].disk.anchors| == MAX_ENTRIES
    ensures var records, id := h[b].disk.records, h[b].disk.anchors[n].id;
            && id in records && records[id].job.state in {Succeeded, FailedJob, Cancelled} && records[id].job.completedAt.Some?
            && forall o :: o in records && records[o].job.state in {Succeeded, FailedJob, Cancelled} ==>
                 var mine, other := records[id].job.completedAt, records[o].job.completedAt;
                 other.Some? && (mine.value < other.value || (mine.value == other.value && id <= o))
    ensures Scannable(h[b].disk) && forall m :: m in h[b].disk.anchors ==> h[b].disk.anchors[m].id in h[b].disk.records
    ensures h[k].disk.anchors[n].id !in h[k + 1].disk.records
  {
    assert LeadsAt(h, k);
    b := PruneBegan(h, k);
    HistoryKeepsInv(h, b);
    HistoryKeepsInv(h, k);
    StepDropsAnchor(h[k], h[k + 1], n);
    CompletedFirst(h[b].disk, h[b].disk.anchors[n].id);
  }

  lemma StepDropsAnchor(l: Ledger, l': Ledger, n: Name)
    requires LedgerInv(l) && Leads(l, l') && n in l.disk.anchors && n !in l'.disk.anchors
    ensures l.phase == Pruning(n, l.disk.anchors[n].id) && l.disk.anchors[n].id !in l'.disk.records
  {
    var a :| Enabled(l, a) && l' == Next(l, a);
    OnlyDropAnchorDrops(l, a, n);
  }

  lemma OnlyDropAnchorDrops(l: Ledger, a: Action, n: Name)
    requires Enabled(l, a) && n in l.disk.anchors && n !in Next(l, a).disk.anchors
    ensures l.phase.Pruning? && l.phase.name == n && l.phase.id !in Next(l, a).disk.records
  {
  }

  lemma StepAddsRecord(l: Ledger, l': Ledger, id: JobId) returns (n: Name)
    requires LedgerInv(l) && Leads(l, l') && id !in l.disk.records && id in l'.disk.records
    ensures n in l.disk.anchors && l.disk.anchors[n].id == id
    ensures l.disk.anchors[n].stored == Some(l'.disk.records[id]) && l'.disk.records[id].job.state == Queued
  {
    var a :| Enabled(l, a) && l' == Next(l, a);
    OnlyPutAdds(l, a, id);
    n := a.name;
    assert AnchorFits(n, l.disk.anchors[n]);
  }

  lemma OnlyPutAdds(l: Ledger, a: Action, id: JobId)
    requires Enabled(l, a) && id !in l.disk.records && id in Next(l, a).disk.records
    requires l.phase.Replacing? ==> Succeeds(l.disk, l.phase.temp)
    ensures a.PutRecord? && l.disk.anchors[a.name].id == id
    ensures Some(Next(l, a).disk.records[id]) == l.disk.anchors[a.name].stored
  {
  }

  lemma StepDropsRecord(l: Ledger, l': Ledger, id: JobId)
    requires LedgerInv(l) && Leads(l, l') && id in l.disk.records && id !in l'.disk.records
    ensures l.phase.Pruning? && l.phase.id == id && Terminal(l.disk.records[id].job.state)
  {
    var a :| Enabled(l, a) && l' == Next(l, a);
    OnlyPruningDrops(l, a, id);
  }

  lemma OnlyPruningDrops(l: Ledger, a: Action, id: JobId)
    requires Enabled(l, a) && id in l.disk.records && id !in Next(l, a).disk.records && Anchored(l.disk, id)
    ensures l.phase.Pruning? && l.phase.id == id
  {
  }

  lemma StepMovesRecord(l: Ledger, l': Ledger, id: JobId)
    requires LedgerInv(l) && Leads(l, l') && id in l.disk.records && id in l'.disk.records
    ensures SameIdentity(l.disk.records[id], l'.disk.records[id])
    ensures l'.disk.records[id] == l.disk.records[id]
            || LegalTransition(l.disk.records[id].job.state, l'.disk.records[id].job.state)
  {
    var a :| Enabled(l, a) && l' == Next(l, a);
    OnlyRenameMoves(l, a, id);
  }

  lemma OnlyRenameMoves(l: Ledger, a: Action, id: JobId)
    requires Enabled(l, a) && id in l.disk.records && id in Next(l, a).disk.records
    requires l.phase.Replacing? ==> Succeeds(l.disk, l.phase.temp)
    ensures Next(l, a).disk.records[id] == l.disk.records[id]
            || (SameIdentity(l.disk.records[id], Next(l, a).disk.records[id])
                && LegalTransition(l.disk.records[id].job.state, Next(l, a).disk.records[id].job.state))
  {
  }

  /** A record appears only as the exact queued job its anchor embeds. */
  lemma RecordsAppearQueued(h: seq<Ledger>, k: nat, id: JobId) returns (n: Name)
    requires Chain(h) && k + 1 < |h| && LedgerInv(h[0])
    requires id !in h[k].disk.records && id in h[k + 1].disk.records
    ensures n in h[k].disk.anchors && h[k].disk.anchors[n].id == id
    ensures h[k].disk.anchors[n].stored == Some(h[k + 1].disk.records[id])
    ensures h[k + 1].disk.records[id].job.state == Queued
  {
    HistoryKeepsInv(h, k);
    assert LeadsAt(h, k);
    n := StepAddsRecord(h[k], h[k + 1], id);
  }

  /** A record disappears only during the eviction of its terminal job. */
  lemma RecordsVanishTerminal(h: seq<Ledger>, k: nat, id: JobId)
    requires Chain(h) && k + 1 < |h| && LedgerInv(h[0])
    requires id in h[k].disk.records && id !in h[k + 1].disk.records
    ensures h[k].phase.Pruning? && h[k].phase.id == id && Terminal(h[k].disk.records[id].job.state)
  {
    HistoryKeepsInv(h, k);
    assert LeadsAt(h, k);
    StepDropsRecord(h[k], h[k + 1], id);
  }

  /** The states a job may have reached from `from`. */
  predicate Onward(from: JobState, to: JobState) {
    from == to || from.Queued? || (from.Running? && Terminal(to))
  }

  /** While a record is there its identity is fixed, its state moves only along
      legal transitions, and a terminal job does not change at all. */
  lemma {:induction false} RecordsMoveOnward(h: seq<Ledger>, i: nat, k: nat, id: JobId)
    requires Chain(h) && i <= k < |h| && LedgerInv(h[0])
    requires forall m :: i <= m <= k ==> id in h[m].disk.records
    ensures SameIdentity(h[i].disk.records[id], h[k].disk.records[id])
    ensures Onward(h[i].disk.records[id].job.state, h[k].disk.records[id].job.state)
    ensures Terminal(h[i].disk.records[id].job.state) ==> h[k].disk.records[id] == h[i].disk.records[id]
  {
    if i < k {
      RecordsMoveOnward(h, i, k - 1, id);
      assert LeadsAt(h, k - 1);
      HistoryKeepsInv(h, k - 1);
      StepMovesRecord(h[k - 1], h[k], id);
    }
  }

  /** A finished job becomes unfinished again in one way only: a crash left its
      anchor without a record in the middle of its eviction, and repair put back
      the queued job the anchor embeds. */
  lemma RevivedOnlyByRepair(h: seq<Ledger>, i: nat, k: nat, id: JobId) returns (m: nat, r: nat)
    requires Chain(h) && i <= k < |h| && LedgerInv(h[0])
    requires id in h[i].disk.records && Terminal(h[i].disk.records[id].job.state)
    requires id in h[k].disk.records && !Terminal(h[k].disk.records[id].job.state)
    ensures i <= m < r < k
    ensures h[m].phase.Pruning? && h[m].phase.id == id && id in h[m].disk.records && id !in h[m + 1].disk.records
    ensures id !in h[r].disk.records && id in h[r + 1].disk.records && h[r + 1].disk.records[id].job.state == Queued
  {
    m := i;
    while id in h[m + 1].disk.records
      invariant i <= m < k
      invariant forall x :: i <= x <= m ==> id in h[x].disk.records
      decreases k - m
    {
      if m + 1 == k { RecordsMoveOnward(h, i, k, id); }
      m := m + 1;
    }
    RecordsVanishTerminal(h, m, id);
    r := m + 1;
    while id !in h[r + 1].disk.records
      invariant m < r < k && id !in h[r].disk.records
      decreases k - r
    {
      r := r + 1;
    }
    var _ := RecordsAppearQueued(h, r, id);
  }
}
