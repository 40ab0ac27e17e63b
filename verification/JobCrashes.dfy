/** What crashes can leave behind in the job ledger: temporary files that nothing
    removes, and a finished job that is queued again. */
module JobCrashes {
  import opened Common
  import opened JobModel
  import opened JobHistory
  import opened JobLedger
  import opened JobAdmission

  const START: Ledger := Ledger(Disk(map[], map[], map[], map[]), Idle)

  ghost predicate Reaches(h: seq<Ledger>, l: Ledger) {
    h != [] && Chain(h) && h[0] == START && h[|h| - 1] == l
  }

  lemma Extend(h: seq<Ledger>, l: Ledger, a: Action) returns (g: seq<Ledger>)
    requires Reaches(h, l) && Enabled(l, a)
    ensures g == h + [Next(l, a)] && Reaches(g, Next(l, a))
  {
    assert Leads(l, Next(l, a));
    ExtendChain(h, Next(l, a));
    g := h + [Next(l, a)];
  }

  // ---- a full ledger ----

  /** The `i`-th request, under a key of its own. */
  function Ask(i: nat): Request { Request(seq(i, _ => 'k'), RequestBody("", "", "", "", "")) }

  lemma AsksDiffer(i: nat, j: nat)
    ensures NameOf(Ask(i)) == NameOf(Ask(j)) ==> i == j
  {
    assert |Ask(i).key| == i && |Ask(j).key| == j;
  }

  /** The files after `n` creations. */
  function Filled(n: nat): Disk {
    if n == 0 then START.disk else Added(Filled(n - 1), Ask(n - 1), n - 1, 0)
  }

  ghost predicate IsFilled(d: Disk, n: nat) {
    && d.cancellations == map[] && d.temps == map[] && |d.anchors| == n && |d.records| == n
    && (forall id: nat :: FilledAt(d, n, id)) && (forall m :: AskedAt(d, n, m))
  }

  predicate FilledAt(d: Disk, n: nat, id: nat) {
    if id < n then id in d.records && d.records[id] == NewJob(Ask(id), id, 0) && NameOf(Ask(id)) in d.anchors
    else id !in d.records
  }

  predicate AskedAt(d: Disk, n: nat, m: Name) {
    m in d.anchors ==> d.anchors[m].id < n && m == NameOf(Ask(d.anchors[m].id)) && d.anchors[m] == NewEntry(Ask(d.anchors[m].id), d.anchors[m].id, 0)
  }

  lemma {:induction false} FilledHas(n: nat)
    ensures IsFilled(Filled(n), n)
  {
    if n > 0 {
      FilledHas(n - 1);
      OneMoreFilled(Filled(n - 1), n - 1);
    }
  }

  lemma FreshName(d: Disk, n: nat)
    requires IsFilled(d, n)
    ensures NameOf(Ask(n)) !in d.anchors
  {
    var m := NameOf(Ask(n));
    assert AskedAt(d, n, m);
    if m in d.anchors { AsksDiffer(n, d.anchors[m].id); }
  }

  lemma OneMoreFilled(d: Disk, n: nat)
    requires IsFilled(d, n)
    ensures IsFilled(Added(d, Ask(n), n, 0), n + 1)
  {
    FreshName(d, n);
    assert FilledAt(d, n, n);
    OneMore(d.anchors, NameOf(Ask(n)), NewEntry(Ask(n), n, 0));
    OneMore(d.records, n, NewJob(Ask(n), n, 0));
    var e, k := Added(d, Ask(n), n, 0), n + 1;
    forall id: nat ensures FilledAt(e, k, id) { assert FilledAt(d, n, id); }
    forall m ensures AskedAt(e, k, m) { assert AskedAt(d, n, m); }
  }

  lemma OneMore<K, V>(m: map<K, V>, k: K, v: V)
    requires k !in m
    ensures |m[k := v]| == |m| + 1
  {
  }

  lemma {:induction false} Fill(n: nat) returns (h: seq<Ledger>)
    requires n <= MAX_ENTRIES
    ensures Reaches(h, Ledger(Filled(n), Idle))
  {
    if n == 0 {
      h := [START];
    } else {
      h := Fill(n - 1);
      FilledHas(n - 1);
      h := Create(h, Filled(n - 1), n - 1);
    }
  }

  lemma Create(h: seq<Ledger>, d: Disk, n: nat) returns (g: seq<Ledger>)
    requires Reaches(h, Ledger(d, Idle)) && IsFilled(d, n) && n < MAX_ENTRIES
    ensures Reaches(g, Ledger(Added(d, Ask(n), n, 0), Idle))
  {
    var name, entry := NameOf(Ask(n)), NewEntry(Ask(n), n, 0);
    FreshName(d, n);
    assert FilledAt(d, n, n);
    NotYetAnchored(d, n);
    g := Extend(h, Ledger(d, Idle), PutAnchor(name, entry));
    g := Extend(g, Ledger(d.(anchors := d.anchors[name := entry]), Idle), PutRecord(name));
  }

  lemma NotYetAnchored(d: Disk, n: nat)
    requires IsFilled(d, n)
    ensures !Anchored(d, n)
  {
    forall m | m in d.anchors ensures d.anchors[m].id != n { assert AskedAt(d, n, m); }
  }

  // ---- a record directory that can no longer be scanned ----

  /** The temporary files nobody will rename. */
  function Strays(l: Ledger): set<Temp> {
    if l.phase.Replacing? then l.disk.temps.Keys - {l.phase.temp} else l.disk.temps.Keys
  }

  /** A full ledger with more strays than the scan cap leaves room for. */
  ghost predicate Jammed(l: Ledger) {
    && |l.disk.anchors| == MAX_ENTRIES && AllRecorded(l.disk) && !l.phase.Pruning?
    && |Strays(l)| > SIDE_MAX_ENTRIES - MAX_ENTRIES
  }

  lemma JammedUnscannable(l: Ledger)
    requires LedgerInv(l) && Jammed(l)
    ensures !Scannable(l.disk)
  {
    OneRecordEach(l.disk);
    Smaller(Strays(l), l.disk.temps.Keys);
    assert |l.disk.temps| == |l.disk.temps.Keys|;
  }

  /** No write removes a stray. */
  lemma StraysStay(l: Ledger, a: Action)
    requires Enabled(l, a)
    ensures Strays(l) <= Strays(Next(l, a))
  {
  }

  lemma JamKeepsFiles(l: Ledger, a: Action)
    requires LedgerInv(l) && Jammed(l) && !Scannable(l.disk) && Enabled(l, a)
    ensures var l' := Next(l, a);
            !l'.phase.Pruning? && l'.disk.anchors == l.disk.anchors && l'.disk.records.Keys == l.disk.records.Keys
  {
  }

  ghost predicate StaysJammed(l: Ledger, l': Ledger) {
    Jammed(l) ==> Jammed(l') && l'.disk.anchors == l.disk.anchors && !Scannable(l.disk)
  }

  lemma JamStep(l: Ledger, l': Ledger)
    requires LedgerInv(l) && Leads(l, l')
    ensures StaysJammed(l, l')
  {
    if Jammed(l) {
      var a :| Enabled(l, a) && l' == Next(l, a);
      JammedUnscannable(l);
      StraysStay(l, a);
      Smaller(Strays(l), Strays(l'));
      JamKeepsFiles(l, a);
    }
  }

  lemma JamAt(h: seq<Ledger>, k: nat)
    requires Chain(h) && k + 1 < |h| && LedgerInv(h[0])
    ensures StaysJammed(h[k], h[k + 1])
  {
    HistoryKeepsInv(h, k);
    assert LeadsAt(h, k);
    JamStep(h[k], h[k + 1]);
  }

  lemma {:induction false} JamLasts(h: seq<Ledger>, i: nat, k: nat)
    requires i <= k < |h| && Jammed(h[i])
    requires forall j :: i <= j < k ==> StaysJammed(h[j], h[j + 1])
    ensures Jammed(h[k]) && h[k].disk.anchors == h[i].disk.anchors
  {
    if i < k {
      JamLasts(h, i, k - 1);
      assert StaysJammed(h[k - 1], h[k]);
    }
  }

  /** Once jammed the ledger stays jammed: whatever is written later, no job is
      ever added or evicted again. */
  lemma JammedForGood(h: seq<Ledger>, i: nat, k: nat)
    requires Chain(h) && i <= k < |h| && LedgerInv(h[0]) && Jammed(h[i])
    ensures Jammed(h[k]) && h[k].disk.anchors == h[i].disk.anchors && !Scannable(h[k].disk)
  {
    forall j | i <= j < k ensures StaysJammed(h[j], h[j + 1]) { JamAt(h, j); }
    JamLasts(h, i, k);
    HistoryKeepsInv(h, k);
    JammedUnscannable(h[k]);
  }

  /** Every later admission is then refused because of the scan cap, though a job
      may be terminal. */
  lemma JammedRefuses(h: seq<Ledger>, i: nat, k: nat, d': Disk, failed: Option<JobError>)
    requires Chain(h) && i <= k < |h| && LedgerInv(h[0]) && Jammed(h[i]) && Admits(h[k].disk, d', failed)
    ensures failed == Some(TooManyEntries)
  {
    JammedForGood(h, i, k);
    NothingToRepair(h[k].disk);
    AdmitsRepaired(h[k].disk, h[k].disk, d', failed);
  }

  lemma NothingToRepair(d: Disk)
    requires AllRecorded(d)
    ensures RepairsTo(d, d.anchors.Keys, d)
  {
  }

  /** The first job on its way to running, `n` times over. */
  function Strayed(d: Disk, n: nat): Disk
    requires 0 in d.records
  {
    if n == 0 then d
    else var e := Strayed(d, n - 1); e.(temps := e.temps[Temp(0, n - 1) := Moved(d.records[0], Running, 0, None, None)])
  }

  lemma {:induction false} StrayedHas(d: Disk, n: nat)
    requires 0 in d.records && d.temps == map[]
    ensures var e := Strayed(d, n);
            e == d.(temps := e.temps) && |e.temps| == n && forall t :: t in e.temps ==> t.nonce < n
  {
    if n > 0 { StrayedHas(d, n - 1); }
  }

  /** A crash between the write and the rename of a replacement, `n` times over. */
  lemma {:induction false} CrashTimes(h0: seq<Ledger>, d: Disk, n: nat) returns (h: seq<Ledger>)
    requires Reaches(h0, Ledger(d, Idle)) && d.temps == map[]
    requires 0 in d.records && ValidStored(d.records[0]) && d.records[0].job.state == Queued
    ensures Reaches(h, Ledger(Strayed(d, n), Idle))
  {
    if n == 0 {
      h := h0;
    } else {
      h := CrashTimes(h0, d, n - 1);
      StrayedHas(d, n - 1);
      var l, a := Ledger(Strayed(d, n - 1), Idle), PutTemp(Temp(0, n - 1), Running, 0, None, None);
      h := Extend(h, l, a);
      h := Extend(h, Next(l, a), Crash);
    }
  }

  /** A jam comes about: 128 creations, and 33 replacements of one record that crash
      before their rename. */
  lemma JamHappens() returns (h: seq<Ledger>)
    ensures h != [] && Chain(h) && h[0] == START && Jammed(h[|h| - 1])
  {
    h := JamAfter(MAX_ENTRIES, SIDE_MAX_ENTRIES - MAX_ENTRIES + 1);
  }

  lemma JamAfter(n: nat, strays: nat) returns (h: seq<Ledger>)
    requires n == MAX_ENTRIES && strays > SIDE_MAX_ENTRIES - MAX_ENTRIES
    ensures h != [] && Chain(h) && h[0] == START && Jammed(h[|h| - 1])
  {
    var d := Filled(n);
    FilledHas(n);
    h := Fill(n);
    FirstJob(d, n);
    h := CrashTimes(h, d, strays);
    StraysJam(d, n, strays);
  }

  lemma StraysJam(d: Disk, n: nat, strays: nat)
    requires IsFilled(d, n) && n == MAX_ENTRIES && strays > SIDE_MAX_ENTRIES - MAX_ENTRIES && 0 in d.records
    ensures Jammed(Ledger(Strayed(d, strays), Idle))
  {
    StrayedHas(d, strays);
    FilledRecorded(d, n);
    assert |Strayed(d, strays).temps| == |Strayed(d, strays).temps.Keys|;
  }

  lemma FirstJob(d: Disk, n: nat)
    requires IsFilled(d, n) && n > 0
    ensures 0 in d.records && d.records[0] == NewJob(Ask(0), 0, 0) && ValidStored(d.records[0])
    ensures NameOf(Ask(0)) in d.anchors && d.anchors[NameOf(Ask(0))] == NewEntry(Ask(0), 0, 0)
  {
    assert FilledAt(d, n, 0);
    var m := NameOf(Ask(0));
    assert AskedAt(d, n, m);
    AsksDiffer(0, d.anchors[m].id);
  }

  lemma FilledRecorded(d: Disk, n: nat)
    requires IsFilled(d, n)
    ensures AllRecorded(d)
  {
    forall m | m in d.anchors ensures d.anchors[m].id in d.records {
      assert AskedAt(d, n, m) && FilledAt(d, n, d.anchors[m].id);
    }
  }

  // ---- a finished job that is queued again ----

  /** One whole replacement of a record. */
  lemma Replace(h: seq<Ledger>, d: Disk, nonce: nat, to: JobState) returns (g: seq<Ledger>)
    requires Reaches(h, Ledger(d, Idle)) && 0 in d.records && d.temps == map[]
    requires Enabled(Ledger(d, Idle), PutTemp(Temp(0, nonce), to, 0, None, None))
    ensures h <= g && Reaches(g, Ledger(WithState(d, to), Idle))
  {
    var a := PutTemp(Temp(0, nonce), to, 0, None, None);
    var f := Extend(h, Ledger(d, Idle), a);
    g := Extend(f, Next(Ledger(d, Idle), a), RenameTemp);
    assert Renamed(Next(Ledger(d, Idle), a).disk, Temp(0, nonce)).temps == map[];
  }

  /** A job that succeeded is queued again: its eviction crashes between the removal
      of the record and of the anchor, and repair puts the embedded job back. */
  lemma RevivalHappens() returns (h: seq<Ledger>, i: nat, k: nat)
    ensures Chain(h) && i < k < |h| && h[0] == START
    ensures 0 in h[i].disk.records && h[i].disk.records[0].job.state == Succeeded
    ensures 0 in h[k].disk.records && h[k].disk.records[0].job.state == Queued
  {
    h, i, k := RevivalAfter(MAX_ENTRIES);
  }

  lemma RevivalAfter(n: nat) returns (h: seq<Ledger>, i: nat, k: nat)
    requires n == MAX_ENTRIES
    ensures Chain(h) && i < k < |h| && h[0] == START
    ensures 0 in h[i].disk.records && h[i].disk.records[0].job.state == Succeeded
    ensures 0 in h[k].disk.records && h[k].disk.records[0].job.state == Queued
  {
    var d := Filled(n);
    FilledHas(n);
    FirstJob(d, n);
    h := Fill(n);
    h, i, k := FinishAndRevive(h, d, n);
  }

  lemma FinishAndRevive(h: seq<Ledger>, d: Disk, n: nat) returns (g: seq<Ledger>, i: nat, k: nat)
    requires Reaches(h, Ledger(d, Idle)) && IsFilled(d, n) && n == MAX_ENTRIES
    requires 0 in d.records && ValidStored(d.records[0]) && d.records[0].job.state == Queued
    ensures Chain(g) && i < k < |g| && g[0] == START
    ensures 0 in g[i].disk.records && g[i].disk.records[0].job.state == Succeeded
    ensures 0 in g[k].disk.records && g[k].disk.records[0].job.state == Queued
  {
    var done := WithState(WithState(d, Running), Succeeded);
    var f := Finish(h, d);
    OnlyTerminal(d, done, n);
    g, k := EvictAndRevive(f, done, NameOf(Ask(0)));
    i := |f| - 1;
    assert g[i] == f[i] && g[0] == f[0];
  }

  lemma Finish(h: seq<Ledger>, d: Disk) returns (g: seq<Ledger>)
    requires Reaches(h, Ledger(d, Idle)) && d.temps == map[]
    requires 0 in d.records && ValidStored(d.records[0]) && d.records[0].job.state == Queued
    ensures Reaches(g, Ledger(WithState(WithState(d, Running), Succeeded), Idle))
  {
    g := Replace(h, d, 0, Running);
    g := Replace(g, WithState(d, Running), 1, Succeeded);
  }

  function WithState(d: Disk, to: JobState): Disk
    requires 0 in d.records
  {
    d.(records := d.records[0 := Moved(d.records[0], to, 0, None, None)])
  }

  /** A full ledger whose one terminal job is the first. */
  ghost predicate Evictable(d: Disk, name: Name) {
    && |d.anchors| == MAX_ENTRIES && Scannable(d) && AllRecorded(d) && OldestTerminal(d, 0) && d.cancellations == map[]
    && name in d.anchors && d.anchors[name].id == 0 && Repairable(d.anchors[name])
    && d.anchors[name].stored.value.job.state == Queued
  }

  lemma OnlyTerminal(d0: Disk, d: Disk, n: nat)
    requires IsFilled(d0, n) && n == MAX_ENTRIES && 0 in d0.records
    requires d == WithState(WithState(d0, Running), Succeeded)
    ensures Evictable(d, NameOf(Ask(0)))
  {
    FilledRecorded(d0, n);
    FirstJob(d0, n);
    Replaced(d0.records, 0, d.records[0]);
    assert d.records == d0.records[0 := d.records[0]];
    assert d.anchors[NameOf(Ask(0))].id == 0;
    forall o | o in d.records && Terminal(d.records[o].job.state) ensures Older(d.records[0], d.records[o]) {
      if o != 0 { assert FilledAt(d0, n, o); }
    }
  }

  lemma Replaced<K, V>(m: map<K, V>, k: K, v: V)
    requires k in m
    ensures m[k := v].Keys == m.Keys && |m[k := v]| == |m|
  {
    assert m[k := v].Keys == m.Keys;
    assert |m[k := v]| == |m[k := v].Keys| && |m| == |m.Keys|;
  }

  lemma EvictAndRevive(h: seq<Ledger>, d: Disk, name: Name) returns (g: seq<Ledger>, k: nat)
    requires Reaches(h, Ledger(d, Idle)) && Evictable(d, name)
    ensures Chain(g) && h <= g && |h| <= k < |g|
    ensures 0 in g[k].disk.records && g[k].disk.records[0].job.state == Queued
  {
    g := Extend(h, Ledger(d, Idle), BeginPrune(name));
    g := Extend(g, Ledger(d, Pruning(name, 0)), DropRecord);
    var cut := d.(records := d.records - {0});
    g := Extend(g, Ledger(cut, Pruning(name, 0)), Crash);
    g := Extend(g, Ledger(cut, Idle), PutRecord(name));
    k := |g| - 1;
  }
}
