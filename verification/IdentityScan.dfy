/** The reconciliation of a scan with the scan before it. */
module IdentityScan {
  import opened Common
  import opened Sequences
  import opened Sorting
  import opened Utf16
  import opened IdentityModel

  /** `tombstonesById` before the scan: of repeated ids the last entry counts. */
  method IndexTombstones(tombstones: seq<Tombstone>) returns (byId: map<Id, Tombstone>)
    ensures forall id :: id in byId <==> Buried(tombstones, id)
    ensures forall id :: id in byId ==> byId[id].id == id && byId[id] in tombstones
  {
    byId := map[];
    for i := 0 to |tombstones|
      invariant forall id :: id in byId <==> exists j :: 0 <= j < i && tombstones[j].id == id
      invariant forall id :: id in byId ==> byId[id].id == id && byId[id] in tombstones
    {
      byId := byId[tombstones[i].id := tombstones[i]];
    }
  }

  /** By the time of removal, and among equal times by id. */
  ghost predicate ByRemoval(s: seq<Tombstone>, collate: Collation) {
    forall i, j :: 0 <= i < j < |s| ==>
      collate(s[i].removedAt) < collate(s[j].removedAt)
      || (collate(s[i].removedAt) == collate(s[j].removedAt) && collate(s[i].id) <= collate(s[j].id))
  }

  lemma EarlierFirst(s: seq<Tombstone>, collate: Collation)
    requires Ascending(s, (a: Tombstone, b: Tombstone) => Earlier(a, b, collate))
    ensures ByRemoval(s, collate)
  {
    forall i, j | 0 <= i < j < |s|
      ensures collate(s[i].removedAt) < collate(s[j].removedAt)
              || (collate(s[i].removedAt) == collate(s[j].removedAt) && collate(s[i].id) <= collate(s[j].id))
    {
      assert !Earlier(s[j], s[i], collate);
    }
  }

  /** The loops over removed skills, current ids and receipts. */
  method Bury(r: Registry, previous: seq<Skill>, current: seq<Skill>, removedAt: Text, collate: Collation) returns (tombstones: seq<Tombstone>)
    ensures BuriesRight(tombstones, r.tombstones, previous, current, r.moves)
    ensures ByRemoval(tombstones, collate)
  {
    var byId := IndexTombstones(r.tombstones);
    for i := 0 to |previous|
      invariant forall id :: id in byId <==> Buried(r.tombstones, id) || (exists j :: 0 <= j < i && previous[j].id == id && !HasSkill(current, id))
      invariant forall id :: id in byId ==> byId[id].id == id && (byId[id] in r.tombstones || OfSkill(byId[id], previous))
      invariant forall id :: id in byId && Buried(r.tombstones, id) ==> byId[id] in r.tombstones
    {
      var s := previous[i];
      if !HasSkill(current, s.id) && s.id !in byId {
        var t := Tombstone(s.id, s.name, s.revision, s.root, s.path, removedAt);
        assert OfSkill(t, previous) by { assert s in previous; }
        byId := byId[s.id := t];
      }
    }
    byId := map id | id in byId && !HasSkill(current, id) && !Source(r.moves, id) :: byId[id];
    var values := ValuesOf(byId);
    tombstones := SortBy(values, (a: Tombstone, b: Tombstone) => Earlier(a, b, collate));
    SortedBurials(values, collate);
  }

  lemma SortedBurials(values: seq<Tombstone>, collate: Collation)
    requires BuriedOnce(values)
    ensures var sorted := SortBy(values, (a: Tombstone, b: Tombstone) => Earlier(a, b, collate));
            && ByRemoval(sorted, collate)
            && (forall id :: Buried(sorted, id) <==> Buried(values, id))
            && (forall t :: t in sorted <==> t in values)
            && BuriedOnce(sorted)
  {
    EarlierOrders(collate);
    SortAscends(values, (a: Tombstone, b: Tombstone) => Earlier(a, b, collate));
    EarlierFirst(SortBy(values, (a: Tombstone, b: Tombstone) => Earlier(a, b, collate)), collate);
    SortPermutes(values, (a: Tombstone, b: Tombstone) => Earlier(a, b, collate));
    SameBurials(values, SortBy(values, (a: Tombstone, b: Tombstone) => Earlier(a, b, collate)));
  }

  method ValuesOf(byId: map<Id, Tombstone>) returns (values: seq<Tombstone>)
    requires forall id :: id in byId ==> byId[id].id == id
    ensures BuriedOnce(values)
    ensures forall id :: Buried(values, id) <==> id in byId
    ensures forall t :: t in values ==> t.id in byId && byId[t.id] == t
  {
    values := [];
    var left := byId.Keys;
    while left != {}
      invariant left <= byId.Keys && BuriedOnce(values)
      invariant forall id :: Buried(values, id) <==> id in byId && id !in left
      invariant forall t :: t in values ==> t.id in byId && byId[t.id] == t
      decreases left
    {
      var id :| id in left;
      BuryOne(values, byId[id]);
      values, left := values + [byId[id]], left - {id};
    }
  }

  lemma BuryOne(values: seq<Tombstone>, t: Tombstone)
    ensures forall id :: Buried(values + [t], id) <==> Buried(values, id) || t.id == id
    ensures BuriedOnce(values) && !Buried(values, t.id) ==> BuriedOnce(values + [t])
  {
    var more := values + [t];
    assert more[|values|] == t;
    forall id ensures Buried(more, id) <==> Buried(values, id) || t.id == id {
      if i :| 0 <= i < |values| && values[i].id == id { assert more[i].id == id; }
    }
  }

  lemma EarlierOrders(collate: Collation)
    ensures Orders((a: Tombstone, b: Tombstone) => Earlier(a, b, collate))
  {
  }

  lemma SameBurials(a: seq<Tombstone>, b: seq<Tombstone>)
    requires multiset(a) == multiset(b) && BuriedOnce(a)
    ensures BuriedOnce(b) && forall id :: Buried(b, id) <==> Buried(a, id)
    ensures forall t :: t in b <==> t in a
  {
    var key := (t: Tombstone) => t.id;
    assert DistinctBy(a, key);
    DistinctPermutes(a, b, key);
    forall i, j | 0 <= i < j < |b| ensures b[i].id != b[j].id { assert key(b[i]) != key(b[j]); }
    MembersOf(a, b);
    forall id ensures Buried(b, id) <==> Buried(a, id) {
      if i :| 0 <= i < |a| && a[i].id == id {
        assert a[i] in b;
        var j :| 0 <= j < |b| && b[j] == a[i];
      }
      if i :| 0 <= i < |b| && b[i].id == id {
        assert b[i] in a;
        var j :| 0 <= j < |a| && a[j] == b[i];
      }
    }
  }

  /** The issues carried on, one after the other. */
  method CarryIssues(issues: seq<Issue>, current: seq<Skill>, r: Registry) returns (carried: seq<Issue>)
    ensures carried == CarryAll(issues, current, r)
  {
    carried := [];
    for i := 0 to |issues|
      invariant carried == CarryAll(issues[..i], current, r)
    {
      assert issues[..i + 1][..i] == issues[..i];
      carried := carried + Carry(issues[i], current, r);
    }
    assert issues[..|issues|] == issues;
  }

  /** The detection loop. */
  method DetectMoves(added: seq<Skill>, tombstones: seq<Tombstone>, pending: seq<Issue>, r: Registry) returns (detected: seq<Issue>)
    ensures detected == DetectAll(added, tombstones, pending, r)
  {
    detected := [];
    for i := 0 to |added|
      invariant detected == DetectAll(added[..i], tombstones, pending, r)
    {
      assert added[..i + 1][..i] == added[..i];
      detected := detected + Detect(added[i], tombstones, pending, r);
    }
    assert added[..|added|] == added;
  }

  method KeepOnePerKey(all: seq<Issue>) returns (issues: seq<Issue>)
    ensures issues == OnePerKey(all)
  {
    issues := [];
    for i := 0 to |all|
      invariant issues == OnePerKey(all[..i])
    {
      assert all[..i + 1][..i] == all[..i];
      issues := Replace(issues, all[i]);
    }
    assert all[..|all|] == all;
  }

  /** `reconcileIdentityMoves`: the registry it writes and the issues it returns. */
  method Reconcile(registry: Registry, previous: Option<Inventory>, current: seq<Skill>, now: Text, collate: Collation)
    returns (written: Registry, issues: seq<Issue>)
    ensures !Compared(previous, current) ==> written == registry && issues == []
    ensures Compared(previous, current) ==>
              && written.moves == registry.moves && written.approvals == registry.approvals
              && BuriesRight(written.tombstones, registry.tombstones, previous.value.skills, current, registry.moves)
              && ByRemoval(written.tombstones, collate) && issues == ScanIssues(previous.value, current, registry, written.tombstones)
  {
    written, issues := registry, [];
    if !Compared(previous, current) { return; }
    var pending := PendingOf(previous.value.issues);
    var carried := CarryIssues(pending, current, registry);
    var carriedAmbiguous := CarryIssues(AmbiguousOf(previous.value.issues), current, registry);
    var added := Filter(current, (s: Skill) => !HasSkill(previous.value.skills, s.id));
    var tombstones := Bury(registry, previous.value.skills, current, now, collate);
    written := registry.(tombstones := tombstones);
    var detected := DetectMoves(added, tombstones, pending, registry);
    issues := KeepOnePerKey(carried + carriedAmbiguous + detected);
  }
}
