/** Policy artifacts on disk, write by write: artifacts are created exclusively, and
    a pointer file names the active one. Writes of any number of processes
    interleave, and a process may stop between any two of its writes. */
module PolicyStoreModel {
  import opened Common
  import opened Utf16

  type Path = Text
  type Contents = Text

  /** SHA-256 of a file, taken as injective. */
  datatype Digest = DigestOf(contents: Contents)

  datatype Pointer = Pointer(version: int, policyPath: Path, rollbackPath: Path, source: Digest, updatedAt: Text)

  /** `seen` lists every pointer that was ever active, `migrated` every source that was ever migrated. */
  datatype Store = Store(files: map<Path, Contents>, active: Option<Pointer>, seen: set<Pointer>, migrated: set<Contents>)

  const EMPTY: Store := Store(map[], None, {}, {})

  function Revised(previous: Pointer, artifact: Path, at: Text): Pointer {
    previous.(version := 2, policyPath := artifact, updatedAt := at)
  }

  function RolledBack(previous: Pointer, at: Text): Pointer {
    previous.(version := 1, policyPath := previous.rollbackPath, updatedAt := at)
  }

  /** One write. A process may hold any pointer that was ever active. */
  datatype Action =
    | Create(path: Path, contents: Contents)
    | CommitMigration(pointer: Pointer)
    | CommitRevision(previous: Pointer, artifact: Path, at: Text)
    | CommitRollback(previous: Pointer, at: Text)

  predicate Enabled(s: Store, a: Action) {
    match a
    case Create(path, _) => path !in s.files
    case CommitMigration(p) =>
      p.version == 2 && p.policyPath in s.files && p.rollbackPath in s.files && DigestOf(s.files[p.rollbackPath]) == p.source
    case CommitRevision(previous, artifact, _) => previous in s.seen && artifact in s.files
    case CommitRollback(previous, _) =>
      previous in s.seen && previous.rollbackPath in s.files && DigestOf(s.files[previous.rollbackPath]) == previous.source
  }

  function Activated(s: Store, p: Pointer): Store { s.(active := Some(p), seen := s.seen + {p}) }

  /** A write that is not possible leaves the store as it is. */
  function Apply(s: Store, a: Action): Store {
    if !Enabled(s, a) then s
    else match a
      case Create(path, contents) => s.(files := s.files[path := contents])
      case CommitMigration(p) => Activated(s, p).(migrated := s.migrated + {p.source.contents})
      case CommitRevision(previous, artifact, at) => Activated(s, Revised(previous, artifact, at))
      case CommitRollback(previous, at) => Activated(s, RolledBack(previous, at))
  }

  function Run(s: Store, actions: seq<Action>): Store
    decreases |actions|
  {
    if actions == [] then s else Run(Apply(s, actions[0]), actions[1..])
  }

  /** A pointer whose policy and rollback files exist, the rollback being the very
      file that was migrated. */
  predicate PointerSound(s: Store, p: Pointer) {
    && p.policyPath in s.files && p.rollbackPath in s.files
    && DigestOf(s.files[p.rollbackPath]) == p.source && p.source.contents in s.migrated
    && (p.version == 1 ==> p.policyPath == p.rollbackPath) && (p.version == 1 || p.version == 2)
  }

  ghost predicate Sound(s: Store) {
    && (s.active.Some? ==> s.active.value in s.seen)
    && (forall p :: p in s.seen ==> PointerSound(s, p))
  }

  /** The text of the active policy. */
  function ActiveText(s: Store): Option<Contents> {
    if s.active.Some? && s.active.value.policyPath in s.files then Some(s.files[s.active.value.policyPath]) else None
  }

  /** Nothing that exists is ever changed or removed. */
  ghost predicate Extends(s: Store, t: Store) {
    && (forall f :: f in s.files ==> f in t.files && t.files[f] == s.files[f])
    && s.seen <= t.seen && s.migrated <= t.migrated
  }

  lemma ApplyKeeps(s: Store, a: Action)
    requires Sound(s)
    ensures Sound(Apply(s, a)) && Extends(s, Apply(s, a))
  {
  }

  /** In every run each artifact keeps its first contents, and every pointer that was
      ever active still names an existing policy and the exact file that was migrated. */
  lemma {:induction false} RunKeeps(s: Store, actions: seq<Action>)
    requires Sound(s)
    ensures Sound(Run(s, actions)) && Extends(s, Run(s, actions))
    decreases |actions|
  {
    if actions != [] {
      ApplyKeeps(s, actions[0]);
      RunKeeps(Apply(s, actions[0]), actions[1..]);
    }
  }

  lemma {:induction false} RunOneMore(s: Store, actions: seq<Action>, a: Action)
    ensures Run(s, actions + [a]) == Apply(Run(s, actions), a)
    decreases |actions|
  {
    if actions == [] {
      assert [a][1..] == [] && actions + [a] == [a];
    } else {
      assert (actions + [a])[1..] == actions[1..] + [a];
      RunOneMore(Apply(s, actions[0]), actions[1..], a);
    }
  }

  /** Once a policy is active there is always one to read. */
  lemma {:induction false} AlwaysReadable(s: Store, actions: seq<Action>)
    requires Sound(s) && s.active.Some?
    ensures ActiveText(Run(s, actions)).Some?
    decreases |actions|
  {
    if actions != [] {
      ApplyKeeps(s, actions[0]);
      AlwaysReadable(Apply(s, actions[0]), actions[1..]);
    }
  }

  /** `chain` starts at a pointer and goes on by revisions and rollbacks of the one before. */
  ghost predicate Lineage(chain: seq<Pointer>) {
    chain != [] && forall i: nat :: i + 1 < |chain| ==> Derives(chain, i)
  }

  ghost predicate Derives(chain: seq<Pointer>, i: nat)
    requires i + 1 < |chain|
  {
    || (exists artifact, at :: chain[i + 1] == Revised(chain[i], artifact, at))
    || (exists at :: chain[i + 1] == RolledBack(chain[i], at))
  }

  lemma {:induction false} LineageKeepsSource(chain: seq<Pointer>, k: nat)
    requires Lineage(chain) && k < |chain|
    ensures chain[k].source == chain[0].source && chain[k].rollbackPath == chain[0].rollbackPath
  {
    if k > 0 {
      LineageKeepsSource(chain, k - 1);
      assert Derives(chain, k - 1);
    }
  }

  /** After a migration of `contents`, however many revisions and rollbacks followed on
      from its pointer and whatever else was written meanwhile, rolling back is
      possible and makes exactly `contents` active. */
  lemma RollbackRestores(s: Store, migrated: Pointer, actions: seq<Action>, chain: seq<Pointer>, at: Text)
    requires Sound(s) && Enabled(s, CommitMigration(migrated))
    requires Lineage(chain) && chain[0] == migrated
    requires chain[|chain| - 1] in Run(Apply(s, CommitMigration(migrated)), actions).seen
    ensures var now := Run(Apply(s, CommitMigration(migrated)), actions);
            var a := CommitRollback(chain[|chain| - 1], at);
            && Enabled(now, a) && ActiveText(Apply(now, a)) == Some(migrated.source.contents)
            && Apply(now, a).active == Some(Pointer(1, migrated.rollbackPath, migrated.rollbackPath, migrated.source, at))
  {
    var first := Apply(s, CommitMigration(migrated));
    ApplyKeeps(s, CommitMigration(migrated));
    RunKeeps(first, actions);
    LineageKeepsSource(chain, |chain| - 1);
    assert PointerSound(Run(first, actions), chain[|chain| - 1]);
  }

  /** A rollback makes the source of its own pointer active, which is the newest
      migration if and only if the pointer belongs to it. */
  lemma RollbackFollowsPointer(s: Store, previous: Pointer, at: Text)
    requires Sound(s) && previous in s.seen
    ensures ActiveText(Apply(s, CommitRollback(previous, at))) == Some(previous.source.contents)
    ensures previous.source.contents in s.migrated
  {
    assert PointerSound(s, previous);
  }
}
