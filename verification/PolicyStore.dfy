/** The operations of the policy store. Each returns the writes it made, in order;
    a crash leaves the store after some of them, and the writes of other processes
    fall between them, both of which are runs of the model. */
module PolicyStore {
  import opened Common
  import opened Utf16
  import opened PolicyStoreModel

  datatype StoreError = ArtifactExists | RollbackDigest

  /** What a migration is about to write. */
  datatype Preview = Preview(rollbackPath: Path, targetPath: Path, receiptPath: Path, target: Contents, receipt: Contents)

  class PolicyFiles {
    var files: map<Path, Contents>
    var active: Option<Pointer>
    ghost var seen: set<Pointer>
    ghost var migrated: set<Contents>

    ghost function Now(): Store
      reads this
    {
      Store(files, active, seen, migrated)
    }

    constructor ()
      ensures Now() == EMPTY && Sound(Now())
    {
      files, active, seen, migrated := map[], None, {}, {};
    }

    /** `writeExclusive`: an artifact that exists must already say the same. */
    method WriteExclusive(path: Path, contents: Contents) returns (written: bool)
      requires Sound(Now())
      modifies this`files
      ensures Sound(Now()) && Extends(old(Now()), Now())
      ensures Now() == Apply(old(Now()), Create(path, contents))
      ensures written <==> path in files && files[path] == contents
      ensures !written ==> Now() == old(Now())
    {
      ApplyKeeps(Now(), Create(path, contents));
      if path in files { return files[path] == contents; }
      files := files[path := contents];
      return true;
    }

    /** `writeActivePolicyPointer`, which renames a complete file into place. */
    method Activate(p: Pointer, ghost a: Action)
      requires Sound(Now()) && Enabled(Now(), a)
      requires Apply(Now(), a).files == files && Apply(Now(), a).active == Some(p)
      modifies this
      ensures Now() == Apply(old(Now()), a) && Sound(Now())
    {
      ApplyKeeps(Now(), a);
      ghost var next := Apply(Now(), a);
      active := Some(p);
      seen, migrated := next.seen, next.migrated;
    }

    /** One more write of a run that began at `first`. */
    method WriteNext(path: Path, contents: Contents, ghost first: Store, ghost before: seq<Action>)
      returns (written: bool, ghost writes: seq<Action>)
      requires Sound(Now()) && Now() == Run(first, before)
      modifies this`files
      ensures Sound(Now()) && Extends(old(Now()), Now())
      ensures writes == before + [Create(path, contents)] && Now() == Run(first, writes)
      ensures written <==> (path in old(files) ==> old(files)[path] == contents)
      ensures files == if written then old(files)[path := contents] else old(files)
    {
      written := WriteExclusive(path, contents);
      RunOneMore(first, before, Create(path, contents));
      writes := before + [Create(path, contents)];
      assert written ==> files == old(files)[path := contents];
    }

    /** The artifacts of a migration, until one finds its path taken by something else. */
    method WriteArtifacts(preview: Preview, source: Contents) returns (done: bool, ghost writes: seq<Action>)
      requires Sound(Now())
      modifies this`files
      ensures Sound(Now()) && Extends(old(Now()), Now()) && Now() == Run(old(Now()), writes)
      ensures writes <= Artifacts(preview, source)
      ensures done <==> Fits(old(files), Artifacts(preview, source))
      ensures done ==>
                && writes == Artifacts(preview, source)
                && files == old(files)[preview.rollbackPath := source][preview.targetPath := preview.target][preview.receiptPath := preview.receipt]
                && files[preview.rollbackPath] == source && files[preview.targetPath] == preview.target
    {
      ghost var first := Now();
      FitsThree(files, preview, source);
      done, writes := WriteNext(preview.rollbackPath, source, first, []);
      if !done { return; }
      done, writes := WriteNext(preview.targetPath, preview.target, first, writes);
      if !done { return; }
      done, writes := WriteNext(preview.receiptPath, preview.receipt, first, writes);
    }

    /** `persistPolicyMigration`: the source, the new policy, the receipt and then the pointer. */
    method PersistMigration(preview: Preview, source: Contents, at: Text)
      returns (r: Result<Pointer, StoreError>, ghost writes: seq<Action>)
      requires Sound(Now())
      modifies this
      ensures Sound(Now()) && Extends(old(Now()), Now()) && Now() == Run(old(Now()), writes)
      ensures r.Ok? ==>
                && r.value == Pointer(2, preview.targetPath, preview.rollbackPath, DigestOf(source), at)
                && active == Some(r.value) && ActiveText(Now()) == Some(preview.target)
                && files[preview.rollbackPath] == source
                && preview.receiptPath in files && files[preview.receiptPath] == preview.receipt
                && writes == Artifacts(preview, source) + [CommitMigration(r.value)]
      ensures r.Err? ==> active == old(active) && writes <= Artifacts(preview, source)
      ensures r.Ok? <==> Fits(old(files), Artifacts(preview, source))
    {
      var done;
      done, writes := WriteArtifacts(preview, source);
      if !done { return Err(ArtifactExists), writes; }
      var pointer := Pointer(2, preview.targetPath, preview.rollbackPath, DigestOf(source), at);
      RunOneMore(old(Now()), writes, CommitMigration(pointer));
      Activate(pointer, CommitMigration(pointer));
      writes := writes + [CommitMigration(pointer)];
      return Ok(pointer), writes;
    }

    /** `persistPolicyRevision`, from any pointer that was active once. */
    method PersistRevision(policy: Contents, artifact: Path, previous: Pointer, at: Text)
      returns (r: Result<Pointer, StoreError>, ghost writes: seq<Action>)
      requires Sound(Now()) && previous in seen
      modifies this
      ensures Sound(Now()) && Extends(old(Now()), Now()) && Now() == Run(old(Now()), writes)
      ensures r.Ok? ==>
                && r.value == Revised(previous, artifact, at) && active == Some(r.value) && ActiveText(Now()) == Some(policy)
                && writes == [Create(artifact, policy), CommitRevision(previous, artifact, at)]
      ensures r.Err? ==> Now() == old(Now())
      ensures r.Ok? <==> (artifact in old(files) ==> old(files)[artifact] == policy)
    {
      ghost var first := Now();
      var written := WriteExclusive(artifact, policy);
      writes := [Create(artifact, policy)];
      assert writes[1..] == [];
      if !written { return Err(ArtifactExists), writes; }
      var pointer := previous.(version := 2, policyPath := artifact, updatedAt := at);
      Activate(pointer, CommitRevision(previous, artifact, at));
      RunOneMore(first, writes, CommitRevision(previous, artifact, at));
      writes := writes + [CommitRevision(previous, artifact, at)];
      return Ok(pointer), writes;
    }

    /** `rollbackPolicy`: nothing but an occupied receipt path can stop it. */
    method Rollback(pointer: Pointer, receiptPath: Path, receipt: Contents, at: Text)
      returns (r: Result<Pointer, StoreError>, ghost writes: seq<Action>)
      requires Sound(Now()) && pointer in seen
      modifies this
      ensures Sound(Now()) && Extends(old(Now()), Now()) && Now() == Run(old(Now()), writes)
      ensures r.Ok? ==>
                && r.value == RolledBack(pointer, at) && active == Some(r.value)
                && ActiveText(Now()) == Some(pointer.source.contents)
                && writes == [Create(receiptPath, receipt), CommitRollback(pointer, at)]
      ensures r.Err? ==> Now() == old(Now()) && r.error.ArtifactExists?
      ensures r.Ok? <==> (receiptPath in old(files) ==> old(files)[receiptPath] == receipt)
    {
      ghost var first := Now();
      assert PointerSound(Now(), pointer);
      writes := [];
      if pointer.rollbackPath !in files || DigestOf(files[pointer.rollbackPath]) != pointer.source {
        return Err(RollbackDigest), writes;
      }
      var written := WriteExclusive(receiptPath, receipt);
      writes := [Create(receiptPath, receipt)];
      assert writes[1..] == [];
      if !written { return Err(ArtifactExists), writes; }
      var next := pointer.(version := 1, policyPath := pointer.rollbackPath, updatedAt := at);
      Activate(next, CommitRollback(pointer, at));
      RunOneMore(first, writes, CommitRollback(pointer, at));
      writes := writes + [CommitRollback(pointer, at)];
      return Ok(next), writes;
    }
  }

  /** The artifacts of a migration, in the order they are written. */
  function Artifacts(preview: Preview, source: Contents): (a: seq<Action>)
    ensures |a| == 3
  {
    [Create(preview.rollbackPath, source), Create(preview.targetPath, preview.target), Create(preview.receiptPath, preview.receipt)]
  }

  /** Taken in order, every artifact finds its path free or holding the same. */
  predicate Fits(files: map<Path, Contents>, creates: seq<Action>)
    decreases |creates|
  {
    creates == []
    || (creates[0].Create? && (creates[0].path in files ==> files[creates[0].path] == creates[0].contents)
        && Fits(files[creates[0].path := creates[0].contents], creates[1..]))
  }

  /** The three artifacts fit exactly if each finds its path free or holding the same
      once those before it are there. */
  lemma FitsThree(files: map<Path, Contents>, preview: Preview, source: Contents)
    ensures var one := files[preview.rollbackPath := source];
            var two := one[preview.targetPath := preview.target];
            Fits(files, Artifacts(preview, source)) <==>
              && (preview.rollbackPath in files ==> files[preview.rollbackPath] == source)
              && (preview.targetPath in one ==> one[preview.targetPath] == preview.target)
              && (preview.receiptPath in two ==> two[preview.receiptPath] == preview.receipt)
  {
    var one := files[preview.rollbackPath := source];
    var two := one[preview.targetPath := preview.target];
    FitsFirst(files, preview.rollbackPath, source, [Create(preview.targetPath, preview.target), Create(preview.receiptPath, preview.receipt)]);
    FitsFirst(one, preview.targetPath, preview.target, [Create(preview.receiptPath, preview.receipt)]);
    FitsFirst(two, preview.receiptPath, preview.receipt, []);
    assert Artifacts(preview, source) ==
           [Create(preview.rollbackPath, source)] + [Create(preview.targetPath, preview.target), Create(preview.receiptPath, preview.receipt)];
    assert [Create(preview.targetPath, preview.target)] + [Create(preview.receiptPath, preview.receipt)] ==
           [Create(preview.targetPath, preview.target), Create(preview.receiptPath, preview.receipt)];
    assert [Create(preview.receiptPath, preview.receipt)] + [] == [Create(preview.receiptPath, preview.receipt)];
  }

  lemma FitsFirst(files: map<Path, Contents>, path: Path, contents: Contents, rest: seq<Action>)
    ensures Fits(files, [Create(path, contents)] + rest) <==>
              (path in files ==> files[path] == contents) && Fits(files[path := contents], rest)
  {
    assert ([Create(path, contents)] + rest)[1..] == rest;
  }
}
