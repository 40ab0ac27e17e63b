/** Exactly when the order of the files shows in a canonical manifest. */
module ManifestOrder {
  import opened Common
  import opened Bytes
  import opened Lexical
  import opened Sequences
  import opened Sorting
  import opened TextEncoding
  import opened Utf16
  import opened ManifestModel
  import opened ManifestTheorems
  import opened ManifestCanonical
  import CanonicalJson
  import Decimals
  import Utf8

  // ---- an order that shows ----

  /** The members with another list of files. */
  function WithFiles(members: Members, v: Value): Members {
    if members == [] then []
    else if members[0].0 == Literal("files") then [(members[0].0, v)] + members[1..]
    else [members[0]] + WithFiles(members[1..], v)
  }

  lemma {:induction false} WithFilesHas(members: Members, v: Value)
    requires Member(members, Literal("files")).Some?
    ensures forall key :: Member(WithFiles(members, v), key) == if key == Literal("files") then Some(v) else Member(members, key)
    ensures |WithFiles(members, v)| == |members|
    ensures forall i :: 0 <= i < |members| ==> WithFiles(members, v)[i].0 == members[i].0
  {
    if members[0].0 != Literal("files") {
      WithFilesHas(members[1..], v);
      var more := WithFiles(members, v);
      assert more[1..] == WithFiles(members[1..], v);
      forall i | 0 <= i < |members| ensures more[i].0 == members[i].0 {
        if i > 0 { assert more[i] == more[1..][i - 1] && members[i] == members[1..][i - 1]; }
      }
    } else {
      assert WithFiles(members, v)[1..] == members[1..];
    }
  }

  lemma WithFilesReorders(a: Members, items: seq<Value>)
    requires Member(a, Literal("files")).Some? && Member(a, Literal("files")).value.Arr?
    requires multiset(items) == multiset(Member(a, Literal("files")).value.items)
    ensures InputReordered(a, WithFiles(a, Arr(items)))
  {
    var b := WithFiles(a, Arr(items));
    WithFilesHas(a, Arr(items));
    KeyApart("schema_version"); KeyApart("manifest_digest"); KeyApart("identity"); KeyApart("display");
    KeyApart("source"); KeyApart("provenance"); KeyApart("compatibility");
    assert AllKnown(a) == AllKnown(b);
    assert EachReordered(items, items);
    assert FilesReordered(Some(Arr(Member(a, Literal("files")).value.items)), Some(Arr(items)));
  }

  lemma KeyApart(s: string)
    requires |s| != 5
    ensures Literal(s) != Literal("files")
  {
    assert |Literal(s)| == |s| && |Literal("files")| == 5;
  }

  /** Two different files of one rank, in a sorted list. */
  lemma Clash(files: seq<File>, rules: Rules) returns (i: nat, j: nat)
    requires Distinct(files, rules) && !PathBytesApart(files)
    ensures var t := SortFiles(files); i < j < |t| && Level(t[i], t[j], FileBelow) && t[i] != t[j]
  {
    var k, l :| 0 <= k < l < |files| && Utf8Of(files[k].path) == Utf8Of(files[l].path);
    var t := SortFiles(files);
    SortPermutes(files, FileBelow);
    MembersOf(t, files);
    assert files[k] in t && files[l] in t;
    var x :| 0 <= x < |t| && t[x] == files[k];
    var y :| 0 <= y < |t| && t[y] == files[l];
    assert rules.fold(files[k].path) != rules.fold(files[l].path);
    NotBelowItself(Utf8Of(files[k].path));
    i, j := if x < y then x else y, if x < y then y else x;
  }

  /** Where two accepted paths have the same bytes, some other order of the files gives
      another manifest. */
  lemma OrderShows(a: Members, rules: Rules) returns (b: Members)
    requires Canonicalize(a, rules).Some? && !PathBytesApart(FileListOf(Member(a, Literal("files")), rules).value)
    ensures InputReordered(a, b) && Canonicalize(b, rules) != Canonicalize(a, rules)
    ensures FileListOf(Member(b, Literal("files")), rules).Some?
  {
    var items := Member(a, Literal("files")).value.items;
    var files := FileListOf(Member(a, Literal("files")), rules).value;
    var u := OtherOrder(files, rules);
    var other := ItemsFor(items, files, u, rules);
    b := WithFiles(a, Arr(other));
    WithFilesReorders(a, other);
    WithFilesHas(a, Arr(other));
    ProjectedFiles(a, rules);
    ProjectedFiles(b, rules);
  }

  /** An order of the files that sorts differently. */
  lemma OtherOrder(files: seq<File>, rules: Rules) returns (u: seq<File>)
    requires Distinct(files, rules) && !PathBytesApart(files)
    ensures multiset(u) == multiset(files) && SortFiles(u) != SortFiles(files)
  {
    var t := SortFiles(files);
    var i, j := Clash(files, rules);
    u := Swap(t, i, j);
    FileOrders();
    SortAscends(files, FileBelow);
    SortPermutes(files, FileBelow);
    SwapPermutes(t, i, j);
    SwapStays(t, i, j, FileBelow);
    assert u[i] != t[i];
  }

  lemma ProjectedFiles(a: Members, rules: Rules)
    ensures Canonicalize(a, rules).Some? ==>
              FileListOf(Member(a, Literal("files")), rules).Some?
              && Canonicalize(a, rules).value.manifest.files == SortFiles(FileListOf(Member(a, Literal("files")), rules).value)
  {
  }

  lemma ItemsFor(items: seq<Value>, files: seq<File>, u: seq<File>, rules: Rules) returns (other: seq<Value>)
    requires FileListOf(Some(Arr(items)), rules) == Some(files) && multiset(u) == multiset(files)
    ensures multiset(other) == multiset(items) && FileListOf(Some(Arr(other)), rules) == Some(u)
  {
    FilesAreMap(items, rules);
    other := UnmapPermutes(items, (v: Value) => FileOr(v, rules), u);
    MembersOf(other, items);
    FilesAreMap(other, rules);
    DistinctAnyOrder(files, u, rules);
    assert |multiset(other)| == |other| && |multiset(items)| == |items|;
  }

  /** An accepted input gives the same result in every order if and only if no two of
      its paths have the same UTF-8 bytes. */
  lemma OrderForgottenIff(a: Members, rules: Rules)
    requires Canonicalize(a, rules).Some?
    ensures (forall b :: InputReordered(a, b) ==> Canonicalize(b, rules) == Canonicalize(a, rules)) <==>
              PathBytesApart(FileListOf(Member(a, Literal("files")), rules).value)
  {
    if PathBytesApart(FileListOf(Member(a, Literal("files")), rules).value) {
      forall b | InputReordered(a, b) ensures Canonicalize(b, rules) == Canonicalize(a, rules) { OrderDoesNotMatter(a, b, rules); }
    } else {
      var b := OrderShows(a, rules);
    }
  }
}
