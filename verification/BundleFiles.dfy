// Bundle files looked up by kind and trimmed name.
module BundleFiles {
  import opened Text
  import opened CutoverRun

  datatype FileKey = FileKey(kind: string, fileName: string)

  function KeyFor(kind: string, fileName: string): FileKey {
    FileKey(kind, TrimSpace(fileName))
  }

  function KeyOfFile(file: BundleFile): FileKey {
    KeyFor(file.kind, file.fileName)
  }

  /** A later file replaces an earlier one with the same key. */
  function Indexed(files: seq<BundleFile>): map<FileKey, BundleFile> {
    if files == [] then map[]
    else Indexed(files[..|files| - 1])[KeyOfFile(files[|files| - 1]) := files[|files| - 1]]
  }

  method IndexFiles(files: seq<BundleFile>) returns (byKey: map<FileKey, BundleFile>)
    ensures byKey == Indexed(files)
  {
    byKey := map[];
    for i := 0 to |files|
      invariant byKey == Indexed(files[..i])
    {
      assert files[..i + 1][..i] == files[..i];
      byKey := byKey[KeyOfFile(files[i]) := files[i]];
    }
    assert files[..|files|] == files;
  }

  predicate DistinctKeys(files: seq<BundleFile>) {
    forall i, j :: 0 <= i < j < |files| ==> KeyOfFile(files[i]) != KeyOfFile(files[j])
  }

  /** The manifest's files come first, then the files given by flags; a repeated key refuses the bundle. */
  method RejectDuplicates(files: seq<BundleFile>) returns (ok: bool)
    ensures ok <==> DistinctKeys(files)
  {
    var seen: set<FileKey> := {};
    for i := 0 to |files|
      invariant forall k :: k in seen <==> exists j :: 0 <= j < i && KeyOfFile(files[j]) == k
      invariant DistinctKeys(files[..i])
    {
      var key := KeyOfFile(files[i]);
      if key in seen {
        return false;
      }
      seen := seen + {key};
    }
    assert files[..|files|] == files;
    return true;
  }

  /** Looking a file up finds the last file with its key. */
  lemma {:induction false} LookupFindsLast(files: seq<BundleFile>, i: nat) returns (j: nat)
    requires i < |files|
    ensures i <= j < |files| && KeyOfFile(files[j]) == KeyOfFile(files[i])
    ensures KeyOfFile(files[i]) in Indexed(files) && Indexed(files)[KeyOfFile(files[i])] == files[j]
  {
    var n := |files| - 1;
    j := n;
    if KeyOfFile(files[n]) != KeyOfFile(files[i]) {
      j := LookupFindsLast(files[..n], i);
    }
  }

  /** Every file is found under its own key exactly when files with the same key are the same file. */
  lemma {:induction false} LookupIsLossless(files: seq<BundleFile>)
    ensures (forall i :: 0 <= i < |files| ==>
               KeyOfFile(files[i]) in Indexed(files) && Indexed(files)[KeyOfFile(files[i])] == files[i])
       <==> (forall i, j :: 0 <= i < |files| && 0 <= j < |files| && KeyOfFile(files[i]) == KeyOfFile(files[j]) ==>
               files[i] == files[j])
  {
    forall i | 0 <= i < |files|
      ensures exists j :: i <= j < |files| && KeyOfFile(files[j]) == KeyOfFile(files[i])
                       && KeyOfFile(files[i]) in Indexed(files) && Indexed(files)[KeyOfFile(files[i])] == files[j]
    {
      var j := LookupFindsLast(files, i);
    }
  }
}
