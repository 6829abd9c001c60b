// Migration files by name: which files a direction runs, in which order, and for which version.
module MigrationFiles {
  const UP := ".up.sql"
  const DOWN := ".down.sql"

  /** Go's string order. */
  predicate Less(a: string, b: string) {
    b != "" && (a == "" || a[0] < b[0] || (a[0] == b[0] && Less(a[1..], b[1..])))
  }

  predicate HasSuffix(s: string, suffix: string) {
    |suffix| <= |s| && s[|s| - |suffix|..] == suffix
  }

  function TrimSuffix(s: string, suffix: string): string {
    if HasSuffix(s, suffix) then s[..|s| - |suffix|] else s
  }

  function ExtractVersion(fileName: string): string {
    TrimSuffix(TrimSuffix(fileName, UP), DOWN)
  }

  ghost predicate Sorted(files: seq<string>) {
    forall i, j :: 0 <= i < j < |files| ==> Less(files[i], files[j])
  }

  function Insert(file: string, files: seq<string>): seq<string> {
    if files == [] || !Less(files[0], file) then [file] + files else [files[0]] + Insert(file, files[1..])
  }

  function Sort(files: seq<string>): seq<string> {
    if files == [] then [] else Insert(files[0], Sort(files[1..]))
  }

  function Matching(names: seq<string>, suffix: string): seq<string> {
    if names == [] then []
    else (if HasSuffix(names[0], suffix) then [names[0]] else []) + Matching(names[1..], suffix)
  }

  /** The files of a directory that end in the suffix, sorted. */
  function GetMigrationFiles(names: seq<string>, suffix: string): seq<string> {
    Sort(Matching(names, suffix))
  }

  function Reverse(s: seq<string>): (r: seq<string>)
    ensures |r| == |s|
    ensures forall i :: 0 <= i < |s| ==> r[i] == s[|s| - 1 - i]
  {
    if s == [] then [] else Reverse(s[1..]) + [s[0]]
  }

  function VersionsOf(files: seq<string>): (versions: seq<string>)
    ensures |versions| == |files|
    ensures forall i :: 0 <= i < |files| ==> versions[i] == ExtractVersion(files[i])
  {
    if files == [] then [] else [ExtractVersion(files[0])] + VersionsOf(files[1..])
  }

  // ----- The order of strings -----

  lemma {:induction false} LessIsTotal(a: string, b: string)
    ensures a == b || Less(a, b) || Less(b, a)
    ensures !(Less(a, b) && Less(b, a)) && !Less(a, a)
  {
    if a != "" {
      LessIsTotal(a[1..], a[1..]);
      if b != "" {
        LessIsTotal(a[1..], b[1..]);
        if a[0] == b[0] && a[1..] == b[1..] {
          assert a == [a[0]] + a[1..] && b == [b[0]] + b[1..];
        }
      }
    }
  }

  lemma {:induction false} LessIsTransitive(a: string, b: string, c: string)
    requires Less(a, b) && Less(b, c)
    ensures Less(a, c)
  {
    if a != "" && a[0] == b[0] && b[0] == c[0] {
      LessIsTransitive(a[1..], b[1..], c[1..]);
    }
  }

  // ----- Sorting -----

  ghost predicate Unique(files: seq<string>) {
    forall i, j :: 0 <= i < j < |files| ==> files[i] != files[j]
  }

  lemma {:induction false} InsertSorts(file: string, files: seq<string>)
    requires Sorted(files) && file !in files
    ensures Sorted(Insert(file, files))
    ensures forall f :: f in Insert(file, files) <==> f == file || f in files
  {
    if files == [] {
    } else if !Less(files[0], file) {
      LessIsTotal(files[0], file);
      forall i | 0 <= i < |files| ensures Less(file, files[i]) {
        if i > 0 {
          LessIsTransitive(file, files[0], files[i]);
        }
      }
    } else {
      var tail := files[1..];
      assert forall f :: f in files <==> f == files[0] || f in tail;
      InsertSorts(file, tail);
      var rest := Insert(file, tail);
      forall i | 0 <= i < |rest| ensures Less(files[0], rest[i]) {
        assert rest[i] in rest;
        if rest[i] != file {
          var j :| 0 <= j < |tail| && tail[j] == rest[i];
        }
      }
    }
  }

  lemma {:induction false} SortSorts(files: seq<string>)
    requires Unique(files)
    ensures Sorted(Sort(files))
    ensures forall f :: f in Sort(files) <==> f in files
  {
    if files != [] {
      assert forall f :: f in files <==> f == files[0] || f in files[1..];
      SortSorts(files[1..]);
      InsertSorts(files[0], Sort(files[1..]));
    }
  }

  lemma {:induction false} MatchingSelects(names: seq<string>, suffix: string)
    requires Unique(names)
    ensures Unique(Matching(names, suffix))
    ensures forall f :: f in Matching(names, suffix) <==> f in names && HasSuffix(f, suffix)
  {
    if names != [] {
      assert forall f :: f in names <==> f == names[0] || f in names[1..];
      MatchingSelects(names[1..], suffix);
    }
  }

  /** What a directory lists for one direction: exactly its matching files, in strictly increasing order. */
  lemma FilesAreSorted(names: seq<string>, suffix: string)
    requires Unique(names)
    ensures Sorted(GetMigrationFiles(names, suffix))
    ensures forall f :: f in GetMigrationFiles(names, suffix) <==> f in names && HasSuffix(f, suffix)
  {
    MatchingSelects(names, suffix);
    SortSorts(Matching(names, suffix));
  }

  // ----- Versions -----

  /** b is a followed by a dot and more. */
  predicate DotExtends(a: string, b: string) {
    |a| < |b| && b[..|a|] == a && b[|a|] == '.'
  }

  lemma {:induction false} OrderIgnoresSuffix(a: string, b: string, x: string, y: string)
    requires a != b && !DotExtends(a, b) && !DotExtends(b, a)
    requires x != "" && x[0] == '.' && y != "" && y[0] == '.'
    ensures Less(a + x, b + x) <==> Less(a + y, b + y)
  {
    if a == "" {
      assert a + x == x && a + y == y && (b + x)[0] == b[0] == (b + y)[0];
    } else if b == "" {
      assert b + x == x && b + y == y && (a + x)[0] == a[0] == (a + y)[0];
    } else if a[0] == b[0] {
      assert (a + x)[1..] == a[1..] + x && (b + x)[1..] == b[1..] + x;
      assert (a + y)[1..] == a[1..] + y && (b + y)[1..] == b[1..] + y;
      assert a == [a[0]] + a[1..] && b == [b[0]] + b[1..];
      assert DotExtends(a[1..], b[1..]) ==> DotExtends(a, b);
      assert DotExtends(b[1..], a[1..]) ==> DotExtends(b, a);
      OrderIgnoresSuffix(a[1..], b[1..], x, y);
    }
  }

  /** Both directions order the two versions alike. */
  predicate OrderAgrees(a: string, b: string) {
    Less(a + UP, b + UP) <==> Less(a + DOWN, b + DOWN)
  }

  lemma LessAfter(c: char, a: string, b: string)
    ensures Less([c] + a, [c] + b) <==> Less(a, b)
  {
    assert ([c] + a)[1..] == a && ([c] + b)[1..] == b;
  }

  /** Versions with dots can be ordered differently by their two files: "a.t.up.sql" sorts before "a.up.sql",
      but "a.t.down.sql" after "a.down.sql". */
  lemma DotsCanTurnTheOrder()
    ensures !OrderAgrees("a", "a.t")
  {
    assert "a" + UP == ['a'] + (['.'] + "up.sql") && "a.t" + UP == ['a'] + (['.'] + "t.up.sql");
    assert "a" + DOWN == ['a'] + (['.'] + "down.sql") && "a.t" + DOWN == ['a'] + (['.'] + "t.down.sql");
    LessAfter('a', ['.'] + "up.sql", ['.'] + "t.up.sql");
    LessAfter('.', "up.sql", "t.up.sql");
    LessAfter('a', ['.'] + "down.sql", ['.'] + "t.down.sql");
    LessAfter('.', "down.sql", "t.down.sql");
  }

  lemma VersionOfUp(v: string)
    ensures ExtractVersion(v + UP) == v <==> !HasSuffix(v, DOWN)
  {
    assert (v + UP)[|v|..] == UP && (v + UP)[..|v|] == v;
  }

  lemma VersionOfDown(v: string)
    ensures ExtractVersion(v + DOWN) == v
  {
    var f := v + DOWN;
    assert f[|v|..] == DOWN && f[..|v|] == v;
    assert f[|f| - |UP|..] == DOWN[|DOWN| - |UP|..];
    assert DOWN[|DOWN| - |UP|..][0] != UP[0];
  }

  /** The directory holds an up and a down file for each of these versions and for no other. */
  ghost predicate Paired(names: seq<string>, versions: seq<string>) {
    && Unique(names)
    && (forall f :: f in names && HasSuffix(f, UP) <==> exists v :: v in versions && f == v + UP)
    && (forall f :: f in names && HasSuffix(f, DOWN) <==> exists v :: v in versions && f == v + DOWN)
  }

  ghost predicate AllAgree(versions: seq<string>) {
    forall a, b :: a in versions && b in versions ==> OrderAgrees(a, b)
  }

  /** The sorted list of a set of strings is the only one there is. */
  lemma {:induction false} SortedIsUnique(a: seq<string>, b: seq<string>)
    requires Sorted(a) && Sorted(b) && forall f :: f in a <==> f in b
    ensures a == b
  {
    assert a != [] ==> a[0] in a;
    assert b != [] ==> b[0] in b;
    if a != [] && b != [] {
      HeadIsLeast(a, b);
      HeadIsLeast(b, a);
      LessIsTotal(a[0], b[0]);
      TailMembers(a);
      TailMembers(b);
      SortedIsUnique(a[1..], b[1..]);
      assert a == [a[0]] + a[1..] && b == [b[0]] + b[1..];
    }
  }

  lemma HeadIsLeast(a: seq<string>, b: seq<string>)
    requires Sorted(a) && a != [] && b != [] && forall f :: f in b ==> f in a
    ensures a[0] == b[0] || Less(a[0], b[0])
  {
    assert b[0] in a;
  }

  lemma TailMembers(a: seq<string>)
    requires Sorted(a) && a != []
    ensures Sorted(a[1..])
    ensures forall f :: f in a[1..] <==> f in a && f != a[0]
  {
    LessIsTotal(a[0], a[0]);
    forall f | f in a[1..] ensures f != a[0] {
      var i :| 0 <= i < |a[1..]| && a[1..][i] == f;
      assert Less(a[0], a[i + 1]);
    }
    assert forall f :: f in a <==> f == a[0] || f in a[1..];
  }

  // ----- Both directions list the same versions -----

  ghost predicate NoVersionEndsInDown(versions: seq<string>) {
    forall v :: v in versions ==> !HasSuffix(v, DOWN)
  }

  function WithSuffix(versions: seq<string>, suffix: string): (files: seq<string>)
    ensures |files| == |versions|
    ensures forall i :: 0 <= i < |versions| ==> files[i] == versions[i] + suffix
  {
    if versions == [] then [] else [versions[0] + suffix] + WithSuffix(versions[1..], suffix)
  }

  ghost predicate Lists(names: seq<string>, versions: seq<string>, suffix: string) {
    && Unique(names)
    && (forall f :: f in names && HasSuffix(f, suffix) <==> exists v :: v in versions && f == v + suffix)
    && (suffix == DOWN || (suffix == UP && NoVersionEndsInDown(versions)))
  }

  /** The files of a direction are its versions with the suffix put back. */
  lemma FilesOfVersions(names: seq<string>, versions: seq<string>, suffix: string)
    requires Lists(names, versions, suffix)
    ensures var files := GetMigrationFiles(names, suffix);
      && (forall i :: 0 <= i < |files| ==> VersionsOf(files)[i] + suffix == files[i])
      && (forall i :: 0 <= i < |files| ==> VersionsOf(files)[i] in versions)
  {
    var files := GetMigrationFiles(names, suffix);
    FilesAreSorted(names, suffix);
    forall i | 0 <= i < |files|
      ensures VersionsOf(files)[i] + suffix == files[i] && VersionsOf(files)[i] in versions
    {
      assert files[i] in files;
      var v :| v in versions && files[i] == v + suffix;
      VersionOf(v, suffix);
    }
  }

  /** Every version is listed. */
  lemma VersionIsListed(names: seq<string>, versions: seq<string>, suffix: string, v: string)
    requires Lists(names, versions, suffix) && v in versions
    ensures v in VersionsOf(GetMigrationFiles(names, suffix))
  {
    var files := GetMigrationFiles(names, suffix);
    FilesAreSorted(names, suffix);
    assert v + suffix in files;
    var i := IndexOf(files, v + suffix);
    VersionOf(v, suffix);
    assert VersionsOf(files)[i] == v;
  }

  lemma VersionOf(v: string, suffix: string)
    requires suffix == DOWN || (suffix == UP && !HasSuffix(v, DOWN))
    ensures ExtractVersion(v + suffix) == v
  {
    VersionOfUp(v);
    VersionOfDown(v);
  }

  /** Up and down files list the same versions in the same order exactly when every two versions are ordered
      alike by their up and their down files. */
  lemma SameOrderIffAllAgree(names: seq<string>, versions: seq<string>)
    requires Paired(names, versions) && NoVersionEndsInDown(versions)
    ensures VersionsOf(GetMigrationFiles(names, UP)) == VersionsOf(GetMigrationFiles(names, DOWN))
       <==> AllAgree(versions)
  {
    var ups, downs := GetMigrationFiles(names, UP), GetMigrationFiles(names, DOWN);
    var u, d := VersionsOf(ups), VersionsOf(downs);
    FilesOfVersions(names, versions, UP);
    FilesOfVersions(names, versions, DOWN);
    FilesAreSorted(names, UP);
    FilesAreSorted(names, DOWN);
    if AllAgree(versions) {
      SameListings(names, versions);
    }
    if u == d {
      forall a, b | a in versions && b in versions ensures OrderAgrees(a, b) {
        VersionIsListed(names, versions, UP, a);
        VersionIsListed(names, versions, UP, b);
        var i := IndexOf(u, a);
        var j := IndexOf(u, b);
        assert ups[i] == a + UP && ups[j] == b + UP && downs[i] == a + DOWN && downs[j] == b + DOWN;
        LessIsTotal(ups[i], ups[j]);
        LessIsTotal(downs[i], downs[j]);
      }
    }
  }

  lemma SameListings(names: seq<string>, versions: seq<string>)
    requires Paired(names, versions) && NoVersionEndsInDown(versions) && AllAgree(versions)
    ensures VersionsOf(GetMigrationFiles(names, UP)) == VersionsOf(GetMigrationFiles(names, DOWN))
  {
    var ups, downs := GetMigrationFiles(names, UP), GetMigrationFiles(names, DOWN);
    var u, d := VersionsOf(ups), VersionsOf(downs);
    FilesOfVersions(names, versions, UP);
    FilesOfVersions(names, versions, DOWN);
    FilesAreSorted(names, UP);
    FilesAreSorted(names, DOWN);
    var resorted := WithSuffix(u, DOWN);
    forall i, j | 0 <= i < j < |u| ensures Less(resorted[i], resorted[j]) {
      assert Less(ups[i], ups[j]) && OrderAgrees(u[i], u[j]);
    }
    forall f ensures f in resorted <==> f in downs {
      ResortedMember(names, versions, f);
    }
    SortedIsUnique(resorted, downs);
    forall i | 0 <= i < |u| ensures u[i] == d[i] {
      assert u[i] + DOWN == downs[i] == d[i] + DOWN;
      AppendIsInjective(u[i], d[i], DOWN);
    }
  }

  lemma ResortedMember(names: seq<string>, versions: seq<string>, f: string)
    requires Paired(names, versions) && NoVersionEndsInDown(versions)
    ensures f in WithSuffix(VersionsOf(GetMigrationFiles(names, UP)), DOWN) <==> f in GetMigrationFiles(names, DOWN)
  {
    var u, downs := VersionsOf(GetMigrationFiles(names, UP)), GetMigrationFiles(names, DOWN);
    if f in WithSuffix(u, DOWN) {
      var i := IndexOf(WithSuffix(u, DOWN), f);
      assert u[i] in versions by { FilesOfVersions(names, versions, UP); }
      FilesAreSorted(names, DOWN);
    }
    if f in downs {
      var v := VersionOfFile(names, versions, f);
      assert v in u by { VersionIsListed(names, versions, UP, v); }
      var i := IndexOf(u, v);
      assert WithSuffix(u, DOWN)[i] == f;
    }
  }

  lemma VersionOfFile(names: seq<string>, versions: seq<string>, f: string) returns (v: string)
    requires Paired(names, versions) && f in GetMigrationFiles(names, DOWN)
    ensures v in versions && f == v + DOWN
  {
    FilesAreSorted(names, DOWN);
    v :| v in versions && f == v + DOWN;
  }

  lemma IndexOf(s: seq<string>, x: string) returns (i: nat)
    requires x in s
    ensures i < |s| && s[i] == x
  {
    i :| 0 <= i < |s| && s[i] == x;
  }

  lemma AppendIsInjective(a: string, b: string, suffix: string)
    requires a + suffix == b + suffix
    ensures a == b
  {
    assert (a + suffix)[..|a|] == a && (b + suffix)[..|b|] == b;
  }

  lemma SuffixHasDot(v: string)
    ensures HasSuffix(v, DOWN) ==> '.' in v
  {
    if HasSuffix(v, DOWN) {
      assert v[|v| - |DOWN|] == v[|v| - |DOWN|..][0] == '.';
    }
  }

  /** Version names without dots, as the repository's own migrations have, are always listed alike. */
  lemma DotFreeVersionsAgree(names: seq<string>, versions: seq<string>)
    requires Paired(names, versions) && forall v :: v in versions ==> '.' !in v
    ensures NoVersionEndsInDown(versions)
    ensures VersionsOf(GetMigrationFiles(names, UP)) == VersionsOf(GetMigrationFiles(names, DOWN))
  {
    forall v | v in versions ensures !HasSuffix(v, DOWN) {
      SuffixHasDot(v);
    }
    forall a, b | a in versions && b in versions ensures OrderAgrees(a, b) {
      LessIsTotal(a + UP, a + UP);
      LessIsTotal(a + DOWN, a + DOWN);
      if a != b {
        OrderIgnoresSuffix(a, b, UP, DOWN);
      }
    }
    SameOrderIffAllAgree(names, versions);
  }
}
