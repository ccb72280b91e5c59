/**
 * The embedded database migrations as go-bindata generates them: a table
 * from asset name to generator, and a tree of directory nodes whose
 * leaves hold the same generators. Asset looks a name up in the table,
 * AssetNames lists the table's names and AssetDir walks the tree.
 */
module Migrations {
  import opened Wrappers

  datatype Result<T> = Success(value: T) | Failure(error: string)

  /** The asset generators; there is one, for the single migration. */
  datatype Generator = Migration1681420952

  /** A node of the tree: a file when it holds a generator, else a directory of named children. */
  datatype Node = Node(func: Option<Generator>, children: map<string, Node>)

  const MigrationName := "../migrations/1681420952.sql"

  /** The table of assets by name. */
  const Bindata: map<string, Generator> := map[MigrationName := Migration1681420952]

  /** The tree of assets: "..", then "migrations", then the file. */
  const Bintree: Node :=
    Node(None, map[".." := Node(None, map["migrations" := Node(None, map["1681420952.sql" := Node(Some(Migration1681420952), map[])])])])

  /** strings.Replace(name, "\\", "/", -1): every backslash becomes a slash. */
  function Canonical(name: string): (c: string)
    ensures |c| == |name|
    ensures forall i :: 0 <= i < |name| ==> c[i] == if name[i] == '\\' then '/' else name[i]
    ensures '\\' !in c
  {
    if name == [] then [] else [if name[0] == '\\' then '/' else name[0]] + Canonical(name[1..])
  }

  /** Canonical leaves a canonical name as it is. */
  lemma CanonicalIdempotent(name: string)
    ensures Canonical(Canonical(name)) == Canonical(name)
  {
    var c := Canonical(name);
    assert forall i :: 0 <= i < |c| ==> c[i] != '\\';
  }

  /** The pieces of s between its slashes, joined back with slashes. */
  function Join(parts: seq<string>): string
    requires parts != []
  {
    if |parts| == 1 then parts[0] else parts[0] + "/" + Join(parts[1..])
  }

  /** Whether s holds no slash. */
  predicate NoSlash(s: string) {
    forall k :: 0 <= k < |s| ==> s[k] != '/'
  }

  /** No slash at the indices i up to j of s. */
  predicate SlashFree(s: string, i: nat, j: nat)
    requires i <= j <= |s|
  {
    forall k :: i <= k < j ==> s[k] != '/'
  }

  /** The pieces of s from index `start` on, the current one begun at `start` and scanned up to `i`. */
  function SplitAt(s: string, start: nat, i: nat): (parts: seq<string>)
    requires start <= i <= |s|
    ensures parts != []
    decreases |s| - i
  {
    if i == |s| then [s[start..i]]
    else if s[i] == '/' then [s[start..i]] + SplitAt(s, i + 1, i + 1)
    else SplitAt(s, start, i + 1)
  }

  /** strings.Split(s, "/"): the pieces between slashes, at least one, possibly empty. */
  function Split(s: string): seq<string> {
    SplitAt(s, 0, 0)
  }

  /** With no slash left from i on, the current piece runs to the end. */
  lemma {:induction false} SplitAtNoSlash(s: string, start: nat, i: nat)
    requires start <= i <= |s| && SlashFree(s, i, |s|)
    ensures SplitAt(s, start, i) == [s[start..]]
    decreases |s| - i
  {
    if i < |s| {
      SplitAtNoSlash(s, start, i + 1);
    } else {
      assert s[start..i] == s[start..];
    }
  }

  /** The scan from i skips to the next slash, at j, which ends the current piece. */
  lemma {:induction false} SplitAtSlash(s: string, start: nat, i: nat, j: nat)
    requires start <= i <= j < |s| && s[j] == '/' && SlashFree(s, i, j)
    ensures SplitAt(s, start, i) == [s[start..j]] + SplitAt(s, j + 1, j + 1)
    decreases j - i
  {
    if i < j {
      SplitAtSlash(s, start, i + 1, j);
    }
  }

  /** Dropping a prefix of s before the current piece shifts the indices and changes no piece. */
  lemma {:induction false} SplitAtShift(s: string, d: nat, start: nat, i: nat)
    requires d <= start <= i <= |s|
    ensures SplitAt(s, start, i) == SplitAt(s[d..], start - d, i - d)
    decreases |s| - i
  {
    if i < |s| {
      assert s[i] == s[d..][i - d];
      assert s[start..i] == s[d..][start - d..i - d];
      if s[i] == '/' {
        SplitAtShift(s, d, i + 1, i + 1);
      } else {
        SplitAtShift(s, d, start, i + 1);
      }
    } else {
      assert s[start..i] == s[d..][start - d..i - d];
    }
  }

  /** The pieces from `start` on join back to the rest of s. */
  lemma {:induction false} JoinSplitAt(s: string, start: nat, i: nat)
    requires start <= i <= |s|
    ensures Join(SplitAt(s, start, i)) == s[start..]
    decreases |s| - i
  {
    if i < |s| {
      if s[i] == '/' {
        JoinSplitAt(s, i + 1, i + 1);
        assert s[start..] == s[start..i] + "/" + s[i + 1..];
      } else {
        JoinSplitAt(s, start, i + 1);
      }
    }
  }

  /** Joining the pieces gives back the string that was split. */
  lemma JoinSplit(s: string)
    ensures Join(Split(s)) == s
  {
    JoinSplitAt(s, 0, 0);
  }

  /** Splitting pieces that hold no slash, joined with slashes, gives the pieces back. */
  lemma {:induction false} SplitJoin(parts: seq<string>)
    requires parts != [] && forall i :: 0 <= i < |parts| ==> NoSlash(parts[i])
    ensures Split(Join(parts)) == parts
    decreases |parts|
  {
    var s := Join(parts);
    if |parts| > 1 {
      var j := |parts[0]|;
      assert s == parts[0] + "/" + Join(parts[1..]);
      assert s[..j] == parts[0] && s[0..j] == parts[0] && s[j] == '/';
      SplitAtSlash(s, 0, 0, j);
      assert s[j + 1..] == Join(parts[1..]);
      SplitAtShift(s, j + 1, j + 1, j + 1);
      SplitJoin(parts[1..]);
    } else {
      SplitAtNoSlash(s, 0, 0);
    }
  }

  /**
   * Asset: the generator's result for a name the table knows, once its
   * backslashes are slashes; otherwise an error naming the name as given.
   * Running a generator (gzip decompression of the embedded bytes) is the
   * parameter `load`.
   */
  function Asset(name: string, load: Generator -> Result<seq<bv8>>): Result<seq<bv8>> {
    var c := Canonical(name);
    if c in Bindata then load(Bindata[c]) else Failure("Asset " + name + " not found")
  }

  /** The lookup ignores which separator a name uses: a name and its canonical form find the same asset. */
  lemma AssetIgnoresSeparators(name: string, load: Generator -> Result<seq<bv8>>)
    ensures Asset(name, load).Success? ==> Asset(Canonical(name), load) == Asset(name, load)
    ensures Canonical(name) in Bindata ==> Asset(Canonical(name), load) == Asset(name, load)
    ensures Asset(name, load).Failure? <==> Asset(Canonical(name), load).Failure?
  {
    CanonicalIdempotent(name);
  }

  /** The migration is found under every name that canonicalises to its own, and no other name is found. */
  lemma KnownAssets(name: string, load: Generator -> Result<seq<bv8>>)
    ensures Canonical(name) == MigrationName ==> Asset(name, load) == load(Migration1681420952)
    ensures Canonical(name) != MigrationName ==> Asset(name, load) == Failure("Asset " + name + " not found")
  {
  }

  predicate Distinct(names: seq<string>) {
    forall i, j :: 0 <= i < j < |names| ==> names[i] != names[j]
  }

  /** The keys of a map, each once, in whatever order the range loop visits them. */
  method Keys<V>(m: map<string, V>) returns (names: seq<string>)
    ensures |names| == |m.Keys| && Distinct(names)
    ensures forall k :: k in names <==> k in m
  {
    names := [];
    var rest := m.Keys;
    while rest != {}
      invariant rest <= m.Keys
      invariant forall k :: k in names <==> k in m.Keys && k !in rest
      invariant Distinct(names)
      invariant |names| + |rest| == |m.Keys|
      decreases |rest|
    {
      var k :| k in rest;
      names := names + [k];
      rest := rest - {k};
    }
  }

  /** AssetNames: every name of the table, each once. */
  method AssetNames() returns (names: seq<string>)
    ensures |names| == |Bindata| && Distinct(names)
    ensures forall k :: k in names <==> k in Bindata
  {
    names := Keys(Bindata);
  }

  /** There is one asset, so AssetNames can only answer its name. */
  lemma OneAssetName(names: seq<string>)
    requires |names| == |Bindata| && forall k :: k in names <==> k in Bindata
    ensures names == [MigrationName]
  {
    assert |Bindata| == 1;
    assert names[0] in Bindata;
  }

  /** The node reached from `node` by following the names in `path`, if every step exists. */
  function Find(node: Node, path: seq<string>): Option<Node>
    decreases |path|
  {
    if path == [] then Some(node)
    else if path[0] in node.children then Find(node.children[path[0]], path[1..])
    else None
  }

  /** The node AssetDir starts listing from: the root for "", else the walk along the canonical name's pieces. */
  function DirNode(name: string): Option<Node> {
    if |name| == 0 then Some(Bintree) else Find(Bintree, Split(Canonical(name)))
  }

  /** What AssetDir lists: the child names of a directory node; an error for a missing node or a file. */
  function Listing(name: string): (r: Result<set<string>>) {
    var n := DirNode(name);
    if n.None? || n.value.func.Some? then Failure("Asset " + name + " not found")
    else Success(n.value.children.Keys)
  }

  /**
   * AssetDir: walks the tree segment by segment, failing as soon as one is
   * missing, then lists the children of the directory it reached.
   */
  method AssetDir(name: string) returns (r: Result<seq<string>>)
    ensures r.Failure? <==> Listing(name).Failure?
    ensures r.Failure? ==> r.error == Listing(name).error
    ensures r.Success? ==> Distinct(r.value) && |r.value| == |Listing(name).value|
                           && forall k :: k in r.value <==> k in Listing(name).value
  {
    var node := Bintree;
    if |name| != 0 {
      var pathList := Split(Canonical(name));
      var i := 0;
      while i < |pathList|
        invariant 0 <= i <= |pathList|
        invariant Find(Bintree, pathList) == Find(node, pathList[i..])
      {
        if pathList[i] !in node.children {
          return Failure("Asset " + name + " not found");
        }
        node := node.children[pathList[i]];
        i := i + 1;
      }
    }
    if node.func.Some? {
      return Failure("Asset " + name + " not found");
    }
    var names := Keys(node.children);
    return Success(names);
  }

  /** AssetDir("") lists the root's one child, "..". */
  lemma RootListing()
    ensures Listing("") == Success({".."})
  {
    assert Bintree.children.Keys == {".."};
  }

  /** A list of distinct names whose elements are exactly one name is that name alone. */
  lemma {:induction false} SingleName(names: seq<string>, k: string)
    requires Distinct(names) && |names| == 1 && forall x :: x in names <==> x == k
    ensures names == [k]
  {
    assert names[0] in names;
  }

  /** Where the walk can go: only along a prefix of the migration's path, which ends at its file. */
  lemma FindInBintree(path: seq<string>)
    ensures Find(Bintree, path).Some? <==>
              path == [] || path == [".."] || path == ["..", "migrations"] || path == ["..", "migrations", "1681420952.sql"]
    ensures Find(Bintree, path).Some? && Find(Bintree, path).value.func.Some? <==> path == MigrationPath
    ensures Find(Bintree, path).Some? && Find(Bintree, path).value.func.Some? ==>
              Find(Bintree, path).value.func == Some(Migration1681420952)
  {
    var root := Bintree;
    var up := root.children[".."];
    var dir := up.children["migrations"];
    var file := dir.children["1681420952.sql"];
    if path != [] {
      var p1 := path[1..];
      if path[0] != ".." {
        assert path[0] !in root.children;
      } else {
        assert Find(root, path) == Find(up, p1);
        if p1 != [] {
          var p2 := p1[1..];
          if p1[0] != "migrations" {
            assert p1[0] !in up.children;
          } else {
            assert Find(up, p1) == Find(dir, p2);
            if p2 != [] {
              var p3 := p2[1..];
              if p2[0] != "1681420952.sql" {
                assert p2[0] !in dir.children;
              } else {
                assert Find(dir, p2) == Find(file, p3);
                if p3 != [] {
                  assert p3[0] !in file.children;
                } else {
                  assert path == ["..", "migrations", "1681420952.sql"];
                }
              }
            } else {
              assert path == ["..", "migrations"];
            }
          }
        } else {
          assert path == [".."];
        }
      }
    }
  }

  /** A name without backslashes is already canonical. */
  lemma {:induction false} CanonicalKeeps(name: string)
    requires '\\' !in name
    ensures Canonical(name) == name
  {
    if name != [] {
      assert '\\' !in name[1..];
      CanonicalKeeps(name[1..]);
    }
  }

  /**
   * The table and the tree describe the same assets: a name is in the
   * table, once canonical, exactly when AssetDir's walk along it ends at a
   * file, which holds the table's generator; AssetDir then answers an error.
   */
  lemma BindataMatchesBintree(name: string)
    ensures Canonical(name) in Bindata <==> DirNode(name).Some? && DirNode(name).value.func.Some?
    ensures Canonical(name) in Bindata ==>
              DirNode(name).value.func == Some(Bindata[Canonical(name)]) && Listing(name).Failure?
  {
    var c := Canonical(name);
    MigrationPathSplits();
    if |name| != 0 {
      FindInBintree(Split(c));
      JoinSplit(c);
    }
  }

  /** The pieces of the migration's name. */
  const MigrationPath: seq<string> := ["..", "migrations", "1681420952.sql"]

  /** The migration's name is its pieces joined with slashes. */
  lemma JoinMigrationPath()
    ensures Join(MigrationPath) == MigrationName
  {
    assert MigrationPath[1..] == ["migrations", "1681420952.sql"];
    assert MigrationPath[1..][1..] == ["1681420952.sql"];
  }

  lemma MigrationPiecesHaveNoSlash()
    ensures forall i :: 0 <= i < |MigrationPath| ==> NoSlash(MigrationPath[i])
  {
    assert NoSlash("..") && NoSlash("migrations") && NoSlash("1681420952.sql");
  }

  /** The migration's name and its pieces: joining and splitting convert one into the other. */
  lemma MigrationPathSplits()
    ensures Join(MigrationPath) == MigrationName && Split(MigrationName) == MigrationPath
  {
    JoinMigrationPath();
    MigrationPiecesHaveNoSlash();
    SplitJoin(MigrationPath);
  }
}
