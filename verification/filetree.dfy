/** The workspace as an abstract file tree: a finite map from path to file
    text plus the set of directories created so far. The primitives are the
    ones the build script imports from its helper modules (`mkdir`,
    `rmdirSyncRecursive`, `copyDirSyncRecursive`, `readText`, `writeText`),
    described by their effect on the tree rather than by their code. */
module FileTree {
  import opened Wrappers
  import opened Strings

  type Path = string

  datatype Fs = Fs(files: map<Path, string>, dirs: set<Path>)

  /** `path.join(a, b)` for the relative, already-normalised names the script
      uses. */
  function Join(a: Path, b: Path): Path {
    a + "/" + b
  }

  /** `p` lies strictly below directory `dir`. */
  predicate Under(p: Path, dir: Path) {
    dir + "/" <= p
  }

  predicate AtOrUnder(p: Path, dir: Path) {
    p == dir || Under(p, dir)
  }

  /** The name of `p` relative to `dir`. */
  function Rel(p: Path, dir: Path): Path
    requires Under(p, dir)
  {
    p[|dir| + 1..]
  }

  lemma JoinRel(p: Path, dir: Path)
    requires Under(p, dir)
    ensures Join(dir, Rel(p, dir)) == p
  {
    assert p == p[..|dir| + 1] + p[|dir| + 1..];
  }

  lemma RelJoin(dir: Path, rel: Path)
    ensures Under(Join(dir, rel), dir) && Rel(Join(dir, rel), dir) == rel
  {
    assert Join(dir, rel) == (dir + "/") + rel;
  }

  /** Two prefixes of one string are prefixes of each other. */
  lemma PrefixesOfOne(a: string, b: string, p: string)
    requires a <= p && b <= p && |a| <= |b|
    ensures a <= b
  {
    assert forall i :: 0 <= i < |a| ==> a[i] == p[i] == b[i];
  }

  lemma PrefixTrans(a: string, b: string, c: string)
    requires a <= b && b <= c
    ensures a <= c
  {
    assert forall i :: 0 <= i < |a| ==> a[i] == b[i] == c[i];
  }

  /** Below a directory below `outer` is below `outer`. */
  lemma UnderTrans(p: Path, inner: Path, outer: Path)
    requires AtOrUnder(p, inner) && AtOrUnder(inner, outer)
    ensures AtOrUnder(p, outer)
  {
    if p != inner && inner != outer {
      assert outer + "/" <= inner;
      assert inner + "/" <= p;
      assert inner <= inner + "/";
      PrefixTrans(inner, inner + "/", p);
      PrefixTrans(outer + "/", inner, p);
    }
  }

  lemma JoinIndex(parent: Path, x: Path, k: int)
    requires 0 <= k < |x|
    ensures Join(parent, x)[|parent| + 1 + k] == x[k]
  {
  }

  /** Directories with different names in one parent share no path: a path
      at or below both names the same directory twice. */
  lemma SameSibling(parent: Path, x: Path, y: Path, p: Path)
    requires '/' !in x && '/' !in y
    requires AtOrUnder(p, Join(parent, x)) && AtOrUnder(p, Join(parent, y))
    ensures x == y
  {
    var ax := parent + "/" + x;
    var ay := parent + "/" + y;
    assert ax <= p && ay <= p;
    if |x| < |y| {
      PrefixesOfOne(ax, ay, p);
      JoinIndex(parent, y, |x|);
      assert false;
    } else if |y| < |x| {
      PrefixesOfOne(ay, ax, p);
      JoinIndex(parent, x, |y|);
      assert false;
    } else {
      PrefixesOfOne(ax, ay, p);
      assert x == ax[|parent| + 1..] == ay[|parent| + 1..] == y;
    }
  }

  /** A directory's child lies below it. */
  lemma ChildUnder(dir: Path, x: Path)
    ensures AtOrUnder(Join(dir, x), dir)
  {
    RelJoin(dir, x);
  }

  lemma CommonPrefix(h: string, a: string, b: string)
    ensures h + a <= h + b <==> a <= b
  {
    if h + a <= h + b {
      assert forall i :: 0 <= i < |a| ==> a[i] == (h + a)[|h| + i] == (h + b)[|h| + i] == b[i];
    }
    if a <= b {
      assert forall i :: 0 <= i < |h + a| ==> (h + a)[i] == (h + b)[i];
    }
  }

  /** Below a common parent, one child lies at or below another exactly when
      their relative names do. */
  lemma JoinAtOrUnder(dir: Path, x: Path, m: Path)
    ensures AtOrUnder(Join(dir, x), Join(dir, m)) <==> AtOrUnder(x, m)
  {
    var h := dir + "/";
    assert Join(dir, x) == h + x;
    assert Join(dir, m) + "/" == h + (m + "/");
    CommonPrefix(h, m + "/", x);
    RelJoin(dir, x);
    RelJoin(dir, m);
  }

  /** Nothing lies at or below two differently named children of one
      directory. */
  lemma SiblingsApart(parent: Path, x: Path, y: Path, p: Path)
    requires '/' !in x && '/' !in y && x != y
    requires AtOrUnder(p, Join(parent, x))
    ensures !AtOrUnder(p, Join(parent, y))
  {
    if AtOrUnder(p, Join(parent, y)) {
      SameSibling(parent, x, y, p);
    }
  }

  /** A file-name ending without `/` is seen the same on the full path and
      on the name relative to a directory. */
  lemma JoinEndsWith(dir: Path, rel: Path, suf: string)
    requires '/' !in suf
    ensures EndsWith(Join(dir, rel), suf) <==> EndsWith(rel, suf)
  {
    var s := Join(dir, rel);
    assert s == (dir + "/") + rel;
    if |suf| <= |rel| {
      assert s[|s| - |suf|..] == rel[|rel| - |suf|..];
    } else if |suf| <= |s| {
      var k := |suf| - |rel| - 1;
      assert s[|s| - |suf|..][k] == '/';
      assert suf[k] in suf;
    }
  }

  /** `readText`: a missing file throws, which ends the run. */
  function Read(fs: Fs, p: Path): (r: Result<string>)
    ensures r.Ok? <==> p in fs.files
    ensures r.Ok? ==> r.value == fs.files[p]
    ensures r.Abort? ==> r.failure == MissingFile(p)
  {
    if p in fs.files then Ok(fs.files[p]) else Abort(MissingFile(p))
  }

  /** `writeText`: creates or overwrites one file. */
  function Write(fs: Fs, p: Path, text: string): (r: Fs)
    ensures p in r.files && r.files[p] == text && r.dirs == fs.dirs
    ensures forall q :: q in r.files <==> q in fs.files || q == p
    ensures Confined(fs, r, p)
  {
    fs.(files := fs.files[p := text])
  }

  /** `mkdir`: records a directory. */
  function Mkdir(fs: Fs, d: Path): (r: Fs)
    ensures r.files == fs.files && d in r.dirs
    ensures forall e :: e in r.dirs <==> e in fs.dirs || e == d
    ensures Confined(fs, r, d)
  {
    fs.(dirs := fs.dirs + {d})
  }

  /** `rmdirSyncRecursive`: removes a directory and everything below it;
      removing an absent directory changes nothing. */
  function Rmdir(fs: Fs, d: Path): (r: Fs)
    ensures forall p :: p in r.files <==> p in fs.files && !AtOrUnder(p, d)
    ensures forall p :: p in r.files ==> r.files[p] == fs.files[p]
    ensures forall e :: e in r.dirs <==> e in fs.dirs && !AtOrUnder(e, d)
  {
    Fs(map p | p in fs.files && !AtOrUnder(p, d) :: fs.files[p],
       set e | e in fs.dirs && !AtOrUnder(e, d))
  }

  /** The files below `dir`, keyed by their name relative to `dir`. */
  function Subtree(files: map<Path, string>, dir: Path): (r: map<Path, string>)
    ensures forall rel :: rel in r <==> Join(dir, rel) in files
    ensures forall rel :: rel in r ==> r[rel] == files[Join(dir, rel)]
  {
    forall p, q | p in files && Under(p, dir) && q in files && Under(q, dir) && Rel(p, dir) == Rel(q, dir)
      ensures p == q
    {
      JoinRel(p, dir);
      JoinRel(q, dir);
    }
    forall rel | Join(dir, rel) in files
      ensures Under(Join(dir, rel), dir) && Rel(Join(dir, rel), dir) == rel
    {
      RelJoin(dir, rel);
    }
    forall p | Under(p, dir)
      ensures Join(dir, Rel(p, dir)) == p
    {
      JoinRel(p, dir);
    }
    map p | p in files && Under(p, dir) :: Rel(p, dir) := files[p]
  }

  /** Places a tree of relative names below `dir`, overwriting what is
      there. */
  function Mount(files: map<Path, string>, dir: Path, tree: map<Path, string>): (r: map<Path, string>)
    ensures forall rel :: rel in tree ==> Join(dir, rel) in r && r[Join(dir, rel)] == tree[rel]
    ensures forall p :: !Under(p, dir) ==> (p in r <==> p in files)
    ensures forall p :: !Under(p, dir) && p in r ==> r[p] == files[p]
    ensures forall p :: p in r && Under(p, dir) ==>
              if Rel(p, dir) in tree then r[p] == tree[Rel(p, dir)] else p in files && r[p] == files[p]
  {
    forall a, b | Join(dir, a) == Join(dir, b)
      ensures a == b
    {
      RelJoin(dir, a);
      RelJoin(dir, b);
    }
    forall p | Under(p, dir)
      ensures Join(dir, Rel(p, dir)) == p
    {
      JoinRel(p, dir);
    }
    forall rel ensures Under(Join(dir, rel), dir) {
      RelJoin(dir, rel);
    }
    files + map rel | rel in tree :: Join(dir, rel) := tree[rel]
  }

  /** Writes a tree of relative names below `dest`. */
  function Place(fs: Fs, dest: Path, tree: map<Path, string>): (r: Fs)
    ensures forall rel :: rel in tree ==> Join(dest, rel) in r.files && r.files[Join(dest, rel)] == tree[rel]
    ensures r.dirs == fs.dirs
    ensures Confined(fs, r, dest)
  {
    var files := Mount(fs.files, dest, tree);
    forall p | !AtOrUnder(p, dest)
      ensures Unchanged(fs, fs.(files := files), p)
    {
      assert !Under(p, dest);
    }
    fs.(files := files)
  }

  /** `copyDirSyncRecursive(src, dest, _, filter)`: every file below `src`
      whose relative name passes `keep` is copied to the same relative name
      below `dest`. */
  function Filter(tree: map<Path, string>, keep: Path -> bool): (r: map<Path, string>)
    ensures forall rel :: rel in r <==> rel in tree && keep(rel)
    ensures forall rel :: rel in r ==> r[rel] == tree[rel]
  {
    map rel | rel in tree && keep(rel) :: tree[rel]
  }

  function CopyDir(fs: Fs, src: Path, dest: Path, keep: Path -> bool): (r: Fs)
    ensures forall rel :: Join(src, rel) in fs.files && keep(rel) ==>
              Join(dest, rel) in r.files && r.files[Join(dest, rel)] == fs.files[Join(src, rel)]
    ensures forall p :: p in r.files && Under(p, dest) ==>
              || (Join(src, Rel(p, dest)) in fs.files && keep(Rel(p, dest))
                  && r.files[p] == fs.files[Join(src, Rel(p, dest))])
              || (p in fs.files && r.files[p] == fs.files[p])
    ensures r.dirs == fs.dirs && fs.files.Keys <= r.files.Keys
    ensures Confined(fs, r, dest)
  {
    var tree := Filter(Subtree(fs.files, src), keep);
    var files := Mount(fs.files, dest, tree);
    forall rel | Join(src, rel) in fs.files && keep(rel)
      ensures Join(dest, rel) in files && files[Join(dest, rel)] == fs.files[Join(src, rel)]
    {
      assert rel in tree;
    }
    forall p | p in files && Under(p, dest)
      ensures || (Join(src, Rel(p, dest)) in fs.files && keep(Rel(p, dest))
                  && files[p] == fs.files[Join(src, Rel(p, dest))])
              || (p in fs.files && files[p] == fs.files[p])
    {
      if Rel(p, dest) in tree {
        assert Rel(p, dest) in Subtree(fs.files, src);
      }
    }
    forall p | !AtOrUnder(p, dest)
      ensures Unchanged(fs, fs.(files := files), p)
    {
      assert !Under(p, dest);
    }
    fs.(files := files)
  }

  /** `copyDirSyncRecursive(src, dest)` without a filter. */
  function CopyAll(fs: Fs, src: Path, dest: Path): (r: Fs)
    ensures forall rel :: Join(src, rel) in fs.files ==>
              Join(dest, rel) in r.files && r.files[Join(dest, rel)] == fs.files[Join(src, rel)]
    ensures r.dirs == fs.dirs && fs.files.Keys <= r.files.Keys
    ensures Confined(fs, r, dest)
  {
    CopyDir(fs, src, dest, _ => true)
  }

  // ---------------------------------------------------------------------------
  // Frame conditions

  ghost predicate Unchanged(before: Fs, after: Fs, p: Path) {
    && (p in before.files <==> p in after.files)
    && (p in before.files ==> after.files[p] == before.files[p])
    && (p in before.dirs <==> p in after.dirs)
  }

  /** Everything outside `dir` is as it was. */
  ghost predicate Confined(before: Fs, after: Fs, dir: Path) {
    forall p :: !AtOrUnder(p, dir) ==> Unchanged(before, after, p)
  }

  /** Nothing exists at or below `dir`. */
  ghost predicate Vacant(fs: Fs, dir: Path) {
    forall p :: AtOrUnder(p, dir) ==> p !in fs.files && p !in fs.dirs
  }

  lemma ConfinedTrans(a: Fs, b: Fs, c: Fs, dir: Path)
    requires Confined(a, b, dir) && Confined(b, c, dir)
    ensures Confined(a, c, dir)
  {
  }

  lemma ConfinedWiden(a: Fs, b: Fs, inner: Path, outer: Path)
    requires Confined(a, b, inner) && AtOrUnder(inner, outer)
    ensures Confined(a, b, outer)
  {
    forall p | !AtOrUnder(p, outer)
      ensures Unchanged(a, b, p)
    {
      if AtOrUnder(p, inner) {
        UnderTrans(p, inner, outer);
      }
    }
  }
}
