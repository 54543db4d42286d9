/** Absolute POSIX paths and the prefix replacement of the benchmark fixture script:
    `path.resolve`, `path.relative`, `path.join` and `path.basename` on the strings the script meets. */
module WorkspacePaths {
  import opened Text

  predicate CleanSegment(s: string) {
    s != "" && s != "." && s != ".." && '/' !in s
  }

  /** A resolved absolute path: its segments. */
  type Path = p: seq<string> | forall s :: s in p ==> CleanSegment(s) witness []

  predicate IsAbsolute(s: string) {
    s != "" && s[0] == '/'
  }

  predicate Slashless(parts: seq<string>) {
    forall p :: p in parts ==> '/' !in p
  }

  /** Follows path components one by one: `.` stays, `..` climbs (and stops at the top). */
  function Walk(at: Path, parts: seq<string>): Path
    requires Slashless(parts)
    decreases |parts|
  {
    if parts == [] then at else Walk(WalkOne(at, parts[0]), parts[1..])
  }

  function WalkOne(at: Path, part: string): Path
    requires '/' !in part
  {
    if part == "" || part == "." then at
    else if part == ".." then (if at == [] then [] else at[..|at| - 1])
    else at + [part]
  }

  function Components(s: string): (parts: seq<string>)
    ensures Slashless(parts)
  {
    SplitPartsClean(s, '/');
    Split(s, '/')
  }

  /** `path.resolve` of an absolute path. */
  function Resolve(s: string): Path {
    Walk([], Components(s))
  }

  function Render(p: Path): string {
    ['/'] + Join(p, '/')
  }

  /** `path.join(root, rest)`. */
  function JoinPath(root: Path, rest: string): string {
    Render(Walk(root, Components(rest)))
  }

  function Common(a: Path, b: Path): (k: nat)
    ensures k <= |a| && k <= |b| && a[..k] == b[..k]
    ensures k < |a| && k < |b| ==> a[k] != b[k]
  {
    if a == [] || b == [] || a[0] != b[0] then 0 else 1 + Common(a[1..], b[1..])
  }

  function Ups(n: nat): (ups: seq<string>)
    ensures |ups| == n && forall i :: 0 <= i < n ==> ups[i] == ".."
  {
    seq(n, _ => "..")
  }

  /** `path.relative(from, to)`. */
  function Relative(from: Path, to: Path): string {
    var k := Common(from, to);
    Join(Ups(|from| - k) + to[k..], '/')
  }

  lemma {:induction false} WalkClean(at: Path, parts: Path)
    ensures Walk(at, parts) == at + parts
    decreases |parts|
  {
    if parts != [] {
      WalkClean(at + [parts[0]], parts[1..]);
      assert at + [parts[0]] + parts[1..] == at + parts;
    } else {
      assert at + parts == at;
    }
  }

  lemma {:induction false} ResolveRender(p: Path)
    ensures IsAbsolute(Render(p)) && Resolve(Render(p)) == p
  {
    SplitHead("", Join(p, '/'), '/');
    assert "" + ['/'] + Join(p, '/') == Render(p);
    if p == [] {
      assert Components(Render(p)) == ["", ""];
      assert Walk([], ["", ""]) == Walk([], [""]) == [];
    } else {
      SplitJoin(p, '/');
      WalkClean([], p);
      assert Components(Render(p)) == [""] + p;
      assert ([""] + p)[1..] == p && [] + p == p;
    }
  }

  /** Replacing `root` is what the string test of the script decides on: the path lies under `root`,
      and the component just below it does not begin with two dots. */
  predicate Hit(root: Path, p: Path) {
    root <= p && (root == p || !StartsWith(p[|root|], ".."))
  }

  lemma {:induction false} RelativeTest(from: Path, to: Path)
    ensures Relative(from, to) == "" <==> from == to
    ensures Relative(from, to) == "" || (!StartsWith(Relative(from, to), "..") && !IsAbsolute(Relative(from, to)))
            <==> Hit(from, to)
    ensures from <= to ==> Relative(from, to) == Join(to[|from|..], '/')
  {
    var k := Common(from, to);
    var parts := Ups(|from| - k) + to[k..];
    assert k == |from| <==> from <= to;
    if from <= to { assert parts == to[|from|..]; }
    if parts != [] {
      var first := parts[0];
      assert first == if k < |from| then ".." else to[k];
      assert CleanSegment(first) || first == "..";
      var rel := Join(parts, '/');
      assert rel == first + rel[|first|..];
      assert |parts| > 1 ==> rel[|first|] == '/';
      assert first[0] != '/' by { assert first[0] in first; }
      assert StartsWith(rel, "..") <==> StartsWith(first, "..") by {
        if |first| == 1 && |rel| > 1 {
          assert first == [first[0]];
          assert rel[1] == '/';
        }
        if |first| >= 2 { assert rel[..2] == first[..2]; }
      }
    }
  }

  /** `replaceAnyWorkspacePrefix`: the first root that matches decides. */
  function ReplaceAnyPrefix(value: string, fromRoots: seq<Path>, toRoot: Option<Path>): string {
    if toRoot.None? || !IsAbsolute(value) then value
    else ReplaceFirstPrefix(value, fromRoots, toRoot.value)
  }

  function ReplaceFirstPrefix(value: string, fromRoots: seq<Path>, toRoot: Path): string {
    if fromRoots == [] then value
    else
      var relative := Relative(fromRoots[0], Resolve(value));
      if relative == "" then Render(toRoot)
      else if !StartsWith(relative, "..") && !IsAbsolute(relative) then JoinPath(toRoot, relative)
      else ReplaceFirstPrefix(value, fromRoots[1..], toRoot)
  }

  predicate AnyHit(roots: seq<Path>, p: Path) {
    exists r :: r in roots && Hit(r, p)
  }

  predicate FirstHit(roots: seq<Path>, p: Path, i: nat) {
    i < |roots| && Hit(roots[i], p) && forall j :: 0 <= j < i ==> !Hit(roots[j], p)
  }

  /** The part below root `i` is moved to `to`. */
  predicate MovesTo(value: string, roots: seq<Path>, to: Path, i: nat)
    requires FirstHit(roots, Resolve(value), i)
  {
    ReplaceFirstPrefix(value, roots, to) == Render(to + Resolve(value)[|roots[i]|..])
  }

  /** The replacement moves exactly the part below the first matching root, and leaves every other string alone. */
  lemma {:induction false} ReplaceFirstPrefixMoves(value: string, roots: seq<Path>, to: Path)
    requires IsAbsolute(value)
    ensures !AnyHit(roots, Resolve(value)) ==> ReplaceFirstPrefix(value, roots, to) == value
    ensures forall i: nat :: FirstHit(roots, Resolve(value), i) ==> MovesTo(value, roots, to, i)
    ensures AnyHit(roots, Resolve(value)) ==> exists i: nat :: FirstHit(roots, Resolve(value), i)
  {
    var p := Resolve(value);
    if roots != [] {
      var r := roots[0];
      RelativeTest(r, p);
      if Hit(r, p) {
        var rest: Path := p[|r|..];
        if r == p {
          assert to + rest == to;
        } else {
          SplitJoin(rest, '/');
          WalkClean(to, rest);
        }
        assert FirstHit(roots, p, 0);
      } else {
        ReplaceFirstPrefixMoves(value, roots[1..], to);
        forall i: nat | FirstHit(roots, p, i)
          ensures i > 0 && FirstHit(roots[1..], p, i - 1) && roots[i] == roots[1..][i - 1]
        {
          forall j | 0 <= j < i - 1 ensures !Hit(roots[1..][j], p) { assert roots[1..][j] == roots[j + 1]; }
        }
        if AnyHit(roots[1..], p) {
          var i: nat :| FirstHit(roots[1..], p, i);
          assert FirstHit(roots, p, i + 1) by {
            forall j | 0 <= j < i + 1 ensures !Hit(roots[j], p) { if j > 0 { assert roots[j] == roots[1..][j - 1]; } }
          }
        }
        assert AnyHit(roots, p) ==> AnyHit(roots[1..], p) by {
          if AnyHit(roots, p) {
            var q :| q in roots && Hit(q, p);
            assert q in roots[1..];
          }
        }
        assert AnyHit(roots[1..], p) ==> AnyHit(roots, p);
      }
    }
  }

  /** How a run of components moves: the levels it climbs above its start, then the segments it goes down. */
  datatype Move = Move(ups: nat, downs: Path)

  function Moves(parts: seq<string>, m: Move := Move(0, [])): Move
    requires Slashless(parts)
  {
    if parts == [] then m
    else
      var p := parts[0];
      var next :=
        if p == "" || p == "." then m
        else if p == ".." then (if m.downs == [] then m.(ups := m.ups + 1) else m.(downs := m.downs[..|m.downs| - 1]))
        else m.(downs := m.downs + [p]);
      Moves(parts[1..], next)
  }

  function Land(at: Path, m: Move): Path {
    (if m.ups >= |at| then [] else at[..|at| - m.ups]) + m.downs
  }

  /** Walking components is climbing some levels and then going down. */
  lemma {:induction false} WalkLands(at: Path, parts: seq<string>, m: Move)
    requires Slashless(parts)
    ensures Walk(Land(at, m), parts) == Land(at, Moves(parts, m))
  {
    if parts != [] {
      var p := parts[0];
      var next :=
        if p == "" || p == "." then m
        else if p == ".." then (if m.downs == [] then m.(ups := m.ups + 1) else m.(downs := m.downs[..|m.downs| - 1]))
        else m.(downs := m.downs + [p]);
      assert WalkOne(Land(at, m), p) == Land(at, next);
      WalkLands(at, parts[1..], next);
    }
  }

  function LastNonEmpty(parts: seq<string>): string {
    if parts == [] then ""
    else if parts[|parts| - 1] != "" then parts[|parts| - 1]
    else LastNonEmpty(parts[..|parts| - 1])
  }

  /** `path.basename`. */
  function Basename(s: string): string {
    LastNonEmpty(Split(s, '/'))
  }

  lemma {:induction false} BasenameRender(p: Path, name: string)
    requires CleanSegment(name)
    ensures Basename(Render(p + [name])) == name
  {
    var q: Path := p + [name];
    SplitJoin(q, '/');
    SplitHead("", Join(q, '/'), '/');
    assert "" + ['/'] + Join(q, '/') == Render(q);
    assert Split(Render(q), '/') == [""] + q;
  }
}
