/** Exactly which strings a rewrite leaves under a previous root, and which a second rewrite changes. */
module RewriteLimits {
  import opened Text
  import opened WorkspacePaths
  import opened WorkspaceRewrite

  /** A `..` between two slashes: a climb that no resolved path has. */
  const CLIMB := "/../"

  // ---- splitting

  /** Where a part other than the first and the last is `..`, the text has a climb. */
  lemma {:induction false} InnerPart(s: string, i: nat)
    requires 0 < i < |Split(s, '/')| - 1 && Split(s, '/')[i] == ".."
    ensures Contains(s, CLIMB)
  {
    var rest := Split(s[1..], '/');
    if s[0] == '/' {
      if i == 1 {
        FirstPart(s[1..]);
        assert s[0..] == "/" + s[1..] && StartsWith(s[0..], CLIMB);
      } else {
        InnerPart(s[1..], i - 1);
        ContainsLater(s, CLIMB);
      }
    } else {
      assert Split(s, '/')[i] == rest[i];
      InnerPart(s[1..], i);
      ContainsLater(s, CLIMB);
    }
  }

  lemma ContainsLater(s: string, part: string)
    requires s != "" && Contains(s[1..], part)
    ensures Contains(s, part)
  {
    var i :| 0 <= i <= |s[1..]| && StartsWith(s[1..][i..], part);
    assert s[i + 1..] == s[1..][i..];
  }

  /** A first part is followed by a slash unless it is the only one. */
  lemma {:induction false} FirstPart(s: string)
    ensures StartsWith(s, Split(s, '/')[0])
    ensures |Split(s, '/')| > 1 ==> StartsWith(s, Split(s, '/')[0] + "/")
  {
    if s != "" && s[0] != '/' {
      var first := Split(s[1..], '/')[0];
      FirstPart(s[1..]);
      assert Split(s, '/')[0] == [s[0]] + first;
      assert [s[0]] + s[1..] == s;
      if |Split(s, '/')| > 1 { assert [s[0]] + (first + "/") == ([s[0]] + first) + "/"; }
    }
  }

  /** A rendered path has no climb. */
  lemma RenderNoClimb(p: Path)
    ensures !Contains(Render(p), CLIMB)
  {
    var s := Render(p);
    if Contains(s, CLIMB) {
      var i :| 0 <= i <= |s| && StartsWith(s[i..], CLIMB);
      var a, b := s[..i], s[i + 4..];
      assert s == a + ['/'] + (".." + ['/'] + b);
      SplitAt(a, ".." + ['/'] + b, '/');
      SplitHead("..", b, '/');
      assert ".." in Split(s, '/');
      RenderParts(p);
    }
  }

  lemma RenderParts(p: Path)
    ensures ".." !in Split(Render(p), '/')
  {
    SplitHead("", Join(p, '/'), '/');
    assert "" + ['/'] + Join(p, '/') == Render(p);
    if p != [] { SplitJoin(p, '/'); }
  }

  // ---- words

  /** A word of a text occurs in it. */
  lemma {:induction false} WordOccurs(s: string, current: string, w: string)
    requires w in Words(s, current)
    ensures Contains(current + s, w)
  {
    if s == "" {
      assert (current + s)[0..] == w;
    } else if IsSpace(s[0]) {
      if w in Words(s[1..]) {
        WordOccurs(s[1..], "", w);
        assert "" + s[1..] == s[1..];
        ContainsAfter(current + [s[0]], s[1..], w);
        assert current + [s[0]] + s[1..] == current + s;
      } else {
        assert w == current && (current + s)[0..][..|w|] == w;
      }
    } else {
      WordOccurs(s[1..], current + [s[0]], w);
      assert current + [s[0]] + s[1..] == current + s;
    }
  }

  lemma ContainsAfter(a: string, b: string, part: string)
    requires Contains(b, part)
    ensures Contains(a + b, part)
  {
    var i :| 0 <= i <= |b| && StartsWith(b[i..], part);
    assert (a + b)[|a| + i..] == b[i..];
  }

  lemma ContainsTrans(s: string, w: string, part: string)
    requires Contains(s, w) && Contains(w, part)
    ensures Contains(s, part)
  {
    var i :| 0 <= i <= |s| && StartsWith(s[i..], w);
    var j :| 0 <= j <= |w| && StartsWith(w[j..], part);
    assert s[i..][..|w|] == w;
    assert s[i + j..][..|part|] == w[j..][..|part|];
  }

  /** A climb in joined words lies in one of them, for it has no space. */
  lemma {:induction false} ClimbInWord(words: seq<string>) returns (w: string)
    requires Contains(Join(words, ' '), CLIMB)
    ensures w in words && Contains(w, CLIMB)
  {
    var s := Join(words, ' ');
    var i :| 0 <= i <= |s| && StartsWith(s[i..], CLIMB);
    assert words != [];
    if |words| == 1 {
      w := words[0];
    } else {
      var head, tail := words[0], Join(words[1..], ' ');
      assert s == head + [' '] + tail;
      assert s[i..][..4] == CLIMB && s[i] == '/' && s[i + 1] == '.' && s[i + 2] == '.' && s[i + 3] == '/';
      assert s[|head|] == ' ';
      if i + 4 <= |head| {
        assert head[i..][..4] == s[i..][..4];
        w := head;
      } else {
        var j := i - |head| - 1;
        assert tail[j..] == s[i..];
        w := ClimbInWord(words[1..]);
      }
    }
  }

  // ---- commands

  /** Parts that climb only at the end climb at most one level. */
  lemma {:induction false} ClimbsOnce(parts: seq<string>, m: Move)
    requires Slashless(parts)
    requires forall i :: 0 <= i < |parts| - 1 ==> parts[i] != ".."
    ensures Moves(parts, m).ups <= m.ups + if parts != [] && parts[|parts| - 1] == ".." then 1 else 0
    decreases |parts|
  {
    if parts != [] {
      var p := parts[0];
      var next :=
        if p == "" || p == "." then m
        else if p == ".." then (if m.downs == [] then m.(ups := m.ups + 1) else m.(downs := m.downs[..|m.downs| - 1]))
        else m.(downs := m.downs + [p]);
      ClimbsOnce(parts[1..], next);
    }
  }

  lemma NameFirst(name: string, tail: string)
    requires CleanSegment(name) && (tail == "" || tail[0] == ' ')
    ensures Split(name + tail, '/')[0] != ".."
  {
    var s := name + tail;
    FirstPart(s);
    PartEnds(s);
    assert s[..|name|] == name && name[0] in name;
    if |name| >= 3 { assert s[2] == name[2] && name[2] in name; }
  }

  lemma {:induction false} PartEnds(s: string)
    ensures var k := |Split(s, '/')[0]|; k == |s| || (k < |s| && s[k] == '/')
  {
    if s != "" && s[0] != '/' { PartEnds(s[1..]); }
  }

  /** A resolved path, taken as a bundled command, climbs at most one level. */
  lemma PathClimbsOnce(p: Path, ctx: Context)
    requires ctx.RunsBundledScript(Render(p))
    ensures CommandMove(Render(p), ctx).ups <= 1
  {
    var s := Render(p);
    var name, args := Basename(Words(s)[0]), Words(s)[1..];
    var text := CommandText(s, ctx);
    var parts := Components(text);
    if CommandMove(s, ctx).ups > 1 {
      if forall i :: 0 <= i < |parts| - 1 ==> parts[i] != ".." {
        ClimbsOnce(parts, Move(0, []));
      } else {
        var i :| 0 <= i < |parts| - 1 && parts[i] == "..";
        JoinHead(name, args);
        NameFirst(name, if args == [] then "" else [' '] + Join(args, ' '));
        InnerPart(text, i);
        NoClimbInCommand(s, name, args);
        RenderNoClimb(p);
      }
    }
  }

  lemma NoSlashNoClimb(w: string)
    requires '/' !in w
    ensures !Contains(w, CLIMB)
  {
    forall i | 0 <= i <= |w| ensures !StartsWith(w[i..], CLIMB) {
      if i + 4 <= |w| { assert w[i..][..4][0] == w[i] && w[i] in w; }
    }
  }

  lemma NoClimbInCommand(s: string, name: string, args: seq<string>)
    requires Words(s) != [] && args == Words(s)[1..] && CleanSegment(name)
    requires Contains(Join([name] + args, ' '), CLIMB)
    ensures Contains(s, CLIMB)
  {
    var w := ClimbInWord([name] + args);
    NoSlashNoClimb(name);
    assert w in Words(s);
    WordOccurs(s, "", w);
    assert "" + s == s;
    ContainsTrans(s, w, CLIMB);
  }

  // ---- what a matched string becomes

  lemma StageRenders(value: string, roots: seq<Path>, to: Path)
    requires IsAbsolute(value) && AnyHit(roots, Resolve(value))
    ensures exists p: Path :: ReplaceAnyPrefix(value, roots, Some(to)) == Render(p)
  {
    ReplaceFirstPrefixMoves(value, roots, to);
    var i: nat :| FirstHit(roots, Resolve(value), i);
    assert MovesTo(value, roots, to, i);
  }

  lemma RelocateRenders(value: string, ctx: Context)
    requires WellPlaced(ctx) && IsAbsolute(value) && AnyHit(ctx.PreviousRoots(), Resolve(value))
    ensures exists p: Path :: Relocate(value, ctx) == Render(p)
  {
    var src := ctx.sourceRoot.value;
    var first := ReplaceAnyPrefix(value, ctx.previousSourceRoots, ctx.sourceRoot);
    HitEither(Resolve(value), ctx);
    ReplaceStage(value, ctx.previousSourceRoots, src);
    if AnyHit(ctx.previousSourceRoots, Resolve(value)) {
      StageRenders(value, ctx.previousSourceRoots, src);
      UnderNewRoot(src, first, ctx);
      HitEither(Resolve(first), ctx);
      ReplaceStage(first, ctx.previousCompanyRoots, ctx.companyRoot.value);
    } else {
      StageRenders(value, ctx.previousCompanyRoots, ctx.companyRoot.value);
    }
  }

  /** A previous root matches the string. */
  predicate Matched(value: string, ctx: Context) {
    IsAbsolute(value) && AnyHit(ctx.PreviousRoots(), Resolve(value))
  }

  /** Once matched, a string ends under no previous root, whatever its segments look like as a command. */
  lemma MatchedLeaves(value: string, ctx: Context)
    requires WellPlaced(ctx) && Matched(value, ctx)
    ensures !Stale(RewriteString(value, ctx), ctx)
  {
    var moved := Relocate(value, ctx);
    RelocateSpec(value, ctx);
    if ctx.RunsBundledScript(moved) {
      RelocateRenders(value, ctx);
      var p: Path :| moved == Render(p);
      PathClimbsOnce(p, ctx);
      StaleRunner(value, ctx);
    }
  }

  /** A matched string is changed by the whole rewrite. */
  lemma HitChanges(value: string, ctx: Context)
    requires WellPlaced(ctx) && Matched(value, ctx)
    ensures RewriteString(value, ctx) != value
  {
    MatchedLeaves(value, ctx);
    assert Stale(value, ctx);
  }

  // ---- strings left under a previous root

  /** No previous root matches the string, and it is a bundled command whose arguments climb back into one, or a path
      that enters one through a component beginning with two dots. */
  predicate KeepsOldRoot(value: string, ctx: Context)
    requires ctx.sourceRoot.Some?
  {
    && !Matched(value, ctx)
    && (if ctx.RunsBundledScript(value) then ArgumentsClimbBack(value, ctx) else DotDotChild(value, ctx))
  }

  /** Exactly which strings the rewrite leaves under a previous root. */
  lemma StaleExactly(value: string, ctx: Context)
    requires WellPlaced(ctx)
    ensures Stale(RewriteString(value, ctx), ctx) <==> KeepsOldRoot(value, ctx)
  {
    if Matched(value, ctx) {
      MatchedLeaves(value, ctx);
    } else {
      RelocateSpec(value, ctx);
      if ctx.RunsBundledScript(value) { StaleRunner(value, ctx); } else { StalePath(value, ctx); }
    }
  }

  // ---- a second pass over one string

  /** No previous root matches the string, and it is a bundled command whose arguments climb back to a place that one
      matches. */
  predicate MovesAgain(value: string, ctx: Context)
    requires ctx.sourceRoot.Some?
  {
    && !Matched(value, ctx) && ctx.RunsBundledScript(value)
    && AnyHit(ctx.PreviousRoots(), Land(ctx.sourceRoot.value + ["scripts"], CommandMove(value, ctx)))
  }

  /** A string that is not such a command is not matched once it is rewritten. */
  lemma RewrittenUnmatched(value: string, ctx: Context)
    requires WellPlaced(ctx) && !MovesAgain(value, ctx)
    ensures !Matched(RewriteString(value, ctx), ctx)
  {
    var moved, out := Relocate(value, ctx), RewriteString(value, ctx);
    RelocateSpec(value, ctx);
    if Matched(value, ctx) {
      MatchedLeaves(value, ctx);
    } else if ctx.RunsBundledScript(moved) {
      RunnerLands(moved, ctx);
    }
  }

  /** A rewritten string is a fixed point exactly when it is not such a command. */
  lemma {:induction false} RewriteStringStable(value: string, ctx: Context)
    requires WellPlaced(ctx)
    ensures var out := RewriteString(value, ctx); RewriteString(out, ctx) == out <==> !MovesAgain(value, ctx)
  {
    var moved, out := Relocate(value, ctx), RewriteString(value, ctx);
    if MovesAgain(value, ctx) {
      RelocateSpec(value, ctx);
      RunnerLands(moved, ctx);
      HitChanges(out, ctx);
    } else {
      RewrittenUnmatched(value, ctx);
      RelocateSpec(out, ctx);
      if ctx.RunsBundledScript(moved) { RunnerRewriteStable(moved, ctx); }
    }
  }

  /** Only a string that stays under a previous root can move again. */
  lemma {:induction false} MovesAgainKeeps(value: string, ctx: Context)
    requires WellPlaced(ctx) && MovesAgain(value, ctx)
    ensures KeepsOldRoot(value, ctx)
  {
    RelocateSpec(value, ctx);
    RunnerLands(value, ctx);
    assert Stale(RewriteString(value, ctx), ctx);
    StaleRunner(value, ctx);
  }
}
