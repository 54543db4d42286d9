/** The JSON path rewrite that moves a benchmark fixture to new workspace roots. */
module WorkspaceRewrite {
  import opened Text
  import opened WorkspacePaths

  /** File names of the bundled runner scripts. */
  type ScriptNames = names: set<string> | forall n :: n in names ==> CleanSegment(n) witness {}

  datatype Context = Context(
    runnerScripts: ScriptNames,
    sourceRoot: Option<Path>,
    companyRoot: Option<Path>,
    previousSourceRoots: seq<Path>,
    previousCompanyRoots: seq<Path>)
  {
    function PreviousRoots(): seq<Path> { previousSourceRoots + previousCompanyRoots }

    /** The command's first word names a bundled runner script, in whatever directory. */
    predicate RunsBundledScript(command: string) {
      Words(command) != [] && Basename(Words(command)[0]) in runnerScripts
    }
  }

  lemma {:induction false} LastNonEmptyAmong(parts: seq<string>)
    ensures LastNonEmpty(parts) == "" || LastNonEmpty(parts) in parts
    decreases |parts|
  {
    if parts != [] && parts[|parts| - 1] == "" {
      LastNonEmptyAmong(parts[..|parts| - 1]);
    }
  }

  /** Where the bundled script of a command lives under a source root. */
  function ScriptPath(command: string, root: Path, ctx: Context): Path
    requires ctx.RunsBundledScript(command)
  {
    root + ["scripts", Basename(Words(command)[0])]
  }

  function RewriteBundledRunner(command: string, ctx: Context): string {
    if ctx.sourceRoot.None? || !ctx.RunsBundledScript(command) then command
    else Join([Render(ScriptPath(command, ctx.sourceRoot.value, ctx))] + Words(command)[1..], ' ')
  }

  function Relocate(value: string, ctx: Context): string {
    ReplaceAnyPrefix(
      ReplaceAnyPrefix(value, ctx.previousSourceRoots, ctx.sourceRoot),
      ctx.previousCompanyRoots, ctx.companyRoot)
  }

  function RewriteString(value: string, ctx: Context): string {
    RewriteBundledRunner(Relocate(value, ctx), ctx)
  }

  predicate Apart(a: Path, b: Path) {
    !(a <= b) && !(b <= a)
  }

  /** Both new roots are given, neither lies above or below a previous root,
      and the source root has no white space. */
  ghost predicate WellPlaced(ctx: Context) {
    && ctx.sourceRoot.Some? && ctx.companyRoot.Some?
    && (forall s :: s in ctx.sourceRoot.value ==> NoSpace(s))
    && forall r :: r in ctx.PreviousRoots() ==> Apart(ctx.sourceRoot.value, r) && Apart(ctx.companyRoot.value, r)
  }

  /** An absolute string that still lies under a previous root. */
  predicate Stale(s: string, ctx: Context) {
    IsAbsolute(s) && exists r :: r in ctx.PreviousRoots() && r <= Resolve(s)
  }

  /** No previous root matches, yet the path enters one through a component that begins with two dots. */
  predicate DotDotChild(s: string, ctx: Context) {
    && IsAbsolute(s)
    && !AnyHit(ctx.PreviousRoots(), Resolve(s))
    && exists r :: r in ctx.PreviousRoots() && r < Resolve(s) && StartsWith(Resolve(s)[|r|], "..")
  }

  /** The script name and its arguments. */
  function CommandText(command: string, ctx: Context): string
    requires ctx.RunsBundledScript(command)
  {
    Join([Basename(Words(command)[0])] + Words(command)[1..], ' ')
  }

  /** The same, read as the components of one path. */
  function CommandMove(command: string, ctx: Context): Move
    requires ctx.RunsBundledScript(command)
  {
    Moves(Components(CommandText(command, ctx)))
  }

  /** The arguments of a bundled command climb out of the new root and down into a previous one. */
  predicate ArgumentsClimbBack(command: string, ctx: Context)
    requires ctx.sourceRoot.Some?
  {
    && ctx.RunsBundledScript(command)
    && var m := CommandMove(command, ctx);
       m.ups > 1 && exists r :: r in ctx.PreviousRoots() && r <= Land(ctx.sourceRoot.value + ["scripts"], m)
  }

  lemma MovedUnder(to: Path, rest: Path)
    ensures IsAbsolute(Render(to + rest)) && to <= Resolve(Render(to + rest))
  {
    ResolveRender(to + rest);
  }

  lemma StageLands(value: string, roots: seq<Path>, to: Path, i: nat)
    requires IsAbsolute(value) && FirstHit(roots, Resolve(value), i)
    ensures ReplaceAnyPrefix(value, roots, Some(to)) == Render(to + Resolve(value)[|roots[i]|..])
  {
    ReplaceFirstPrefixMoves(value, roots, to);
    assert MovesTo(value, roots, to, i);
  }

  lemma StageUnder(value: string, roots: seq<Path>, to: Path)
    requires IsAbsolute(value) && AnyHit(roots, Resolve(value))
    ensures var out := ReplaceAnyPrefix(value, roots, Some(to)); IsAbsolute(out) && to <= Resolve(out)
  {
    ReplaceFirstPrefixMoves(value, roots, to);
    var i: nat :| FirstHit(roots, Resolve(value), i);
    var rest: Path := Resolve(value)[|roots[i]|..];
    StageLands(value, roots, to, i);
    MovedUnder(to, rest);
  }

  lemma StageMisses(value: string, roots: seq<Path>, to: Path)
    requires !IsAbsolute(value) || !AnyHit(roots, Resolve(value))
    ensures ReplaceAnyPrefix(value, roots, Some(to)) == value
  {
    if IsAbsolute(value) { ReplaceFirstPrefixMoves(value, roots, to); }
  }

  /** One replacement pass either leaves the string alone or puts it under the new root. */
  lemma {:induction false} ReplaceStage(value: string, roots: seq<Path>, to: Path)
    ensures var out := ReplaceAnyPrefix(value, roots, Some(to));
            if IsAbsolute(value) && AnyHit(roots, Resolve(value))
            then IsAbsolute(out) && to <= Resolve(out)
            else out == value
  {
    if IsAbsolute(value) && AnyHit(roots, Resolve(value)) {
      StageUnder(value, roots, to);
    } else {
      StageMisses(value, roots, to);
    }
  }

  lemma {:induction false} RelocateSpec(value: string, ctx: Context)
    requires WellPlaced(ctx)
    ensures var moved := Relocate(value, ctx);
            if IsAbsolute(value) && AnyHit(ctx.PreviousRoots(), Resolve(value))
            then IsAbsolute(moved) && !Stale(moved, ctx)
            else moved == value
  {
    var src, com := ctx.sourceRoot.value, ctx.companyRoot.value;
    var first := ReplaceAnyPrefix(value, ctx.previousSourceRoots, ctx.sourceRoot);
    var moved := Relocate(value, ctx);
    ReplaceStage(value, ctx.previousSourceRoots, src);
    ReplaceStage(first, ctx.previousCompanyRoots, com);
    if IsAbsolute(value) {
      HitEither(Resolve(value), ctx);
      if AnyHit(ctx.previousSourceRoots, Resolve(value)) {
        UnderNewRoot(src, first, ctx);
        HitEither(Resolve(first), ctx);
      } else if AnyHit(ctx.previousCompanyRoots, Resolve(value)) {
        UnderNewRoot(com, moved, ctx);
      }
    }
  }

  /** A path under a new root is matched no more. */
  lemma LandedStays(root: Path, rest: Path, ctx: Context)
    requires WellPlaced(ctx) && (root == ctx.sourceRoot.value || root == ctx.companyRoot.value)
    ensures ReplaceAnyPrefix(Render(root + rest), ctx.previousCompanyRoots, ctx.companyRoot) == Render(root + rest)
  {
    var s := Render(root + rest);
    MovedUnder(root, rest);
    UnderNewRoot(root, s, ctx);
    HitEither(Resolve(s), ctx);
    ReplaceStage(s, ctx.previousCompanyRoots, ctx.companyRoot.value);
  }

  lemma SourceLands(value: string, ctx: Context, i: nat)
    requires WellPlaced(ctx) && IsAbsolute(value) && FirstHit(ctx.previousSourceRoots, Resolve(value), i)
    ensures Relocate(value, ctx)
            == Render(ctx.sourceRoot.value + Resolve(value)[|ctx.previousSourceRoots[i]|..])
  {
    StageLands(value, ctx.previousSourceRoots, ctx.sourceRoot.value, i);
    LandedStays(ctx.sourceRoot.value, Resolve(value)[|ctx.previousSourceRoots[i]|..], ctx);
  }

  lemma CompanyLands(value: string, ctx: Context, i: nat)
    requires WellPlaced(ctx) && IsAbsolute(value) && !AnyHit(ctx.previousSourceRoots, Resolve(value))
    requires FirstHit(ctx.previousCompanyRoots, Resolve(value), i)
    ensures Relocate(value, ctx)
            == Render(ctx.companyRoot.value + Resolve(value)[|ctx.previousCompanyRoots[i]|..])
  {
    ReplaceStage(value, ctx.previousSourceRoots, ctx.sourceRoot.value);
    StageLands(value, ctx.previousCompanyRoots, ctx.companyRoot.value, i);
  }

  /** Where a matched path lands: what lay below the first matching source root is moved to the source root; if no
      previous source root matches, what lay below the first matching company root is moved to the company root. */
  lemma RelocateLands(value: string, ctx: Context, i: nat)
    requires WellPlaced(ctx) && IsAbsolute(value)
    ensures var p := Resolve(value);
            && (FirstHit(ctx.previousSourceRoots, p, i) ==>
                  Relocate(value, ctx) == Render(ctx.sourceRoot.value + p[|ctx.previousSourceRoots[i]|..]))
            && (!AnyHit(ctx.previousSourceRoots, p) && FirstHit(ctx.previousCompanyRoots, p, i) ==>
                  Relocate(value, ctx) == Render(ctx.companyRoot.value + p[|ctx.previousCompanyRoots[i]|..]))
  {
    var p := Resolve(value);
    if FirstHit(ctx.previousSourceRoots, p, i) {
      SourceLands(value, ctx, i);
    } else if !AnyHit(ctx.previousSourceRoots, p) && FirstHit(ctx.previousCompanyRoots, p, i) {
      CompanyLands(value, ctx, i);
    }
  }

  lemma HitEither(p: Path, ctx: Context)
    ensures AnyHit(ctx.PreviousRoots(), p)
            <==> AnyHit(ctx.previousSourceRoots, p) || AnyHit(ctx.previousCompanyRoots, p)
  {
    assert forall r :: r in ctx.PreviousRoots() <==> r in ctx.previousSourceRoots || r in ctx.previousCompanyRoots;
  }

  lemma PrefixesComparable(a: Path, b: Path, p: Path)
    requires a <= p && b <= p
    ensures a <= b || b <= a
  {}

  lemma {:induction false} UnderNewRoot(root: Path, s: string, ctx: Context)
    requires IsAbsolute(s) && root <= Resolve(s)
    requires forall r :: r in ctx.PreviousRoots() ==> Apart(root, r)
    ensures !Stale(s, ctx)
    ensures !AnyHit(ctx.PreviousRoots(), Resolve(s))
  {
    forall r | r in ctx.PreviousRoots() ensures !(r <= Resolve(s)) {
      if r <= Resolve(s) {
        PrefixesComparable(r, root, Resolve(s));
      }
    }
  }

  lemma SplitPath(p: Path, text: string)
    requires p != []
    ensures Split(Join(p, '/') + ['/'] + text, '/') == p + Split(text, '/')
  {
    SplitJoin(p, '/');
    SplitAt(Join(p, '/'), text, '/');
  }

  lemma {:induction false} JoinSnoc(p: Path, name: string)
    requires p != []
    ensures Join(p + [name], '/') == Join(p, '/') + ['/'] + name
    decreases |p|
  {
    if |p| > 1 {
      JoinSnoc(p[1..], name);
      assert (p + [name])[1..] == p[1..] + [name];
    }
  }

  lemma JoinHead(first: string, rest: seq<string>)
    ensures Join([first] + rest, ' ') == first + if rest == [] then "" else [' '] + Join(rest, ' ')
  {
    assert ([first] + rest)[1..] == rest;
  }

  /** The text of a rewritten command: the script directory, a slash, the script name and its arguments. */
  lemma {:induction false} RunnerText(dir: Path, name: string, args: seq<string>)
    requires dir != [] && CleanSegment(name)
    ensures Join([Render(dir + [name])] + args, ' ') == ['/'] + (Join(dir, '/') + ['/'] + Join([name] + args, ' '))
  {
    JoinSnoc(dir, name);
    JoinHead(Render(dir + [name]), args);
    JoinHead(name, args);
    var tail := if args == [] then "" else [' '] + Join(args, ' ');
    AppendAssoc(['/'], Join(dir + [name], '/'), tail);
    AppendAssoc(Join(dir, '/') + ['/'], name, tail);
  }

  /** Such a text, read as a path, moves from the directory as its tail says. */
  lemma {:induction false} TextLands(dir: Path, text: string)
    requires dir != []
    ensures Resolve(['/'] + (Join(dir, '/') + ['/'] + text)) == Walk(dir, Components(text))
  {
    var out := ['/'] + (Join(dir, '/') + ['/'] + text);
    var rest := Components(text);
    SplitPath(dir, text);
    SplitHead("", Join(dir, '/') + ['/'] + text, '/');
    assert "" + ['/'] + (Join(dir, '/') + ['/'] + text) == out;
    assert Components(out) == [""] + (dir + rest);
    assert ([""] + (dir + rest))[1..] == dir + rest;
    SlashlessAppend(dir, rest);
    WalkAppend([], dir, rest);
    WalkClean([], dir);
    assert [] + dir == dir;
  }

  /** A rewritten command, read as a path, starts at the new script directory and moves as its arguments say. */
  lemma {:induction false} RunnerLands(command: string, ctx: Context)
    requires ctx.sourceRoot.Some? && ctx.RunsBundledScript(command)
    ensures var out := RewriteBundledRunner(command, ctx);
            IsAbsolute(out) && Resolve(out) == Land(ctx.sourceRoot.value + ["scripts"], CommandMove(command, ctx))
  {
    var dir: Path := ctx.sourceRoot.value + ["scripts"];
    RunnerOut(command, ctx);
    TextLands(dir, CommandText(command, ctx));
    TextMoves(dir, Components(CommandText(command, ctx)));
  }

  lemma RunnerOut(command: string, ctx: Context)
    requires ctx.sourceRoot.Some? && ctx.RunsBundledScript(command)
    ensures RewriteBundledRunner(command, ctx)
            == ['/'] + (Join(ctx.sourceRoot.value + ["scripts"], '/') + ['/'] + CommandText(command, ctx))
  {
    var name, args := Basename(Words(command)[0]), Words(command)[1..];
    var dir: Path := ctx.sourceRoot.value + ["scripts"];
    assert ScriptPath(command, ctx.sourceRoot.value, ctx) == dir + [name];
    RunnerText(dir, name, args);
  }

  lemma TextMoves(dir: Path, parts: seq<string>)
    requires Slashless(parts)
    ensures Walk(dir, parts) == Land(dir, Moves(parts))
  {
    WalkLands(dir, parts, Move(0, []));
    assert Land(dir, Move(0, [])) == dir;
  }

  lemma SlashlessAppend(a: seq<string>, b: seq<string>)
    requires Slashless(a) && Slashless(b)
    ensures Slashless(a + b)
  {}

  lemma {:induction false} WalkAppend(at: Path, a: seq<string>, b: seq<string>)
    requires Slashless(a) && Slashless(b) && Slashless(a + b)
    ensures Walk(at, a + b) == Walk(Walk(at, a), b)
    decreases |a|
  {
    if a == [] {
      assert a + b == b;
    } else {
      var rest := a[1..];
      assert (a + b)[0] == a[0] && (a + b)[1..] == rest + b;
      assert Slashless(rest) && Slashless(rest + b);
      WalkAppend(WalkOne(at, a[0]), rest, b);
    }
  }

  lemma {:induction false} StaleRunner(value: string, ctx: Context)
    requires WellPlaced(ctx) && ctx.RunsBundledScript(Relocate(value, ctx))
    ensures Stale(RewriteString(value, ctx), ctx) <==> ArgumentsClimbBack(Relocate(value, ctx), ctx)
  {
    var moved := Relocate(value, ctx);
    RunnerLands(moved, ctx);
    if CommandMove(moved, ctx).ups <= 1 {
      ShortClimbStays(ctx.sourceRoot.value, CommandMove(moved, ctx));
      UnderNewRoot(ctx.sourceRoot.value, RewriteString(value, ctx), ctx);
    }
  }

  lemma ShortClimbStays(root: Path, m: Move)
    requires m.ups <= 1
    ensures root <= Land(root + ["scripts"], m)
  {}

  lemma {:induction false} StalePath(value: string, ctx: Context)
    requires WellPlaced(ctx) && !ctx.RunsBundledScript(Relocate(value, ctx))
    ensures Stale(RewriteString(value, ctx), ctx) <==> DotDotChild(value, ctx)
  {
    RelocateSpec(value, ctx);
    if IsAbsolute(value) && !AnyHit(ctx.PreviousRoots(), Resolve(value)) {
      var p := Resolve(value);
      forall r | r in ctx.PreviousRoots()
        ensures r <= p <==> r < p && StartsWith(p[|r|], "..")
      {
        assert !Hit(r, p);
      }
    }
  }

  /** The words of a rewritten command: its script in the new `scripts` directory, and the arguments it had. */
  lemma {:induction false} RunnerWords(command: string, ctx: Context)
    requires ctx.sourceRoot.Some? && ctx.RunsBundledScript(command)
    requires forall s :: s in ctx.sourceRoot.value ==> NoSpace(s)
    ensures var all, root := Words(command), ctx.sourceRoot.value;
            Words(RewriteBundledRunner(command, ctx)) == [Render(root + ["scripts", Basename(all[0])])] + all[1..]
  {
    var all, path := Words(command), ScriptPath(command, ctx.sourceRoot.value, ctx);
    WordsClean(command, "");
    assert all[0] in all;
    LastNonEmptyAmong(Split(all[0], '/'));
    SplitNoSpace(all[0]);
    forall s | s in path ensures NoSpace(s) {}
    RenderNoSpace(path);
    forall w | w in all[1..] ensures w in all {}
    WordsJoin([Render(path)] + all[1..]);
  }

  /** A rewritten command is recognised again and rewritten to itself. */
  lemma {:induction false} RunnerRewriteStable(command: string, ctx: Context)
    requires ctx.sourceRoot.Some? && ctx.RunsBundledScript(command)
    requires forall s :: s in ctx.sourceRoot.value ==> NoSpace(s)
    ensures var out := RewriteBundledRunner(command, ctx); RewriteBundledRunner(out, ctx) == out
  {
    var root, all := ctx.sourceRoot.value, Words(command);
    RunnerWords(command, ctx);
    BasenameRender(root + ["scripts"], Basename(all[0]));
    assert root + ["scripts"] + [Basename(all[0])] == root + ["scripts", Basename(all[0])];
    assert ([Render(root + ["scripts", Basename(all[0])])] + all[1..])[1..] == all[1..];
  }

  lemma {:induction false} SplitNoSpace(s: string)
    requires NoSpace(s)
    ensures forall p :: p in Split(s, '/') ==> NoSpace(p)
  {
    if s != "" {
      assert s[0] in s && forall c :: c in s[1..] ==> c in s;
      SplitNoSpace(s[1..]);
      var rest := Split(s[1..], '/');
      assert rest[0] in rest;
      forall p | p in Split(s, '/') ensures NoSpace(p) {
        assert p == "" || p == [s[0]] + rest[0] || p in rest;
      }
    }
  }

  lemma {:induction false} RenderNoSpace(p: Path)
    requires forall s :: s in p ==> NoSpace(s)
    ensures NoSpace(Render(p))
  {
    JoinNoSpace(p);
  }

  lemma {:induction false} JoinNoSpace(parts: seq<string>)
    requires forall s :: s in parts ==> NoSpace(s)
    ensures NoSpace(Join(parts, '/'))
  {
    if |parts| > 1 {
      assert parts[0] in parts && forall s :: s in parts[1..] ==> s in parts;
      JoinNoSpace(parts[1..]);
    } else if |parts| == 1 {
      assert parts[0] in parts;
    }
  }
}
