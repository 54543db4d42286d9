/** Company URLs: the canonical rewrite, the legacy redirect, and the redirect of a bare company code. */
module ProxyRoutes {
  import opened Text

  /** A path as the parts between its slashes after the first; a part may be empty. Percent encoding is left out. */
  type Path = seq<string>

  /** `appRoots` and `subPaths` are the two fixed lists of first and second segments; `upper` is `toUpperCase`. */
  datatype Maps = Maps(
    codeToSlug: map<string, string>, slugToCode: map<string, string>, projectAlias: map<string, string>,
    appRoots: set<string>, subPaths: set<string>, upper: string -> string)

  /** `split("/").filter(Boolean)`. */
  function Segments(path: Path): seq<string> {
    if path == [] then [] else (if path[0] == "" then [] else [path[0]]) + Segments(path[1..])
  }

  function Slug(code: string, maps: Maps): Option<string> {
    if maps.upper(code) in maps.codeToSlug && maps.codeToSlug[maps.upper(code)] != ""
    then Some(maps.codeToSlug[maps.upper(code)]) else None
  }

  predicate IsProjectView(sub: string) {
    || sub == "board" || sub == "settings" || sub == "agents" || sub == "overview" || sub == "configuration"
    || sub == "budget"
  }

  predicate IsAgentView(sub: string) {
    || sub == "dashboard" || sub == "configuration" || sub == "budget" || sub == "instructions" || sub == "runs"
    || sub == "skills"
  }

  /** What follows `/companies/{slug}` in the rewrite of a path with these segments after the code. */
  function CanonicalRest(rest: seq<string>, maps: Maps): Option<Path>
    requires rest != []
  {
    var general := if rest[0] in maps.subPaths then Some(rest) else None;
    if rest[0] == "projects" then
      if |rest| == 1 then Some(rest)
      else
        var project := if rest[1] in maps.projectAlias then maps.projectAlias[rest[1]] else rest[1];
        if |rest| == 2 then Some(["projects", project])
        else if rest[2] == "tasks" || IsProjectView(rest[2]) then Some(["projects", project, rest[2]])
        else general
    else if rest[0] == "agents" && |rest| >= 2 then
      if |rest| == 2 && rest[1] == "new" then Some(rest)
      else if |rest| == 2 then Some(["agents", rest[1], ""])
      else if IsAgentView(rest[2]) then Some(rest)
      else Some(["agents", rest[1]])
    else general
  }

  /** `tryCanonicalRewrite`. */
  function CanonicalRewrite(path: Path, maps: Maps): Option<Path> {
    var segments := Segments(path);
    if segments == [] || Lower(segments[0]) in maps.appRoots || Slug(segments[0], maps).None? then None
    else
      var slug := Slug(segments[0], maps).value;
      if |segments| == 1 then Some(["companies", slug, "dashboard"])
      else
        var rest := CanonicalRest(segments[1..], maps);
        if rest.None? then None else Some(["companies", slug] + rest.value)
  }

  /** What a legacy URL becomes after its code. */
  function LegacyRest(rest: Path): Option<Path>
    requires rest != [] && rest != [""]
  {
    if rest[0] == "projects" && |rest| >= 2 && rest[1] != "" then
      if |rest| > 2 && rest[2] == "issues" then None
      else Some(["projects", rest[1]] + if |rest| == 2 then ["tasks"] else rest[2..])
    else if rest == ["agents", "new"] then Some(rest)
    else if rest[0] == "agents" && |rest| >= 2 && rest[1] != "" then
      Some(["agents", rest[1]] + if |rest| == 2 then ["dashboard"] else rest[2..])
    else Some(rest)
  }

  /** A slug whose legacy path is redirected: it has a code, and that code another slug, or none. */
  predicate Alias(slug: string, maps: Maps) {
    && slug != "" && slug != "new" && slug in maps.slugToCode && maps.slugToCode[slug] != ""
    && (maps.slugToCode[slug] !in maps.codeToSlug || maps.codeToSlug[maps.slugToCode[slug]] != slug)
  }

  /** Where a company slug and what follows it are redirected. */
  function LegacyUnder(slug: string, rest: Path, maps: Maps): Option<Path> {
    if !Alias(slug, maps) || (rest != [] && rest[0] == "issues") then None
    else
      var code := maps.slugToCode[slug];
      if rest == [] || rest == [""] then
        if code in maps.codeToSlug && maps.codeToSlug[code] != "" then Some([code, "dashboard"]) else None
      else
        var target := LegacyRest(rest);
        if target.None? then None else Some([code] + target.value)
  }

  /** `tryLegacyRedirect`. */
  function LegacyRedirect(path: Path, maps: Maps): Option<Path> {
    if |path| < 2 || path[0] != "companies" then None else LegacyUnder(path[1], path[2..], maps)
  }

  /** A path with a company code and nothing else. */
  predicate Bare(path: Path, maps: Maps) {
    var segments := Segments(path);
    |segments| == 1 && Lower(segments[0]) !in maps.appRoots && Slug(segments[0], maps).Some?
  }

  /** The redirect that `proxy` answers with, if any. */
  function Redirect(path: Path, maps: Maps): Option<Path> {
    if Bare(path, maps) then Some([Segments(path)[0], "dashboard"])
    else if CanonicalRewrite(path, maps).Some? then None
    else LegacyRedirect(path, maps)
  }

  /** A code whose bare path is redirected. */
  predicate BareCode(code: string, maps: Maps) {
    Lower(code) !in maps.appRoots && Slug(code, maps).Some?
  }

  /** No alias leads to the code "companies", except perhaps "issues" when no alias has a bare code. */
  ghost predicate Calm(maps: Maps) {
    && (forall slug :: Alias(slug, maps) && maps.slugToCode[slug] == "companies" ==> slug == "issues")
    && (Alias("issues", maps) && maps.slugToCode["issues"] == "companies" ==>
          forall slug :: Alias(slug, maps) ==> !BareCode(maps.slugToCode[slug], maps))
  }

  predicate EndsByTwo(path: Path, maps: Maps) {
    var first := Redirect(path, maps);
    first.Some? ==>
      var second := Redirect(first.value, maps);
      second.Some? ==> Redirect(second.value, maps).None?
  }

  lemma CompaniesLower()
    ensures Lower("companies") == "companies"
  {
    LowerStays("companies");
  }

  lemma SegmentsOfDashboard(code: string)
    requires code != ""
    ensures Segments([code, "dashboard"]) == [code, "dashboard"]
  {
    assert [code, "dashboard"][1..] == ["dashboard"] && ["dashboard"][1..] == [];
  }

  lemma {:induction false} SegmentsNonEmpty(path: Path)
    ensures forall s :: s in Segments(path) ==> s != ""
  {
    if path != [] { SegmentsNonEmpty(path[1..]); }
  }

  lemma NotLegacy(path: Path, maps: Maps)
    requires path != [] && path[0] != "companies"
    ensures LegacyRedirect(path, maps).None?
  {}

  lemma DashboardStays(code: string, maps: Maps)
    requires code != "" && code != "companies"
    ensures Redirect([code, "dashboard"], maps).None?
  {
    SegmentsOfDashboard(code);
    NotLegacy([code, "dashboard"], maps);
  }

  lemma CodeIsNotCompanies(code: string, maps: Maps)
    requires "companies" in maps.appRoots && Lower(code) !in maps.appRoots
    ensures code != "companies"
  {
    CompaniesLower();
  }

  /** A bare code is redirected once: its dashboard is not redirected again. */
  lemma BareOnce(path: Path, maps: Maps)
    requires "companies" in maps.appRoots && Bare(path, maps)
    ensures Redirect(path, maps) == Some([Segments(path)[0], "dashboard"])
    ensures Redirect([Segments(path)[0], "dashboard"], maps).None?
  {
    var code := Segments(path)[0];
    SegmentsNonEmpty(path);
    assert code in Segments(path);
    CodeIsNotCompanies(code, maps);
    DashboardStays(code, maps);
  }

  /** A path under "companies" is redirected as a legacy path or not at all. */
  lemma CompaniesPath(path: Path, maps: Maps)
    requires "companies" in maps.appRoots && path != [] && path[0] == "companies"
    ensures Redirect(path, maps) == LegacyRedirect(path, maps)
  {
    CompaniesLower();
    assert Segments(path)[0] == "companies";
  }

  /** Only a bare path or a legacy one is redirected. */
  lemma RedirectKinds(path: Path, maps: Maps)
    requires Redirect(path, maps).Some? && !Bare(path, maps)
    ensures Redirect(path, maps) == LegacyRedirect(path, maps)
  {}

  /** A legacy redirect goes from an alias to its code; what follows the code begins as before, or is the dashboard. */
  lemma LegacyTarget(path: Path, maps: Maps)
    requires LegacyRedirect(path, maps).Some?
    ensures |path| >= 2 && path[0] == "companies" && Alias(path[1], maps)
    ensures var t := LegacyRedirect(path, maps).value;
            |t| >= 2 && t[0] == maps.slugToCode[path[1]] && t[1] != "issues"
  {}

  /** A path outside "companies" is redirected at most once more. */
  lemma OutsideOnce(path: Path, maps: Maps)
    requires "companies" in maps.appRoots && path != [] && path[0] != "" && path[0] != "companies"
    ensures Redirect(path, maps).Some? ==> BareCode(path[0], maps) && Redirect(Redirect(path, maps).value, maps).None?
  {
    NotLegacy(path, maps);
    assert Segments(path)[0] == path[0];
    if Bare(path, maps) { BareOnce(path, maps); }
  }

  lemma CalmEnds(path: Path, maps: Maps)
    requires "companies" in maps.appRoots && Calm(maps)
    ensures EndsByTwo(path, maps)
  {
    if Bare(path, maps) {
      BareOnce(path, maps);
    } else if Redirect(path, maps).Some? {
      RedirectKinds(path, maps);
      LegacyTarget(path, maps);
      var first := Redirect(path, maps).value;
      if first[0] != "companies" {
        OutsideOnce(first, maps);
      } else {
        CompaniesPath(first, maps);
        if Redirect(first, maps).Some? {
          LegacyTarget(first, maps);
          OutsideOnce(Redirect(first, maps).value, maps);
        }
      }
    }
  }

  lemma UnderCompanies(slug: string, rest: Path, maps: Maps)
    requires "companies" in maps.appRoots
    ensures Redirect(["companies", slug] + rest, maps) == LegacyUnder(slug, rest, maps)
  {
    var path := ["companies", slug] + rest;
    assert path[0] == "companies" && path[1] == slug && path[2..] == rest;
    CompaniesPath(path, maps);
  }

  /** One step under an alias. */
  lemma AliasStep(slug: string, rest: Path, target: Path, maps: Maps)
    requires "companies" in maps.appRoots && Alias(slug, maps) && rest != [] && rest != [""] && rest[0] != "issues"
    requires LegacyRest(rest) == Some(target)
    ensures Redirect(["companies", slug] + rest, maps) == Some([maps.slugToCode[slug]] + target)
  {
    UnderCompanies(slug, rest, maps);
  }

  /** Putting a code in front of segments that begin with a slug. */
  lemma InFront(code: string, slug: string, rest: Path)
    ensures [code] + ([slug] + rest) == [code, slug] + rest
  {}

  /** What follows three equal segments, and then two. */
  lemma SameSegments(s: string, three: Path, two: Path)
    requires s != "" && s != "issues" && s != "new" && three == [s, s, s] && two == [s, s]
    ensures LegacyRest(three) == Some(three)
    ensures LegacyRest(two) == Some([s] + LastSegments(s))
    ensures LegacyRest(LastSegments(s)).Some? && LastSegments(s) != [""]
  {
    assert three == [s, s] + three[2..];
    InFront(s, s, ["tasks"]);
    InFront(s, s, ["dashboard"]);
    assert [s] + [s] == two;
    assert [s] + ["tasks"] == [s, "tasks"] && [s] + ["dashboard"] == [s, "dashboard"];
  }

  function LastSegments(s: string): (r: Path)
    ensures r != [] && r[0] == s
  {
    if s == "projects" then [s, "tasks"] else if s == "agents" then [s, "dashboard"] else [s]
  }

  lemma ThreeRedirects(a: Path, b: Path, c: Path, maps: Maps)
    requires Redirect(a, maps) == Some(b) && Redirect(b, maps) == Some(c) && Redirect(c, maps).Some?
    ensures !EndsByTwo(a, maps)
  {}

  lemma ThriceUnderAlias(slug: string, three: Path, two: Path, maps: Maps)
    requires "companies" in maps.appRoots && Alias(slug, maps)
    requires maps.slugToCode[slug] == "companies" && slug != "issues"
    requires three == [slug, slug, slug] && two == [slug, slug]
    ensures !EndsByTwo(["companies", slug] + three, maps)
  {
    var last := LastSegments(slug);
    SameSegments(slug, three, two);
    AliasStep(slug, three, three, maps);
    AliasStep(slug, two, [slug] + last, maps);
    AliasStep(slug, last, LegacyRest(last).value, maps);
    assert three == [slug] + two;
    InFront("companies", slug, two);
    InFront("companies", slug, last);
    ThreeRedirects(["companies", slug] + three, ["companies", slug] + two, ["companies", slug] + last, maps);
  }

  lemma EmptySegments(rest: Path)
    requires rest == ["", ""]
    ensures LegacyRest(rest) == Some(rest)
  {}

  lemma IssuesRest(slug: string, empties: Path, rest: Path)
    requires slug != "" && slug != "issues" && empties == ["", ""] && rest == [slug] + empties
    ensures rest != [""] && LegacyRest(rest) == Some(rest)
  {
    assert rest[1] == "";
  }

  lemma ThriceThroughIssues(slug: string, empties: Path, maps: Maps)
    requires "companies" in maps.appRoots && Alias("issues", maps) && maps.slugToCode["issues"] == "companies"
    requires Alias(slug, maps) && slug != "issues" && BareCode(maps.slugToCode[slug], maps) && empties == ["", ""]
    ensures !EndsByTwo(["companies", "issues"] + ([slug] + empties), maps)
  {
    var rest := [slug] + empties;
    IssuesRest(slug, empties, rest);
    AliasStep("issues", rest, rest, maps);
    InFront("companies", slug, empties);
    EmptySegments(empties);
    AliasStep(slug, empties, empties, maps);
    BareSlashes(maps.slugToCode[slug], empties, maps);
    ThreeRedirects(["companies", "issues"] + rest, ["companies", slug] + empties,
                   [maps.slugToCode[slug]] + empties, maps);
  }

  lemma BareSlashes(code: string, empties: Path, maps: Maps)
    requires code != "" && BareCode(code, maps) && empties == ["", ""]
    ensures Redirect([code] + empties, maps).Some?
  {
    var path := [code] + empties;
    assert path[1..] == empties && empties[1..] == [""] && empties[1..][1..] == [];
    assert Segments(empties[1..]) == [] && Segments(empties) == [] && Segments(path) == [code];
  }

  lemma Restless(maps: Maps) returns (path: Path)
    requires "companies" in maps.appRoots && !Calm(maps)
    ensures !EndsByTwo(path, maps)
  {
    if slug :| Alias(slug, maps) && maps.slugToCode[slug] == "companies" && slug != "issues" {
      ThriceUnderAlias(slug, [slug, slug, slug], [slug, slug], maps);
      path := ["companies", slug] + [slug, slug, slug];
    } else {
      var slug :| Alias(slug, maps) && BareCode(maps.slugToCode[slug], maps);
      CodeIsNotCompanies(maps.slugToCode[slug], maps);
      ThriceThroughIssues(slug, ["", ""], maps);
      path := ["companies", "issues"] + ([slug] + ["", ""]);
    }
  }

  ghost predicate AllEndByTwo(maps: Maps) {
    forall path :: EndsByTwo(path, maps)
  }

  /** If and only if: from every path, following redirects ends after at most two. */
  lemma AtMostTwoExactly(maps: Maps)
    requires "companies" in maps.appRoots
    ensures AllEndByTwo(maps) <==> Calm(maps)
  {
    if Calm(maps) {
      forall path ensures EndsByTwo(path, maps) { CalmEnds(path, maps); }
    } else {
      var path := Restless(maps);
      assert !EndsByTwo(path, maps);
    }
  }

  /** With maps of another origin the redirects need not end at all: a code "companies", in lower case, can send a
      path to itself. */
  lemma CompaniesCodeLoops(maps: Maps)
    requires "companies" in maps.appRoots && maps.slugToCode == map["dashboard" := "companies"]
    requires maps.codeToSlug == map["companies" := "main"]
    ensures Redirect(["companies", "dashboard"], maps) == Some(["companies", "dashboard"])
  {
    CompaniesLower();
    SegmentsOfDashboard("companies");
  }

  // ---- the canonical rewrite

  /** The slug's own code, if it has one, leads back to the slug. */
  predicate LeadsBack(slug: string, maps: Maps) {
    slug in maps.slugToCode && maps.slugToCode[slug] != "" ==>
      maps.slugToCode[slug] in maps.codeToSlug && maps.codeToSlug[maps.slugToCode[slug]] == slug
  }

  lemma CanonicalUnderSlug(path: Path, maps: Maps)
    requires CanonicalRewrite(path, maps).Some?
    ensures var t := CanonicalRewrite(path, maps).value;
            |t| >= 3 && t[0] == "companies" && Some(t[1]) == Slug(Segments(path)[0], maps)
  {}

  /** With mutually inverse maps a rewritten path is final: the legacy redirect answers null for it. */
  lemma CanonicalIsFinal(path: Path, maps: Maps)
    requires CanonicalRewrite(path, maps).Some?
    requires LeadsBack(CanonicalRewrite(path, maps).value[1], maps)
    ensures LegacyRedirect(CanonicalRewrite(path, maps).value, maps).None?
  {
    CanonicalUnderSlug(path, maps);
  }

  /** The rewrite of a legacy target, when it exists, lands under the canonical slug of the company. */
  lemma LegacyThenCanonical(path: Path, maps: Maps)
    requires LegacyRedirect(path, maps).Some? && CanonicalRewrite(LegacyRedirect(path, maps).value, maps).Some?
    requires forall slug :: slug in maps.slugToCode ==> maps.upper(maps.slugToCode[slug]) == maps.slugToCode[slug]
    requires forall code :: code in maps.codeToSlug ==> LeadsBack(maps.codeToSlug[code], maps)
    ensures var code := maps.slugToCode[path[1]];
            var t := CanonicalRewrite(LegacyRedirect(path, maps).value, maps).value;
            && code in maps.codeToSlug && t[..2] == ["companies", maps.codeToSlug[code]]
            && LegacyRedirect(t, maps).None?
  {
    var code, target := maps.slugToCode[path[1]], LegacyRedirect(path, maps).value;
    assert target[0] == code;
    assert Segments(target)[0] == code;
    CanonicalUnderSlug(target, maps);
    CanonicalIsFinal(target, maps);
  }

  // ---- what follows the company is kept

  predicate Filled(parts: seq<string>) { forall s :: s in parts ==> s != "" }

  lemma {:induction false} SegmentsOfFilled(parts: seq<string>)
    requires Filled(parts)
    ensures Segments(parts) == parts
  {
    if parts != [] {
      assert parts[0] in parts && forall s :: s in parts[1..] ==> s in parts;
      SegmentsOfFilled(parts[1..]);
    }
  }

  /** A code that a rewrite starts from, with its slug. */
  predicate CodeOf(code: string, slug: string, maps: Maps) {
    && code != "" && Lower(code) !in maps.appRoots && slug != ""
    && maps.upper(code) in maps.codeToSlug && maps.codeToSlug[maps.upper(code)] == slug
  }

  /** A path that begins with no such code is neither rewritten nor, unless it is a legacy path, redirected. */
  lemma NoCodeNoRewrite(path: Path, maps: Maps)
    requires Segments(path) != [] ==> forall slug :: !CodeOf(Segments(path)[0], slug, maps)
    ensures CanonicalRewrite(path, maps).None? && Redirect(path, maps) == LegacyRedirect(path, maps)
  {
    if Segments(path) != [] {
      SegmentsNonEmpty(path);
      assert Segments(path)[0] in Segments(path);
      var slug := Slug(Segments(path)[0], maps);
      if slug.Some? { assert !CodeOf(Segments(path)[0], slug.value, maps); }
    }
  }

  /** A code alone stands for the company's dashboard. */
  lemma HomeIsDashboard(code: string, slug: string, maps: Maps)
    requires CodeOf(code, slug, maps)
    ensures CanonicalRewrite([code], maps) == Some(["companies", slug, "dashboard"])
    ensures Redirect([code], maps) == Some([code, "dashboard"])
  {
    SegmentsOfFilled([code]);
  }

  lemma RewriteOf(code: string, slug: string, rest: seq<string>, maps: Maps)
    requires CodeOf(code, slug, maps) && Filled(rest) && rest != []
    ensures var r := CanonicalRest(rest, maps);
            CanonicalRewrite([code] + rest, maps) == if r.None? then None else Some(["companies", slug] + r.value)
  {
    forall s | s in [code] + rest ensures s != "" {}
    SegmentsOfFilled([code] + rest);
    assert ([code] + rest)[1..] == rest;
  }

  /** An agent page keeps its agent, its view and everything below; of other views only the agent is kept. */
  lemma AgentPathKept(code: string, slug: string, agent: string, view: string, more: seq<string>, maps: Maps)
    requires CodeOf(code, slug, maps) && Filled(["agents", agent, view] + more)
    ensures CanonicalRewrite([code] + (["agents", agent, view] + more), maps) ==
              if view in {"dashboard", "configuration", "budget", "instructions", "runs", "skills"}
              then Some(["companies", slug] + (["agents", agent, view] + more))
              else Some(["companies", slug] + ["agents", agent])
  {
    RewriteOf(code, slug, ["agents", agent, view] + more, maps);
  }

  /** The shorter agent paths: the form for a new agent, an agent, and the list. */
  lemma AgentListKept(code: string, slug: string, agent: string, maps: Maps)
    requires CodeOf(code, slug, maps) && agent != "" && agent != "new"
    ensures CanonicalRewrite([code] + ["agents", "new"], maps) == Some(["companies", slug] + ["agents", "new"])
    ensures CanonicalRewrite([code] + ["agents", agent], maps) == Some(["companies", slug] + ["agents", agent, ""])
    ensures CanonicalRewrite([code] + ["agents"], maps)
            == if "agents" in maps.subPaths then Some(["companies", slug] + ["agents"]) else None
  {
    RewriteOf(code, slug, ["agents", "new"], maps);
    RewriteOf(code, slug, ["agents", agent], maps);
    RewriteOf(code, slug, ["agents"], maps);
  }

  /** The current slug of a project, historical or not. */
  predicate ProjectOf(name: string, project: string, maps: Maps) {
    project == if name in maps.projectAlias then maps.projectAlias[name] else name
  }

  /** A project page gets the current slug of its project and keeps its view, but nothing below it. */
  lemma ProjectPathKept(
    code: string, slug: string, name: string, project: string, view: string, more: seq<string>, maps: Maps
  )
    requires CodeOf(code, slug, maps) && ProjectOf(name, project, maps) && Filled(["projects", name, view] + more)
    requires view in {"tasks", "board", "settings", "agents", "overview", "configuration", "budget"}
    ensures CanonicalRewrite([code] + (["projects", name, view] + more), maps)
            == Some(["companies", slug] + ["projects", project, view])
  {
    RewriteOf(code, slug, ["projects", name, view] + more, maps);
  }

  lemma ProjectListKept(code: string, slug: string, name: string, project: string, maps: Maps)
    requires CodeOf(code, slug, maps) && ProjectOf(name, project, maps) && name != ""
    ensures CanonicalRewrite([code] + ["projects", name], maps) == Some(["companies", slug] + ["projects", project])
    ensures CanonicalRewrite([code] + ["projects"], maps) == Some(["companies", slug] + ["projects"])
  {
    RewriteOf(code, slug, ["projects", name], maps);
    RewriteOf(code, slug, ["projects"], maps);
  }

  /** Every other page is rewritten if and only if it is one of the company's sub-paths, and then kept as it is. */
  lemma OtherPathKept(code: string, slug: string, rest: seq<string>, maps: Maps)
    requires CodeOf(code, slug, maps) && Filled(rest) && rest != []
    requires rest[0] != "projects" && rest[0] != "agents"
    ensures CanonicalRewrite([code] + rest, maps)
            == if rest[0] in maps.subPaths then Some(["companies", slug] + rest) else None
  {
    RewriteOf(code, slug, rest, maps);
  }

  /** A legacy path keeps everything after the company; only a bare project or agent gets its default page. */
  lemma LegacyKept(alias: string, kind: string, name: string, more: seq<string>, maps: Maps)
    requires Alias(alias, maps) && (kind == "projects" || kind == "agents") && name != ""
    requires kind == "projects" && more != [] ==> more[0] != "issues"
    requires kind == "agents" ==> name != "new"
    ensures LegacyRedirect(["companies", alias] + ([kind, name] + more), maps)
            == Some([maps.slugToCode[alias]] + ([kind, name]
                    + if more != [] then more else if kind == "projects" then ["tasks"] else ["dashboard"]))
  {
    var rest := [kind, name] + more;
    assert (["companies", alias] + rest)[2..] == rest && rest[2..] == more;
  }

  /** A legacy link to an agent page, redirected and then rewritten, is the same page under the canonical slug. */
  lemma LegacyAgentLands(
    alias: string, slug: string, agent: string, view: string, more: seq<string>, maps: Maps
  )
    requires Alias(alias, maps) && CodeOf(maps.slugToCode[alias], slug, maps)
    requires Filled(["agents", agent, view] + more) && agent != "new"
    requires view in {"dashboard", "configuration", "budget", "instructions", "runs", "skills"}
    ensures var page := ["agents", agent, view] + more;
            var target := LegacyRedirect(["companies", alias] + page, maps);
            && target == Some([maps.slugToCode[alias]] + page)
            && CanonicalRewrite(target.value, maps) == Some(["companies", slug] + page)
  {
    var page := ["agents", agent, view] + more;
    assert page[1] in page;
    LegacyKept(alias, "agents", agent, [view] + more, maps);
    assert ["agents", agent] + ([view] + more) == page;
    AgentPathKept(maps.slugToCode[alias], slug, agent, view, more, maps);
  }

  /** A legacy link to a project, redirected and then rewritten, lands on its tasks under the canonical slugs. */
  lemma LegacyProjectLands(alias: string, slug: string, name: string, project: string, maps: Maps)
    requires Alias(alias, maps) && CodeOf(maps.slugToCode[alias], slug, maps)
    requires name != "" && ProjectOf(name, project, maps)
    ensures var target := LegacyRedirect(["companies", alias] + ["projects", name], maps);
            && target == Some([maps.slugToCode[alias]] + ["projects", name, "tasks"])
            && CanonicalRewrite(target.value, maps) == Some(["companies", slug] + ["projects", project, "tasks"])
  {
    LegacyKept(alias, "projects", name, [], maps);
    assert ["projects", name] + [] == ["projects", name];
    assert ["projects", name] + ["tasks"] == ["projects", name, "tasks"];
    var tasks := ["projects", name, "tasks"];
    assert tasks + [] == tasks;
    ProjectPathKept(maps.slugToCode[alias], slug, name, project, "tasks", [], maps);
  }
}
