/** The company maps that the redirects read, as they are built from the tables, and what the redirects do with them. */
module RouteMaps {
  import opened Text
  import opened ProxyRoutes

  datatype CompanyRow = CompanyRow(slug: string, code: Option<string>)

  datatype AliasRow = AliasRow(alias: string, code: string)

  /** `codes` are the codes of companies in the tables, in row order. */
  datatype CompanyMaps = CompanyMaps(
    codeToSlug: map<string, string>, slugToCode: map<string, string>, codes: seq<string>)

  const NO_MAPS := CompanyMaps(map[], map[], [])

  type Upper = string -> string

  function CodeOf(row: CompanyRow, upper: Upper): string {
    if row.code.None? then "" else upper(Trim(row.code.value))
  }

  function WithCompany(m: CompanyMaps, row: CompanyRow, upper: Upper): CompanyMaps {
    var slug, code := Trim(row.slug), CodeOf(row, upper);
    if slug == "" || code == "" then m
    else CompanyMaps(m.codeToSlug[code := slug], m.slugToCode[slug := code], m.codes + [code])
  }

  function Companies(rows: seq<CompanyRow>, upper: Upper): CompanyMaps {
    if rows == [] then NO_MAPS
    else WithCompany(Companies(rows[..|rows| - 1], upper), rows[|rows| - 1], upper)
  }

  /** An alias never overwrites a slug. */
  function WithAlias(m: CompanyMaps, row: AliasRow, upper: Upper): CompanyMaps {
    var alias, code := Trim(row.alias), upper(Trim(row.code));
    if alias == "" || code == "" || (alias in m.slugToCode && m.slugToCode[alias] != "") then m
    else m.(slugToCode := m.slugToCode[alias := code])
  }

  function Aliases(m: CompanyMaps, rows: seq<AliasRow>, upper: Upper): CompanyMaps {
    if rows == [] then m else WithAlias(Aliases(m, rows[..|rows| - 1], upper), rows[|rows| - 1], upper)
  }

  /** `buildEdgeRouteMaps`. */
  method BuildCompanyMaps(companies: seq<CompanyRow>, aliases: seq<AliasRow>, upper: Upper) returns (m: CompanyMaps)
    ensures m == Aliases(Companies(companies, upper), aliases, upper)
  {
    var codeToSlug, slugToCode, codes := map[], map[], [];
    for i := 0 to |companies|
      invariant CompanyMaps(codeToSlug, slugToCode, codes) == Companies(companies[..i], upper)
    {
      assert companies[..i + 1][..i] == companies[..i] && companies[..i + 1][i] == companies[i];
      var slug, code := Trim(companies[i].slug), CodeOf(companies[i], upper);
      if slug == "" || code == "" { continue; }
      codeToSlug, slugToCode, codes := codeToSlug[code := slug], slugToCode[slug := code], codes + [code];
    }
    assert companies[..|companies|] == companies;
    ghost var before := CompanyMaps(codeToSlug, slugToCode, codes);
    for i := 0 to |aliases|
      invariant CompanyMaps(codeToSlug, slugToCode, codes) == Aliases(before, aliases[..i], upper)
    {
      assert aliases[..i + 1][..i] == aliases[..i] && aliases[..i + 1][i] == aliases[i];
      var alias, code := Trim(aliases[i].alias), upper(Trim(aliases[i].code));
      if alias == "" || code == "" { continue; }
      if alias !in slugToCode || slugToCode[alias] == "" { slugToCode := slugToCode[alias := code]; }
    }
    assert aliases[..|aliases|] == aliases;
    m := CompanyMaps(codeToSlug, slugToCode, codes);
  }

  // ---- merging the static maps

  const STATIC_CODES: map<string, string> :=
    map["HIVE" := "hiverunner-workspace", "INS" := "insight", "NEV" := "neveridle-core"]

  const STATIC_SLUGS: map<string, string> :=
    map["hiverunner-workspace" := "HIVE", "insight" := "INS", "neveridle-core" := "NEV", "weather-edge" := "NEV"]

  /** `withEdgeRouteMapFallback`: the static maps lie below tables without a company. */
  function Merged(m: CompanyMaps): CompanyMaps {
    if m.codes != [] then m else CompanyMaps(STATIC_CODES + m.codeToSlug, STATIC_SLUGS + m.slugToCode, [])
  }

  /** What is known of `toUpperCase`. */
  ghost predicate Uppercases(upper: Upper) {
    && (forall s :: upper(upper(s)) == upper(s))
    && upper("companies") == "COMPANIES"
    && upper("HIVE") == "HIVE" && upper("INS") == "INS" && upper("NEV") == "NEV"
  }

  /** Every code is in upper case. */
  ghost predicate CodesUpper(m: CompanyMaps, upper: Upper) {
    && (forall slug :: slug in m.slugToCode ==> upper(m.slugToCode[slug]) == m.slugToCode[slug])
    && (forall code :: code in m.codeToSlug ==> upper(code) == code)
  }

  lemma {:induction false} CompaniesUpper(rows: seq<CompanyRow>, upper: Upper)
    requires Uppercases(upper)
    ensures CodesUpper(Companies(rows, upper), upper)
  {
    if rows != [] { CompaniesUpper(rows[..|rows| - 1], upper); }
  }

  lemma {:induction false} AliasesUpper(m: CompanyMaps, rows: seq<AliasRow>, upper: Upper)
    requires Uppercases(upper) && CodesUpper(m, upper)
    ensures CodesUpper(Aliases(m, rows, upper), upper)
  {
    if rows != [] { AliasesUpper(m, rows[..|rows| - 1], upper); }
  }

  lemma StaticUpper(upper: Upper)
    requires Uppercases(upper)
    ensures CodesUpper(CompanyMaps(STATIC_CODES, STATIC_SLUGS, []), upper)
  {}

  lemma MergedUpper(m: CompanyMaps, upper: Upper)
    requires Uppercases(upper) && CodesUpper(m, upper)
    ensures CodesUpper(Merged(m), upper)
  {
    StaticUpper(upper);
    var s, r := CompanyMaps(STATIC_CODES, STATIC_SLUGS, []), Merged(m);
    forall slug | slug in r.slugToCode ensures upper(r.slugToCode[slug]) == r.slugToCode[slug] {
      assert slug in m.slugToCode || slug in s.slugToCode;
    }
    forall code | code in r.codeToSlug ensures upper(code) == code {
      assert code in m.codeToSlug || code in s.codeToSlug;
    }
  }

  // ---- the redirects of the program

  /** What the proxy knows besides companies. */
  datatype Site = Site(projectAlias: map<string, string>, appRoots: set<string>, subPaths: set<string>, upper: Upper)

  function MapsOf(m: CompanyMaps, site: Site): Maps {
    Maps(m.codeToSlug, m.slugToCode, site.projectAlias, site.appRoots, site.subPaths, site.upper)
  }

  /** The maps that the proxy works with. */
  function ProxyMaps(companies: seq<CompanyRow>, aliases: seq<AliasRow>, site: Site): Maps {
    MapsOf(Merged(Aliases(Companies(companies, site.upper), aliases, site.upper)), site)
  }

  lemma UpperIsCalm(maps: Maps)
    requires forall slug :: slug in maps.slugToCode ==> maps.upper(maps.slugToCode[slug]) == maps.slugToCode[slug]
    requires maps.upper("companies") != "companies"
    ensures Calm(maps)
  {}

  /** Whatever the tables hold, following the proxy's redirects from any path ends after at most two. */
  lemma RedirectsEnd(companies: seq<CompanyRow>, aliases: seq<AliasRow>, site: Site)
    requires Uppercases(site.upper) && "companies" in site.appRoots
    ensures AllEndByTwo(ProxyMaps(companies, aliases, site))
  {
    var m := Companies(companies, site.upper);
    CompaniesUpper(companies, site.upper);
    AliasesUpper(m, aliases, site.upper);
    MergedUpper(Aliases(m, aliases, site.upper), site.upper);
    UpperIsCalm(ProxyMaps(companies, aliases, site));
    AtMostTwoExactly(ProxyMaps(companies, aliases, site));
  }

  // ---- codes and slugs are mutually inverse

  /** Slugs are unique up to surrounding white space. */
  predicate DistinctSlugs(rows: seq<CompanyRow>) {
    forall i, j :: 0 <= i < j < |rows| ==> Trim(rows[i].slug) != Trim(rows[j].slug)
  }

  /** Every code leads to a slug that leads back to it, and every slug belongs to a row. */
  ghost predicate Inverse(m: CompanyMaps) {
    forall code :: code in m.codeToSlug ==>
      m.codeToSlug[code] in m.slugToCode && m.slugToCode[m.codeToSlug[code]] == code
      && m.codeToSlug[code] != "" && code != ""
  }

  lemma {:induction false} SlugsOfRows(rows: seq<CompanyRow>, upper: Upper)
    ensures forall slug :: slug in Companies(rows, upper).slugToCode ==> exists r :: r in rows && Trim(r.slug) == slug
    ensures forall code :: code in Companies(rows, upper).codeToSlug ==>
              exists r :: r in rows && Trim(r.slug) == Companies(rows, upper).codeToSlug[code]
  {
    if rows != [] {
      var init, last := rows[..|rows| - 1], rows[|rows| - 1];
      SlugsOfRows(init, upper);
      assert last in rows && forall r :: r in init ==> r in rows;
    }
  }

  lemma {:induction false} CompaniesInverse(rows: seq<CompanyRow>, upper: Upper)
    requires DistinctSlugs(rows)
    ensures Inverse(Companies(rows, upper))
  {
    if rows != [] {
      var init, last := rows[..|rows| - 1], rows[|rows| - 1];
      CompaniesInverse(init, upper);
      SlugsOfRows(init, upper);
      forall r | r in init ensures Trim(r.slug) != Trim(last.slug) {
        var i :| 0 <= i < |init| && init[i] == r;
        assert rows[i] == r;
      }
    }
  }

  lemma {:induction false} AliasesInverse(m: CompanyMaps, rows: seq<AliasRow>, upper: Upper)
    requires Inverse(m)
    ensures Inverse(Aliases(m, rows, upper)) && Aliases(m, rows, upper).codeToSlug == m.codeToSlug
  {
    if rows != [] { AliasesInverse(m, rows[..|rows| - 1], upper); }
  }

  /** No alias gives another code to the slug of a static code. */
  predicate KeepsStaticSlugs(m: CompanyMaps) {
    forall code :: code in STATIC_CODES && STATIC_CODES[code] in m.slugToCode ==>
      m.slugToCode[STATIC_CODES[code]] == code
  }

  /** If and only if: without a company in the tables, codes and slugs are mutually inverse exactly when no alias gives
      another code to a static slug; aliases of their own are harmless. */
  lemma StaticInverseExactly(m: CompanyMaps)
    requires m.codes == [] && m.codeToSlug == map[]
    ensures Inverse(Merged(m)) <==> KeepsStaticSlugs(m)
  {
    var r := Merged(m);
    assert r.codeToSlug == STATIC_CODES;
    forall code | code in STATIC_CODES
      ensures STATIC_CODES[code] in r.slugToCode && STATIC_CODES[code] != "" && code != ""
      ensures r.slugToCode[STATIC_CODES[code]] == code
              <==> (STATIC_CODES[code] in m.slugToCode ==> m.slugToCode[STATIC_CODES[code]] == code)
    {
      StaticPaired(code);
    }
  }

  lemma StaticPaired(code: string)
    requires code in STATIC_CODES
    ensures STATIC_CODES[code] in STATIC_SLUGS && STATIC_SLUGS[STATIC_CODES[code]] == code
    ensures STATIC_CODES[code] != "" && code != ""
  {}

  lemma {:induction false} CompaniesWithoutCodes(rows: seq<CompanyRow>, upper: Upper)
    ensures Companies(rows, upper).codes == [] ==> Companies(rows, upper) == NO_MAPS
  {
    if rows != [] { CompaniesWithoutCodes(rows[..|rows| - 1], upper); }
  }

  /** With the maps of the proxy, the rewrite of a legacy target, when it exists, lands under the canonical slug of the
      company, where the legacy redirect answers null. Where the static maps apply, as with empty tables, no alias may
      take a static slug. */
  lemma LegacyLandsCanonical(companies: seq<CompanyRow>, aliases: seq<AliasRow>, site: Site, path: Path)
    requires Uppercases(site.upper) && DistinctSlugs(companies)
    requires var m := Aliases(Companies(companies, site.upper), aliases, site.upper);
             m.codes != [] || KeepsStaticSlugs(m)
    requires var maps := ProxyMaps(companies, aliases, site);
             LegacyRedirect(path, maps).Some? && CanonicalRewrite(LegacyRedirect(path, maps).value, maps).Some?
    ensures var maps := ProxyMaps(companies, aliases, site);
            var code := maps.slugToCode[path[1]];
            var t := CanonicalRewrite(LegacyRedirect(path, maps).value, maps).value;
            && code in maps.codeToSlug && t[..2] == ["companies", maps.codeToSlug[code]]
            && LegacyRedirect(t, maps).None?
  {
    MergedIsInverse(companies, aliases, site.upper);
    LegacyThenCanonical(path, ProxyMaps(companies, aliases, site));
  }

  lemma MergedIsInverse(companies: seq<CompanyRow>, aliases: seq<AliasRow>, upper: Upper)
    requires Uppercases(upper) && DistinctSlugs(companies)
    requires var m := Aliases(Companies(companies, upper), aliases, upper); m.codes != [] || KeepsStaticSlugs(m)
    ensures var r := Merged(Aliases(Companies(companies, upper), aliases, upper)); Inverse(r) && CodesUpper(r, upper)
  {
    var m := Companies(companies, upper);
    var all := Aliases(m, aliases, upper);
    CompaniesUpper(companies, upper);
    AliasesUpper(m, aliases, upper);
    MergedUpper(all, upper);
    CompaniesInverse(companies, upper);
    AliasesInverse(m, aliases, upper);
    AliasesKeepCodes(m, aliases, upper);
    CompaniesWithoutCodes(companies, upper);
    if all.codes == [] { StaticInverseExactly(all); }
  }

  lemma {:induction false} AliasesKeepCodes(m: CompanyMaps, rows: seq<AliasRow>, upper: Upper)
    ensures Aliases(m, rows, upper).codes == m.codes
  {
    if rows != [] { AliasesKeepCodes(m, rows[..|rows| - 1], upper); }
  }

  /** With empty tables a link to an agent page under the old name of a company lands on that page. */
  lemma OldNameLands(site: Site, agent: string, more: seq<string>)
    requires Uppercases(site.upper) && Lower("NEV") !in site.appRoots
    requires Filled(["agents", agent, "runs"] + more) && agent != "new"
    ensures var maps, page := ProxyMaps([], [], site), ["agents", agent, "runs"] + more;
            var target := LegacyRedirect(["companies", "weather-edge"] + page, maps);
            && target == Some(["NEV"] + page)
            && CanonicalRewrite(target.value, maps) == Some(["companies", "neveridle-core"] + page)
  {
    var maps := ProxyMaps([], [], site);
    assert maps.codeToSlug == STATIC_CODES && maps.slugToCode == STATIC_SLUGS;
    LegacyAgentLands("weather-edge", "neveridle-core", agent, "runs", more, maps);
  }
}
