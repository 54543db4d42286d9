/** Restricting the agents and runtimes of the fixture companies to the allowed runner providers. */
module RunnerRoutes {
  import opened Text

  datatype Provider = Anthropic | Gemini | Hermes | Openclaw | Codex

  function Name(p: Provider): string {
    match p
    case Anthropic => "anthropic"
    case Gemini => "gemini"
    case Hermes => "hermes"
    case Openclaw => "openclaw"
    case Codex => "codex"
  }

  /** `normalizeRunnerProvider`. Trimming does not matter: no pattern holds white space. */
  function Normalize(value: Option<string>): Option<Provider> {
    if value.None? then None
    else
      var s := Lower(value.value);
      if Contains(s, "claude") || Contains(s, "anthropic") then Some(Anthropic)
      else if Contains(s, "gemini") || Contains(s, "google") then Some(Gemini)
      else if Contains(s, "hermes") then Some(Hermes)
      else if Contains(s, "openclaw") then Some(Openclaw)
      else if Contains(s, "codex") || Contains(s, "openai") then Some(Codex)
      else None
  }

  lemma ContainsItself(s: string)
    ensures Contains(s, s)
  {
    assert StartsWith(s[0..], s);
  }

  /** The canonical name of a provider normalises to that provider. */
  lemma NameNormalizes(p: Provider)
    ensures Normalize(Some(Name(p))) == Some(p)
  {
    LowerStays(Name(p));
    ContainsItself(Name(p));
    NameContainsNoOther(p);
  }

  lemma NotContained(s: string, part: string)
    requires part != "" && forall i :: 0 <= i <= |s| - |part| ==> s[i] != part[0]
    ensures !Contains(s, part)
  {
    forall i | 0 <= i <= |s| ensures !StartsWith(s[i..], part) {
      if |part| <= |s[i..]| { assert s[i..][..|part|][0] == s[i]; }
    }
  }

  lemma NameContainsNoOther(p: Provider)
    ensures p != Anthropic ==> !Contains(Name(p), "claude") && !Contains(Name(p), "anthropic")
    ensures p != Anthropic && p != Gemini ==> !Contains(Name(p), "gemini") && !Contains(Name(p), "google")
    ensures p == Openclaw || p == Codex ==> !Contains(Name(p), "hermes")
    ensures p == Codex ==> !Contains(Name(p), "openclaw")
  {
    match p
    case Anthropic =>
    case Gemini => NotContained("gemini", "claude"); NotContained("gemini", "anthropic");
    case Hermes => NotContained("hermes", "claude"); NotContained("hermes", "anthropic");
      NotContained("hermes", "gemini"); NotContained("hermes", "google");
    case Openclaw => NotContained("openclaw", "claude"); NotContained("openclaw", "anthropic");
      NotContained("openclaw", "gemini"); NotContained("openclaw", "google"); NotContained("openclaw", "hermes");
    case Codex => NotContained("codex", "claude"); NotContained("codex", "anthropic"); NotContained("codex", "gemini");
      NotContained("codex", "google"); NotContained("codex", "hermes"); NotContained("codex", "openclaw");
  }

  lemma LowerContains(s: string, before: string, part: string, after: string)
    requires Lower(s) == before + part + after
    ensures Contains(Lower(s), part)
  {
    assert Lower(s)[|before|..][..|part|] == part;
  }

  /** Each vendor's own name stands for its provider, whatever surrounds it and in either case, unless an earlier rule
      applies. */
  lemma VendorsNormalize(value: string, before: string, part: string, after: string)
    requires Lower(value) == before + part + after
    ensures part == "claude" || part == "anthropic" ==> Normalize(Some(value)) == Some(Anthropic)
    ensures part == "gemini" || part == "google" ==>
              Normalize(Some(value)) == Some(Gemini) || Normalize(Some(value)) == Some(Anthropic)
    ensures part == "codex" || part == "openai" ==>
              Normalize(Some(value)) == Some(Codex) || Contains(Lower(value), "claude")
              || Contains(Lower(value), "anthropic") || Contains(Lower(value), "gemini")
              || Contains(Lower(value), "google") || Contains(Lower(value), "hermes")
              || Contains(Lower(value), "openclaw")
  {
    LowerContains(value, before, part, after);
  }

  // ---- the tables

  datatype Agent = Agent(companyId: string, adapterType: Option<string>, model: Option<string>, updatedAt: string)

  datatype Runtime = Runtime(
    companyId: string, provider: string, slug: string, command: Option<string>, status: string,
    workspaceRoot: Option<string>, updatedAt: string)

  /** Rows by primary key. */
  type Agents = map<string, Agent>
  type Runtimes = map<string, Runtime>

  /** `command` is the bundled runner of the preferred provider, when a source root is given. */
  datatype Settings = Settings(
    companyIds: set<string>, allowed: set<Provider>, preferred: Provider,
    command: Option<string>, companyRoot: Option<string>, now: string)

  predicate Allows(s: Settings, value: Option<string>) {
    Normalize(value).Some? && Normalize(value).value in s.allowed
  }

  predicate Forbids(s: Settings, value: Option<string>) {
    Normalize(value).Some? && Normalize(value).value !in s.allowed
  }

  predicate KeepsAgent(s: Settings, a: Agent) {
    a.companyId !in s.companyIds || (Allows(s, a.adapterType) && !Forbids(s, a.model))
  }

  function RerouteAgent(s: Settings, a: Agent): Agent {
    a.(adapterType := Some(Name(s.preferred)), model := None, updatedAt := s.now)
  }

  predicate KeepsRuntime(s: Settings, r: Runtime) {
    r.companyId !in s.companyIds || Allows(s, Some(r.provider))
  }

  function Reroute(s: Settings, r: Runtime): Runtime {
    r.(provider := Name(s.preferred), command := if s.command.Some? then s.command else r.command, status := "online",
       workspaceRoot := if s.companyRoot.Some? then s.companyRoot else r.workspaceRoot, updatedAt := s.now)
  }

  /** `UNIQUE(company_id, provider, runtime_slug)`. */
  predicate SameKey(a: Runtime, b: Runtime) {
    a.companyId == b.companyId && a.provider == b.provider && a.slug == b.slug
  }

  ghost predicate UniqueKeys(rows: Runtimes) {
    forall i, j :: i in rows && j in rows && i != j ==> !SameKey(rows[i], rows[j])
  }

  /** Another row already has the key that row `id` would get. */
  predicate Conflict(rows: Runtimes, id: string, s: Settings)
    requires id in rows
  {
    exists j :: j in rows && j != id && SameKey(rows[j], Reroute(s, rows[id]))
  }

  /** What becomes of one row. */
  ghost predicate Settled(before: Runtimes, after: Runtimes, id: string, s: Settings)
    requires id in before
  {
    if KeepsRuntime(s, before[id]) then id in after && after[id] == before[id]
    else if id in after then after[id] == Reroute(s, before[id])
    else exists j :: j in after && SameKey(after[j], Reroute(s, before[id]))
  }

  ghost predicate Sanitized(before: Runtimes, after: Runtimes, s: Settings) {
    && UniqueKeys(after)
    && after.Keys <= before.Keys
    && forall id :: id in before ==> Settled(before, after, id, s)
  }

  ghost function Disallowed(rows: Runtimes, s: Settings): set<string> {
    set id | id in rows && !KeepsRuntime(s, rows[id])
  }

  ghost predicate AgentsSanitized(before: Agents, after: Agents, s: Settings) {
    && after.Keys == before.Keys
    && forall id :: id in before ==>
        after[id] == if KeepsAgent(s, before[id]) then before[id] else RerouteAgent(s, before[id])
  }

  ghost function Rerouted(agents: Agents, s: Settings): set<string> {
    set id | id in agents && !KeepsAgent(s, agents[id])
  }

  ghost function RoutedModels(agents: Agents, s: Settings): set<string> {
    set id | id in agents && !KeepsAgent(s, agents[id]) && HasModel(agents[id])
  }

  datatype Summary = Summary(agentsUpdated: nat, modelsCleared: nat, updated: nat, deleted: nat)

  class FixtureTables {
    var agents: Agents
    var runtimes: Runtimes

    constructor (agents: Agents, runtimes: Runtimes)
      ensures this.agents == agents && this.runtimes == runtimes
    {
      this.agents, this.runtimes := agents, runtimes;
    }

    /** One row of the second loop: delete it when its new key is taken, else rename it. */
    method SanitizeRuntime(id: string, s: Settings) returns (deleted: bool)
      requires id in runtimes && UniqueKeys(runtimes)
      modifies this`runtimes
      ensures deleted == Conflict(old(runtimes), id, s)
      ensures runtimes == if deleted then old(runtimes) - {id} else old(runtimes)[id := Reroute(s, old(runtimes)[id])]
      ensures UniqueKeys(runtimes)
    {
      deleted := exists j :: j in runtimes && j != id && SameKey(runtimes[j], Reroute(s, runtimes[id]));
      if deleted {
        runtimes := runtimes - {id};
      } else {
        runtimes := runtimes[id := Reroute(s, runtimes[id])];
      }
    }

    method SanitizeRuntimes(s: Settings) returns (updated: nat, deleted: nat)
      requires UniqueKeys(runtimes) && s.preferred in s.allowed
      modifies this`runtimes
      ensures Sanitized(old(runtimes), runtimes, s)
      ensures deleted == |old(runtimes)| - |runtimes|
      ensures updated + deleted == |Disallowed(old(runtimes), s)|
    {
      ghost var before := runtimes;
      var todo := set id | id in runtimes && runtimes[id].companyId in s.companyIds;
      ghost var done: set<string> := {};
      updated, deleted := 0, 0;
      while todo != {}
        invariant todo <= runtimes.Keys <= before.Keys && todo !! done
        invariant UniqueKeys(runtimes)
        invariant forall id :: id in before && id !in todo && id !in done ==>
                    KeepsRuntime(s, before[id]) && id in runtimes && runtimes[id] == before[id]
        invariant forall id :: id in todo ==> runtimes[id] == before[id]
        invariant done <= before.Keys && forall id :: id in done ==>
            !KeepsRuntime(s, before[id]) && Settled(before, runtimes, id, s)
        invariant updated + deleted == |done| && deleted == |before| - |runtimes|
        decreases todo
      {
        var id :| id in todo;
        todo := todo - {id};
        if Allows(s, Some(runtimes[id].provider)) { continue; }
        ghost var mid := runtimes;
        var dropped := SanitizeRuntime(id, s);
        SettledSurvive(before, mid, runtimes, id, done, s);
        done := done + {id};
        if dropped { deleted := deleted + 1; } else { updated := updated + 1; }
      }
      assert done == Disallowed(before, s);
    }

    method SanitizeAgents(s: Settings) returns (updated: nat, cleared: nat)
      modifies this`agents
      ensures AgentsSanitized(old(agents), agents, s)
      ensures updated == |Rerouted(old(agents), s)| && cleared == |RoutedModels(old(agents), s)|
    {
      ghost var before := agents;
      var todo := set id | id in agents && agents[id].companyId in s.companyIds;
      ghost var done: set<string> := {};
      ghost var withModel: set<string> := {};
      updated, cleared := 0, 0;
      while todo != {}
        invariant agents.Keys == before.Keys && todo <= before.Keys && todo !! done
        invariant forall id :: id in before && id !in todo && id !in done ==> KeepsAgent(s, before[id])
        invariant forall id :: id in before ==>
            agents[id] == if id in done then RerouteAgent(s, before[id]) else before[id]
        invariant done <= before.Keys && forall id :: id in done ==> !KeepsAgent(s, before[id])
        invariant forall id :: id in withModel <==> id in done && HasModel(before[id])
        invariant updated == |done| && cleared == |withModel|
        decreases todo
      {
        var id :| id in todo;
        todo := todo - {id};
        if Allows(s, agents[id].adapterType) && !Forbids(s, agents[id].model) { continue; }
        if HasModel(agents[id]) {
          cleared := cleared + 1;
          withModel := withModel + {id};
        }
        agents := agents[id := RerouteAgent(s, agents[id])];
        updated := updated + 1;
        done := done + {id};
      }
      assert done == Rerouted(before, s);
      assert withModel == RoutedModels(before, s);
    }

    /** `sanitizeFixtureCompanyRunnerRoutes`. A company list without agents ends the work before the runtimes. */
    method SanitizeRoutes(s: Settings) returns (summary: Summary)
      requires UniqueKeys(runtimes) && s.preferred in s.allowed
      modifies this
      ensures UniqueKeys(runtimes)
      ensures HasAgents(old(agents), s) ==>
              AgentsSanitized(old(agents), agents, s) && Sanitized(old(runtimes), runtimes, s)
      ensures HasAgents(old(agents), s) ==>
                && summary.agentsUpdated == |Rerouted(old(agents), s)|
                && summary.modelsCleared == |RoutedModels(old(agents), s)|
      ensures HasAgents(old(agents), s) ==> summary.updated + summary.deleted == |Disallowed(old(runtimes), s)|
      ensures !HasAgents(old(agents), s) ==>
              agents == old(agents) && runtimes == old(runtimes) && summary == Summary(0, 0, 0, 0)
      ensures AllAllowed(runtimes, s) <==> HasAgents(old(agents), s) || AllAllowed(old(runtimes), s)
    {
      if !(exists id :: id in agents && agents[id].companyId in s.companyIds) {
        return Summary(0, 0, 0, 0);
      }
      ghost var before := runtimes;
      var agentsUpdated, modelsCleared := SanitizeAgents(s);
      var updated, deleted := SanitizeRuntimes(s);
      SanitizedAllAllowed(before, runtimes, s);
      summary := Summary(agentsUpdated, modelsCleared, updated, deleted);
    }
  }

  predicate HasModel(a: Agent) {
    a.model.Some? && a.model.value != ""
  }

  predicate HasAgents(agents: Agents, s: Settings) {
    exists id :: id in agents && agents[id].companyId in s.companyIds
  }

  ghost predicate AllAllowed(rows: Runtimes, s: Settings) {
    forall id :: id in rows ==> KeepsRuntime(s, rows[id])
  }

  /** Settling one more row leaves the rows settled before it settled. */
  lemma SettledSurvive(before: Runtimes, mid: Runtimes, after: Runtimes, id: string, done: set<string>, s: Settings)
    requires id in before && id in mid && mid[id] == before[id] && id !in done && !KeepsRuntime(s, before[id])
    requires s.preferred in s.allowed
    requires done <= before.Keys && forall d :: d in done ==> !KeepsRuntime(s, before[d]) && Settled(before, mid, d, s)
    requires after == if Conflict(mid, id, s) then mid - {id} else mid[id := Reroute(s, mid[id])]
    ensures forall d :: d in done + {id} ==> Settled(before, after, d, s)
  {
    NameNormalizes(s.preferred);
    forall d | d in done && d !in mid ensures Settled(before, after, d, s) {
      var j :| j in mid && SameKey(mid[j], Reroute(s, before[d]));
      assert j != id;
      assert j in after && SameKey(after[j], Reroute(s, before[d]));
    }
    if Conflict(mid, id, s) {
      var j :| j in mid && j != id && SameKey(mid[j], Reroute(s, mid[id]));
      assert j in after;
    }
  }

  /** Every runtime of the fixture companies ends on an allowed provider. */
  lemma SanitizedAllAllowed(before: Runtimes, after: Runtimes, s: Settings)
    requires Sanitized(before, after, s) && s.preferred in s.allowed
    ensures AllAllowed(after, s)
  {
    NameNormalizes(s.preferred);
    forall id | id in after ensures KeepsRuntime(s, after[id]) {
      assert id in before && Settled(before, after, id, s);
    }
  }

  /** Every agent of the fixture companies ends on an allowed adapter, with no model of a forbidden provider. */
  lemma AgentsAllAllowed(before: Agents, after: Agents, s: Settings)
    requires AgentsSanitized(before, after, s) && s.preferred in s.allowed
    ensures forall id :: id in after ==> KeepsAgent(s, after[id])
  {
    NameNormalizes(s.preferred);
  }

  /** The columns of every runtime after the pass, one by one: a runtime of another company or on an allowed provider
      stays as it is. Every other one runs the preferred provider online, with its command and the company's workspace
      when they are given, unless a runtime with its company and slug is already on the preferred provider. */
  lemma RuntimeColumns(before: Runtimes, after: Runtimes, s: Settings, id: string)
    requires Sanitized(before, after, s) && id in before
    ensures var r := before[id];
            if r.companyId !in s.companyIds
               || (Normalize(Some(r.provider)).Some? && Normalize(Some(r.provider)).value in s.allowed)
            then id in after && after[id] == r
            else if id in after then
              && after[id].companyId == r.companyId && after[id].slug == r.slug
              && after[id].provider == Name(s.preferred) && after[id].status == "online" && after[id].updatedAt == s.now
              && (s.command.Some? ==> after[id].command == s.command)
              && (s.command.None? ==> after[id].command == r.command)
              && (s.companyRoot.Some? ==> after[id].workspaceRoot == s.companyRoot)
              && (s.companyRoot.None? ==> after[id].workspaceRoot == r.workspaceRoot)
            else exists j :: j in after && after[j].companyId == r.companyId && after[j].slug == r.slug
                             && after[j].provider == Name(s.preferred)
  {
    assert Settled(before, after, id, s);
  }

  /** The columns of every agent after the pass. */
  lemma AgentColumns(before: Agents, after: Agents, s: Settings, id: string)
    requires AgentsSanitized(before, after, s) && id in before
    ensures var a := before[id];
            var adapter, model := Normalize(a.adapterType), Normalize(a.model);
            && id in after && after[id].companyId == a.companyId
            && (if a.companyId !in s.companyIds
                   || (adapter.Some? && adapter.value in s.allowed && (model.None? || model.value in s.allowed))
                then after[id] == a
                else after[id].adapterType == Some(Name(s.preferred)) && after[id].model == None
                     && after[id].updatedAt == s.now)
  {}

  /** Which agents the two counts count: those that do not stay as they are, and of them those with a model. */
  lemma CountedAgents(agents: Agents, s: Settings, id: string)
    requires id in agents
    ensures var a := agents[id];
            var adapter, model := Normalize(a.adapterType), Normalize(a.model);
            && (id in Rerouted(agents, s) <==>
                  a.companyId in s.companyIds
                  && (adapter.None? || adapter.value !in s.allowed || (model.Some? && model.value !in s.allowed)))
            && (id in RoutedModels(agents, s) <==> id in Rerouted(agents, s) && a.model != None && a.model != Some(""))
  {}

  /** No company loses a runtime slug: a slug with a disallowed runtime has exactly one on the preferred provider,
      and every other slug keeps its rows. */
  lemma SlugsSurvive(before: Runtimes, after: Runtimes, s: Settings, id: string)
    requires Sanitized(before, after, s) && id in before
    ensures exists j :: j in after && after[j].companyId == before[id].companyId && after[j].slug == before[id].slug
    ensures !KeepsRuntime(s, before[id]) ==>
              exists j :: && j in after && SameKey(after[j], Reroute(s, before[id]))
                          && forall k :: k in after && SameKey(after[k], Reroute(s, before[id])) ==> k == j
  {
    assert Settled(before, after, id, s);
    if !KeepsRuntime(s, before[id]) {
      var j :| j in after && SameKey(after[j], Reroute(s, before[id]));
      forall k | k in after && SameKey(after[k], Reroute(s, before[id])) ensures k == j {
        assert SameKey(after[k], after[j]);
      }
    }
  }

  /** Runtimes of other companies are not touched, and a second pass finds nothing to do. */
  lemma OthersUntouched(before: Runtimes, after: Runtimes, s: Settings)
    requires Sanitized(before, after, s) && s.preferred in s.allowed
    ensures forall id :: id in before && before[id].companyId !in s.companyIds ==>
            id in after && after[id] == before[id]
    ensures forall again :: Sanitized(after, again, s) ==> again == after
  {
    SanitizedAllAllowed(before, after, s);
    forall id | id in before && before[id].companyId !in s.companyIds ensures id in after && after[id] == before[id] {
      assert Settled(before, after, id, s);
    }
    forall again | Sanitized(after, again, s) ensures again == after {
      forall id | id in after ensures id in again && again[id] == after[id] { assert Settled(after, again, id, s); }
    }
  }
}
