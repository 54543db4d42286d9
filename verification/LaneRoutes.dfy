/** Restricting the lanes of an execution hive to the allowed runner providers. */
module LaneRoutes {
  import opened Text
  import opened Json
  import opened RunnerRoutes

  const PRIMARY := "primary"
  const FALLBACKS := "fallbacks"

  // ---- object fields

  function Get(fields: seq<Field>, key: string): Option<Json> {
    if fields == [] then None
    else if fields[0].key == key then Some(fields[0].value)
    else Get(fields[1..], key)
  }

  /** Assigning a property: in place, or at the end when it is new. */
  function Set(fields: seq<Field>, key: string, value: Json): seq<Field> {
    if fields == [] then [Field(key, value)]
    else if fields[0].key == key then [Field(key, value)] + fields[1..]
    else [fields[0]] + Set(fields[1..], key, value)
  }

  lemma {:induction false} GetSet(fields: seq<Field>, key: string, value: Json)
    ensures Get(Set(fields, key, value), key) == Some(value)
    ensures forall other :: other != key ==> Get(Set(fields, key, value), other) == Get(fields, other)
  {
    if fields != [] && fields[0].key != key { GetSet(fields[1..], key, value); }
  }

  /** The fields that the sanitiser never assigns. */
  function Others(fields: seq<Field>): seq<Field> {
    if fields == [] then []
    else (if fields[0].key == PRIMARY || fields[0].key == FALLBACKS then [] else [fields[0]]) + Others(fields[1..])
  }

  lemma {:induction false} SetKeepsOthers(fields: seq<Field>, key: string, value: Json)
    requires key == PRIMARY || key == FALLBACKS
    ensures Others(Set(fields, key, value)) == Others(fields)
  {
    if fields != [] && fields[0].key != key {
      SetKeepsOthers(fields[1..], key, value);
      assert Set(fields, key, value)[1..] == Set(fields[1..], key, value);
    }
  }

  // ---- route targets

  function TextAt(target: Json, key: string): Option<string> {
    if !target.Obj? || Get(target.fields, key).None? || !Get(target.fields, key).value.Str? then None
    else Some(Get(target.fields, key).value.text)
  }

  function FirstOf<T>(a: Option<T>, b: Option<T>): Option<T> { if a.Some? then a else b }

  /** `routeTargetProvider`; a missing target has none. */
  function TargetProvider(target: Option<Json>): Option<Provider> {
    if target.None? then None
    else
      FirstOf(Normalize(TextAt(target.value, "runtimeId")),
      FirstOf(Normalize(TextAt(target.value, "runtimeLabel")),
      FirstOf(Normalize(TextAt(target.value, "modelSourceId")),
              Normalize(TextAt(target.value, "modelSourceLabel")))))
  }

  /** The allowed providers, and the target that replaces any other. */
  datatype Rules = Rules(allowed: set<Provider>, target: Json)

  predicate Permitted(target: Option<Json>, r: Rules) {
    TargetProvider(target).Some? && TargetProvider(target).value in r.allowed
  }

  predicate Sound(r: Rules) { Permitted(Some(r.target), r) }

  function Label(p: Provider): string {
    match p
    case Anthropic => "Claude Code"
    case Gemini => "Gemini CLI"
    case Hermes => "Hermes"
    case Openclaw => "OpenClaw"
    case Codex => "Codex"
  }

  /** `routeTargetForProvider`. */
  function TargetFor(p: Provider): Json {
    Obj([Field("mode", Str("runtime_managed")), Field("runtimeId", Str(Name(p)))] +
        [Field("runtimeLabel", Str(Label(p))), Field("modelSourceId", Str("runtime-managed")),
         Field("modelSourceLabel", Str("Runtime managed")), Field("modelLabel", Str("Runtime default"))])
  }

  lemma GetSecond(a: Field, b: Field, rest: seq<Field>)
    requires a.key != b.key
    ensures Get([a, b] + rest, b.key) == Some(b.value)
  {
    assert ([a, b] + rest)[1..][0] == b;
  }

  /** The preferred provider's target is on that provider, so allowing the provider allows the target. */
  lemma TargetForProvider(p: Provider)
    ensures TargetProvider(Some(TargetFor(p))) == Some(p)
  {
    var fields := TargetFor(p).fields;
    GetSecond(fields[0], fields[1], fields[2..]);
    assert fields == [fields[0], fields[1]] + fields[2..];
    assert TextAt(TargetFor(p), "runtimeId") == Some(Name(p));
    NameNormalizes(p);
  }

  lemma {:induction false} GetField(fields: seq<Field>, i: nat)
    requires i < |fields| && forall j :: 0 <= j < i ==> fields[j].key != fields[i].key
    ensures Get(fields, fields[i].key) == Some(fields[i].value)
  {
    if i > 0 { GetField(fields[1..], i - 1); }
  }

  /** The target that is written for a provider, field by field. */
  lemma TargetColumns(p: Provider)
    ensures var t := TargetFor(p);
            && TextAt(t, "mode") == Some("runtime_managed") && TextAt(t, "runtimeId") == Some(Name(p))
            && TextAt(t, "runtimeLabel") == Some(
                 match p
                 case Anthropic => "Claude Code"
                 case Gemini => "Gemini CLI"
                 case Hermes => "Hermes"
                 case Openclaw => "OpenClaw"
                 case Codex => "Codex")
            && TextAt(t, "modelSourceId") == Some("runtime-managed")
            && TextAt(t, "modelSourceLabel") == Some("Runtime managed")
            && TextAt(t, "modelLabel") == Some("Runtime default")
  {
    FieldKept(p, 0);
    FieldKept(p, 1);
    FieldKept(p, 2);
    FieldKept(p, 3);
    FieldKept(p, 4);
    FieldKept(p, 5);
  }

  lemma FieldKept(p: Provider, i: nat)
    requires i < 6
    ensures var f := TargetFor(p).fields[i]; Get(TargetFor(p).fields, f.key) == Some(f.value)
  {
    KeysDiffer();
    GetField(TargetFor(p).fields, i);
  }

  lemma KeysDiffer()
    ensures "runtimeId" != "runtimeLabel" && "modelSourceId" != "modelSourceLabel" && "modelSourceId" != "modelLabel"
    ensures "modelSourceLabel" != "modelLabel"
  {
    assert "runtimeId"[7] != "runtimeLabel"[7] && "modelSourceId"[11] != "modelSourceLabel"[11];
    assert "modelSourceId"[5] != "modelLabel"[5] && "modelSourceLabel"[5] != "modelLabel"[5];
  }

  /** Which field of a target names its provider: the first of four that names any. */
  lemma TargetReads(t: Json)
    ensures var id, named := Normalize(TextAt(t, "runtimeId")), Normalize(TextAt(t, "runtimeLabel"));
            var source, shown := Normalize(TextAt(t, "modelSourceId")), Normalize(TextAt(t, "modelSourceLabel"));
            TargetProvider(Some(t)) == if id.Some? then id else if named.Some? then named
                                       else if source.Some? then source else shown
  {}

  function Kept(targets: seq<Json>, r: Rules): seq<Json> {
    if targets == [] then []
    else (if Permitted(Some(targets[0]), r) then [targets[0]] else []) + Kept(targets[1..], r)
  }

  lemma {:induction false} KeptExact(targets: seq<Json>, r: Rules)
    ensures |Kept(targets, r)| <= |targets|
    ensures forall t :: t in Kept(targets, r) <==> t in targets && Permitted(Some(t), r)
    ensures |Kept(targets, r)| == |targets| <==> forall t :: t in targets ==> Permitted(Some(t), r)
    ensures |Kept(targets, r)| == |targets| ==> Kept(targets, r) == targets
  {
    if targets != [] {
      KeptExact(targets[1..], r);
      assert targets == [targets[0]] + targets[1..];
    }
  }

  lemma {:induction false} KeptAppend(a: seq<Json>, t: Json, r: Rules)
    ensures Kept(a + [t], r) == Kept(a, r) + if Permitted(Some(t), r) then [t] else []
  {
    if a == [] {
      assert a + [t] == [t] && [t][1..] == [];
    } else {
      KeptAppend(a[1..], t, r);
      assert (a + [t])[1..] == a[1..] + [t];
    }
  }

  // ---- lanes

  function Fallbacks(fields: seq<Field>): seq<Json> {
    if HasFallbacks(fields) then Get(fields, FALLBACKS).value.items else []
  }

  predicate HasFallbacks(fields: seq<Field>) {
    Get(fields, FALLBACKS).Some? && Get(fields, FALLBACKS).value.Arr?
  }

  function WithPrimary(fields: seq<Field>, r: Rules): seq<Field> {
    if Permitted(Get(fields, PRIMARY), r) then fields else Set(fields, PRIMARY, r.target)
  }

  function WithFallbacks(fields: seq<Field>, r: Rules): seq<Field> {
    var kept := Kept(Fallbacks(fields), r);
    if |kept| != |Fallbacks(fields)| || !HasFallbacks(fields) then Set(fields, FALLBACKS, Arr(kept)) else fields
  }

  /** What becomes of one lane; a lane that is no object stays. */
  function NextLane(lane: Json, r: Rules): Json {
    if lane.Obj? then Obj(WithFallbacks(WithPrimary(lane.fields, r), r)) else lane
  }

  /** The primary route and every fallback, in a list, are on allowed providers. */
  ghost predicate LanePermitted(lane: Json, r: Rules) {
    lane.Obj? ==>
      && Permitted(Get(lane.fields, PRIMARY), r)
      && HasFallbacks(lane.fields) && forall t :: t in Fallbacks(lane.fields) ==> Permitted(Some(t), r)
  }

  function NextLanes(lanes: seq<Json>, r: Rules): (s: seq<Json>)
    ensures |s| == |lanes| && forall i :: 0 <= i < |s| ==> s[i] == NextLane(lanes[i], r)
  {
    seq(|lanes|, i requires 0 <= i < |lanes| => NextLane(lanes[i], r))
  }

  predicate ReroutesPrimary(lane: Json, r: Rules) {
    lane.Obj? && !Permitted(Get(lane.fields, PRIMARY), r)
  }

  function FallbacksIn(lane: Json): nat {
    if lane.Obj? then |Fallbacks(lane.fields)| else 0
  }

  function Rerouted(lanes: seq<Json>, r: Rules): nat {
    if lanes == [] then 0
    else Rerouted(lanes[..|lanes| - 1], r) + if ReroutesPrimary(lanes[|lanes| - 1], r) then 1 else 0
  }

  function FallbackCount(lanes: seq<Json>): nat {
    if lanes == [] then 0 else FallbackCount(lanes[..|lanes| - 1]) + FallbacksIn(lanes[|lanes| - 1])
  }

  datatype Outcome =
    | Rejected
    | Sanitized(lanes: seq<Json>, changed: bool, primaryRoutesRewritten: nat, fallbacksDropped: nat)

  /** `sanitizeLanesJson`; `parsed` is None when the text is no JSON. */
  method SanitizeLanes(parsed: Option<Json>, allowed: set<Provider>, preferred: Provider) returns (out: Outcome)
    requires preferred in allowed
    ensures out.Rejected? <==> parsed.None? || !parsed.value.Arr?
    ensures out.Sanitized? ==>
              var lanes, r := parsed.value.items, Rules(allowed, TargetFor(preferred));
              && out.lanes == NextLanes(lanes, r)
              && (out.changed <==> out.lanes != lanes)
              && out.primaryRoutesRewritten == Rerouted(lanes, r)
              && out.fallbacksDropped == FallbackCount(lanes) - FallbackCount(out.lanes)
  {
    if parsed.None? || !parsed.value.Arr? { return Rejected; }
    TargetForProvider(preferred);
    out := SanitizeAll(parsed.value.items, Rules(allowed, TargetFor(preferred)));
  }

  method SanitizeAll(lanes: seq<Json>, r: Rules) returns (out: Outcome)
    requires Sound(r)
    ensures out.Sanitized? && out.lanes == NextLanes(lanes, r) && (out.changed <==> out.lanes != lanes)
    ensures out.primaryRoutesRewritten == Rerouted(lanes, r)
    ensures out.fallbacksDropped == FallbackCount(lanes) - FallbackCount(out.lanes)
  {
    var next: seq<Json>, changed, rewritten, dropped := [], false, 0, 0;
    for i := 0 to |lanes|
      invariant SoFar(lanes[..i], next, changed, rewritten, dropped, r)
    {
      var nextLane, laneChanged, primary, gone := SanitizeLane(lanes[i], r);
      OneMore(lanes[..i], lanes[i], next, changed, rewritten, dropped, r);
      SliceNext(lanes, i);
      next := next + [nextLane];
      changed := changed || laneChanged;
      rewritten := rewritten + if primary then 1 else 0;
      dropped := dropped + gone;
    }
    assert lanes[..|lanes|] == lanes;
    out := Sanitized(next, changed, rewritten, dropped);
  }

  lemma SliceNext(lanes: seq<Json>, i: nat)
    requires i < |lanes|
    ensures lanes[..i + 1] == lanes[..i] + [lanes[i]]
  {}

  /** What holds after these lanes. */
  predicate SoFar(lanes: seq<Json>, next: seq<Json>, changed: bool, rewritten: nat, dropped: int, r: Rules) {
    && next == NextLanes(lanes, r) && (changed <==> next != lanes) && rewritten == Rerouted(lanes, r)
    && dropped == FallbackCount(lanes) - FallbackCount(next)
  }

  lemma OneMore(
    lanes: seq<Json>, lane: Json, next: seq<Json>, changed: bool, rewritten: nat, dropped: int, r: Rules
  )
    requires SoFar(lanes, next, changed, rewritten, dropped, r)
    ensures var after := NextLane(lane, r);
            SoFar(lanes + [lane], next + [after], changed || after != lane,
                  rewritten + (if ReroutesPrimary(lane, r) then 1 else 0),
                  dropped + (FallbacksIn(lane) - FallbacksIn(after)), r)
  {
    var after := NextLane(lane, r);
    LanesStep(lanes, lane, r);
    LanesStep(next, after, r);
    if next + [after] == lanes + [lane] {
      assert (next + [after])[..|lanes|] == (lanes + [lane])[..|lanes|];
      assert (next + [after])[|lanes|] == (lanes + [lane])[|lanes|];
    }
  }

  lemma LanesStep(lanes: seq<Json>, lane: Json, r: Rules)
    ensures NextLanes(lanes + [lane], r) == NextLanes(lanes, r) + [NextLane(lane, r)]
    ensures Rerouted(lanes + [lane], r) == Rerouted(lanes, r) + if ReroutesPrimary(lane, r) then 1 else 0
    ensures FallbackCount(lanes + [lane]) == FallbackCount(lanes) + FallbacksIn(lane)
  {
    assert (lanes + [lane])[..|lanes|] == lanes;
  }

  /** The body of the loop over lanes. */
  method SanitizeLane(lane: Json, r: Rules) returns (next: Json, changed: bool, rewritten: bool, dropped: nat)
    requires Sound(r)
    ensures next == NextLane(lane, r)
    ensures changed <==> next != lane
    ensures rewritten <==> ReroutesPrimary(lane, r)
    ensures dropped == FallbacksIn(lane) - FallbacksIn(next)
  {
    if !lane.Obj? { return lane, false, false, 0; }
    LaneChangedExactly(lane, r);
    changed, rewritten := false, false;
    var fields := lane.fields;
    if !Permitted(Get(fields, PRIMARY), r) {
      GetSet(fields, PRIMARY, r.target);
      fields := Set(fields, PRIMARY, r.target);
      changed, rewritten := true, true;
    }
    var fallbacks := Fallbacks(fields);
    var nextFallbacks;
    nextFallbacks, dropped := KeepPermitted(fallbacks, r);
    KeptExact(fallbacks, r);
    GetSet(fields, FALLBACKS, Arr(nextFallbacks));
    if |nextFallbacks| != |fallbacks| || !HasFallbacks(fields) {
      fields := Set(fields, FALLBACKS, Arr(nextFallbacks));
      changed := true;
    }
    next := Obj(fields);
  }

  method KeepPermitted(fallbacks: seq<Json>, r: Rules) returns (kept: seq<Json>, dropped: nat)
    ensures kept == Kept(fallbacks, r) && dropped == |fallbacks| - |kept|
  {
    kept, dropped := [], 0;
    for i := 0 to |fallbacks|
      invariant kept == Kept(fallbacks[..i], r) && dropped == i - |kept|
    {
      KeptAppend(fallbacks[..i], fallbacks[i], r);
      assert fallbacks[..i + 1] == fallbacks[..i] + [fallbacks[i]];
      if Permitted(Some(fallbacks[i]), r) { kept := kept + [fallbacks[i]]; } else { dropped := dropped + 1; }
    }
    assert fallbacks[..|fallbacks|] == fallbacks;
  }

  // ---- what the sanitiser achieves

  /** Every lane ends on allowed providers only. */
  lemma NextLanePermitted(lane: Json, r: Rules)
    requires Sound(r)
    ensures LanePermitted(NextLane(lane, r), r)
  {
    if lane.Obj? {
      var fields := WithPrimary(lane.fields, r);
      GetSet(lane.fields, PRIMARY, r.target);
      KeptExact(Fallbacks(fields), r);
      GetSet(fields, FALLBACKS, Arr(Kept(Fallbacks(fields), r)));
    }
  }

  /** A lane is changed exactly when something in it was not allowed; so a second pass changes nothing. */
  lemma LaneChangedExactly(lane: Json, r: Rules)
    requires Sound(r)
    ensures NextLane(lane, r) != lane <==> !LanePermitted(lane, r)
    ensures NextLane(NextLane(lane, r), r) == NextLane(lane, r)
  {
    NextLanePermitted(lane, r);
    if LanePermitted(lane, r) { PermittedStays(lane, r); }
    PermittedStays(NextLane(lane, r), r);
  }

  lemma PermittedStays(lane: Json, r: Rules)
    requires LanePermitted(lane, r)
    ensures NextLane(lane, r) == lane
  {
    if lane.Obj? { KeptExact(Fallbacks(lane.fields), r); }
  }

  /** The fields of a lane after the pass: `primary` as it was or the preferred target, `fallbacks` a list of the
      allowed ones, and every other field as it was. */
  lemma LaneColumns(lane: Json, r: Rules, key: string)
    requires lane.Obj?
    ensures NextLane(lane, r).Obj?
    ensures var was, now := Get(lane.fields, key), Get(NextLane(lane, r).fields, key);
            if key == "primary" then
              now == (if was.Some? && TargetProvider(was).Some? && TargetProvider(was).value in r.allowed then was
                      else Some(r.target))
            else if key == "fallbacks" then
              now == Some(Arr(Kept(if was.Some? && was.value.Arr? then was.value.items else [], r)))
            else now == was
  {
    var fields := WithPrimary(lane.fields, r);
    GetSet(lane.fields, "primary", r.target);
    KeptExact(Fallbacks(fields), r);
    GetSet(fields, "fallbacks", Arr(Kept(Fallbacks(fields), r)));
    if HasFallbacks(fields) { assert Get(fields, "fallbacks").value == Arr(Fallbacks(fields)); }
  }

  /** A lane keeps its other fields, its allowed primary route, and its allowed fallbacks in order. */
  lemma LaneKeeps(lane: Json, r: Rules)
    requires lane.Obj?
    ensures NextLane(lane, r).Obj?
    ensures Others(NextLane(lane, r).fields) == Others(lane.fields)
    ensures Permitted(Get(lane.fields, PRIMARY), r) ==>
            Get(NextLane(lane, r).fields, PRIMARY) == Get(lane.fields, PRIMARY)
    ensures Fallbacks(NextLane(lane, r).fields) == Kept(Fallbacks(lane.fields), r)
  {
    var fields := WithPrimary(lane.fields, r);
    var kept := Kept(Fallbacks(fields), r);
    GetSet(lane.fields, PRIMARY, r.target);
    GetSet(fields, FALLBACKS, Arr(kept));
    SetKeepsOthers(lane.fields, PRIMARY, r.target);
    SetKeepsOthers(fields, FALLBACKS, Arr(kept));
    KeptExact(Fallbacks(fields), r);
  }
}
