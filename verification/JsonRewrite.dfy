/** The path rewrite over whole JSON trees. */
module JsonRewrite {
  import opened Json
  import opened WorkspaceRewrite
  import opened RewriteLimits

  datatype Rewritten<T> = Rewritten(value: T, changed: bool)

  function RewriteJson(v: Json, ctx: Context): Rewritten<Json>
    decreases v, 0
  {
    match v
    case Str(s) =>
      var rewritten := RewriteString(s, ctx);
      Rewritten(Str(rewritten), rewritten != s)
    case Arr(items) =>
      var r := RewriteItems(items, ctx);
      Rewritten(if r.changed then Arr(r.value) else v, r.changed)
    case Obj(fields) =>
      var r := RewriteFields(fields, ctx);
      Rewritten(if r.changed then Obj(r.value) else v, r.changed)
    case _ => Rewritten(v, false)
  }

  function RewriteItems(items: seq<Json>, ctx: Context): Rewritten<seq<Json>>
    decreases items, 1
  {
    if items == [] then Rewritten([], false)
    else
      var first, rest := RewriteJson(items[0], ctx), RewriteItems(items[1..], ctx);
      Rewritten([first.value] + rest.value, first.changed || rest.changed)
  }

  function RewriteFields(fields: seq<Field>, ctx: Context): Rewritten<seq<Field>>
    decreases fields, 1
  {
    if fields == [] then Rewritten([], false)
    else
      var first, rest := RewriteJson(fields[0].value, ctx), RewriteFields(fields[1..], ctx);
      var copied := if fields[0].key == PROTO then [] else [Field(fields[0].key, first.value)];
      Rewritten(copied + rest.value, first.changed || rest.changed)
  }

  /** Every string in a tree, in order: `collectJsonStrings`. */
  function Strings(v: Json): seq<string>
    decreases v, 0
  {
    match v
    case Str(s) => [s]
    case Arr(items) => ItemStrings(items)
    case Obj(fields) => FieldStrings(fields)
    case _ => []
  }

  function ItemStrings(items: seq<Json>): seq<string>
    decreases items, 1
  {
    if items == [] then [] else Strings(items[0]) + ItemStrings(items[1..])
  }

  function FieldStrings(fields: seq<Field>): seq<string>
    decreases fields, 1
  {
    if fields == [] then [] else Strings(fields[0].value) + FieldStrings(fields[1..])
  }

  function RewriteAll(strings: seq<string>, ctx: Context): (r: seq<string>)
    ensures |r| == |strings| && forall i :: 0 <= i < |r| ==> r[i] == RewriteString(strings[i], ctx)
  {
    seq(|strings|, i requires 0 <= i < |strings| => RewriteString(strings[i], ctx))
  }

  /** No object of the tree has the key `__proto__`. */
  predicate Plain(v: Json)
    decreases v, 0
  {
    match v
    case Arr(items) => forall w :: w in items ==> Plain(w)
    case Obj(fields) => forall f :: f in fields ==> f.key != PROTO && Plain(f.value)
    case _ => true
  }

  // ---- changed is reported exactly when the tree differs

  lemma {:induction false} ChangedExactly(v: Json, ctx: Context)
    ensures RewriteJson(v, ctx).changed <==> RewriteJson(v, ctx).value != v
    decreases v, 0
  {
    match v
    case Arr(items) => ItemsChangedExactly(items, ctx);
    case Obj(fields) => FieldsChangedExactly(fields, ctx);
    case _ =>
  }

  lemma {:induction false} ItemsChangedExactly(items: seq<Json>, ctx: Context)
    ensures RewriteItems(items, ctx).changed <==> RewriteItems(items, ctx).value != items
    decreases items, 1
  {
    if items != [] {
      ChangedExactly(items[0], ctx);
      ItemsChangedExactly(items[1..], ctx);
      assert items == [items[0]] + items[1..];
      var r := RewriteItems(items, ctx).value;
      assert r[0] == RewriteJson(items[0], ctx).value && r[1..] == RewriteItems(items[1..], ctx).value;
    }
  }

  lemma {:induction false} FieldsChangedExactly(fields: seq<Field>, ctx: Context)
    ensures |RewriteFields(fields, ctx).value| <= |fields|
    ensures RewriteFields(fields, ctx).changed ==> RewriteFields(fields, ctx).value != fields
    ensures !RewriteFields(fields, ctx).changed && (forall f :: f in fields ==> f.key != PROTO) ==>
              RewriteFields(fields, ctx).value == fields
    decreases fields, 1
  {
    if fields != [] {
      var f, rest := fields[0], fields[1..];
      ChangedExactly(f.value, ctx);
      FieldsChangedExactly(rest, ctx);
      var r := RewriteFields(fields, ctx).value;
      assert fields == [f] + rest && f in fields;
      if f.key != PROTO {
        assert r[0] == Field(f.key, RewriteJson(f.value, ctx).value);
        assert r[1..] == RewriteFields(rest, ctx).value;
        assert r == fields ==> r[1..] == rest;
      }
    }
  }

  // ---- the strings of the result

  /** The strings that reach the result: all but those under a key `__proto__` that a rebuilt object drops. */
  function Surviving(v: Json, ctx: Context): seq<string>
    decreases v, 0
  {
    match v
    case Str(s) => [s]
    case Arr(items) => SurvivingItems(items, ctx)
    case Obj(fields) =>
      if RewriteFields(fields, ctx).changed then SurvivingFields(fields, ctx) else FieldStrings(fields)
    case _ => []
  }

  function SurvivingItems(items: seq<Json>, ctx: Context): seq<string>
    decreases items, 1
  {
    if items == [] then [] else Surviving(items[0], ctx) + SurvivingItems(items[1..], ctx)
  }

  function SurvivingFields(fields: seq<Field>, ctx: Context): seq<string>
    decreases fields, 1
  {
    if fields == [] then []
    else (if fields[0].key == PROTO then [] else Surviving(fields[0].value, ctx)) + SurvivingFields(fields[1..], ctx)
  }

  /** The result's strings are the rewrites of the surviving strings, in order. An unchanged tree has only strings
      that the rewrite fixes. */
  lemma {:induction false} StringsRewritten(v: Json, ctx: Context)
    ensures Strings(RewriteJson(v, ctx).value) == RewriteAll(Surviving(v, ctx), ctx)
    ensures !RewriteJson(v, ctx).changed ==> Strings(v) == RewriteAll(Strings(v), ctx)
    decreases v, 0
  {
    match v
    case Arr(items) => ItemStringsRewritten(items, ctx); ItemsChangedExactly(items, ctx);
    case Obj(fields) => FieldStringsRewritten(fields, ctx);
    case _ =>
  }

  lemma RewriteAllAppend(a: seq<string>, b: seq<string>, ctx: Context)
    ensures RewriteAll(a + b, ctx) == RewriteAll(a, ctx) + RewriteAll(b, ctx)
  {}

  lemma {:induction false} ItemStringsRewritten(items: seq<Json>, ctx: Context)
    ensures var r := RewriteItems(items, ctx);
            && ItemStrings(r.value) == RewriteAll(SurvivingItems(items, ctx), ctx)
            && (!r.changed ==> ItemStrings(items) == RewriteAll(ItemStrings(items), ctx))
    decreases items, 1
  {
    if items != [] {
      StringsRewritten(items[0], ctx);
      ItemStringsRewritten(items[1..], ctx);
      RewriteAllAppend(Surviving(items[0], ctx), SurvivingItems(items[1..], ctx), ctx);
      RewriteAllAppend(Strings(items[0]), ItemStrings(items[1..]), ctx);
      var r := RewriteItems(items, ctx).value;
      assert r[0] == RewriteJson(items[0], ctx).value && r[1..] == RewriteItems(items[1..], ctx).value;
    }
  }

  lemma {:induction false} FieldStringsRewritten(fields: seq<Field>, ctx: Context)
    ensures var r := RewriteFields(fields, ctx);
            && FieldStrings(r.value) == RewriteAll(SurvivingFields(fields, ctx), ctx)
            && (!r.changed ==> FieldStrings(fields) == RewriteAll(FieldStrings(fields), ctx))
    decreases fields, 1
  {
    if fields != [] {
      var f, rest := fields[0], fields[1..];
      StringsRewritten(f.value, ctx);
      FieldStringsRewritten(rest, ctx);
      RewriteAllAppend(Strings(f.value), FieldStrings(rest), ctx);
      RewriteAllAppend(Surviving(f.value, ctx), SurvivingFields(rest, ctx), ctx);
      var r := RewriteFields(fields, ctx).value;
      if f.key == PROTO {
        assert r == RewriteFields(rest, ctx).value;
        assert SurvivingFields(fields, ctx) == SurvivingFields(rest, ctx);
      } else {
        assert r[0].value == RewriteJson(f.value, ctx).value && r[1..] == RewriteFields(rest, ctx).value;
      }
    }
  }

  /** A tree without that key loses no string; no tree gains one. */
  lemma {:induction false} SurvivingAmong(v: Json, ctx: Context)
    ensures forall s :: s in Surviving(v, ctx) ==> s in Strings(v)
    ensures Plain(v) ==> Surviving(v, ctx) == Strings(v)
    decreases v, 0
  {
    match v
    case Arr(items) => SurvivingItemsAmong(items, ctx);
    case Obj(fields) => SurvivingFieldsAmong(fields, ctx);
    case _ =>
  }

  lemma {:induction false} SurvivingItemsAmong(items: seq<Json>, ctx: Context)
    ensures forall s :: s in SurvivingItems(items, ctx) ==> s in ItemStrings(items)
    ensures (forall w :: w in items ==> Plain(w)) ==> SurvivingItems(items, ctx) == ItemStrings(items)
    decreases items, 1
  {
    if items != [] {
      SurvivingAmong(items[0], ctx);
      SurvivingItemsAmong(items[1..], ctx);
      assert items[0] in items && forall w :: w in items[1..] ==> w in items;
    }
  }

  lemma {:induction false} SurvivingFieldsAmong(fields: seq<Field>, ctx: Context)
    ensures forall s :: s in SurvivingFields(fields, ctx) ==> s in FieldStrings(fields)
    ensures (forall f :: f in fields ==> f.key != PROTO && Plain(f.value)) ==>
            SurvivingFields(fields, ctx) == FieldStrings(fields)
    decreases fields, 1
  {
    if fields != [] {
      SurvivingAmong(fields[0].value, ctx);
      SurvivingFieldsAmong(fields[1..], ctx);
      assert fields[0] in fields && forall f :: f in fields[1..] ==> f in fields;
    }
  }

  // ---- shape

  /** The same tree up to the text of its strings: same scalars, array lengths and keys in order. */
  predicate SameShape(a: Json, b: Json)
    decreases a, 0
  {
    match a
    case Str(_) => b.Str?
    case Arr(items) => b.Arr? && SameShapes(items, b.items)
    case Obj(fields) => b.Obj? && SameFields(fields, b.fields)
    case _ => a == b
  }

  predicate SameShapes(a: seq<Json>, b: seq<Json>)
    decreases a, 1
  {
    if a == [] then b == [] else b != [] && SameShape(a[0], b[0]) && SameShapes(a[1..], b[1..])
  }

  predicate SameFields(a: seq<Field>, b: seq<Field>)
    decreases a, 1
  {
    if a == [] then b == []
    else b != [] && a[0].key == b[0].key && SameShape(a[0].value, b[0].value) && SameFields(a[1..], b[1..])
  }

  /** Some object that must be rebuilt has the key `__proto__`. */
  predicate LosesKey(v: Json, ctx: Context)
    decreases v
  {
    match v
    case Arr(items) => exists w :: w in items && LosesKey(w, ctx)
    case Obj(fields) =>
      || (RewriteFields(fields, ctx).changed && exists f :: f in fields && f.key == PROTO)
      || exists f :: f in fields && LosesKey(f.value, ctx)
    case _ => false
  }

  lemma {:induction false} SameShapeRefl(v: Json)
    ensures SameShape(v, v)
    decreases v, 0
  {
    match v
    case Arr(items) => SameShapesRefl(items);
    case Obj(fields) => SameFieldsRefl(fields);
    case _ =>
  }

  lemma {:induction false} SameShapesRefl(items: seq<Json>)
    ensures SameShapes(items, items)
    decreases items, 1
  {
    if items != [] { SameShapeRefl(items[0]); SameShapesRefl(items[1..]); }
  }

  lemma {:induction false} SameFieldsRefl(fields: seq<Field>)
    ensures SameFields(fields, fields)
    decreases fields, 1
  {
    if fields != [] { SameShapeRefl(fields[0].value); SameFieldsRefl(fields[1..]); }
  }

  lemma {:induction false} LosingMeansChanged(v: Json, ctx: Context)
    requires LosesKey(v, ctx)
    ensures RewriteJson(v, ctx).changed
    decreases v, 0
  {
    match v
    case Arr(items) =>
      var w :| w in items && LosesKey(w, ctx);
      LosingMeansChanged(w, ctx);
      ChangedItem(items, w, ctx);
    case Obj(fields) =>
      if !RewriteFields(fields, ctx).changed {
        var f :| f in fields && LosesKey(f.value, ctx);
        LosingMeansChanged(f.value, ctx);
        ChangedField(fields, f, ctx);
      }
    case _ =>
  }

  lemma {:induction false} ChangedItem(items: seq<Json>, w: Json, ctx: Context)
    requires w in items && RewriteJson(w, ctx).changed
    ensures RewriteItems(items, ctx).changed
  {
    if items[0] != w { ChangedItem(items[1..], w, ctx); }
  }

  lemma {:induction false} ChangedField(fields: seq<Field>, f: Field, ctx: Context)
    requires f in fields && RewriteJson(f.value, ctx).changed
    ensures RewriteFields(fields, ctx).changed
  {
    if fields[0] != f { ChangedField(fields[1..], f, ctx); }
  }

  /** Keys, array lengths and scalars survive exactly when no rebuilt object has the key `__proto__`. */
  lemma {:induction false} ShapeKeptExactly(v: Json, ctx: Context)
    ensures SameShape(v, RewriteJson(v, ctx).value) <==> !LosesKey(v, ctx)
    decreases v, 0
  {
    ChangedExactly(v, ctx);
    SameShapeRefl(v);
    if LosesKey(v, ctx) { LosingMeansChanged(v, ctx); }
    match v
    case Arr(items) => ItemsShapeKeptExactly(items, ctx);
    case Obj(fields) => FieldsShapeKeptExactly(fields, ctx);
    case _ =>
  }

  lemma {:induction false} ItemsShapeKeptExactly(items: seq<Json>, ctx: Context)
    ensures SameShapes(items, RewriteItems(items, ctx).value) <==> forall w :: w in items ==> !LosesKey(w, ctx)
    decreases items, 1
  {
    if items != [] {
      ShapeKeptExactly(items[0], ctx);
      ItemsShapeKeptExactly(items[1..], ctx);
      var r := RewriteItems(items, ctx).value;
      assert r[0] == RewriteJson(items[0], ctx).value && r[1..] == RewriteItems(items[1..], ctx).value;
      assert forall w :: w in items <==> w == items[0] || w in items[1..];
    }
  }

  lemma {:induction false} FieldsShapeKeptExactly(fields: seq<Field>, ctx: Context)
    ensures SameFields(fields, RewriteFields(fields, ctx).value)
            <==> forall f :: f in fields ==> f.key != PROTO && !LosesKey(f.value, ctx)
    decreases fields, 1
  {
    FieldsChangedExactly(fields, ctx);
    if fields != [] {
      var f, rest := fields[0], fields[1..];
      ShapeKeptExactly(f.value, ctx);
      FieldsShapeKeptExactly(rest, ctx);
      var r := RewriteFields(fields, ctx).value;
      assert forall g :: g in fields <==> g == f || g in rest;
      if f.key == PROTO {
        FieldsChangedExactly(rest, ctx);
        if SameFields(fields, r) { SameFieldsLength(fields, r); }
      } else {
        assert r[0] == Field(f.key, RewriteJson(f.value, ctx).value) && r[1..] == RewriteFields(rest, ctx).value;
      }
    }
  }

  lemma {:induction false} SameFieldsLength(a: seq<Field>, b: seq<Field>)
    requires SameFields(a, b)
    ensures |a| == |b|
  {
    if a != [] { SameFieldsLength(a[1..], b[1..]); }
  }

  // ---- main results

  ghost predicate HoldsOldRoot(v: Json, ctx: Context) {
    exists s :: s in Strings(v) && Stale(s, ctx)
  }

  /** Exactly when the rewrite leaves a string under a previous root: when a string that reaches the result is one of
      the two kinds that `KeepsOldRoot` names. */
  lemma {:induction false} OldRootsLeftExactly(v: Json, ctx: Context)
    requires WellPlaced(ctx)
    ensures HoldsOldRoot(RewriteJson(v, ctx).value, ctx) <==> exists s :: s in Surviving(v, ctx) && KeepsOldRoot(s, ctx)
  {
    var before := Surviving(v, ctx);
    StringsRewritten(v, ctx);
    forall i: nat | i < |before|
      ensures Stale(RewriteAll(before, ctx)[i], ctx) <==> KeepsOldRoot(before[i], ctx)
    {
      StaleExactly(before[i], ctx);
    }
    StaleAmong(before, RewriteAll(before, ctx), ctx);
  }

  lemma StaleAmong(before: seq<string>, after: seq<string>, ctx: Context)
    requires ctx.sourceRoot.Some? && |before| == |after|
    requires forall i: nat :: i < |before| ==> (Stale(after[i], ctx) <==> KeepsOldRoot(before[i], ctx))
    ensures (exists s :: s in after && Stale(s, ctx)) <==> exists s :: s in before && KeepsOldRoot(s, ctx)
  {
    if s :| s in after && Stale(s, ctx) {
      var i :| 0 <= i < |after| && after[i] == s;
      assert before[i] in before && KeepsOldRoot(before[i], ctx);
    }
    if s :| s in before && KeepsOldRoot(s, ctx) {
      var i :| 0 <= i < |before| && before[i] == s;
      assert after[i] in after && Stale(after[i], ctx);
    }
  }

  lemma {:induction false} FixedStringsFixTree(v: Json, ctx: Context)
    requires forall s :: s in Strings(v) ==> RewriteString(s, ctx) == s
    ensures RewriteJson(v, ctx) == Rewritten(v, false)
    decreases v, 0
  {
    match v
    case Str(s) => assert s in Strings(v);
    case Arr(items) => FixedStringsFixItems(items, ctx);
    case Obj(fields) => FixedStringsFixFields(fields, ctx);
    case _ =>
  }

  lemma {:induction false} FixedStringsFixItems(items: seq<Json>, ctx: Context)
    requires forall s :: s in ItemStrings(items) ==> RewriteString(s, ctx) == s
    ensures !RewriteItems(items, ctx).changed
    decreases items, 1
  {
    if items != [] { FixedStringsFixTree(items[0], ctx); FixedStringsFixItems(items[1..], ctx); }
  }

  lemma {:induction false} FixedStringsFixFields(fields: seq<Field>, ctx: Context)
    requires forall s :: s in FieldStrings(fields) ==> RewriteString(s, ctx) == s
    ensures !RewriteFields(fields, ctx).changed
    decreases fields, 1
  {
    if fields != [] { FixedStringsFixTree(fields[0].value, ctx); FixedStringsFixFields(fields[1..], ctx); }
  }

  /** A rewrite changes nothing and says so exactly when it fixes every string. */
  lemma FixedTreeExactly(v: Json, ctx: Context)
    ensures RewriteJson(v, ctx) == Rewritten(v, false) <==> forall s :: s in Strings(v) ==> RewriteString(s, ctx) == s
  {
    if RewriteJson(v, ctx) == Rewritten(v, false) {
      StringsRewritten(v, ctx);
      var all := Strings(v);
      forall i: nat | i < |all| ensures RewriteString(all[i], ctx) == all[i] {
        assert RewriteAll(all, ctx)[i] == all[i];
      }
    }
    if forall s :: s in Strings(v) ==> RewriteString(s, ctx) == s { FixedStringsFixTree(v, ctx); }
  }

  lemma FixedAmong(before: seq<string>, after: seq<string>, ctx: Context)
    requires ctx.sourceRoot.Some? && |before| == |after|
    requires forall i: nat :: i < |before| ==>
        (RewriteString(after[i], ctx) == after[i] <==> !MovesAgain(before[i], ctx))
    ensures (forall s :: s in after ==> RewriteString(s, ctx) == s) <==> forall s :: s in before ==> !MovesAgain(s, ctx)
  {
    if forall s :: s in after ==> RewriteString(s, ctx) == s {
      forall i: nat | i < |before| ensures !MovesAgain(before[i], ctx) { assert after[i] in after; }
    }
    if forall s :: s in before ==> !MovesAgain(s, ctx) {
      forall i: nat | i < |after| ensures RewriteString(after[i], ctx) == after[i] { assert before[i] in before; }
    }
  }

  /** A second pass changes nothing and says so, exactly when no string that reached the result is a bundled command
      whose arguments climb back to a place that is moved. */
  lemma SecondPassExactly(v: Json, ctx: Context)
    requires WellPlaced(ctx)
    ensures var once := RewriteJson(v, ctx).value;
            RewriteJson(once, ctx) == Rewritten(once, false)
            <==> forall s :: s in Surviving(v, ctx) ==> !MovesAgain(s, ctx)
  {
    var before := Surviving(v, ctx);
    StringsRewritten(v, ctx);
    forall i: nat | i < |before|
      ensures var out := RewriteAll(before, ctx)[i]; RewriteString(out, ctx) == out <==> !MovesAgain(before[i], ctx)
    {
      RewriteStringStable(before[i], ctx);
    }
    FixedAmong(before, RewriteAll(before, ctx), ctx);
    FixedTreeExactly(RewriteJson(v, ctx).value, ctx);
  }
}
