/** Records of the ideas store: their coercion to columns, and the split into columns and extra keys. */
module IdeasRecords {
  import opened Text
  import Json

  /** A JavaScript value; a record holds its keys in no order. */
  datatype JsValue =
    | Undefined
    | Null
    | Bool(flag: bool)
    | Number(amount: real)
    | Str(text: string)
    | List(items: seq<JsValue>)
    | Record(fields: map<string, JsValue>)

  type Fields = map<string, JsValue>

  /** `String(v)`, and `Number(v)` unless it is not finite, of values that are no text and no number. */
  datatype Coercion = Coercion(text: JsValue -> string, number: JsValue -> Option<real>)

  function At(fields: Fields, key: string): JsValue {
    if key in fields then fields[key] else Undefined
  }

  /** `toStringValue`. */
  function ToText(v: JsValue, fallback: string, c: Coercion): string {
    match v
    case Str(text) => text
    case Undefined => fallback
    case Null => fallback
    case _ => c.text(v)
  }

  /** `toNumberValue`. */
  function ToNumber(v: JsValue, c: Coercion): real {
    if v.Number? then v.amount
    else if c.number(v).Some? then c.number(v).value
    else 0.0
  }

  // ---- columns

  /** A text with its default, a date that may be absent, a number, and a number that may be absent. */
  datatype Column = Text(fallback: string) | Date | Amount | OptionalAmount

  type Schema = map<string, Column>

  /** What a write stores in a column. */
  function Saved(column: Column, v: JsValue, c: Coercion): JsValue {
    match column
    case Text(fallback) => Str(ToText(v, fallback, c))
    case Date => if ToText(v, "", c) == "" then Null else Str(ToText(v, "", c))
    case Amount => Number(ToNumber(v, c))
    case OptionalAmount => if v.Undefined? || v.Null? then Null else Number(ToNumber(v, c))
  }

  /** What a read makes of it. */
  function Shown(column: Column, v: JsValue): JsValue {
    match column
    case Date => if v.Null? then Str("") else v
    case OptionalAmount => if v.Null? then Undefined else v
    case _ => v
  }

  predicate Fits(column: Column, v: JsValue) {
    match column
    case Text(_) => v.Str?
    case Date => v.Null? || (v.Str? && v.text != "")
    case Amount => v.Number?
    case OptionalAmount => v.Null? || v.Number?
  }

  lemma SavedFits(column: Column, v: JsValue, c: Coercion)
    ensures Fits(column, Saved(column, v, c))
  {}

  /** A column value survives being read and written back. */
  lemma ShownSaved(column: Column, v: JsValue, c: Coercion)
    requires Fits(column, v)
    ensures Saved(column, Shown(column, v), c) == v
  {}

  function SavedColumns(schema: Schema, record: Fields, c: Coercion): Fields {
    map k | k in schema :: Saved(schema[k], At(record, k), c)
  }

  function ShownColumns(schema: Schema, columns: Fields): Fields {
    map k | k in schema :: Shown(schema[k], At(columns, k))
  }

  predicate FitsAll(schema: Schema, columns: Fields) {
    columns.Keys == schema.Keys && forall k :: k in schema ==> Fits(schema[k], At(columns, k))
  }

  lemma SavedColumnsFit(schema: Schema, record: Fields, c: Coercion)
    ensures FitsAll(schema, SavedColumns(schema, record, c))
  {
    forall k | k in schema ensures Fits(schema[k], SavedColumns(schema, record, c)[k]) {
      SavedFits(schema[k], At(record, k), c);
    }
  }

  // ---- records and extra keys

  /** `columns` are the columns, `own` the other keys that a read sets, and `known` the keys that a write takes for
      columns and does not keep as extra ones. */
  datatype Layout = Layout(columns: Schema, own: set<string>, known: set<string>)
  {
    /** The keys that a read overwrites. */
    function Overwritten(): set<string> { columns.Keys + own }

    /** The keys that a write does not keep as extra ones. */
    function Dropped(): set<string> { known + {Json.PROTO} }

    predicate Aligned() { known == Overwritten() && columns.Keys !! own }
  }

  /** The record that a read builds: the extra keys, then the columns and the other keys over them. */
  function Merged(layout: Layout, extra: Fields, columns: Fields, own: Fields): Fields {
    extra + ShownColumns(layout.columns, columns) + own
  }

  function ExtraOf(layout: Layout, record: Fields): Fields {
    record - layout.Dropped()
  }

  /** `extra[key] = value`, which sets the prototype for one key. */
  function Assigned(fields: Fields, key: string, value: JsValue): Fields {
    if key == Json.PROTO then fields else fields[key := value]
  }

  /** `toExtraFields`. */
  method ToExtraFields(source: Fields, layout: Layout) returns (extra: Fields)
    ensures extra == ExtraOf(layout, source)
  {
    extra := map[];
    var todo := source.Keys;
    while todo != {}
      invariant todo <= source.Keys
      invariant extra == source - layout.Dropped() - todo
      decreases todo
    {
      var key :| key in todo;
      todo := todo - {key};
      if key !in layout.known { extra := Assigned(extra, key, source[key]); }
    }
  }

  lemma MergedExtra(layout: Layout, extra: Fields, columns: Fields, own: Fields)
    requires layout.Dropped() == layout.Overwritten() + {Json.PROTO}
    requires own.Keys == layout.own && extra.Keys !! layout.Dropped()
    ensures ExtraOf(layout, Merged(layout, extra, columns, own)) == extra
  {}

  /** Reading and writing back a row keeps its columns and its extra keys. */
  lemma RowKept(layout: Layout, extra: Fields, columns: Fields, own: Fields, c: Coercion)
    requires layout.Aligned() && own.Keys == layout.own
    requires extra.Keys !! layout.Dropped() && FitsAll(layout.columns, columns)
    ensures var record := Merged(layout, extra, columns, own);
            && ExtraOf(layout, record) == extra
            && SavedColumns(layout.columns, record, c) == columns
            && forall k :: k in own ==> At(record, k) == own[k]
  {
    var record := Merged(layout, extra, columns, own);
    MergedExtra(layout, extra, columns, own);
    forall k | k in layout.columns ensures Saved(layout.columns[k], At(record, k), c) == columns[k] {
      ShownSaved(layout.columns[k], columns[k], c);
    }
  }

  /** Rows whose extra keys a write can store, and which are no columns, keep them through every read and write-back. */
  ghost predicate KeepsRows(layout: Layout) {
    forall extra: Fields, columns: Fields, own: Fields
      | extra.Keys !! layout.Overwritten() + {Json.PROTO} && own.Keys == layout.own ::
      ExtraOf(layout, Merged(layout, extra, columns, own)) == extra
  }

  /** Writing the record loses no key that a read does not set. */
  ghost predicate KeepsKeys(layout: Layout, record: Fields) {
    forall columns: Fields, own: Fields | own.Keys == layout.own ::
      forall k :: k in record && k !in layout.Overwritten() ==>
        var read := Merged(layout, ExtraOf(layout, record), columns, own); k in read && read[k] == record[k]
  }

  lemma MergedKey(layout: Layout, extra: Fields, columns: Fields, own: Fields, k: string)
    requires own.Keys == layout.own
    ensures k in Merged(layout, extra, columns, own) <==> k in extra || k in layout.Overwritten()
    ensures k !in layout.Overwritten() ==> At(Merged(layout, extra, columns, own), k) == At(extra, k)
  {}

  function Blank(keys: set<string>): Fields {
    map k | k in keys :: Null
  }

  /** If and only if: rows keep their extra keys exactly when the list of known keys is the keys that a read overwrites,
      the one key aside that no write stores: a known key that is never read is lost, and a key that is read but not
      known piles up among the extra ones. */
  lemma KeepsRowsExactly(layout: Layout)
    ensures KeepsRows(layout) <==> layout.Dropped() == layout.Overwritten() + {Json.PROTO}
  {
    var kept := layout.Overwritten() + {Json.PROTO};
    var own := Blank(layout.own);
    if KeepsRows(layout) {
      forall k ensures k in layout.Dropped() <==> k in kept {
        var extra: Fields := if k in kept then map[] else map[k := Null];
        assert ExtraOf(layout, Merged(layout, extra, map[], own)) == extra;
        MergedKey(layout, extra, map[], own, k);
      }
    }
    if layout.Dropped() == kept {
      forall extra: Fields, columns: Fields, own: Fields | extra.Keys !! kept && own.Keys == layout.own
        ensures ExtraOf(layout, Merged(layout, extra, columns, own)) == extra
      {
        MergedExtra(layout, extra, columns, own);
      }
    }
  }

  /** If and only if: writing a record loses none of these keys exactly when every key of it that a write does not keep
      is one that a read sets. */
  lemma KeepsKeysExactly(layout: Layout, record: Fields)
    ensures KeepsKeys(layout, record) <==> record.Keys * layout.Dropped() <= layout.Overwritten()
  {
    var extra, blank := ExtraOf(layout, record), Blank(layout.own);
    if KeepsKeys(layout, record) {
      forall k | k in record && k in layout.Dropped() ensures k in layout.Overwritten() {
        MergedKey(layout, extra, map[], blank, k);
        assert k !in layout.Overwritten() ==> k in Merged(layout, extra, map[], blank);
      }
    }
    if record.Keys * layout.Dropped() <= layout.Overwritten() {
      forall columns: Fields, own: Fields, k | own.Keys == layout.own && k in record && k !in layout.Overwritten()
        ensures var read := Merged(layout, extra, columns, own); k in read && read[k] == record[k]
      {
        MergedKey(layout, extra, columns, own, k);
      }
    }
  }

  /** A write loses a key exactly when the record has the key that sets the prototype. */
  ghost predicate LosesProtoOnly(layout: Layout) {
    forall record: Fields :: KeepsKeys(layout, record) <==> Json.PROTO !in record
  }

  /** If and only if: with aligned lists, the one key that a write can lose is the one that sets the prototype. */
  lemma LosesProtoOnlyExactly(layout: Layout)
    requires layout.Aligned()
    ensures LosesProtoOnly(layout) <==> Json.PROTO !in layout.Overwritten()
  {
    forall record: Fields
      ensures KeepsKeys(layout, record) <==> (Json.PROTO in record ==> Json.PROTO in layout.Overwritten())
    {
      KeepsKeysExactly(layout, record);
    }
    assert KeepsKeys(layout, map[Json.PROTO := Null]) <==> Json.PROTO in layout.Overwritten();
  }

  // ---- the two layouts of the program

  const REVIEW_FIELDS: set<string> := {
    "id", "type", "url", "title", "channel", "thumbnail", "duration", "reviewed_at", "submitted_by", "status",
    "summary", "assessment", "rating", "screenshot_count", "takeaways"
  }

  const TAKEAWAY_FIELDS: set<string> := {
    "id", "title", "description", "video_timestamp", "video_url", "video_context", "priority", "effort",
    "assigned_to", "status", "notes", "github_issue"
  }

  function ReviewLayout(): Layout {
    Layout(
      map[
        "type" := Text("manual"), "url" := Text(""), "title" := Text(""), "channel" := Text(""),
        "thumbnail" := Text(""), "duration" := Text(""), "reviewed_at" := Date, "submitted_by" := Text(""),
        "status" := Text("active"), "summary" := Text(""), "assessment" := Text(""), "rating" := Amount,
        "screenshot_count" := OptionalAmount],
      {"id", "takeaways"}, REVIEW_FIELDS)
  }

  function TakeawayLayout(): Layout {
    Layout(
      map[
        "title" := Text(""), "description" := Text(""), "video_timestamp" := Text(""), "video_url" := Text(""),
        "video_context" := Text(""), "priority" := Text(""), "effort" := Text(""), "assigned_to" := Text(""),
        "status" := Text("idea"), "notes" := Text(""), "github_issue" := Text("")],
      {"id"}, TAKEAWAY_FIELDS)
  }

  /** What a write stores in a column of a review whose key is absent. */
  lemma ReviewDefault(key: string, c: Coercion)
    requires key in ReviewLayout().columns
    ensures Saved(ReviewLayout().columns[key], Undefined, c) ==
              if key == "type" then Str("manual")
              else if key == "status" then Str("active")
              else if key == "reviewed_at" || key == "screenshot_count" then Null
              else if key == "rating" then Number(ToNumber(Undefined, c))
              else Str("")
  {}

  lemma TakeawayDefault(key: string, c: Coercion)
    requires key in TakeawayLayout().columns
    ensures Saved(TakeawayLayout().columns[key], Undefined, c) == if key == "status" then Str("idea") else Str("")
  {}

  /** The two lists of known keys are exactly the keys that the two reads overwrite. */
  lemma ListsAligned()
    ensures ReviewLayout().Aligned() && TakeawayLayout().Aligned()
  {
    ReviewListAligned();
    TakeawayListAligned();
  }

  /** If and only if: a write of a review or takeaway loses a key exactly when it has the one setting the prototype. */
  lemma OnlyProtoLost()
    ensures LosesProtoOnly(ReviewLayout()) && LosesProtoOnly(TakeawayLayout())
  {
    ListsAligned();
    NoProtoColumn();
    LosesProtoOnlyExactly(ReviewLayout());
    LosesProtoOnlyExactly(TakeawayLayout());
  }

  lemma NoProtoColumn()
    ensures Json.PROTO !in ReviewLayout().Overwritten() && Json.PROTO !in TakeawayLayout().Overwritten()
  {
    assert Json.PROTO !in REVIEW_FIELDS && Json.PROTO !in TAKEAWAY_FIELDS;
    ListsAligned();
  }

  lemma ReviewListAligned()
    ensures ReviewLayout().Aligned()
  {}

  lemma TakeawayListAligned()
    ensures TakeawayLayout().Aligned()
  {}
}
