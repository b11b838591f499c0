/** The schema builders of src/types.ts: one builder per JSON-Schema kind, each
    producing a schema fragment `{type, ...fields, ...overlay}`, the builder-only
    optional/required markers, and the rule that derives an object's `required`
    list from the markers of its properties. */
module Schemas {
  import opened Values
  import opened Text

  /** A schema fragment: the OpenAPI schema fields the builders write, every other
      key an overlay may add (`minLength`, `default`, ...) in `extra`, and the two
      builder-private markers. A marker that is absent reads as false. */
  datatype Schema = Schema(
    typeName: Option<string>,
    description: Option<string>,
    format: Option<string>,
    pattern: Option<string>,
    enum: Option<seq<Json>>,
    items: Option<Schema>,
    properties: Option<seq<(string, Schema)>>,
    required: Option<seq<string>>,
    additionalProperties: Option<bool>,
    extra: map<string, Json>,
    isOptional: bool,
    isRequired: bool)

  /** The string keys the named fields of `Schema` stand for. */
  const NamedKeys: set<string> :=
    {"type", "description", "format", "pattern", "enum", "items", "properties", "required",
     "additionalProperties"}

  /** A JavaScript object has each key once: a key held in `extra` is none of
      the keys the named fields stand for. */
  predicate ExtraKeysDistinct(s: Schema)
  {
    s.extra.Keys !! NamedKeys
  }

  /** The fragment with no keys at all; it stands for an omitted overlay. */
  const Empty := Schema(None, None, None, None, None, None, None, None, None, map[], false, false)

  function Pick<T>(base: Option<T>, over: Option<T>): Option<T>
  {
    if over.Some? then over else base
  }

  /** `{...base, ...over}`: every key `over` defines replaces the one in `base`;
      every other key keeps its value from `base`. */
  function Spread(base: Schema, over: Schema): (r: Schema)
    ensures over.typeName.Some? ==> r.typeName == over.typeName
    ensures over.typeName.None? ==> r.typeName == base.typeName
    ensures over.description.Some? ==> r.description == over.description
    ensures over.description.None? ==> r.description == base.description
    ensures over.format.Some? ==> r.format == over.format
    ensures over.format.None? ==> r.format == base.format
    ensures over.pattern.Some? ==> r.pattern == over.pattern
    ensures over.pattern.None? ==> r.pattern == base.pattern
    ensures over.enum.Some? ==> r.enum == over.enum
    ensures over.enum.None? ==> r.enum == base.enum
    ensures over.items.Some? ==> r.items == over.items
    ensures over.items.None? ==> r.items == base.items
    ensures over.properties.Some? ==> r.properties == over.properties
    ensures over.properties.None? ==> r.properties == base.properties
    ensures over.required.Some? ==> r.required == over.required
    ensures over.required.None? ==> r.required == base.required
    ensures over.additionalProperties.Some? ==> r.additionalProperties == over.additionalProperties
    ensures over.additionalProperties.None? ==> r.additionalProperties == base.additionalProperties
    ensures over.isOptional ==> r.isOptional
    ensures !over.isOptional ==> r.isOptional == base.isOptional
    ensures over.isRequired ==> r.isRequired
    ensures !over.isRequired ==> r.isRequired == base.isRequired
    ensures r.extra.Keys == base.extra.Keys + over.extra.Keys
    ensures forall k :: k in over.extra ==> r.extra[k] == over.extra[k]
    ensures forall k :: k in base.extra && k !in over.extra ==> r.extra[k] == base.extra[k]
    ensures ExtraKeysDistinct(base) && ExtraKeysDistinct(over) ==> ExtraKeysDistinct(r)
  {
    Schema(
      Pick(base.typeName, over.typeName),
      Pick(base.description, over.description),
      Pick(base.format, over.format),
      Pick(base.pattern, over.pattern),
      Pick(base.enum, over.enum),
      Pick(base.items, over.items),
      Pick(base.properties, over.properties),
      Pick(base.required, over.required),
      Pick(base.additionalProperties, over.additionalProperties),
      base.extra + over.extra,
      base.isOptional || over.isOptional,
      base.isRequired || over.isRequired)
  }

  /** Spreading nothing changes nothing, and spreading onto nothing copies. */
  lemma SpreadEmpty(s: Schema)
    ensures Spread(s, Empty) == s
    ensures Spread(Empty, s) == s
  {
  }

  /** Spreads can be regrouped: `{...a, ...b, ...c}` reads the same either way. */
  lemma SpreadAssociative(a: Schema, b: Schema, c: Schema)
    ensures Spread(Spread(a, b), c) == Spread(a, Spread(b, c))
  {
  }

  // ---------------------------------------------------------------------------
  // Required-set rule (getRequiredProperties)

  /** The entries of a property mapping whose schema is not marked optional,
      in their original order (the `filter` step). */
  function NonOptional(properties: seq<(string, Schema)>): (r: seq<(string, Schema)>)
    ensures |r| <= |properties|
    ensures forall e :: e in r ==> e in properties && !e.1.isOptional
    ensures forall i :: 0 <= i < |properties| && !properties[i].1.isOptional ==> properties[i] in r
  {
    if |properties| == 0 then []
    else if properties[0].1.isOptional then NonOptional(properties[1..])
    else [properties[0]] + NonOptional(properties[1..])
  }

  /** The names of a property mapping, in order (the `map` step). */
  function Names(properties: seq<(string, Schema)>): (r: seq<string>)
    ensures |r| == |properties|
    ensures forall i :: 0 <= i < |properties| ==> r[i] == properties[i].0
  {
    if |properties| == 0 then [] else [properties[0].0] + Names(properties[1..])
  }

  /** getRequiredProperties: the names whose schema lacks the optional marker,
      or nothing at all when there are none. */
  function RequiredProperties(properties: seq<(string, Schema)>): (r: Option<seq<string>>)
    ensures r.None? <==> forall i :: 0 <= i < |properties| ==> properties[i].1.isOptional
    ensures r.Some? ==> |r.value| > 0
    ensures r.Some? ==> forall k :: k in r.value <==>
              exists i :: 0 <= i < |properties| && properties[i].0 == k && !properties[i].1.isOptional
  {
    var required := Names(NonOptional(properties));
    if |required| > 0 then Some(required) else None
  }

  /** The required list keeps the mapping's order: of two non-optional entries,
      the earlier one is named earlier. */
  lemma {:induction false} NonOptionalKeepsOrder(properties: seq<(string, Schema)>, i: nat, j: nat)
    requires i < j < |properties|
    requires !properties[i].1.isOptional && !properties[j].1.isOptional
    ensures exists a, b ::
              0 <= a < b < |NonOptional(properties)| &&
              NonOptional(properties)[a] == properties[i] &&
              NonOptional(properties)[b] == properties[j]
  {
    var rest := NonOptional(properties[1..]);
    var all := NonOptional(properties);
    if properties[0].1.isOptional {
      assert all == rest;
      assert i > 0;
      NonOptionalKeepsOrder(properties[1..], i - 1, j - 1);
    } else {
      assert all == [properties[0]] + rest;
      if i == 0 {
        assert properties[1..][j - 1] == properties[j];
        assert properties[j] in rest;
        var b :| 0 <= b < |rest| && rest[b] == properties[j];
        assert all[0] == properties[i] && all[b + 1] == properties[j];
      } else {
        NonOptionalKeepsOrder(properties[1..], i - 1, j - 1);
        var a, b :| 0 <= a < b < |rest| && rest[a] == properties[1..][i - 1] && rest[b] == properties[1..][j - 1];
        assert all[a + 1] == properties[i] && all[b + 1] == properties[j];
      }
    }
  }

  /** The filter read from the other end: one more entry adds itself exactly
      when it is not optional. With the empty case this fixes the result. */
  lemma {:induction false} NonOptionalSnoc(properties: seq<(string, Schema)>, e: (string, Schema))
    ensures NonOptional(properties + [e]) ==
            NonOptional(properties) + (if e.1.isOptional then [] else [e])
  {
    if |properties| == 0 {
      assert [] + [e] == [e];
    } else {
      assert (properties + [e])[0] == properties[0];
      assert (properties + [e])[1..] == properties[1..] + [e];
      NonOptionalSnoc(properties[1..], e);
    }
  }

  /** The names of a mapping are distinct, as the keys of a JavaScript object are. */
  predicate DistinctNames(properties: seq<(string, Schema)>)
  {
    forall i, j :: 0 <= i < j < |properties| ==> properties[i].0 != properties[j].0
  }

  lemma {:induction false} NonOptionalNamesDistinct(properties: seq<(string, Schema)>)
    requires DistinctNames(properties)
    ensures forall a, b :: 0 <= a < b < |NonOptional(properties)| ==>
              NonOptional(properties)[a].0 != NonOptional(properties)[b].0
  {
    if |properties| > 0 {
      var rest := properties[1..];
      assert DistinctNames(rest) by {
        forall i, j | 0 <= i < j < |rest| ensures rest[i].0 != rest[j].0 {
          assert rest[i] == properties[i + 1] && rest[j] == properties[j + 1];
        }
      }
      NonOptionalNamesDistinct(rest);
      if !properties[0].1.isOptional {
        var r := NonOptional(properties);
        forall b | 0 < b < |r| ensures r[0].0 != r[b].0 {
          assert r[b] in NonOptional(rest);
          var k :| 0 <= k < |rest| && rest[k] == r[b];
          assert rest[k] == properties[k + 1];
        }
      }
    }
  }

  /** For a mapping with distinct names, every name in the required list
      appears once. */
  lemma RequiredNoRepeats(properties: seq<(string, Schema)>)
    requires DistinctNames(properties)
    ensures RequiredProperties(properties).Some? ==>
              forall a, b :: 0 <= a < b < |RequiredProperties(properties).value| ==>
                RequiredProperties(properties).value[a] != RequiredProperties(properties).value[b]
  {
    NonOptionalNamesDistinct(properties);
  }

  /** The required list follows the mapping's order: of two non-optional
      properties, the earlier one is listed earlier. With `RequiredNoRepeats`
      and the membership clause of `RequiredProperties`, this makes the list
      exactly the ordered subsequence of non-optional names. */
  lemma RequiredInOrder(properties: seq<(string, Schema)>, i: nat, j: nat)
    requires i < j < |properties|
    requires !properties[i].1.isOptional && !properties[j].1.isOptional
    ensures RequiredProperties(properties).Some?
    ensures exists a, b ::
              0 <= a < b < |RequiredProperties(properties).value| &&
              RequiredProperties(properties).value[a] == properties[i].0 &&
              RequiredProperties(properties).value[b] == properties[j].0
  {
    NonOptionalKeepsOrder(properties, i, j);
    var a, b :| 0 <= a < b < |NonOptional(properties)| &&
                NonOptional(properties)[a] == properties[i] &&
                NonOptional(properties)[b] == properties[j];
    assert Names(NonOptional(properties))[a] == properties[i].0;
    assert Names(NonOptional(properties))[b] == properties[j].0;
  }

  /** Only the optional marker decides: two mappings with the same names and the
      same optional markers have the same required list, whatever their required
      markers are. */
  lemma {:induction false} RequiredIgnoresRequiredMarker(ps: seq<(string, Schema)>, qs: seq<(string, Schema)>)
    requires |ps| == |qs|
    requires forall i :: 0 <= i < |ps| ==> ps[i].0 == qs[i].0 && ps[i].1.isOptional == qs[i].1.isOptional
    ensures Names(NonOptional(ps)) == Names(NonOptional(qs))
    ensures RequiredProperties(ps) == RequiredProperties(qs)
  {
    if |ps| > 0 {
      RequiredIgnoresRequiredMarker(ps[1..], qs[1..]);
    }
  }

  // ---------------------------------------------------------------------------
  // The builders

  /** One value per exported builder, holding its positional arguments. A
      regular expression is given by its `toString()` text, e.g. "/^a+$/". */
  datatype Builder =
    | Boolean(description: Option<string>)
    | Integer(description: Option<string>)
    | Number(description: Option<string>)
    | String(description: Option<string>)
    | Pattern(regex: string, description: Option<string>)
    | Date(description: Option<string>)
    | DateTime(description: Option<string>)
    | Binary(description: Option<string>)
    | Email(description: Option<string>)
    | Constant(value: string, description: Option<string>)
    | Choice(values: seq<(string, string)>)
    | Array(itemSchema: Schema, description: Option<string>)
    | Object(propertyMap: seq<(string, Schema)>, description: Option<string>)

  /** The `type` string each builder was defined with. */
  function Kind(b: Builder): string
  {
    match b
    case Boolean(_) => "boolean"
    case Integer(_) => "integer"
    case Number(_) => "number"
    case Array(_, _) => "array"
    case Object(_, _) => "object"
    case _ => "string"
  }

  /** One line of a choice's description: "* `key` - explanation". */
  function ChoiceLine(entry: (string, string)): string
  {
    "* `" + entry.0 + "` - " + entry.1
  }

  function ChoiceLines(values: seq<(string, string)>): (r: seq<string>)
    ensures |r| == |values|
    ensures forall i :: 0 <= i < |values| ==> r[i] == ChoiceLine(values[i])
  {
    if |values| == 0 then [] else [ChoiceLine(values[0])] + ChoiceLines(values[1..])
  }

  function ChoiceKeys(values: seq<(string, string)>): (r: seq<Json>)
    ensures |r| == |values|
    ensures forall i :: 0 <= i < |values| ==> r[i] == JStr(values[i].0)
  {
    if |values| == 0 then [] else [JStr(values[0].0)] + ChoiceKeys(values[1..])
  }

  /** The fields each builder computes from its arguments (the `fn` handed to
      defineType). No builder computes a `type`, a marker or an extra key. */
  function Fields(b: Builder): (r: Schema)
    ensures r.typeName.None? && !r.isOptional && !r.isRequired && r.extra == map[]
  {
    match b
    case Boolean(d) => Empty.(description := d)
    case Integer(d) => Empty.(description := d)
    case Number(d) => Empty.(description := d)
    case String(d) => Empty.(description := d)
    case Pattern(regex, d) => Empty.(description := d, pattern := Some(DropFirstAndLast(regex)))
    case Date(d) => Empty.(description := d, format := Some("date"))
    case DateTime(d) => Empty.(description := d, format := Some("date-time"))
    case Binary(d) => Empty.(description := d, format := Some("binary"))
    case Email(d) => Empty.(description := d, format := Some("email"))
    case Constant(v, d) => Empty.(description := d, enum := Some([JStr(v)]))
    case Choice(values) =>
      Empty.(description := Some(Join(ChoiceLines(values), "\n")), enum := Some(ChoiceKeys(values)))
    case Array(items, d) => Empty.(description := d, items := Some(items))
    case Object(properties, d) =>
      Empty.(description := d, required := RequiredProperties(properties),
             additionalProperties := Some(false), properties := Some(properties))
  }

  /** A builder call `{type, ...fn(args), ...overlay}`; pass `Empty` when the
      call has no trailing overlay. The `type` is the builder's own unless the
      overlay sets one, and the markers are exactly the overlay's. */
  function Build(b: Builder, overlay: Schema): (r: Schema)
    requires ExtraKeysDistinct(overlay)
    ensures ExtraKeysDistinct(r)
    ensures r.typeName == Some(if overlay.typeName.Some? then overlay.typeName.value else Kind(b))
    ensures r.isOptional == overlay.isOptional && r.isRequired == overlay.isRequired
    ensures r.extra == overlay.extra
  {
    Spread(Spread(Empty.(typeName := Some(Kind(b))), Fields(b)), overlay)
  }

  /** The `.optional(...)` variant: the same call, then the optional marker is
      written on the fresh fragment. */
  method BuildOptional(b: Builder, overlay: Schema) returns (s: Schema)
    requires ExtraKeysDistinct(overlay)
    ensures s.isOptional && s.isRequired == overlay.isRequired
    ensures s.(isOptional := overlay.isOptional) == Build(b, overlay)
    ensures s == MarkOptional(Build(b, overlay))
  {
    s := Build(b, overlay);
    s := s.(isOptional := true);
  }

  /** The `.required(...)` variant: the same call, then the required marker is
      written on the fresh fragment. */
  method BuildRequired(b: Builder, overlay: Schema) returns (s: Schema)
    requires ExtraKeysDistinct(overlay)
    ensures s.isRequired && s.isOptional == overlay.isOptional
    ensures s.(isRequired := overlay.isRequired) == Build(b, overlay)
    ensures s == MarkRequired(Build(b, overlay))
  {
    s := Build(b, overlay);
    s := s.(isRequired := true);
  }

  /** The free `optional(schema)`: a copy of `schema` with the optional marker
      set and nothing else changed. */
  function MarkOptional(s: Schema): (r: Schema)
    ensures r.isOptional
    ensures r.(isOptional := s.isOptional) == s
  {
    s.(isOptional := true)
  }

  /** The free `required(schema)`: a copy of `schema` with the required marker
      set and nothing else changed. */
  function MarkRequired(s: Schema): (r: Schema)
    ensures r.isRequired
    ensures r.(isRequired := s.isRequired) == s
  {
    s.(isRequired := true)
  }

  // ---------------------------------------------------------------------------
  // What each builder yields

  /** `boolean`, `integer`, `number` and `string` give their own `type` and the
      description as passed (absent when omitted), and nothing else. */
  lemma PrimitiveBuilders(b: Builder)
    requires b.Boolean? || b.Integer? || b.Number? || b.String?
    ensures Build(b, Empty) == Empty.(typeName := Some(Kind(b)), description := b.description)
    ensures Kind(b) == if b.Boolean? then "boolean" else if b.Integer? then "integer"
                       else if b.Number? then "number" else "string"
  {
  }

  /** `date`, `dateTime`, `binary` and `email` are strings with a fixed format. */
  lemma FormatBuilders(b: Builder)
    requires b.Date? || b.DateTime? || b.Binary? || b.Email?
    ensures Build(b, Empty) == Empty.(
              typeName := Some("string"), description := b.description,
              format := Some(if b.Date? then "date" else if b.DateTime? then "date-time"
                             else if b.Binary? then "binary" else "email"))
  {
  }

  /** For a flag-free literal `/source/` the stored pattern is exactly `source`. */
  lemma PatternOfLiteral(source: string, d: Option<string>)
    ensures Build(Pattern("/" + source + "/", d), Empty) ==
            Empty.(typeName := Some("string"), description := d, pattern := Some(source))
  {
    var text := "/" + source + "/";
    assert text[1..|text| - 1] == source;
  }

  /** Only the first and last characters are dropped, so a literal with flags,
      `/source/flags`, keeps its closing slash and all but its last flag. */
  lemma PatternWithFlags(source: string, flags: string, d: Option<string>)
    requires |flags| > 0
    ensures Build(Pattern("/" + source + "/" + flags, d), Empty).pattern ==
            Some(source + "/" + flags[..|flags| - 1])
    ensures Build(Pattern("/" + source + "/" + flags, d), Empty).pattern != Some(source)
  {
    var text := "/" + source + "/" + flags;
    assert text[1..|text| - 1] == source + "/" + flags[..|flags| - 1];
  }

  /** `constant(v)` is a string whose only allowed value is `v`. */
  lemma ConstantBuilder(v: string, d: Option<string>)
    ensures Build(Constant(v, d), Empty) ==
            Empty.(typeName := Some("string"), description := d, enum := Some([JStr(v)]))
  {
  }

  /** `choice(m)` allows exactly the keys of `m`, in order, and describes them
      one line per entry. */
  lemma ChoiceBuilder(values: seq<(string, string)>)
    ensures Build(Choice(values), Empty) ==
            Empty.(typeName := Some("string"), description := Some(Join(ChoiceLines(values), "\n")),
                   enum := Some(ChoiceKeys(values)))
  {
  }

  /** When no key or explanation holds a newline, the description splits back
      into exactly the entry lines: one per entry, in order, none trailing. */
  lemma {:induction false} ChoiceDescriptionLines(values: seq<(string, string)>)
    requires |values| > 0
    requires forall i :: 0 <= i < |values| ==> '\n' !in values[i].0 && '\n' !in values[i].1
    ensures SplitLines(Build(Choice(values), Empty).description.value) == ChoiceLines(values)
    ensures forall i :: 0 <= i < |values| ==>
              SplitLines(Build(Choice(values), Empty).description.value)[i] ==
              "* `" + values[i].0 + "` - " + values[i].1
  {
    var lines := ChoiceLines(values);
    forall i | 0 <= i < |lines| ensures '\n' !in lines[i] {
      assert lines[i] == "* `" + values[i].0 + "` - " + values[i].1;
    }
    SplitJoin(lines);
  }

  /** The two-entry example: keys in order, a two-line description. */
  lemma ChoiceExample()
    ensures Build(Choice([("a", "A"), ("b", "B")]), Empty).enum == Some([JStr("a"), JStr("b")])
    ensures Build(Choice([("a", "A"), ("b", "B")]), Empty).description == Some("* `a` - A\n* `b` - B")
  {
    var values := [("a", "A"), ("b", "B")];
    var lines := ChoiceLines(values);
    assert lines[0] == ChoiceLine(values[0]) == "* `a` - A";
    assert lines[1] == ChoiceLine(values[1]) == "* `b` - B";
    assert lines[1..] == [lines[1]];
    assert Join(lines, "\n") == "* `a` - A\n* `b` - B";
    var keys := ChoiceKeys(values);
    assert keys == [keys[0], keys[1]] == [JStr("a"), JStr("b")];
  }

  /** `array(items)` holds the item schema exactly as given. */
  lemma ArrayBuilder(items: Schema, d: Option<string>)
    ensures Build(Array(items, d), Empty) ==
            Empty.(typeName := Some("array"), description := d, items := Some(items))
  {
  }

  /** `object(P)` keeps `P` unchanged (markers included), forbids additional
      properties and derives `required` from the markers. */
  lemma ObjectBuilder(properties: seq<(string, Schema)>, d: Option<string>)
    ensures Build(Object(properties, d), Empty) ==
            Empty.(typeName := Some("object"), description := d, properties := Some(properties),
                   required := RequiredProperties(properties), additionalProperties := Some(false))
  {
  }

  /** For an object with no properties, or with only optional ones, `required`
      holds `undefined` (here `None`). */
  lemma ObjectWithoutRequired(properties: seq<(string, Schema)>, d: Option<string>)
    requires forall i :: 0 <= i < |properties| ==> properties[i].1.isOptional
    ensures Build(Object(properties, d), Empty).required == None
  {
  }

  /** `object({a: string(), b: string.optional()})` requires only `a`. */
  lemma ObjectExample()
    ensures Build(Object([("a", Build(String(None), Empty)),
                          ("b", MarkOptional(Build(String(None), Empty)))], None), Empty).required
            == Some(["a"])
  {
    var ps := [("a", Build(String(None), Empty)), ("b", MarkOptional(Build(String(None), Empty)))];
    assert NonOptional(ps) == [ps[0]];
    assert Names([ps[0]]) == ["a"];
  }

  /** The overlay is spread last: a call with an overlay is the call without one,
      with the overlay's keys (`type` included) written over it. */
  lemma OverlayAppliedLast(b: Builder, overlay: Schema)
    requires ExtraKeysDistinct(overlay)
    ensures Build(b, overlay) == Spread(Build(b, Empty), overlay)
  {
  }

  /** `string("d", {description: "override", minLength: 1})`. */
  lemma OverlayExample()
    ensures Build(String(Some("d")), Empty.(description := Some("override"), extra := map["minLength" := JNum(1)]))
            == Empty.(typeName := Some("string"), description := Some("override"), extra := map["minLength" := JNum(1)])
  {
  }

  /** Marking twice is marking once, and the two markers are independent. */
  lemma MarkersCommute(s: Schema)
    ensures MarkOptional(MarkOptional(s)) == MarkOptional(s)
    ensures MarkRequired(MarkRequired(s)) == MarkRequired(s)
    ensures MarkOptional(MarkRequired(s)) == MarkRequired(MarkOptional(s))
  {
  }
}
