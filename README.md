# OpenAPI builder DSL: schema builders and path helpers, in Dafny

This project models the core of a small TypeScript library that builds pieces of
an OpenAPI document from constructor calls. It has two layers.

- **Schema builders** (`src/types.ts`, module `Schemas` in `schemas.dfy`).
  Each exported builder (`boolean`, `integer`, `number`, `string`, `pattern`,
  `date`, `dateTime`, `binary`, `email`, `constant`, `choice`, `array`,
  `object`) is made by `defineType`. A call produces
  `{type, ...fields(args), ...overlay}`: the builder's own `type`, the fields
  computed from its arguments, then an optional trailing overlay object, which
  wins on every key it defines. Each builder also has `.optional(...)` and
  `.required(...)` variants. They write a builder-private marker on the fresh
  fragment. The free functions `optional(s)` and `required(s)` copy a fragment
  and set a marker on the copy. `object` derives its `required` list from its
  properties' markers (`getRequiredProperties`): a name is listed exactly when
  its schema lacks the optional marker. The list keeps the mapping's order, and
  `required` holds `undefined` (the model's `None`) when the list would be empty.
- **Helpers** (`src/helpers.ts`, module `Helpers` in `helpers.dfy`).
  `response` and `json` nest the media-type fields under one content key.
  `operation` moves `path` and `method` out of the ordinary fields into
  metadata. `paths` is a loop that fills a table indexed by path, then by
  method. It creates a path's entry only when missing and overwrites the slot
  of a repeated (path, method) pair. It stores `{operationId: key, ...operation}`,
  so an operation's own `operationId` wins over its key.

Supporting modules: `Values` (`values.dfy`: `Option`, JSON data) and `Text`
(`text.dfy`: JavaScript's `slice(1, -1)` and `Array.prototype.join`, plus
`SplitLines`, which undoes a join on "\n" and serves as its inverse).

Encoding choices:
- A schema fragment is the datatype `Schemas.Schema`. Every JSON-Schema key the
  builders write is an `Option` field; `type` is the field `typeName`. Any other
  key an overlay adds (`minLength`, `default`, ...) goes in `extra`. The two
  symbol-keyed markers are the booleans `isOptional` and `isRequired`; an
  absent marker reads as false, matching the truthiness test of
  `getRequiredProperties`. `ExtraKeysDistinct` says that no key in `extra` is
  one of the named fields' keys, as a JavaScript object holds each key once;
  `Build` requires it of its overlay.
- A builder call is `Build(b, overlay)`. The datatype `Builder` has one
  constructor per exported builder, holding its positional arguments. A call
  without an overlay passes `Empty`, since spreading `undefined` adds nothing.
  `Fields(b)` is the `fn` given to `defineType` and `Kind(b)` its `type` string.
  `Spread` is the object spread `{...base, ...over}`.
- The `.optional`/`.required` variants are methods: they build, then write the
  marker. The object they write to is freshly built and not shared, so the
  write is an update of a value.
- A regular expression is given by its `toString()` text, such as `"/^a+$/"`.
- A `Record` is a sequence of (key, value) pairs in `Object.entries` order.
  That is the order the property list, the choice list and the operation
  collection are read in.
- `operation` takes the caller's object as a `map<string, Json>`. The
  requirement `IsOperationInput` says what its TypeScript type promises: a
  string `path` and a `method` that is one of the eight HTTP methods (`Method`).
- `Paths` is an imperative method with a `while` loop. It is proved equal to two
  folds: `PathTableOf` (the table) and `PathOrder` (the order in which path keys
  are created). The lemmas about the table are stated on those folds.

Behaviour of the code worth knowing, which the model keeps:
- `pattern` drops exactly the first and last characters of the regex's
  `toString()` text, so `/a/i` yields `a/` (see `PatternWithFlags`).
- The `required` list follows the mapping's order (see `RequiredInOrder`).
- The markers and the path/method metadata are never stripped. `object` keeps
  its properties' markers, and `paths` keeps the metadata on the stored
  operations.

## Model

| member | source | states |
|---|---|---|
| `Text.DropFirstAndLast` | src/types.ts:66 | `slice(1, -1)` keeps exactly characters 1 to length-2; text shorter than two characters gives "" |
| `Text.Join` | src/types.ts:101-103 | joining no parts gives "", joining one part gives that part |
| `Text.JoinSnoc` | src/types.ts:103 | each further part adds exactly one separator, with nothing after the last part |
| `Text.SplitJoin` | src/types.ts:101-103 | splitting a "\n"-join of newline-free parts gives back exactly the parts, so there is one line per part and no trailing newline |
| `Schemas.Spread` | src/types.ts:25-29 | for each of the nine named fields, the overlay's value wins when it defines one and the base value is kept otherwise; a marker is set when either side sets it; extra keys are united with the overlay winning; distinct keys stay distinct |
| `Schemas.SpreadEmpty` | src/types.ts:28 | spreading an empty overlay changes nothing, and spreading onto an empty base copies |
| `Schemas.SpreadAssociative` | src/types.ts:25-29 | `{...a, ...b, ...c}` can be grouped either way |
| `Schemas.NonOptional` | src/types.ts:117-118 | the kept entries are input entries without the optional marker, and every such entry is kept |
| `Schemas.NonOptionalSnoc` | src/types.ts:117-118 | one more entry at the end is appended to the result exactly when it is not optional, which with the empty case fixes the filter's result |
| `Schemas.NonOptionalNamesDistinct` | src/types.ts:117-118 | for a mapping with distinct names, the kept entries have distinct names |
| `Schemas.Names` | src/types.ts:119 | one name per entry, position by position |
| `Schemas.RequiredProperties` | src/types.ts:116-122 | absent exactly when every property is optional (including no properties); otherwise a non-empty list containing exactly the names of the non-optional properties |
| `Schemas.NonOptionalKeepsOrder` | src/types.ts:117-119 | of two non-optional entries, the earlier one comes first in the result |
| `Schemas.RequiredNoRepeats` | src/types.ts:116-122 | for a mapping with distinct names, every name in the required list appears once |
| `Schemas.RequiredInOrder` | src/types.ts:116-122 | of two non-optional properties, the earlier is listed earlier; with `RequiredNoRepeats` and membership, the list is exactly the ordered subsequence of non-optional names |
| `Schemas.RequiredIgnoresRequiredMarker` | src/types.ts:118 | mappings with the same names and the same optional markers give the same required list, whatever their required markers |
| `Schemas.ChoiceLines` | src/types.ts:102 | line i is "* `key` - explanation" for entry i |
| `Schemas.ChoiceKeys` | src/types.ts:104 | allowed value i is key i |
| `Schemas.Fields` | src/types.ts:46-132 | no builder's own fields include a `type`, a marker or an extra key |
| `Schemas.Build` | src/types.ts:25-29 | `type` is the builder's own unless the overlay sets one; markers and extra keys come only from the overlay; the result's keys are distinct |
| `Schemas.BuildOptional` | src/types.ts:31-35 | the `.optional` variant sets the optional marker; changing only that marker back gives the plain call's result; it equals the free `optional` applied to the plain call |
| `Schemas.BuildRequired` | src/types.ts:37-41 | the `.required` variant sets the required marker; changing only that marker back gives the plain call's result; it equals the free `required` applied to the plain call |
| `Schemas.MarkOptional` | src/types.ts:134-137 | the copy has the optional marker set; with the marker changed back it equals the input, so all other fields and markers are kept |
| `Schemas.MarkRequired` | src/types.ts:139-142 | the copy has the required marker set; with the marker changed back it equals the input |
| `Schemas.MarkersCommute` | src/types.ts:134-142 | each free marker function is idempotent, and the two commute |
| `Schemas.PrimitiveBuilders` | src/types.ts:46-60 | `boolean`/`integer`/`number`/`string` give their fixed type and the description unchanged (absent when omitted), and nothing else |
| `Schemas.FormatBuilders` | src/types.ts:70-88 | `date`/`dateTime`/`binary`/`email` give type "string" with format "date"/"date-time"/"binary"/"email" |
| `Schemas.PatternOfLiteral` | src/types.ts:62-68 | for a flag-free literal `/src/` the pattern is exactly `src`, with type "string" |
| `Schemas.PatternWithFlags` | src/types.ts:66 | for `/src/flags` with flags, the pattern keeps "/" and all flags but the last, so it differs from `src` |
| `Schemas.ConstantBuilder` | src/types.ts:90-96 | `constant(v)` is a string whose enum is exactly `[v]` |
| `Schemas.ChoiceBuilder` | src/types.ts:98-106 | `choice(m)` is a string whose enum is m's keys in order and whose description is the entry lines joined by "\n" |
| `Schemas.ChoiceDescriptionLines` | src/types.ts:101-103 | with newline-free keys and explanations, the description splits into exactly one "* `k` - v" line per entry, in order |
| `Schemas.ChoiceExample` | src/types.ts:98-106 | `choice({a: "A", b: "B"})` has enum ["a", "b"] and description "* `a` - A\n* `b` - B" |
| `Schemas.ArrayBuilder` | src/types.ts:108-114 | `array(items)` has type "array" and exactly the given item schema |
| `Schemas.ObjectBuilder` | src/types.ts:124-132 | `object(P)` has type "object", properties P unchanged (markers kept), additionalProperties false, and the derived required list |
| `Schemas.ObjectWithoutRequired` | src/types.ts:120-121 | for an object whose properties are all optional, or that has none, `required` holds `undefined` (the model's `None`) |
| `Schemas.ObjectExample` | src/types.ts:116-132 | `object({a: string(), b: string.optional()})` requires exactly ["a"] |
| `Schemas.OverlayAppliedLast` | src/types.ts:25-29 | a call with an overlay equals the call without one with the overlay spread over it, `type` included |
| `Schemas.OverlayExample` | src/types.ts:58-60 | `string("d", {description: "override", minLength: 1})` has description "override" and minLength 1 |
| `Helpers.ParseMethod` | src/helpers.ts:16-24 | a name parses to a method exactly when it is that method's name |
| `Helpers.Response` | src/helpers.ts:34-48 | description, headers and links are copied; the content has exactly one key, the media type, holding schema, examples, example and encoding |
| `Helpers.JsonResponse` | src/helpers.ts:50-55 | `json` is `response` with the single media type "application/json" |
| `Helpers.ResponseRoundTrip` | src/helpers.ts:34-48 | flattening a built response gives back its media type and fields, and rebuilding any single-media-type response gives it back |
| `Helpers.Operation` | src/helpers.ts:57-64 | the metadata holds the path and method; the fields are exactly the input's keys other than "path" and "method", with their values |
| `Helpers.OperationRoundTrip` | src/helpers.ts:57-64 | putting path and method back as fields rebuilds the caller's object |
| `Helpers.Stamp` | src/helpers.ts:70-73 | the stored operation keeps every field and the metadata, and its operationId is its own when it has one, else the key |
| `Helpers.Insert` | src/helpers.ts:69-73 | the path gets an entry; the slot holds the stamped operation; every other path and every other method of that path are unchanged |
| `Helpers.InsertInTwoSteps` | src/helpers.ts:69-73 | creating an entry only when missing and then writing the slot is one `Insert` |
| `Helpers.Paths` | src/helpers.ts:66-76 | the loop's table equals the fold `PathTableOf`; its path order equals `PathOrder`, lists exactly the table's paths, and has no repeats |
| `Helpers.PrefixStep` | src/helpers.ts:68-74 | one more loop iteration is one more step of each fold |
| `Helpers.PathOrderMatchesKeys` | src/helpers.ts:69 | the recorded path order lists exactly the table's paths |
| `Helpers.PathOrderDistinct` | src/helpers.ts:69 | a path is recorded once, when its entry is created |
| `Helpers.PathTableKeys` | src/helpers.ts:67-75 | a path is a key of the table exactly when some input operation has that path |
| `Helpers.PathTableEmpty` | src/helpers.ts:67 | an empty collection gives an empty table |
| `Helpers.PathTableLastWins` | src/helpers.ts:70-73 | the operation that is last with its (path, method) pair is stored in that slot, stamped with its key |
| `Helpers.PathTableFromInputs` | src/helpers.ts:68-73 | every slot holds some input operation with that path and method, stamped with its key |
| `Helpers.SharedPathMerges` | src/helpers.ts:69 | operations sharing a path with different methods all appear under that one path entry |
| `Helpers.LaterOverwrites` | src/helpers.ts:70 | of two operations with the same path and method, the later replaces the earlier |
| `Helpers.PathsExample` | src/helpers.ts:57-76 | `{op1: operation({path: "/x", method: "get", summary: "s"})}` gives `{"/x": {get: {operationId: "op1", summary: "s"}}}` (metadata kept) |

## Left out

- The `openapi3-ts` types. Only the fields the code reads or writes are modelled. `response` ignores every other key of its argument (its `content`, extension keys), and the model's `ResponseProps` does not carry them.
- The JavaScript `RegExp` engine. A regex is its `toString()` text.
- Symbol identity. The markers and the path/method metadata are explicit fields. The two markers are distinct, and so are the path and method symbols, although each pair shares a description string.
- The `fn.length` arity trick and the variadic tuple types. The overlay is an explicit parameter.
- A key present with the value `undefined` is modelled the same as a missing key. The difference shows in three places:
  - Builder output keeps such keys. `boolean()` has a `description` key holding `undefined`, and `object` with no required name has a `required` key holding `undefined`. The model has `None` in both.
  - An overlay such as `{description: undefined}` erases the computed value in JavaScript, but the model's `Spread` keeps it.
  - An operation object with `operationId: undefined` would erase the key-derived id, but `Stamp` keeps the key.
- Nested schemas (`items`, `properties`) are not required to satisfy `ExtraKeysDistinct`. The builders never look inside them.
- Schema-valued overlay keys (`additionalProperties` as a schema, `oneOf`, ...). Extra overlay keys are plain JSON in `extra`, and `additionalProperties` is a boolean.
- JSON numbers are integers. Floating point is not modelled.
- `Object.entries` lists integer-like keys first, in numeric order. The model reads every record in the order of its sequence, so it is exact when no key is integer-like.
- `PathTableOf` treats the table as a plain dictionary. In the code, a path named after an inherited object property (`constructor`, `__proto__`) finds a truthy value, gets no entry of its own, and is written onto the inherited object.
- The insertion order of methods inside one path entry. Each entry is a `map`; only the order of path keys is modelled (`PathOrder`).
- `JsonResponse`: its argument is taken to have no `type` key, as its TypeScript type says. In JavaScript, a run-time `type` key on the argument would replace "application/json".
- `Paths` takes only the eight methods. The code's `OperationWithMeta` types its method as any string.
- The operation collection may repeat a key, which a JavaScript record cannot. The properties are stated for any sequence.
- Serialisation to JSON or YAML, and stripping the markers before output. The code does neither, so the model does neither.
- Calling a builder twice with the same arguments gives deep-equal results. This holds by construction in the model, since Dafny values have no reference identity.
