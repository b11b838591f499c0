/** The assembly helpers of src/helpers.ts: response objects with one media
    type, operations that carry their path and method as metadata, and the
    path table built from a collection of operations. */
module Helpers {
  import opened Values
  import opened Schemas

  /** The eight HTTP methods an operation may use. */
  datatype Method = Get | Put | Post | Delete | Options | Head | Patch | Trace

  function MethodName(m: Method): string
  {
    match m
    case Get => "get"
    case Put => "put"
    case Post => "post"
    case Delete => "delete"
    case Options => "options"
    case Head => "head"
    case Patch => "patch"
    case Trace => "trace"
  }

  /** The method a name stands for, if it is one of the eight. */
  function ParseMethod(name: string): (r: Option<Method>)
    ensures r.Some? ==> MethodName(r.value) == name
    ensures forall m :: MethodName(m) == name ==> r == Some(m)
  {
    if name == "get" then Some(Get)
    else if name == "put" then Some(Put)
    else if name == "post" then Some(Post)
    else if name == "delete" then Some(Delete)
    else if name == "options" then Some(Options)
    else if name == "head" then Some(Head)
    else if name == "patch" then Some(Patch)
    else if name == "trace" then Some(Trace)
    else None
  }

  // ---------------------------------------------------------------------------
  // Responses

  /** The flat fields `response` and `json` read; `response` also reads the
      media type, passed to it separately. */
  datatype ResponseProps = ResponseProps(
    description: string,
    headers: Option<Json>,
    links: Option<Json>,
    schema: Option<Schema>,
    examples: Option<Json>,
    example: Option<Json>,
    encoding: Option<Json>)

  datatype MediaTypeObject = MediaTypeObject(
    schema: Option<Schema>,
    examples: Option<Json>,
    example: Option<Json>,
    encoding: Option<Json>)

  datatype ResponseObject = ResponseObject(
    description: string,
    headers: Option<Json>,
    links: Option<Json>,
    content: map<string, MediaTypeObject>)

  /** `response({type, ...props})`: the response fields stay at the top, the
      media-type fields move under the single content key `type`. */
  function Response(mediaType: string, props: ResponseProps): (r: ResponseObject)
    ensures r.content.Keys == {mediaType}
    ensures r.description == props.description && r.headers == props.headers && r.links == props.links
    ensures r.content[mediaType].schema == props.schema
    ensures r.content[mediaType].examples == props.examples
    ensures r.content[mediaType].example == props.example
    ensures r.content[mediaType].encoding == props.encoding
  {
    ResponseObject(
      props.description, props.headers, props.links,
      map[mediaType := MediaTypeObject(props.schema, props.examples, props.example, props.encoding)])
  }

  /** `json(props)`: a response whose one media type is "application/json". */
  function JsonResponse(props: ResponseProps): (r: ResponseObject)
    ensures r.content.Keys == {"application/json"}
    ensures r == Response("application/json", props)
  {
    Response("application/json", props)
  }

  /** Reads the flat fields back out of a response with exactly one media type. */
  ghost function Flatten(r: ResponseObject): (p: (string, ResponseProps))
    requires |r.content| == 1
    ensures p.0 in r.content
  {
    var t :| t in r.content;
    var m := r.content[t];
    (t, ResponseProps(r.description, r.headers, r.links, m.schema, m.examples, m.example, m.encoding))
  }

  /** Nothing is lost by the nesting: flattening a built response gives back its
      media type and fields, and rebuilding a flattened one gives it back. */
  lemma ResponseRoundTrip(mediaType: string, props: ResponseProps, r: ResponseObject)
    requires |r.content| == 1
    ensures |Response(mediaType, props).content| == 1
    ensures Flatten(Response(mediaType, props)) == (mediaType, props)
    ensures Response(Flatten(r).0, Flatten(r).1) == r
  {
    var built := Response(mediaType, props);
    assert built.content.Keys == {mediaType};
    var (t, p) := Flatten(r);
    assert r.content.Keys == {t} by {
      var keys := r.content.Keys;
      assert |keys - {t}| == |keys| - 1 == 0;
      assert keys - {t} == {};
    }
    assert Response(t, p).content == r.content;
  }

  // ---------------------------------------------------------------------------
  // Operations

  /** An operation as written by the caller: an OpenAPI operation object with
      two extra keys, a string "path" and a "method" naming one of the eight. */
  predicate IsOperationInput(op: map<string, Json>)
  {
    && "path" in op && op["path"].JStr?
    && "method" in op && op["method"].JStr? && ParseMethod(op["method"].s).Some?
  }

  /** An operation object together with its path and method, held as metadata
      beside the ordinary fields rather than among them. */
  datatype OperationWithMeta = OperationWithMeta(path: string, verb: Method, fields: map<string, Json>)

  /** `operation(op)`: takes "path" and "method" out of the fields and records
      them as metadata; every other field is kept as it is. */
  function Operation(op: map<string, Json>): (r: OperationWithMeta)
    requires IsOperationInput(op)
    ensures r.path == op["path"].s && MethodName(r.verb) == op["method"].s
    ensures r.fields.Keys == op.Keys - {"path", "method"}
    ensures forall k :: k in r.fields ==> r.fields[k] == op[k]
  {
    OperationWithMeta(op["path"].s, ParseMethod(op["method"].s).value, op - {"path", "method"})
  }

  /** Putting the metadata back as ordinary fields gives the caller's object. */
  lemma OperationRoundTrip(op: map<string, Json>)
    requires IsOperationInput(op)
    ensures Operation(op).fields["path" := JStr(Operation(op).path)]
              ["method" := JStr(MethodName(Operation(op).verb))] == op
  {
    var w := Operation(op);
    var back := w.fields["path" := JStr(w.path)]["method" := JStr(MethodName(w.verb))];
    assert back.Keys == op.Keys;
    forall k | k in op ensures back[k] == op[k] {
    }
  }

  // ---------------------------------------------------------------------------
  // Path table

  /** The table the helper fills: path, then method, then the stored operation. */
  type PathTable = map<string, map<Method, OperationWithMeta>>

  /** `{operationId: id, ...operation}`: the operation under its key, with the
      key as its id unless it names its own id. The metadata travels along. */
  function Stamp(id: string, op: OperationWithMeta): (r: OperationWithMeta)
    ensures r.path == op.path && r.verb == op.verb
    ensures r.fields.Keys == op.fields.Keys + {"operationId"}
    ensures r.fields["operationId"] ==
            if "operationId" in op.fields then op.fields["operationId"] else JStr(id)
    ensures forall k :: k in op.fields ==> r.fields[k] == op.fields[k]
  {
    OperationWithMeta(op.path, op.verb, map["operationId" := JStr(id)] + op.fields)
  }

  /** One step of the loop: make sure the path has an entry, then store the
      stamped operation under its method. Every other slot is left alone. */
  function Insert(t: PathTable, id: string, op: OperationWithMeta): (r: PathTable)
    ensures r.Keys == t.Keys + {op.path}
    ensures r[op.path].Keys == (if op.path in t then t[op.path].Keys else {}) + {op.verb}
    ensures r[op.path][op.verb] == Stamp(id, op)
    ensures forall p :: p in t && p != op.path ==> r[p] == t[p]
    ensures forall m :: op.path in t && m in t[op.path] && m != op.verb ==>
              r[op.path][m] == t[op.path][m]
  {
    var entry := if op.path in t then t[op.path] else map[];
    t[op.path := entry[op.verb := Stamp(id, op)]]
  }

  /** The table after the loop has visited every operation, in order. */
  function PathTableOf(ops: seq<(string, OperationWithMeta)>): PathTable
  {
    if |ops| == 0 then map[]
    else Insert(PathTableOf(ops[..|ops| - 1]), ops[|ops| - 1].0, ops[|ops| - 1].1)
  }

  /** The order in which path keys enter the table: by first occurrence. */
  function PathOrder(ops: seq<(string, OperationWithMeta)>): seq<string>
  {
    if |ops| == 0 then []
    else
      var before := PathOrder(ops[..|ops| - 1]);
      var p := ops[|ops| - 1].1.path;
      if p in before then before else before + [p]
  }

  /** `paths(ops)`: fills the table entry by entry, creating a path's entry only
      when it is missing and overwriting the slot of a repeated path and method. */
  method Paths(ops: seq<(string, OperationWithMeta)>) returns (table: PathTable, order: seq<string>)
    ensures table == PathTableOf(ops)
    ensures order == PathOrder(ops)
    ensures forall p :: p in table <==> p in order
    ensures forall i, j :: 0 <= i < j < |order| ==> order[i] != order[j]
  {
    table, order := map[], [];
    var i := 0;
    while i < |ops|
      invariant 0 <= i <= |ops|
      invariant table == PathTableOf(ops[..i])
      invariant order == PathOrder(ops[..i])
    {
      var id, op := ops[i].0, ops[i].1;
      PrefixStep(ops, i);
      PathOrderMatchesKeys(ops[..i]);
      InsertInTwoSteps(table, id, op);
      if op.path !in table {
        table := table[op.path := map[]];
        order := order + [op.path];
      }
      table := table[op.path := table[op.path][op.verb := Stamp(id, op)]];
      i := i + 1;
    }
    assert ops[..|ops|] == ops;
    PathOrderMatchesKeys(ops);
    PathOrderDistinct(ops);
  }

  /** The loop body's two writes (an empty entry when the path is missing, then
      the slot) make one `Insert`. */
  lemma InsertInTwoSteps(t: PathTable, id: string, op: OperationWithMeta)
    ensures var t1 := if op.path !in t then t[op.path := map[]] else t;
            t1[op.path := t1[op.path][op.verb := Stamp(id, op)]] == Insert(t, id, op)
  {
  }

  /** Visiting one more operation is one more step of either fold. */
  lemma PrefixStep(ops: seq<(string, OperationWithMeta)>, i: nat)
    requires i < |ops|
    ensures PathTableOf(ops[..i + 1]) == Insert(PathTableOf(ops[..i]), ops[i].0, ops[i].1)
    ensures PathOrder(ops[..i + 1]) ==
            if ops[i].1.path in PathOrder(ops[..i]) then PathOrder(ops[..i])
            else PathOrder(ops[..i]) + [ops[i].1.path]
  {
    assert ops[..i + 1][..i] == ops[..i];
  }

  /** The recorded order lists exactly the table's paths. */
  lemma {:induction false} PathOrderMatchesKeys(ops: seq<(string, OperationWithMeta)>)
    ensures forall p :: p in PathTableOf(ops) <==> p in PathOrder(ops)
  {
    if |ops| > 0 {
      PathOrderMatchesKeys(ops[..|ops| - 1]);
    }
  }

  lemma {:induction false} PathOrderDistinct(ops: seq<(string, OperationWithMeta)>)
    ensures forall i, j :: 0 <= i < j < |PathOrder(ops)| ==> PathOrder(ops)[i] != PathOrder(ops)[j]
  {
    if |ops| > 0 {
      PathOrderDistinct(ops[..|ops| - 1]);
    }
  }

  /** Every path key is the path of some operation, and every operation's path
      is a key: the table's paths are exactly the input's. */
  lemma {:induction false} PathTableKeys(ops: seq<(string, OperationWithMeta)>, p: string)
    ensures p in PathTableOf(ops) <==> exists i :: 0 <= i < |ops| && ops[i].1.path == p
  {
    if |ops| > 0 {
      var front := ops[..|ops| - 1];
      PathTableKeys(front, p);
      if exists i :: 0 <= i < |front| && front[i].1.path == p {
        var i :| 0 <= i < |front| && front[i].1.path == p;
        assert ops[i].1.path == p;
      }
      if exists i :: 0 <= i < |ops| && ops[i].1.path == p {
        var i :| 0 <= i < |ops| && ops[i].1.path == p;
        if i < |ops| - 1 {
          assert front[i].1.path == p;
        }
      }
    }
  }

  /** An empty collection gives an empty table. */
  lemma PathTableEmpty()
    ensures PathTableOf([]) == map[]
  {
  }

  /** The operation that is last with its path and method is the one stored in
      that slot, stamped with its key. */
  lemma {:induction false} PathTableLastWins(ops: seq<(string, OperationWithMeta)>, i: nat)
    requires i < |ops|
    requires forall j :: i < j < |ops| ==>
               ops[j].1.path != ops[i].1.path || ops[j].1.verb != ops[i].1.verb
    ensures ops[i].1.path in PathTableOf(ops)
    ensures ops[i].1.verb in PathTableOf(ops)[ops[i].1.path]
    ensures PathTableOf(ops)[ops[i].1.path][ops[i].1.verb] == Stamp(ops[i].0, ops[i].1)
  {
    var front := ops[..|ops| - 1];
    if i < |ops| - 1 {
      PathTableLastWins(front, i);
    }
  }

  /** Every slot of the table holds some input operation with that path and
      method, stamped with its key. */
  lemma {:induction false} PathTableFromInputs(ops: seq<(string, OperationWithMeta)>, p: string, m: Method)
    requires p in PathTableOf(ops) && m in PathTableOf(ops)[p]
    ensures exists i :: 0 <= i < |ops| && ops[i].1.path == p && ops[i].1.verb == m &&
                        PathTableOf(ops)[p][m] == Stamp(ops[i].0, ops[i].1)
  {
    var front := ops[..|ops| - 1];
    var last := ops[|ops| - 1];
    if last.1.path == p && last.1.verb == m {
      assert ops[|ops| - 1] == last;
    } else {
      PathTableFromInputs(front, p, m);
      var i :| 0 <= i < |front| && front[i].1.path == p && front[i].1.verb == m &&
               PathTableOf(front)[p][m] == Stamp(front[i].0, front[i].1);
      assert ops[i] == front[i];
    }
  }

  /** Operations on one path with different methods share one entry: both are
      present in it, so neither replaced the entry made for the other. */
  lemma SharedPathMerges(ops: seq<(string, OperationWithMeta)>, i: nat, j: nat)
    requires i < |ops| && j < |ops|
    requires ops[i].1.path == ops[j].1.path && ops[i].1.verb != ops[j].1.verb
    requires forall k :: i < k < |ops| ==>
               ops[k].1.path != ops[i].1.path || ops[k].1.verb != ops[i].1.verb
    requires forall k :: j < k < |ops| ==>
               ops[k].1.path != ops[j].1.path || ops[k].1.verb != ops[j].1.verb
    ensures ops[i].1.path in PathTableOf(ops)
    ensures ops[i].1.verb in PathTableOf(ops)[ops[i].1.path]
    ensures ops[j].1.verb in PathTableOf(ops)[ops[i].1.path]
    ensures PathTableOf(ops)[ops[i].1.path][ops[i].1.verb] == Stamp(ops[i].0, ops[i].1)
    ensures PathTableOf(ops)[ops[i].1.path][ops[j].1.verb] == Stamp(ops[j].0, ops[j].1)
  {
    PathTableLastWins(ops, i);
    PathTableLastWins(ops, j);
  }

  /** Of two operations with the same path and method, the later one replaces
      the earlier: storing both is the same as storing only the later. */
  lemma LaterOverwrites(t: PathTable, a: (string, OperationWithMeta), b: (string, OperationWithMeta))
    requires a.1.path == b.1.path && a.1.verb == b.1.verb
    ensures Insert(Insert(t, a.0, a.1), b.0, b.1) == Insert(t, b.0, b.1)
  {
    var p := b.1.path;
    var left := Insert(Insert(t, a.0, a.1), b.0, b.1);
    var right := Insert(t, b.0, b.1);
    assert left[p] == right[p];
  }

  /** The one-operation example: `{op1: operation({path: "/x", method: "get",
      summary: "s"})}` gives `{"/x": {get: {operationId: "op1", summary: "s"}}}`. */
  lemma PathsExample()
    ensures PathTableOf([("op1", Operation(map["path" := JStr("/x"), "method" := JStr("get"),
                                                "summary" := JStr("s")]))])
            == map["/x" := map[Get := OperationWithMeta("/x", Get,
                                  map["operationId" := JStr("op1"), "summary" := JStr("s")])]]
  {
    var op := map["path" := JStr("/x"), "method" := JStr("get"), "summary" := JStr("s")];
    var w := Operation(op);
    assert w.fields == map["summary" := JStr("s")];
    assert [("op1", w)][..0] == [];
    assert Stamp("op1", w).fields == map["operationId" := JStr("op1"), "summary" := JStr("s")];
  }
}
