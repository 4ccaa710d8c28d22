/**
 JSON schemas of Go types that may contain themselves: the builder, its set of
 structs under way, and where it stops.
 */
module SchemaGen {
  import opened Prelude

  datatype Type =
    | Text | Flag | Whole | Number | RawJson | Instant | Anything | Dictionary | Unsupported
    | Pointer(to: Type) | List(of: Type) | Struct(name: int)

  /** `json` is None for a field that is not on the wire. */
  datatype Field = Field(json: Option<string>, typ: Type, asString: bool, required: bool)

  /** Every struct's fields, in order. */
  type Types = map<int, seq<Field>>

  datatype Schema =
    | Empty
    | Simple(typ: string)
    | DateTime
    | Array(items: Schema)
    | Opaque
    | Object(properties: map<string, Schema>, required: seq<string>)

  /** Every struct that can be met is defined. */
  predicate Known(types: Types, t: Type) {
    match t
    case Pointer(to) => Known(types, to)
    case List(of) => Known(types, of)
    case Struct(name) => name in types
    case _ => true
  }

  ghost predicate Closed(types: Types) {
    forall n, k :: n in types && 0 <= k < |types[n]| ==> Known(types, types[n][k].typ)
  }

  function AsString(s: Schema, f: Field): Schema {
    if f.asString && s.Simple? && (s.typ == "integer" || s.typ == "number") then Simple("string") else s
  }

  /** The schema, `path` being the structs the descent is inside of. */
  function Build(types: Types, t: Type, path: set<int>): Schema
    requires Closed(types) && Known(types, t) && path <= types.Keys
    decreases |types.Keys - path|, 0, t
  {
    match t
    case Pointer(to) => Build(types, to, path)
    case RawJson => Empty
    case Instant => DateTime
    case Text => Simple("string")
    case Flag => Simple("boolean")
    case Whole => Simple("integer")
    case Number => Simple("number")
    case List(of) => Array(Build(types, of, path))
    case Dictionary => Opaque
    case Anything => Empty
    case Unsupported => Empty
    case Struct(name) =>
      if name in path then Opaque
      else
        Shrinks(types.Keys, path, name);
        Object(Properties(types, name, |types[name]|, path + {name}), Required(types[name]))
  }

  /** The properties of the first n fields; of two with one name the later stays. */
  function Properties(types: Types, name: int, n: nat, path: set<int>): map<string, Schema>
    requires Closed(types) && name in types && n <= |types[name]| && path <= types.Keys
    decreases |types.Keys - path|, 1, n
  {
    if n == 0 then map[]
    else
      var f, before := types[name][n - 1], Properties(types, name, n - 1, path);
      if f.json.None? then before else before[f.json.value := AsString(Build(types, f.typ, path), f)]
  }

  function Required(fields: seq<Field>): seq<string> {
    if fields == [] then []
    else
      var f := fields[|fields| - 1];
      Required(fields[..|fields| - 1]) + (if f.json.Some? && f.required then [f.json.value] else [])
  }

  lemma Shrinks(all: set<int>, path: set<int>, name: int)
    requires name in all && name !in path
    ensures |all - (path + {name})| < |all - path|
  {
    assert all - path == (all - (path + {name})) + {name};
  }

  // ------------------------------------------------------------------ the builder

  class Builder {
    const types: Types
    var seen: set<int>

    constructor (types: Types)
      ensures this.types == types && seen == {}
    {
      this.types := types;
      seen := {};
    }

    /** seen holds the structs under way; it is restored on the way out. */
    method BuildSchema(t: Type) returns (s: Schema)
      requires Closed(types) && Known(types, t) && seen <= types.Keys
      modifies this
      ensures seen == old(seen) && s == Build(types, t, old(seen))
      decreases |types.Keys - seen|, 0, t
    {
      var cur := t;
      while cur.Pointer?
        invariant Known(types, cur) && Build(types, cur, seen) == Build(types, t, seen) && seen == old(seen)
        invariant cur == t || cur < t
        decreases cur
      {
        cur := cur.to;
      }
      match cur {
        case RawJson => return Empty;
        case Instant => return DateTime;
        case Text => return Simple("string");
        case Flag => return Simple("boolean");
        case Whole => return Simple("integer");
        case Number => return Simple("number");
        case List(of) =>
          var items := BuildSchema(of);
          return Array(items);
        case Dictionary => return Opaque;
        case Anything => return Empty;
        case Unsupported => return Empty;
        case Struct(name) =>
          if name in seen { return Opaque; }
          ghost var path := seen;
          Shrinks(types.Keys, seen, name);
          seen := seen + {name};
          s := BuildStruct(name);
          seen := seen - {name};
          assert seen == path;
      }
    }

    method BuildStruct(name: int) returns (s: Schema)
      requires Closed(types) && name in types && seen <= types.Keys
      modifies this
      ensures seen == old(seen)
      ensures s == Object(Properties(types, name, |types[name]|, seen), Required(types[name]))
      decreases |types.Keys - seen|, 1
    {
      var fields := types[name];
      var properties: map<string, Schema> := map[];
      var required := [];
      for i := 0 to |fields|
        invariant seen == old(seen)
        invariant properties == Properties(types, name, i, seen) && required == Required(fields[..i])
      {
        var f := fields[i];
        assert fields[..i + 1][..i] == fields[..i];
        if f.json.None? { continue; }
        var nested := BuildSchema(f.typ);
        if f.asString && nested.Simple? && (nested.typ == "integer" || nested.typ == "number") {
          nested := Simple("string");
        }
        properties := properties[f.json.value := nested];
        if f.required { required := required + [f.json.value]; }
      }
      assert fields[..|fields|] == fields;
      return Object(properties, required);
    }
  }

  // ------------------------------------------------------------- where it is opaque

  /** One step down: into a list's elements, or a property. */
  datatype Step = Elem | Prop(name: string)

  /** The field a property is built from: the last of its name. */
  function FieldAt(fields: seq<Field>, n: nat, json: string): (i: Option<nat>)
    requires n <= |fields|
    ensures i.Some? ==> i.value < n && fields[i.value].json == Some(json)
  {
    if n == 0 then None
    else if fields[n - 1].json == Some(json) then Some(n - 1)
    else FieldAt(fields, n - 1, json)
  }

  /** The type some steps down, and the structs passed through on the way; None
      where a struct met again (or a missing property) ends the descent. */
  function Reach(types: Types, t: Type, path: set<int>, steps: seq<Step>): (r: Option<(Type, set<int>)>)
    requires Closed(types) && Known(types, t) && path <= types.Keys
    ensures r.Some? ==> Known(types, r.value.0) && r.value.1 <= types.Keys && path <= r.value.1
    decreases |steps|, t
  {
    if steps == [] then Some((t, path))
    else
      match t
      case Pointer(to) => Reach(types, to, path, steps)
      case List(of) => if steps[0].Elem? then Reach(types, of, path, steps[1..]) else None
      case Struct(name) =>
        if name in path || steps[0].Elem? then None
        else
          var i := FieldAt(types[name], |types[name]|, steps[0].name);
          if i.None? then None else Reach(types, types[name][i.value].typ, path + {name}, steps[1..])
      case _ => None
  }

  function At(s: Schema, steps: seq<Step>): Option<Schema> {
    if steps == [] then Some(s)
    else
      match s
      case Array(items) => if steps[0].Elem? then At(items, steps[1..]) else None
      case Object(properties, _) =>
        if steps[0].Prop? && steps[0].name in properties then At(properties[steps[0].name], steps[1..]) else None
      case _ => None
  }

  lemma {:induction false} PropertyAt(types: Types, name: int, n: nat, path: set<int>, json: string)
    requires Closed(types) && name in types && n <= |types[name]| && path <= types.Keys
    ensures var i := FieldAt(types[name], n, json); var all := Properties(types, name, n, path);
      && (json in all <==> i.Some?)
      && (i.Some? ==> all[json] == AsString(Build(types, types[name][i.value].typ, path), types[name][i.value]))
  {
    if n > 0 { PropertyAt(types, name, n - 1, path, json); }
  }

  function Strip(t: Type): Type {
    if t.Pointer? then Strip(t.to) else t
  }

  /** Field k is the last of its JSON name. */
  ghost predicate LastOfName(fields: seq<Field>, k: int, json: string) {
    0 <= k < |fields| && fields[k].json == Some(json) && forall j :: k < j < |fields| ==> fields[j].json != Some(json)
  }

  lemma {:induction false} FieldIsLast(fields: seq<Field>, n: nat, json: string)
    requires n <= |fields|
    ensures var i := FieldAt(fields, n, json);
      && (i.None? <==> forall j :: 0 <= j < n ==> fields[j].json != Some(json))
      && (i.Some? ==> forall j :: i.value < j < n ==> fields[j].json != Some(json))
  {
    if n > 0 { FieldIsLast(fields, n - 1, json); }
  }

  lemma LastIsOne(fields: seq<Field>, i: int, json: string)
    requires 0 <= i < |fields| && fields[i].json == Some(json)
    requires forall j :: i < j < |fields| ==> fields[j].json != Some(json)
    ensures forall k :: LastOfName(fields, k, json) <==> k == i
  {
  }

  /** A number behind any pointers. */
  predicate IsNumber(t: Type) {
    Strip(t) == Whole || Strip(t) == Number
  }

  lemma NumberAsText(s: Schema, f: Field)
    ensures AsString(s, f) == if f.asString && (s == Simple("integer") || s == Simple("number")) then Simple("string") else s
  {
    if s.Simple? { assert s == Simple(s.typ); }
  }

  lemma {:induction false} NumbersAre(types: Types, t: Type, path: set<int>)
    requires Closed(types) && Known(types, t) && path <= types.Keys
    ensures var s := Build(types, t, path); Strip(t) == Whole || Strip(t) == Number <==> s == Simple("integer") || s == Simple("number")
  {
    if t.Pointer? { NumbersAre(types, t.to, path); }
  }

  /** A struct's schema has a property for each JSON name its fields have, and no
      other.  It comes from the last field of that name: text when the field is a
      number sent as text, and else what its type gives inside the struct. */
  lemma PropertiesAre(types: Types, name: int, path: set<int>, json: string)
    requires Closed(types) && name in types && path <= types.Keys && name !in path
    ensures var fields, s := types[name], Build(types, Struct(name), path);
      && s.Object? && (json in s.properties <==> exists k :: LastOfName(fields, k, json))
      && forall k :: LastOfName(fields, k, json) ==>
           s.properties[json] == (if fields[k].asString && IsNumber(fields[k].typ) then Simple("string")
                                  else Build(types, fields[k].typ, path + {name}))
  {
    var fields := types[name];
    FieldIsLast(fields, |fields|, json);
    PropertyAt(types, name, |fields|, path + {name}, json);
    var i := FieldAt(fields, |fields|, json);
    if i.Some? {
      LastIsOne(fields, i.value, json);
      assert LastOfName(fields, i.value, json);
      var f := fields[i.value];
      NumbersAre(types, f.typ, path + {name});
      assert Build(types, Struct(name), path) == Object(Properties(types, name, |fields|, path + {name}), Required(fields));
      hide Build, LastOfName, Properties, Required, FieldAt, AsString;
      NumberAsText(Build(types, f.typ, path + {name}), f);
    } else {
      assert forall k :: !LastOfName(fields, k, json);
    }
  }

  /** The names are those of the fields at these places: the required fields that
      are on the wire, in order. */
  ghost predicate Picked(fields: seq<Field>, at: seq<int>, names: seq<string>) {
    && |at| == |names|
    && (forall p :: 0 <= p < |at| ==> 0 <= at[p] < |fields| && fields[at[p]].json == Some(names[p]))
    && (forall p :: 0 < p < |at| ==> at[p - 1] < at[p])
    && (forall k :: 0 <= k < |fields| && fields[k].json.Some? && fields[k].required ==> k in at)
    && (forall p :: 0 <= p < |at| ==> fields[at[p]].required)
  }

  lemma PickedMore(fields: seq<Field>, at: seq<int>, names: seq<string>, f: Field)
    requires Picked(fields, at, names)
    ensures if f.json.Some? && f.required then Picked(fields + [f], at + [|fields|], names + [f.json.value])
            else Picked(fields + [f], at, names)
  {
    var more, all := fields + [f], at + [|fields|];
    assert forall k | 0 <= k < |fields| :: more[k] == fields[k];
    forall k | 0 <= k < |fields| && fields[k].json.Some? && fields[k].required ensures k in all {
      assert k in at;
    }
    assert all[|at|] == |fields|;
  }

  /** The required names are those of the fields that are on the wire and asked
      for, in order. */
  lemma {:induction false} RequiredAre(fields: seq<Field>) returns (at: seq<int>)
    ensures Picked(fields, at, Required(fields))
  {
    at := [];
    if fields != [] {
      var n := |fields| - 1;
      at := RequiredAre(fields[..n]);
      PickedMore(fields[..n], at, Required(fields[..n]), fields[n]);
      assert fields[..n] + [fields[n]] == fields;
      hide Picked;
      assert Required(fields[..n]) + [] == Required(fields[..n]);
      if fields[n].json.Some? && fields[n].required { at := at + [n]; }
    }
  }

  /** Two schemas that differ only in how a number is sent. */
  predicate SameShape(a: Schema, b: Schema) {
    a == b || (a.Simple? && b.Simple?)
  }

  lemma {:induction false} AtStringly(s: Schema, f: Field, steps: seq<Step>)
    ensures At(AsString(s, f), steps).Some? <==> At(s, steps).Some?
    ensures At(s, steps).Some? ==> SameShape(At(AsString(s, f), steps).value, At(s, steps).value)
  {
  }

  /** The schema has a place for exactly the steps the types allow, and what is
      there is the schema of the type there, inside the structs passed. */
  lemma {:induction false} SchemaFollowsTypes(types: Types, t: Type, path: set<int>, steps: seq<Step>)
    requires Closed(types) && Known(types, t) && path <= types.Keys
    ensures var r, s := Reach(types, t, path, steps), At(Build(types, t, path), steps);
      && (r.Some? <==> s.Some?)
      && (r.Some? ==> SameShape(s.value, Build(types, r.value.0, r.value.1)))
    decreases |steps|, t
  {
    if steps != [] {
      match t
      case Pointer(to) => SchemaFollowsTypes(types, to, path, steps);
      case List(of) => if steps[0].Elem? { SchemaFollowsTypes(types, of, path, steps[1..]); }
      case Struct(name) =>
        if name !in path && steps[0].Prop? { Descend(types, name, path, steps); }
      case _ =>
    }
  }

  lemma {:induction false} Descend(types: Types, name: int, path: set<int>, steps: seq<Step>)
    requires Closed(types) && name in types && path <= types.Keys && name !in path && steps != [] && steps[0].Prop?
    ensures var r, s := Reach(types, Struct(name), path, steps), At(Build(types, Struct(name), path), steps);
      && (r.Some? <==> s.Some?)
      && (r.Some? ==> SameShape(s.value, Build(types, r.value.0, r.value.1)))
    decreases |steps|, Struct(name), 0
  {
    var n, inside := |types[name]|, path + {name};
    var i := FieldAt(types[name], n, steps[0].name);
    PropertyAt(types, name, n, inside, steps[0].name);
    if i.Some? {
      var f := types[name][i.value];
      SchemaFollowsTypes(types, f.typ, inside, steps[1..]);
      AtStringly(Build(types, f.typ, inside), f, steps[1..]);
    }
  }

  lemma {:induction false} BuildStrips(types: Types, t: Type, path: set<int>)
    requires Closed(types) && Known(types, t) && path <= types.Keys
    ensures Known(types, Strip(t)) && Build(types, t, path) == Build(types, Strip(t), path)
  {
    if t.Pointer? { BuildStrips(types, t.to, path); }
  }

  /** A struct is left opaque exactly where it is its own ancestor on the way down. */
  lemma OpaqueIffAncestor(types: Types, t: Type, steps: seq<Step>, name: int)
    requires Closed(types) && Known(types, t)
    requires var r := Reach(types, t, {}, steps); r.Some? && Strip(r.value.0) == Struct(name)
    ensures var r, s := Reach(types, t, {}, steps), At(Build(types, t, {}), steps);
      s.Some? && (s.value == Opaque <==> name in r.value.1) && (s.value.Object? <==> name !in r.value.1)
  {
    var r := Reach(types, t, {}, steps);
    SchemaFollowsTypes(types, t, {}, steps);
    BuildStrips(types, r.value.0, r.value.1);
  }
}
