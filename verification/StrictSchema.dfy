/** The strict-mode rewrite of a response schema: every property required, the optional
    ones nullable. */
module StrictSchema {
  import opened Model
  import Order

  datatype Json =
    | Null
    | Bool(b: bool)
    | Num(x: real)
    | Str(s: string)
    | Arr(items: seq<Json>)
    | Obj(fields: map<string, Json>)

  // ---- The rewrite ----------------------------------------------------------

  /** A single-typed node also admits null. */
  function AllowNull(node: Json): Json {
    if node.Obj? && "type" in node.fields && node.fields["type"].Str? && node.fields["type"].s != "null"
    then Obj(node.fields["type" := Arr([node.fields["type"], Str("null")])])
    else node
  }

  predicate HasProperties(m: map<string, Json>) { "properties" in m && m["properties"].Obj? }

  function Properties(m: map<string, Json>): map<string, Json> {
    if HasProperties(m) then m["properties"].fields else map[]
  }

  /** The names an object schema already requires. */
  predicate Requires(m: map<string, Json>, name: string) {
    "required" in m && m["required"].Arr? && Str(name) in m["required"].items
  }

  function Nullable(props: map<string, Json>, optional: set<string>): map<string, Json> {
    map name | name in props :: if name in optional then AllowNull(props[name]) else props[name]
  }

  function Optional(m: map<string, Json>): set<string> {
    set name | name in Properties(m) && !Requires(m, name)
  }

  function Names(names: seq<string>): Json {
    Arr(seq(|names|, i requires 0 <= i < |names| => Str(names[i])))
  }

  function Children(node: Json): map<string, Json>
    requires node.Obj?
    decreases node, 0
  {
    map key | key in node.fields :: if key == "required" then node.fields[key] else Rewritten(node.fields[key])
  }

  /** What an object becomes once its children are rewritten. Here a property is made nullable
      after its own rewrite; openai.go does it before, which `NullableCommutes` says comes
      to the same. */
  function Assembled(m: map<string, Json>, children: map<string, Json>): map<string, Json> {
    if HasProperties(m)
    then children["properties" := Obj(Nullable(Properties(children), Optional(m)))]
                 ["required" := Names(Order.Sorted(Properties(m).Keys))]
    else children
  }

  function Rewritten(node: Json): Json
    decreases node, 1
  {
    match node
    case Arr(xs) => Arr(seq(|xs|, i requires 0 <= i < |xs| => Rewritten(xs[i])))
    case Obj(m) => Obj(Assembled(m, Children(node)))
    case _ => node
  }

  lemma RewrittenKind(node: Json)
    ensures Rewritten(node).Obj? == node.Obj? && Rewritten(node).Arr? == node.Arr?
    ensures !node.Obj? && !node.Arr? ==> Rewritten(node) == node
    ensures Rewritten(node).Str? == node.Str?
  {}

  lemma RewrittenObject(node: Json)
    requires node.Obj?
    ensures Rewritten(node) == Obj(Assembled(node.fields, Children(node)))
  {}

  lemma RewrittenStrings(xs: seq<Json>)
    requires forall x :: x in xs ==> x.Str?
    ensures Rewritten(Arr(xs)) == Arr(xs)
  {
    assert seq(|xs|, i requires 0 <= i < |xs| => Rewritten(xs[i])) == xs;
  }

  /** Rewriting a node and making it nullable commute. */
  lemma NullableCommutes(node: Json)
    ensures Rewritten(AllowNull(node)) == AllowNull(Rewritten(node))
  {
    if node.Obj? {
      var m := node.fields;
      if "type" in m { RewrittenKind(m["type"]); }
      if AllowNull(node) != node {
        var pair := Arr([m["type"], Str("null")]);
        RewrittenStrings([m["type"], Str("null")]);
        var node' := Obj(m["type" := pair]);
        assert Children(node') == Children(node)["type" := pair];
        assert Children(node)["type"] == m["type"];
        RewrittenObject(node);
        RewrittenObject(node');
        SameAssembly(m, m["type" := pair], Children(node), pair);
        hide Assembled, Children, Rewritten;
      }
    }
  }

  /** Assembly neither reads nor writes the type. */
  lemma SameAssembly(m: map<string, Json>, m': map<string, Json>, children: map<string, Json>, t: Json)
    requires m' == m["type" := t]
    ensures Assembled(m', children["type" := t]) == Assembled(m, children)["type" := t]
    ensures "type" in children ==> "type" in Assembled(m, children) && Assembled(m, children)["type"] == children["type"]
  {
    assert Properties(m') == Properties(m) && Properties(children["type" := t]) == Properties(children);
    assert Optional(m') == Optional(m);
    UpdatesCommute(children, t, Obj(Nullable(Properties(children), Optional(m))), Names(Order.Sorted(Properties(m).Keys)));
    hide Order.Sorted, Names, Nullable, Optional, Properties;
  }

  lemma UpdatesCommute(m: map<string, Json>, t: Json, props: Json, names: Json)
    ensures m["type" := t]["properties" := props]["required" := names] == m["properties" := props]["required" := names]["type" := t]
  {}

  // ---- What the rewrite leaves --------------------------------------------------

  lemma NamesHold(s: set<string>, name: string)
    ensures Names(Order.Sorted(s)).Arr? && (Str(name) in Names(Order.Sorted(s)).items <==> name in s)
  {
    var names := Order.Sorted(s);
    hide Order.Sorted;
    if name in names {
      var i :| 0 <= i < |names| && names[i] == name;
      assert Names(names).items[i] == Str(name);
    }
    if Str(name) in Names(names).items {
      var i :| 0 <= i < |names| && Names(names).items[i] == Str(name);
      assert names[i] == name;
    }
  }

  /** With no property of that name, the map of properties is not itself rewritten as a schema. */
  lemma PropertiesOfRewritten(node: Json)
    requires node.Obj? && HasProperties(node.fields) && "properties" !in Properties(node.fields)
    ensures Properties(Children(node)) == Children(Obj(Properties(node.fields)))
    ensures Properties(Rewritten(node).fields) == Nullable(Children(Obj(Properties(node.fields))), Optional(node.fields))
    ensures HasProperties(Rewritten(node).fields)
    ensures "required" in Rewritten(node).fields
    ensures Rewritten(node).fields["required"] == Names(Order.Sorted(Properties(node.fields).Keys))
  {
    hide Nullable, Optional, Names, Order.Sorted;
    var props := Obj(Properties(node.fields));
    assert Rewritten(props) == Obj(Children(props));
    assert Children(node)["properties"] == Rewritten(props);
  }

  /** What the rewrite of an object holds, key by key. */
  lemma RewrittenFields(m: map<string, Json>)
    requires HasProperties(m)
    ensures var m' := Rewritten(Obj(m)).fields;
      && m'.Keys == m.Keys + {"required"}
      && m'["properties"] == Obj(Nullable(Rewritten(Obj(Properties(m))).fields, Optional(m)))
      && m'["required"] == Names(Order.Sorted(Properties(m).Keys))
      && forall key :: key in m && key != "properties" && key != "required" ==> m'[key] == Rewritten(m[key])
  {
    hide Nullable, Optional, Names, Order.Sorted;
    assert Children(Obj(m))["properties"] == Rewritten(Obj(Properties(m)));
  }

  lemma RewrittenPlain(m: map<string, Json>)
    requires !HasProperties(m)
    ensures var m' := Rewritten(Obj(m)).fields;
      && m'.Keys == m.Keys && !HasProperties(m')
      && forall key :: key in m ==> m'[key] == if key == "required" then m[key] else Rewritten(m[key])
  {
    if "properties" in m { RewrittenKind(m["properties"]); }
  }

  /** What the rewrite leaves of one object: it requires exactly the properties it had. One can
      be optional still, the "required" that a map of properties gains when the rewrite takes
      it for an object schema. */
  lemma NothingOptional(node: Json)
    requires node.Obj? && HasProperties(node.fields)
    ensures var (m, m') := (node.fields, Rewritten(node).fields);
      && HasProperties(m') && Properties(m').Keys == Properties(m).Keys + Gained(Properties(m))
      && m'["required"] == Names(Order.Sorted(Properties(m).Keys))
      && (forall name :: Requires(m', name) <==> name in Properties(m))
      && Optional(m') == Gained(Properties(m))
  {
    var m, m' := node.fields, Rewritten(node).fields;
    RewrittenFields(m);
    RewrittenKeys(Properties(m));
    forall name ensures Requires(m', name) <==> name in Properties(m) { NamesHold(Properties(m).Keys, name); }
    hide Rewritten, Names, Order.Sorted, Requires, Gained;
    assert Optional(m') == Properties(m').Keys - Properties(m).Keys;
    GainedIsNew(Properties(m));
  }

  /** What a map of properties gains when it is itself rewritten as an object schema. */
  function Gained(props: map<string, Json>): set<string> {
    if HasProperties(props) && "required" !in props then {"required"} else {}
  }

  lemma GainedIsNew(props: map<string, Json>)
    ensures props.Keys + Gained(props) - props.Keys == Gained(props)
  {}

  lemma RewrittenKeys(props: map<string, Json>)
    ensures Rewritten(Obj(props)).fields.Keys == props.Keys + Gained(props)
  {
    if HasProperties(props) { RewrittenFields(props); } else { RewrittenPlain(props); }
    hide Rewritten, HasProperties, Properties;
  }

  // ---- Rewriting twice --------------------------------------------------------

  /** Wherever the rewrite goes, a map of properties that it takes for an object schema, because
      one of them is named "properties", has one named "required" as well. */
  ghost predicate Stable(node: Json) {
    match node
    case Arr(xs) => forall i :: 0 <= i < |xs| ==> Stable(xs[i])
    case Obj(m) =>
      && (HasProperties(m) && HasProperties(Properties(m)) ==> "required" in Properties(m))
      && forall key :: key in m && key != "required" ==> Stable(m[key])
    case _ => true
  }

  /** Whether a node has a single type, which is what making it nullable looks at. */
  predicate OneType(node: Json) { node.Obj? && "type" in node.fields && node.fields["type"].Str? }

  lemma AllowNullInjective(a: Json, b: Json)
    requires AllowNull(a) == AllowNull(b) && (OneType(a) <==> OneType(b))
    ensures a == b
  {
    if AllowNull(a) != a {
      var (x, y) := (AllowNull(a).fields, AllowNull(b).fields);
      assert x["type"].Arr? && y["type"].Arr?;
      assert a.fields["type"] == x["type"].items[0] && b.fields["type"] == y["type"].items[0];
      assert a.fields == x["type" := a.fields["type"]] && b.fields == y["type" := b.fields["type"]];
    }
  }

  lemma OneTypeStays(node: Json)
    ensures OneType(Rewritten(node)) <==> OneType(node)
  {
    if node.Obj? {
      if HasProperties(node.fields) { RewrittenFields(node.fields); } else { RewrittenPlain(node.fields); }
      if "type" in node.fields { RewrittenKind(node.fields["type"]); }
    } else { RewrittenKind(node); }
  }

  lemma NullableKeepsOneType(props: map<string, Json>, optional: set<string>)
    ensures OneType(Obj(Nullable(props, optional))) <==> OneType(Obj(props))
  {}

  /** The rewrite leaves the single type of a property, also of one that holds properties. */
  lemma ChildTypeStays(q: map<string, Json>, name: string)
    requires name in q
    ensures name in Rewritten(Obj(q)).fields
    ensures name != "required" ==> (OneType(Rewritten(Obj(q)).fields[name]) <==> OneType(q[name]))
    ensures name == "required" ==> Rewritten(Obj(q)).fields[name] == q[name] || Rewritten(Obj(q)).fields[name].Arr?
  {
    OneTypeStays(q[name]);
    if HasProperties(q) {
      RewrittenFields(q);
      if name == "properties" {
        OneTypeStays(Obj(Properties(q)));
        NullableKeepsOneType(Rewritten(Obj(Properties(q))).fields, Optional(q));
      }
    } else {
      RewrittenPlain(q);
    }
    hide Rewritten, Nullable, Optional, OneType, Order.Sorted;
  }

  /** So making properties nullable hides no change the rewrite makes to one it already made. */
  lemma NullableReflects(props: map<string, Json>, optional: set<string>)
    requires var (r, again) := (Rewritten(Obj(props)).fields, Rewritten(Rewritten(Obj(props))).fields);
      Nullable(again, optional) == Nullable(r, optional)
    ensures Rewritten(Rewritten(Obj(props))) == Rewritten(Obj(props))
  {
    var r, again := Rewritten(Obj(props)).fields, Rewritten(Rewritten(Obj(props))).fields;
    assert again.Keys == Nullable(again, optional).Keys && r.Keys == Nullable(r, optional).Keys;
    forall name | name in r ensures again[name] == r[name] {
      ChildTypeStays(r, name);
      assert Nullable(again, optional)[name] == Nullable(r, optional)[name];
      if name in optional {
        if name == "required" { RequiredTwice(props); } else { AllowNullInjective(again[name], r[name]); }
      }
    }
    assert again == r;
  }

  lemma RequiredTwice(props: map<string, Json>)
    requires "required" in Rewritten(Obj(props)).fields
    ensures var r := Rewritten(Obj(props));
      "required" in Rewritten(r).fields && (OneType(Rewritten(r).fields["required"]) <==> OneType(r.fields["required"]))
  {
    var r := Rewritten(Obj(props)).fields;
    if HasProperties(props) {
      RewrittenFields(props);
      RewrittenFields(r);
    } else {
      RewrittenPlain(props);
      RewrittenPlain(r);
    }
    hide Rewritten, Order.Sorted, Nullable, Optional;
  }

  predicate SettlesAt(node: Json) { Rewritten(Rewritten(node)) == Rewritten(node) }

  lemma PlainSettles(m: map<string, Json>)
    requires !HasProperties(m)
    ensures SettlesAt(Obj(m)) <==> forall key :: key in m && key != "required" ==> SettlesAt(m[key])
  {
    var m' := Rewritten(Obj(m)).fields;
    RewrittenPlain(m);
    RewrittenPlain(m');
    var m'' := Rewritten(Obj(m')).fields;
    hide Rewritten, HasProperties;
    assert m'' == m' <==> forall key :: key in m ==> m''[key] == m'[key];
  }

  /** What the second rewrite makes of an object with properties. */
  lemma SecondRewrite(m: map<string, Json>)
    requires HasProperties(m)
    ensures var (m', r) := (Rewritten(Obj(m)).fields, Rewritten(Obj(Properties(m))));
      var m'' := Rewritten(Obj(m')).fields;
      && HasProperties(m') && m''.Keys == m'.Keys == m.Keys + {"required"}
      && Properties(m') == Nullable(r.fields, Optional(m))
      && m''["properties"] == Obj(Nullable(Nullable(Rewritten(r).fields, Optional(m)), Gained(Properties(m))))
      && m'["required"] == Names(Order.Sorted(Properties(m).Keys))
      && m''["required"] == Names(Order.Sorted(Properties(m').Keys))
      && Properties(m').Keys == Properties(m).Keys + Gained(Properties(m))
      && forall key :: key in m && key != "properties" && key != "required" ==>
           m'[key] == Rewritten(m[key]) && m''[key] == Rewritten(Rewritten(m[key]))
  {
    var m', r := Rewritten(Obj(m)).fields, Rewritten(Obj(Properties(m))).fields;
    RewrittenFields(m);
    RewrittenFields(m');
    NothingOptional(Obj(m));
    NullableChildren(r, Optional(m));
    hide Rewritten, Nullable, Optional, Order.Sorted, Names, Gained;
  }

  lemma SettledGainsNothing(m: map<string, Json>)
    requires HasProperties(m) && SettlesAt(Obj(m))
    ensures Gained(Properties(m)) == {}
  {
    SecondRewrite(m);
    NamesHold(Properties(m).Keys, "required");
    NamesHold(Properties(Rewritten(Obj(m)).fields).Keys, "required");
    hide Rewritten, Nullable, Optional, Order.Sorted, Names;
  }

  lemma NothingNullable(props: map<string, Json>)
    ensures Nullable(props, {}) == props
  {}

  /** The map of properties comes out the same exactly if it is settled itself. */
  lemma PropertiesKeySettles(m: map<string, Json>)
    requires HasProperties(m) && Gained(Properties(m)) == {}
    ensures var (m', m'') := (Rewritten(Obj(m)).fields, Rewritten(Rewritten(Obj(m))).fields);
      && m''["required"] == m'["required"]
      && (m''["properties"] == m'["properties"] <==> SettlesAt(m["properties"]))
  {
    SecondRewrite(m);
    var r := Rewritten(Obj(Properties(m)));
    NothingNullable(Nullable(Rewritten(r).fields, Optional(m)));
    RewrittenKind(Obj(Properties(m)));
    RewrittenKind(r);
    if Nullable(Rewritten(r).fields, Optional(m)) == Nullable(r.fields, Optional(m)) { NullableReflects(Properties(m), Optional(m)); }
    hide Rewritten, Nullable, Optional, Order.Sorted, Names, Gained;
  }

  lemma PropertiesSettle(m: map<string, Json>)
    requires HasProperties(m)
    ensures SettlesAt(Obj(m)) <==> Gained(Properties(m)) == {} && forall key :: key in m && key != "required" ==> SettlesAt(m[key])
  {
    SecondRewrite(m);
    RewrittenKind(Obj(m));
    RewrittenKind(Rewritten(Obj(m)));
    SettlesByKey(Obj(m), Rewritten(Obj(m)).fields, Rewritten(Rewritten(Obj(m))).fields);
    hide Rewritten, Nullable, Optional, Order.Sorted, Names, Gained;
    if SettlesAt(Obj(m)) { SettledGainsNothing(m); }
    if Gained(Properties(m)) == {} { PropertiesKeySettles(m); }
    hide HasProperties, Properties;
  }

  lemma SettlesByKey(node: Json, once: map<string, Json>, twice: map<string, Json>)
    requires Rewritten(node) == Obj(once) && Rewritten(Obj(once)) == Obj(twice) && twice.Keys == once.Keys
    ensures SettlesAt(node) <==> forall key :: key in once ==> twice[key] == once[key]
  {
    assert twice == once <==> forall key :: key in once ==> twice[key] == once[key];
    hide Rewritten;
  }

  lemma ItemsSettle(xs: seq<Json>)
    ensures SettlesAt(Arr(xs)) <==> forall i :: 0 <= i < |xs| ==> SettlesAt(xs[i])
  {
    var once, twice := Rewritten(Arr(xs)).items, Rewritten(Rewritten(Arr(xs))).items;
    assert forall i :: 0 <= i < |xs| ==> once[i] == Rewritten(xs[i]) && twice[i] == Rewritten(Rewritten(xs[i]));
    assert SettlesAt(Arr(xs)) <==> twice == once;
    hide Rewritten;
  }

  /** Rewriting what was already rewritten changes nothing, exactly for the stable documents. */
  lemma {:induction false} Idempotent(node: Json)
    ensures Rewritten(Rewritten(node)) == Rewritten(node) <==> Stable(node)
    decreases node
  {
    match node
    case Arr(xs) =>
      forall i | 0 <= i < |xs| ensures SettlesAt(xs[i]) <==> Stable(xs[i]) { Idempotent(xs[i]); }
      ItemsSettle(xs);
      hide Rewritten;
    case Obj(m) =>
      forall key | key in m ensures SettlesAt(m[key]) <==> Stable(m[key]) { Idempotent(m[key]); }
      if HasProperties(m) { PropertiesSettle(m); } else { PlainSettles(m); }
      assert SettlesAt(node) <==> Rewritten(Rewritten(node)) == Rewritten(node);
      assert Gained(Properties(m)) == {} <==> (HasProperties(Properties(m)) ==> "required" in Properties(m));
      hide Rewritten, SettlesAt, Gained, HasProperties, Properties;
    case _ =>
      RewrittenKind(node);
  }

  /** A document that lists a property named "properties" does change: the map of properties is
      itself taken for an object schema, and grows a property named "required". One that lists
      both is stable. */
  lemma NamedPropertiesGrows()
    ensures var doc := Obj(map["properties" := Obj(map["properties" := Obj(map[])])]);
      Rewritten(Rewritten(doc)) != Rewritten(doc)
    ensures var doc := Obj(map["properties" := Obj(map["properties" := Obj(map[]), "required" := Obj(map[])])]);
      Rewritten(Rewritten(doc)) == Rewritten(doc)
  {
    var inner := map["properties" := Obj(map[])];
    var both := map["properties" := Obj(map[]), "required" := Obj(map[])];
    var grown, stable := Obj(map["properties" := Obj(inner)]), Obj(map["properties" := Obj(both)]);
    Idempotent(grown);
    Idempotent(stable);
    hide Rewritten;
    assert !Stable(grown);
    assert Stable(Obj(map[])) && Stable(Obj(both));
    assert Stable(stable);
  }

  // ---- What a schema admits ---------------------------------------------------

  predicate HasType(t: string, v: Json) {
    match t
    case "null" => v.Null?
    case "boolean" => v.Bool?
    case "number" => v.Num?
    case "integer" => v.Num? && v.x.Floor as real == v.x
    case "string" => v.Str?
    case "array" => v.Arr?
    case "object" => v.Obj?
    case _ => false
  }

  /** `type`: one name, or a list of alternatives (JSON Schema Validation, section 6.1.1). */
  predicate TypeAdmits(m: map<string, Json>, v: Json) {
    "type" in m ==>
      match m["type"]
      case Str(t) => HasType(t, v)
      case Arr(ts) => exists t :: t in ts && t.Str? && HasType(t.s, v)
      case _ => true
  }

  /** `enum` (section 6.1.2). */
  predicate EnumAdmits(m: map<string, Json>, v: Json) { "enum" in m && m["enum"].Arr? ==> v in m["enum"].items }

  predicate AtMost(m: map<string, Json>, key: string, x: real) { key in m && m[key].Num? ==> x <= m[key].x }

  predicate AtLeast(m: map<string, Json>, key: string, x: real) { key in m && m[key].Num? ==> x >= m[key].x }

  /** The bounds, each of which speaks of one kind of value and admits every other. */
  predicate BoundsAdmit(m: map<string, Json>, v: Json) {
    && (v.Arr? ==> AtMost(m, "maxItems", |v.items| as real))
    && (v.Str? ==> AtMost(m, "maxLength", |v.s| as real))
    && (v.Num? ==> AtMost(m, "maximum", v.x) && AtLeast(m, "minimum", v.x))
  }

  /** The schema of a field: its property, else the one for additional fields. */
  function FieldSchema(m: map<string, Json>, name: string): Json {
    if name in Properties(m) then Properties(m)[name]
    else if "additionalProperties" in m then m["additionalProperties"] else Bool(true)
  }

  function ItemSchema(m: map<string, Json>): Json { if "items" in m then m["items"] else Bool(true) }

  /** `required` (section 6.5.3). */
  ghost predicate RequiredPresent(m: map<string, Json>, fields: map<string, Json>) {
    forall name :: Requires(m, name) ==> name in fields
  }

  ghost predicate Admits(schema: Json, v: Json)
    decreases v
  {
    match schema
    case Bool(b) => b
    case Obj(m) =>
      && TypeAdmits(m, v) && EnumAdmits(m, v) && BoundsAdmit(m, v)
      && (v.Arr? ==> forall i :: 0 <= i < |v.items| ==> Admits(ItemSchema(m), v.items[i]))
      && (v.Obj? ==> RequiredPresent(m, v.fields) && forall name :: name in v.fields ==> Admits(FieldSchema(m, name), v.fields[name]))
    case _ => false
  }

  predicate Scalar(v: Json) { !v.Arr? && !v.Obj? }

  /** Schemas the rewrite is meant for: one type each, enumerations of scalars, and no property
      named after a keyword the rewrite looks for. */
  ghost predicate SingleTyped(schema: Json)
    decreases schema
  {
    match schema
    case Bool(_) => true
    case Obj(m) =>
      && ("type" in m ==> m["type"].Str?)
      && ("enum" in m ==> m["enum"].Arr? && forall x :: x in m["enum"].items ==> Scalar(x))
      && ("items" in m ==> SingleTyped(m["items"]))
      && ("additionalProperties" in m ==> SingleTyped(m["additionalProperties"]))
      && (HasProperties(m) ==>
            && "properties" !in m["properties"].fields && "required" !in m["properties"].fields
            && forall name :: name in m["properties"].fields ==> SingleTyped(m["properties"].fields[name]))
    case _ => false
  }

  /** The rewrite can make this schema admit null. */
  predicate Nullish(schema: Json) { schema == Bool(true) || (schema.Obj? && EnumAdmits(schema.fields, Null)) }

  /** At every depth, it can do so for each optional property. */
  ghost predicate OptionalsNullish(schema: Json)
    decreases schema
  {
    schema.Obj? ==>
      var m := schema.fields;
      && ("items" in m ==> OptionalsNullish(m["items"]))
      && ("additionalProperties" in m ==> OptionalsNullish(m["additionalProperties"]))
      && (HasProperties(m) ==> forall name :: name in m["properties"].fields ==>
            && OptionalsNullish(m["properties"].fields[name])
            && (!Requires(m, name) ==> Nullish(m["properties"].fields[name])))
  }

  /** At every depth, the names required beside properties are among them. */
  ghost predicate RequiresProperties(schema: Json)
    decreases schema
  {
    schema.Obj? ==>
      var m := schema.fields;
      && ("items" in m ==> RequiresProperties(m["items"]))
      && ("additionalProperties" in m ==> RequiresProperties(m["additionalProperties"]))
      && (HasProperties(m) ==>
            && (forall name :: Requires(m, name) ==> name in m["properties"].fields)
            && forall name :: name in m["properties"].fields ==> RequiresProperties(m["properties"].fields[name]))
  }

  /** Every missing optional property filled in as null, at every depth. */
  function Fill(schema: Json, v: Json): Json
    decreases v
  {
    if !schema.Obj? then v
    else
      match v
      case Arr(xs) => Arr(seq(|xs|, i requires 0 <= i < |xs| => Fill(ItemSchema(schema.fields), xs[i])))
      case Obj(f) =>
        Obj(map name | name in f.Keys + Optional(schema.fields) ::
          if name in f then Fill(FieldSchema(schema.fields, name), f[name]) else Null)
      case _ => v
  }

  /** Every optional property that is null left out, at every depth. */
  function Drop(schema: Json, v: Json): Json
    decreases v
  {
    if !schema.Obj? then v
    else
      match v
      case Arr(xs) => Arr(seq(|xs|, i requires 0 <= i < |xs| => Drop(ItemSchema(schema.fields), xs[i])))
      case Obj(f) =>
        Obj(map name | name in f && !(name in Optional(schema.fields) && f[name].Null?) ::
          Drop(FieldSchema(schema.fields, name), f[name]))
      case _ => v
  }

  lemma RewrittenKeyword(s: Json, key: string)
    requires s.Obj? && key != "properties" && key != "required"
    ensures key in Rewritten(s).fields <==> key in s.fields
    ensures key in s.fields ==> Rewritten(s).fields[key] == Rewritten(s.fields[key])
  {}

  /** What the rewrite does to the keywords that hold schemas. */
  lemma RewrittenSchema(s: Json, name: string)
    requires SingleTyped(s) && s.Obj?
    ensures var (m, m') := (s.fields, Rewritten(s).fields);
      && FieldSchema(m', name) == (if name in Optional(m) then AllowNull(Rewritten(FieldSchema(m, name))) else Rewritten(FieldSchema(m, name)))
      && ItemSchema(m') == Rewritten(ItemSchema(m))
      && (name in Properties(m') <==> name in Properties(m))
      && (Requires(m', name) <==> if HasProperties(m) then name in Properties(m) else Requires(m, name))
  {
    RewrittenKeyword(s, "items");
    RewrittenKeyword(s, "additionalProperties");
    if HasProperties(s.fields) { RewrittenProperties(s, name); } else { RewrittenBare(s); }
    hide Rewritten, SingleTyped, Requires, HasProperties;
    RewrittenKind(Bool(true));
  }

  lemma RewrittenProperties(s: Json, name: string)
    requires s.Obj? && HasProperties(s.fields) && "properties" !in Properties(s.fields) && "required" !in Properties(s.fields)
    ensures var (m, m') := (s.fields, Rewritten(s).fields);
      && Properties(m').Keys == Properties(m).Keys
      && (name in Properties(m) ==>
            Properties(m')[name] == (if name in Optional(m) then AllowNull(Rewritten(Properties(m)[name])) else Rewritten(Properties(m)[name])))
      && (Requires(m', name) <==> name in Properties(m))
  {
    PropertiesOfRewritten(s);
    NamesHold(Properties(s.fields).Keys, name);
    hide Order.Sorted, Names, AllowNull;
  }

  lemma RewrittenBare(s: Json)
    requires s.Obj? && !HasProperties(s.fields)
    ensures var m' := Rewritten(s).fields;
      && Properties(m') == map[] && Optional(s.fields) == {}
      && forall name :: Requires(m', name) <==> Requires(s.fields, name)
  {
    if "properties" in s.fields { RewrittenKind(s.fields["properties"]); }
  }

  lemma RewrittenScalars(xs: seq<Json>)
    requires forall x :: x in xs ==> Scalar(x)
    ensures Rewritten(Arr(xs)) == Arr(xs)
  {
    forall i | 0 <= i < |xs| ensures Rewritten(xs[i]) == xs[i] { assert xs[i] in xs; }
    assert seq(|xs|, i requires 0 <= i < |xs| => Rewritten(xs[i])) == xs;
  }

  /** Types, enumerations and bounds read the same afterwards. */
  lemma SameScalarKeywords(s: Json, v: Json)
    requires SingleTyped(s) && s.Obj?
    ensures var (m, m') := (s.fields, Rewritten(s).fields);
      TypeAdmits(m', v) == TypeAdmits(m, v) && EnumAdmits(m', v) == EnumAdmits(m, v) && BoundsAdmit(m', v) == BoundsAdmit(m, v)
  {
    RewrittenKeyword(s, "type");
    RewrittenKeyword(s, "enum");
    if "enum" in s.fields { RewrittenScalars(s.fields["enum"].items); }
    RewrittenKeyword(s, "maxItems");
    RewrittenKeyword(s, "maxLength");
    RewrittenKeyword(s, "maximum");
    RewrittenKeyword(s, "minimum");
  }

  /** Nullability admits exactly what was admitted before, and null. */
  lemma AllowNullAdmits(s: Json, v: Json)
    requires s.Obj? && ("type" in s.fields ==> s.fields["type"].Str?)
    ensures !v.Null? ==> (Admits(AllowNull(s), v) <==> Admits(s, v))
    ensures v.Null? ==> (Admits(AllowNull(s), v) <==> EnumAdmits(s.fields, v))
  {
    var m, m' := s.fields, AllowNull(s).fields;
    if AllowNull(s) != s {
      var ts := m'["type"].items;
      assert ts[0] in ts && ts[1] in ts;
      assert Properties(m') == Properties(m);
      assert forall name :: Requires(m', name) <==> Requires(m, name);
      assert forall name :: FieldSchema(m', name) == FieldSchema(m, name);
    }
  }

  // ---- Meaning is preserved ---------------------------------------------------

  lemma SubSchemas(s: Json, name: string)
    requires SingleTyped(s) && s.Obj?
    ensures SingleTyped(FieldSchema(s.fields, name)) && SingleTyped(ItemSchema(s.fields))
  {}

  lemma SubNullish(s: Json, name: string)
    requires OptionalsNullish(s) && s.Obj?
    ensures OptionalsNullish(FieldSchema(s.fields, name)) && OptionalsNullish(ItemSchema(s.fields))
    ensures name in Optional(s.fields) ==> Nullish(FieldSchema(s.fields, name))
  {}

  lemma SubRequires(s: Json, name: string)
    requires RequiresProperties(s) && s.Obj?
    ensures RequiresProperties(FieldSchema(s.fields, name)) && RequiresProperties(ItemSchema(s.fields))
  {}

  /** A rewritten node can be made nullable, and then admits what it admitted, and null as far as
      its enumeration does. */
  lemma RewrittenNullable(s: Json, v: Json)
    requires SingleTyped(s)
    ensures Admits(Rewritten(s), v) ==> Admits(AllowNull(Rewritten(s)), v) || v.Null?
    ensures !v.Null? && Admits(AllowNull(Rewritten(s)), v) ==> Admits(Rewritten(s), v)
    ensures v.Null? && Nullish(s) ==> Admits(AllowNull(Rewritten(s)), v)
  {
    RewrittenKind(s);
    if s.Obj? {
      RewrittenKeyword(s, "type");
      RewrittenKeyword(s, "enum");
      if "type" in s.fields { RewrittenKind(s.fields["type"]); }
      if "enum" in s.fields { RewrittenScalars(s.fields["enum"].items); }
      AllowNullAdmits(Rewritten(s), v);
      hide Rewritten, AllowNull;
    }
  }

  /** What a schema admits, the rewrite admits once missing properties are filled in as null. */
  lemma {:induction false} FillAdmitted(s: Json, v: Json)
    requires SingleTyped(s) && OptionalsNullish(s) && Admits(s, v)
    ensures Admits(Rewritten(s), Fill(s, v))
    decreases v
  {
    if s.Obj? {
      hide SingleTyped, OptionalsNullish, Rewritten;
      SameScalarKeywords(s, v);
      RewrittenKind(s);
      match v
      case Arr(xs) =>
        forall i | 0 <= i < |xs| ensures Admits(ItemSchema(Rewritten(s).fields), Fill(ItemSchema(s.fields), xs[i])) {
          RewrittenSchema(s, "");
          SubSchemas(s, "");
          SubNullish(s, "");
          FillAdmitted(ItemSchema(s.fields), xs[i]);
        }
        FilledArray(s, v);
      case Obj(f) =>
        forall name | name in Fill(s, v).fields
          ensures Admits(FieldSchema(Rewritten(s).fields, name), Fill(s, v).fields[name])
        {
          if name in f { SubSchemas(s, name); SubNullish(s, name); FillAdmitted(FieldSchema(s.fields, name), f[name]); }
          FilledField(s, f, name);
        }
        FilledObject(s, v);
      case _ =>
        ScalarAdmitted(s, v);
    }
  }

  lemma ScalarAdmitted(s: Json, v: Json)
    requires SingleTyped(s) && s.Obj? && Scalar(v)
    ensures Admits(Rewritten(s), v) <==> Admits(s, v)
  {
    SameScalarKeywords(s, v);
    RewrittenKind(s);
    hide Rewritten, SingleTyped;
  }

  lemma FilledField(s: Json, f: map<string, Json>, name: string)
    requires SingleTyped(s) && OptionalsNullish(s) && s.Obj?
    requires name in f || name in Optional(s.fields)
    requires name in f ==> Admits(Rewritten(FieldSchema(s.fields, name)), Fill(FieldSchema(s.fields, name), f[name]))
    ensures Admits(FieldSchema(Rewritten(s).fields, name), if name in f then Fill(FieldSchema(s.fields, name), f[name]) else Null)
  {
    hide Rewritten, Fill, Admits, SingleTyped, OptionalsNullish, AllowNull, Nullish;
    RewrittenSchema(s, name);
    SubSchemas(s, name);
    SubNullish(s, name);
    if name in Optional(s.fields) {
      RewrittenNullable(FieldSchema(s.fields, name), if name in f then Fill(FieldSchema(s.fields, name), f[name]) else Null);
    }
  }

  lemma FilledArray(s: Json, v: Json)
    requires SingleTyped(s) && s.Obj? && v.Arr? && Admits(s, v)
    requires forall i :: 0 <= i < |v.items| ==> Admits(ItemSchema(Rewritten(s).fields), Fill(ItemSchema(s.fields), v.items[i]))
    ensures Admits(Rewritten(s), Fill(s, v))
  {
    hide Rewritten, ItemSchema;
    EnumOfScalars(s, v);
    SameScalarKeywords(s, Fill(s, v));
    RewrittenKind(s);
  }

  lemma FilledObject(s: Json, v: Json)
    requires SingleTyped(s) && s.Obj? && v.Obj? && Admits(s, v)
    requires forall name :: name in Fill(s, v).fields ==> Admits(FieldSchema(Rewritten(s).fields, name), Fill(s, v).fields[name])
    ensures Admits(Rewritten(s), Fill(s, v))
  {
    hide Rewritten, FieldSchema;
    EnumOfScalars(s, v);
    SameScalarKeywords(s, Fill(s, v));
    RewrittenKind(s);
    forall name | Requires(Rewritten(s).fields, name) ensures name in Fill(s, v).fields { RewrittenSchema(s, name); }
  }

  /** An enumeration of scalars admits no array and no object. */
  lemma EnumOfScalars(s: Json, v: Json)
    requires SingleTyped(s) && s.Obj? && !Scalar(v) && EnumAdmits(s.fields, v)
    ensures "enum" !in s.fields
  {}

  /** What the rewrite admits, the schema admits once null optional properties are left out. */
  lemma {:induction false} DropAdmitted(s: Json, v: Json)
    requires SingleTyped(s) && RequiresProperties(s) && Admits(Rewritten(s), v)
    ensures Admits(s, Drop(s, v))
    decreases v
  {
    RewrittenKind(s);
    if s.Obj? {
      hide SingleTyped, RequiresProperties, Rewritten;
      SameScalarKeywords(s, v);
      match v
      case Arr(xs) =>
        forall i | 0 <= i < |xs| ensures Admits(ItemSchema(s.fields), Drop(ItemSchema(s.fields), xs[i])) {
          RewrittenSchema(s, "");
          SubSchemas(s, "");
          SubRequires(s, "");
          DropAdmitted(ItemSchema(s.fields), xs[i]);
        }
        DroppedArray(s, v);
      case Obj(f) =>
        forall name | name in Drop(s, v).fields
          ensures Admits(FieldSchema(s.fields, name), Drop(s, v).fields[name])
        {
          KeptField(s, f[name], name);
          SubSchemas(s, name);
          SubRequires(s, name);
          DropAdmitted(FieldSchema(s.fields, name), f[name]);
        }
        DroppedObject(s, v);
      case _ =>
        ScalarAdmitted(s, v);
    }
  }

  lemma KeptField(s: Json, x: Json, name: string)
    requires SingleTyped(s) && s.Obj? && Admits(FieldSchema(Rewritten(s).fields, name), x)
    requires !(name in Optional(s.fields) && x.Null?)
    ensures Admits(Rewritten(FieldSchema(s.fields, name)), x)
  {
    hide Rewritten, Admits, SingleTyped, AllowNull;
    RewrittenSchema(s, name);
    SubSchemas(s, name);
    if name in Optional(s.fields) { RewrittenNullable(FieldSchema(s.fields, name), x); }
  }

  lemma DroppedArray(s: Json, v: Json)
    requires SingleTyped(s) && s.Obj? && v.Arr? && Admits(Rewritten(s), v)
    requires forall i :: 0 <= i < |v.items| ==> Admits(ItemSchema(s.fields), Drop(ItemSchema(s.fields), v.items[i]))
    ensures Admits(s, Drop(s, v))
  {
    SameScalarKeywords(s, v);
    RewrittenKind(s);
    hide Rewritten, ItemSchema;
    EnumOfScalars(s, v);
  }

  lemma DroppedObject(s: Json, v: Json)
    requires SingleTyped(s) && RequiresProperties(s) && s.Obj? && v.Obj? && Admits(Rewritten(s), v)
    requires forall name :: name in Drop(s, v).fields ==> Admits(FieldSchema(s.fields, name), Drop(s, v).fields[name])
    ensures Admits(s, Drop(s, v))
  {
    SameScalarKeywords(s, v);
    RewrittenKind(s);
    hide Rewritten, FieldSchema;
    EnumOfScalars(s, v);
    forall name | Requires(s.fields, name) ensures name in Drop(s, v).fields { RewrittenSchema(s, name); }
  }

  lemma DropUndoesFields(s: Json, f: map<string, Json>)
    requires s.Obj?
    requires forall name :: name in f ==>
      Drop(FieldSchema(s.fields, name), Fill(FieldSchema(s.fields, name), f[name])) == Drop(FieldSchema(s.fields, name), f[name])
    ensures Drop(s, Fill(s, Obj(f))) == Drop(s, Obj(f))
  {
    hide FieldSchema, Optional, Fill, Drop, FilledIn, LeftOut;
    var filled := FilledIn(s, f);
    var (a, b) := (LeftOut(s, filled), LeftOut(s, f));
    forall name ensures name in a <==> name in b {
      if name in f { NullStays(FieldSchema(s.fields, name), f[name]); }
    }
    forall name | name in a ensures a[name] == b[name] {}
    assert a == b;
  }

  function FilledIn(s: Json, f: map<string, Json>): (r: map<string, Json>)
    requires s.Obj?
    ensures Fill(s, Obj(f)) == Obj(r)
    ensures forall name :: name in r <==> name in f || name in Optional(s.fields)
    ensures forall name :: name in r ==> r[name] == if name in f then Fill(FieldSchema(s.fields, name), f[name]) else Null
  {
    Fill(s, Obj(f)).fields
  }

  function LeftOut(s: Json, f: map<string, Json>): (r: map<string, Json>)
    requires s.Obj?
    ensures Drop(s, Obj(f)) == Obj(r)
    ensures forall name :: name in r <==> name in f && !(name in Optional(s.fields) && f[name].Null?)
    ensures forall name :: name in r ==> r[name] == Drop(FieldSchema(s.fields, name), f[name])
  {
    Drop(s, Obj(f)).fields
  }

  lemma NullStays(s: Json, v: Json)
    ensures Fill(s, v).Null? <==> v.Null?
  {}

  /** Filling in is undone by dropping: what was missing goes missing again. */
  lemma {:induction false} DropUndoesFill(s: Json, v: Json)
    ensures Drop(s, Fill(s, v)) == Drop(s, v)
    decreases v
  {
    if s.Obj? {
      match v
      case Arr(xs) =>
        forall i | 0 <= i < |xs| ensures Drop(ItemSchema(s.fields), Fill(ItemSchema(s.fields), xs[i])) == Drop(ItemSchema(s.fields), xs[i]) {
          DropUndoesFill(ItemSchema(s.fields), xs[i]);
        }
        assert Drop(s, Fill(s, v)).items == Drop(s, v).items;
      case Obj(f) =>
        forall name | name in f
          ensures Drop(FieldSchema(s.fields, name), Fill(FieldSchema(s.fields, name), f[name])) == Drop(FieldSchema(s.fields, name), f[name])
        {
          DropUndoesFill(FieldSchema(s.fields, name), f[name]);
        }
        DropUndoesFields(s, f);
      case _ =>
    }
  }

  // ---- Outside that fragment --------------------------------------------------

  /** A name required but not listed among the properties is forgotten: the rewrite no longer
      asks for it, and an object without it still fails the original. */
  lemma RequiredOutsideProperties(s: Json, v: Json, name: string)
    requires s.Obj? && HasProperties(s.fields) && Requires(s.fields, name) && name !in Properties(s.fields)
    requires v.Obj? && name !in v.fields
    ensures !Requires(Rewritten(s).fields, name) && !Admits(s, Drop(s, v))
  {
    NamesHold(Properties(s.fields).Keys, name);
    hide Order.Sorted, Names;
    assert name !in Drop(s, v).fields;
  }

  /** One property, and another name required. */
  function Asking(a: string, b: string): map<string, Json> {
    map["properties" := Obj(map[a := Bool(true)]), "required" := Arr([Str(b)])]
  }

  lemma AskingHolds(a: string, b: string)
    requires a != b
    ensures var m := Asking(a, b);
      HasProperties(m) && Properties(m) == map[a := Bool(true)] && Requires(m, b) && m.Keys == {"properties", "required"}
  {
    assert Arr([Str(b)]).items[0] == Str(b);
  }

  lemma AskingRewritten(a: string, b: string)
    requires a != b
    ensures var node := Rewritten(Obj(Asking(a, b)));
      && node.Obj? && node.fields.Keys == {"properties", "required"} && Properties(node.fields) == map[a := Bool(true)]
      && forall name :: Requires(node.fields, name) ==> name in Properties(node.fields)
  {
    var m, props := Asking(a, b), map[a := Bool(true)];
    AskingHolds(a, b);
    RewrittenKind(Obj(m));
    RewrittenFields(m);
    RewrittenPlain(props);
    NothingOptional(Obj(m));
    RewrittenKind(Bool(true));
    hide Rewritten, Order.Sorted, Names, Requires, Optional, Asking;
    assert AllowNull(Bool(true)) == Bool(true);
  }

  /** So the rewrite admits what the original refuses: an object of the one property alone. */
  lemma RequiredForgotten(a: string, b: string, x: Json)
    requires a != b
    ensures var (s, v) := (Obj(Asking(a, b)), Obj(map[a := x])); Admits(Rewritten(s), v) && !Admits(s, Drop(s, v))
  {
    AskingHolds(a, b);
    RequiredOutsideProperties(Obj(Asking(a, b)), Obj(map[a := x]), b);
    AskingRewritten(a, b);
    OneField(Rewritten(Obj(Asking(a, b))).fields, a, x);
    hide *;
  }

  lemma OneField(m: map<string, Json>, a: string, x: Json)
    requires m.Keys == {"properties", "required"} && Properties(m) == map[a := Bool(true)]
    requires forall name :: Requires(m, name) ==> name in Properties(m)
    ensures Admits(Obj(m), Obj(map[a := x]))
  {
    assert FieldSchema(m, a) == Bool(true);
    assert RequiredPresent(m, map[a := x]);
  }

  /** A missing optional property can be filled in exactly when its enumeration, if it has
      one, lists null. */
  lemma FillableIffEnumerated(s: Json, name: string)
    requires s.Obj? && HasProperties(s.fields) && "properties" !in Properties(s.fields) && "required" !in Properties(s.fields)
    requires name in Optional(s.fields)
    requires var sub := Properties(s.fields)[name];
      sub.Obj? && ("type" in sub.fields ==> sub.fields["type"].Str?)
      && ("enum" in sub.fields ==> sub.fields["enum"].Arr? && forall x :: x in sub.fields["enum"].items ==> Scalar(x))
    ensures Admits(FieldSchema(Rewritten(s).fields, name), Null) <==> EnumAdmits(Properties(s.fields)[name].fields, Null)
  {
    var sub := Properties(s.fields)[name];
    RewrittenProperties(s, name);
    RewrittenKeyword(sub, "type");
    RewrittenKeyword(sub, "enum");
    if "enum" in sub.fields { RewrittenScalars(sub.fields["enum"].items); }
    if "type" in sub.fields { RewrittenKind(sub.fields["type"]); }
    AllowNullAdmits(Rewritten(sub), Null);
  }

  /** An enumeration is rewritten with the rest: afterwards it admits what its members become. */
  lemma EnumeratedBecome(s: Json, v: Json)
    requires s.Obj? && "enum" in s.fields && s.fields["enum"].Arr?
    ensures EnumAdmits(Rewritten(s).fields, v) <==> exists x :: x in s.fields["enum"].items && Rewritten(x) == v
  {
    RewrittenKeyword(s, "enum");
    var xs := s.fields["enum"].items;
    var ys := Rewritten(s.fields["enum"]).items;
    assert |ys| == |xs| && forall i :: 0 <= i < |xs| ==> ys[i] == Rewritten(xs[i]);
    hide Rewritten;
    if v in ys { var i :| 0 <= i < |ys| && ys[i] == v; assert xs[i] in xs; }
    if x :| x in xs && Rewritten(x) == v { var i :| 0 <= i < |xs| && xs[i] == x; assert ys[i] == v; }
  }

  function Enumerating(x: Json): map<string, Json> { map["enum" := Arr([x])] }

  /** So an enumerated object that reads like a schema is no longer admitted, filled in or not. */
  lemma EnumeratedObjectLost(x: Json)
    requires x.Obj? && HasProperties(x.fields) && "required" !in x.fields
    ensures var s := Obj(Enumerating(x)); Admits(s, x) && Fill(s, x) == x && !Admits(Rewritten(s), x)
  {
    var m := Enumerating(x);
    assert m["enum"].items[0] == x;
    RewrittenFields(x.fields);
    EnumeratedBecome(Obj(m), x);
    RewrittenKind(Obj(m));
    PlainEnumeration(x);
    hide Rewritten, Fill, Enumerating;
  }

  lemma PlainEnumeration(x: Json)
    requires x.Obj?
    ensures Admits(Obj(Enumerating(x)), x) && Fill(Obj(Enumerating(x)), x) == x
  {
    var m := Enumerating(x);
    assert m["enum"].items[0] == x;
    assert forall name :: FieldSchema(m, name) == Bool(true);
    assert Optional(m) == {};
    assert Fill(Obj(m), x).fields == x.fields;
  }

  // ---- The rewriting itself ---------------------------------------------------

  /** How deep a node nests, counting an object as two at least, so that making one
      nullable does not deepen it. */
  ghost predicate Within(node: Json, n: nat)
    decreases n
  {
    match node
    case Arr(xs) => n >= 1 && forall i :: 0 <= i < |xs| ==> Within(xs[i], n - 1)
    case Obj(m) => n >= 2 && forall key :: key in m ==> Within(m[key], n - 1)
    case _ => true
  }

  lemma {:induction false} WithinMore(node: Json, n: nat, n': nat)
    requires Within(node, n) && n <= n'
    ensures Within(node, n')
    decreases n
  {
    match node
    case Arr(xs) => forall i | 0 <= i < |xs| ensures Within(xs[i], n' - 1) { WithinMore(xs[i], n - 1, n' - 1); }
    case Obj(m) => forall key | key in m ensures Within(m[key], n' - 1) { WithinMore(m[key], n - 1, n' - 1); }
    case _ =>
  }

  lemma AllowNullWithin(node: Json, n: nat)
    requires Within(node, n)
    ensures Within(AllowNull(node), n)
  {
    if AllowNull(node) != node {
      assert Within(Arr([node.fields["type"], Str("null")]), n - 1);
    }
  }

  ghost predicate Bounded(node: Json) { exists n: nat :: Within(node, n) }

  lemma {:induction false} EveryNodeBounded(node: Json)
    ensures Bounded(node)
    decreases node
  {
    match node
    case Arr(xs) =>
      forall i | 0 <= i < |xs| ensures Bounded(xs[i]) { EveryNodeBounded(xs[i]); }
      var n := SeqBound(xs, |xs|);
      assert Within(node, n + 1);
    case Obj(m) =>
      forall key | key in m ensures Bounded(m[key]) { EveryNodeBounded(m[key]); }
      var n := MapBound(m, m.Keys);
      forall key | key in m ensures Within(m[key], n + 1) { WithinMore(m[key], n, n + 1); }
      assert Within(node, n + 2);
    case _ => assert Within(node, 0);
  }

  lemma {:induction false} SeqBound(xs: seq<Json>, k: nat) returns (n: nat)
    requires k <= |xs| && forall i :: 0 <= i < |xs| ==> Bounded(xs[i])
    ensures forall i :: 0 <= i < k ==> Within(xs[i], n)
  {
    n := 0;
    if k > 0 {
      var m := SeqBound(xs, k - 1);
      var last: nat :| Within(xs[k - 1], last);
      n := if m < last then last else m;
      forall i | 0 <= i < k ensures Within(xs[i], n) { WithinMore(xs[i], if i < k - 1 then m else last, n); }
    }
  }

  lemma {:induction false} MapBound(m: map<string, Json>, keys: set<string>) returns (n: nat)
    requires keys <= m.Keys && forall key :: key in m ==> Bounded(m[key])
    ensures forall key :: key in keys ==> Within(m[key], n)
  {
    n := 0;
    if keys != {} {
      var one :| one in keys;
      var rest := MapBound(m, keys - {one});
      var last: nat :| Within(m[one], last);
      n := if rest < last then last else rest;
      forall key | key in keys ensures Within(m[key], n) { WithinMore(m[key], if key == one then last else rest, n); }
    }
  }

  method Strictify(doc: Json) returns (out: Json)
    ensures out == Rewritten(doc)
  {
    EveryNodeBounded(doc);
    ghost var n: nat :| Within(doc, n);
    out := RequireEverything(doc, n);
  }

  /** Requires every property, makes the optional ones nullable, and then goes into the
      children, the changed properties among them. */
  method RequireEverything(node: Json, ghost n: nat) returns (out: Json)
    requires Within(node, n)
    ensures out == Rewritten(node)
    decreases n, 1
  {
    match node {
      case Arr(xs) =>
        var items: seq<Json> := [];
        for i := 0 to |xs|
          invariant |items| == i && forall k :: 0 <= k < i ==> items[k] == Rewritten(xs[k])
        {
          var child := RequireEverything(xs[i], n - 1);
          items := items + [child];
        }
        assert items == Rewritten(node).items;
        return Arr(items);
      case Obj(m) =>
        var typed := m;
        if HasProperties(m) {
          var props := NullableProperties(m, n - 1);
          typed := typed["properties" := Obj(props)]["required" := Names(Order.Sorted(props.Keys))];
        }
        var children := RewriteChildren(typed, n);
        ChildrenThenAssembly(m, typed, children);
        return Obj(children);
      case _ => return node;
    }
  }

  method NullableProperties(m: map<string, Json>, ghost n: nat) returns (props: map<string, Json>)
    requires HasProperties(m) && Within(m["properties"], n)
    ensures props == Nullable(Properties(m), Optional(m)) && Within(Obj(props), n)
  {
    props := Properties(m);
    assert m["properties"] == Obj(props);
    hide Within, AllowNull, Requires;
    var left := props.Keys;
    while left != {}
      invariant left <= props.Keys == Properties(m).Keys && Within(Obj(props), n)
      invariant forall name :: name in props ==>
        props[name] == if name in Optional(m) && name !in left then AllowNull(Properties(m)[name]) else Properties(m)[name]
      decreases left
    {
      var name :| name in left;
      if !Requires(m, name) {
        NullableWithin(props, name, n);
        props := props[name := AllowNull(props[name])];
      }
      left := left - {name};
    }
  }

  lemma NullableWithin(props: map<string, Json>, name: string, n: nat)
    requires Within(Obj(props), n) && name in props
    ensures Within(Obj(props[name := AllowNull(props[name])]), n)
  {
    AllowNullWithin(props[name], n - 1);
  }

  method RewriteChildren(typed: map<string, Json>, ghost n: nat) returns (children: map<string, Json>)
    requires n >= 2 && forall key :: key in typed && key != "required" ==> Within(typed[key], n - 1)
    ensures children == Children(Obj(typed))
    decreases n, 0
  {
    hide Rewritten, Within;
    children := typed;
    var left := typed.Keys - {"required"};
    while left != {}
      invariant left <= typed.Keys - {"required"} && children.Keys == typed.Keys
      invariant forall key :: key in typed ==>
        children[key] == if key == "required" || key in left then typed[key] else Rewritten(typed[key])
      decreases left
    {
      var key :| key in left;
      var child := RequireEverything(typed[key], n - 1);
      children := children[key := child];
      left := left - {key};
    }
  }

  /** Assembling first and rewriting the children afterwards is the same rewrite. */
  lemma ChildrenThenAssembly(m: map<string, Json>, typed: map<string, Json>, children: map<string, Json>)
    requires children == Children(Obj(typed))
    requires typed == if HasProperties(m)
      then m["properties" := Obj(Nullable(Properties(m), Optional(m)))]["required" := Names(Order.Sorted(Nullable(Properties(m), Optional(m)).Keys))]
      else m
    ensures Obj(children) == Rewritten(Obj(m))
  {
    RewrittenObject(Obj(m));
    if HasProperties(m) {
      var props := Nullable(Properties(m), Optional(m));
      assert props.Keys == Properties(m).Keys;
      NullableChildren(Properties(m), Optional(m));
      ChildrenOfUpdated(m, Obj(props), Names(Order.Sorted(props.Keys)));
      AssembledAt(m, Children(Obj(m)), Rewritten(m["properties"]));
      hide Order.Sorted, Names, Nullable, Optional, Children, Rewritten, Assembled;
    }
  }

  lemma AssembledAt(m: map<string, Json>, children: map<string, Json>, rewritten: Json)
    requires HasProperties(m) && rewritten == Rewritten(m["properties"]) && children == Children(Obj(m))
    ensures rewritten.Obj?
    ensures Assembled(m, children) ==
      children["properties" := Obj(Nullable(rewritten.fields, Optional(m)))]["required" := Names(Order.Sorted(Properties(m).Keys))]
  {
    RewrittenKind(m["properties"]);
    assert children["properties"] == rewritten;
    hide Order.Sorted, Names, Nullable, Optional, Rewritten;
  }

  lemma ChildrenOfUpdated(m: map<string, Json>, props: Json, names: Json)
    ensures Children(Obj(m["properties" := props]["required" := names]))
         == Children(Obj(m))["properties" := Rewritten(props)]["required" := names]
  {
    hide Rewritten;
  }

  /** So even where a map of properties is itself taken for an object schema. */
  lemma NullableChildren(props: map<string, Json>, optional: set<string>)
    ensures Rewritten(Obj(Nullable(props, optional))) == Obj(Nullable(Rewritten(Obj(props)).fields, optional))
  {
    ChildrenOfNullable(props, optional);
    if HasProperties(props) {
      NullableAssembly(props, optional, Children(Obj(props)));
    }
    hide Assembled, Nullable, Children;
  }

  lemma ChildrenOfNullable(props: map<string, Json>, optional: set<string>)
    ensures Children(Obj(Nullable(props, optional))) == Nullable(Children(Obj(props)), optional)
    ensures HasProperties(Nullable(props, optional)) <==> HasProperties(props)
    ensures !HasProperties(props) ==>
      Assembled(Nullable(props, optional), Children(Obj(Nullable(props, optional)))) == Nullable(Assembled(props, Children(Obj(props))), optional)
    ensures HasProperties(props) ==> HasProperties(Children(Obj(props)))
  {
    forall name | name in props ensures Rewritten(AllowNull(props[name])) == AllowNull(Rewritten(props[name])) { NullableCommutes(props[name]); }
    if HasProperties(props) { RewrittenKind(props["properties"]); }
    hide Rewritten, AllowNull;
    assert Children(Obj(Nullable(props, optional))) == Nullable(Children(Obj(props)), optional);
  }

  lemma NullableAssembly(props: map<string, Json>, optional: set<string>, children: map<string, Json>)
    requires HasProperties(props) && HasProperties(children)
    ensures Assembled(Nullable(props, optional), Nullable(children, optional)) == Nullable(Assembled(props, children), optional)
  {
    var q, c := Nullable(props, optional), Nullable(children, optional);
    SameRequirements(props, optional);
    var names := Names(Order.Sorted(Properties(props).Keys));
    assert AllowNull(names) == names;
    NullableInside(children["properties"], Optional(props));
    hide Order.Sorted, Names, Optional, AllowNull;
    var inner := Obj(Nullable(Properties(children), Optional(props)));
    assert Obj(Nullable(Properties(c), Optional(props))) == if "properties" in optional then AllowNull(inner) else inner;
    assert Assembled(q, c) == Nullable(Assembled(props, children), optional);
  }

  lemma SameRequirements(props: map<string, Json>, optional: set<string>)
    requires HasProperties(props)
    ensures var q := Nullable(props, optional);
      HasProperties(q) && Properties(q).Keys == Properties(props).Keys && Optional(q) == Optional(props)
  {
    var q := Nullable(props, optional);
    assert Properties(q).Keys == Properties(props).Keys;
    forall name ensures Requires(q, name) <==> Requires(props, name) {}
  }

  lemma NullableInside(x: Json, optional: set<string>)
    requires x.Obj?
    ensures AllowNull(x).Obj? && AllowNull(Obj(Nullable(x.fields, optional))) == Obj(Nullable(AllowNull(x).fields, optional))
  {
    assert AllowNull(Obj(Nullable(x.fields, optional))).fields == Nullable(AllowNull(x).fields, optional);
  }
}
