/** Static (<field>) and dynamic (<dynamicField>) fields. The two Java classes
    share one shape, so one kind-parametric model serves both: the kind tag
    selects the naming rule. */
module SolrFields {
  import opened Wrappers
  import opened SchemaErrors
  import opened SolrFieldProperty
  import opened SolrField
  import opened SolrFieldType

  /** The two kinds a typed field can have. */
  type FieldKind = k: Kind | k != TypeKind witness StaticKind

  /** The three-argument constructors of SolrStaticField and SolrDynamicField:
      the base constructor, put TYPE, refuse an overlay holding NAME or TYPE,
      then putAll. */
  function New(kind: FieldKind, name: Option<string>, t: SolrType, overlay: map<Property, string>)
    : (r: Result<SolrField, Error>)
    ensures r.Success? <==> IsValidName(kind, name) && NAME !in overlay && TYPE !in overlay
    ensures r.Failure? ==>
      r.error == if IsValidName(kind, name) then ReservedPropertyOverride else InvalidName(name)
    ensures r.Success? ==> r.value.kind == kind
  {
    var base :- NewBase(kind, name);
    var typed := base.properties[TYPE := TypeName(t)];
    if NAME in overlay || TYPE in overlay then
      Failure(ReservedPropertyOverride)
    else
      Success(Field(kind, typed + overlay))
  }

  /** On success the property map is NAME and TYPE (the type's name) plus the
      overlay entries, and getName() answers the given name. */
  lemma NewProperties(kind: FieldKind, name: Option<string>, t: SolrType, overlay: map<Property, string>)
    requires New(kind, name, t, overlay).Success?
    ensures New(kind, name, t, overlay).value.properties ==
      map[NAME := name.value, TYPE := TypeName(t)] + overlay
    ensures GetName(New(kind, name, t, overlay).value) == name.value
    ensures GetProperty(New(kind, name, t, overlay).value, TYPE) == Some(TypeName(t))
  {
  }

  /** The two-argument constructors: the stored + indexed preset. */
  function NewStd(kind: FieldKind, name: Option<string>, t: SolrType): (r: Result<SolrField, Error>)
    ensures r.Success? <==> IsValidName(kind, name)
    ensures r.Failure? ==> r.error == InvalidName(name)
    ensures r.Success? ==> r.value == Field(kind, map[NAME := name.value, TYPE := TypeName(t),
      STORED := "true", INDEXED := "true", MULTIVALUED := "false"])
  {
    ConfigShape(StoredIndexed);
    New(kind, name, t, Config(StoredIndexed))
  }

  /** build(rawMap): convert the raw keys, take NAME and TYPE out, resolve the
      type name in ALL, and construct with what remains as the overlay. */
  function Build(kind: FieldKind, raw: RawMap): (r: Result<SolrField, Error>)
  {
    var props :- ConvertToProperties(raw);
    var name := Get(props, NAME);
    var typeName := Get(props, TYPE);
    var t := FindByName(typeName);
    if t.None? then
      Failure(UnknownFieldType(typeName))
    else
      New(kind, name, t.value, props - {NAME, TYPE})
  }

  /** build fails on a raw key unknown to the property registry, before anything else. */
  lemma BuildUnknownKey(kind: FieldKind, raw: RawMap, k: string)
    requires k in raw && forall p :: Key(p) != k
    ensures Build(kind, raw) == Failure(UnknownWireProperty)
  {
    OfUnknown(k);
  }

  /** With known keys only, build fails when the raw type is missing or not in ALL. */
  lemma {:induction false} BuildUnknownType(kind: FieldKind, raw: RawMap)
    requires forall k :: k in raw ==> Of(Some(k)).Some?
    requires Key(TYPE) !in raw || forall t :: TypeName(t) != raw[Key(TYPE)]
    ensures Build(kind, raw) == Failure(UnknownFieldType(Get(raw, Key(TYPE))))
  {
    var props := ConvertToProperties(raw).value;
    assert Get(props, TYPE) == Get(raw, Key(TYPE));
    FindByNameCorrect(Get(props, TYPE));
  }

  /** With known keys and a registered type, build fails exactly when the raw
      name is missing or breaks the kind's naming rule; the overlay check never
      fires, since NAME and TYPE were taken out. */
  lemma {:induction false} BuildNameCheck(kind: FieldKind, raw: RawMap, t: SolrType)
    requires forall k :: k in raw ==> Of(Some(k)).Some?
    requires Key(TYPE) in raw && raw[Key(TYPE)] == TypeName(t)
    ensures Build(kind, raw).Success? <==> IsValidName(kind, Get(raw, Key(NAME)))
    ensures Build(kind, raw).Failure? ==> Build(kind, raw).error == InvalidName(Get(raw, Key(NAME)))
  {
    var props := ConvertToProperties(raw).value;
    assert Get(props, TYPE) == Some(TypeName(t));
    assert Get(props, NAME) == Get(raw, Key(NAME));
    FindByNameCorrect(Get(props, TYPE));
    assert FindByName(Get(props, TYPE)) == Some(t);
    assert Build(kind, raw) == New(kind, Get(raw, Key(NAME)), t, props - {NAME, TYPE});
  }

  /** A successful build keeps every raw entry, name and type included, as a
      property with the same value, and nothing else. */
  lemma {:induction false} BuildKeepsEntries(kind: FieldKind, raw: RawMap)
    requires Build(kind, raw).Success?
    ensures Build(kind, raw).value.kind == kind
    ensures forall p :: p in Build(kind, raw).value.properties <==> Key(p) in raw
    ensures forall p :: p in Build(kind, raw).value.properties ==>
      Build(kind, raw).value.properties[p] == raw[Key(p)]
  {
    var props := ConvertToProperties(raw).value;
    var t := FindByName(Get(props, TYPE)).value;
    FindByNameCorrect(Get(props, TYPE));
    assert Get(props, TYPE) == Some(TypeName(t));
    IdentityRestored(props, TypeName(t));
    assert Build(kind, raw).value.properties == props;
  }

  /** Putting NAME and TYPE back (with the values they had) restores the map. */
  lemma IdentityRestored(props: map<Property, string>, typeName: string)
    requires NAME in props && TYPE in props && props[TYPE] == typeName
    ensures map[NAME := props[NAME], TYPE := typeName] + (props - {NAME, TYPE}) == props
  {
    var m := map[NAME := props[NAME], TYPE := typeName] + (props - {NAME, TYPE});
    assert m.Keys == props.Keys;
  }

  /** Round trip: a field built by a constructor, once its property map is put
      in wire form, is rebuilt by build as the very same field. */
  lemma {:induction false} BuildRoundTrip(
    kind: FieldKind, name: Option<string>, t: SolrType, overlay: map<Property, string>)
    requires New(kind, name, t, overlay).Success?
    ensures Build(kind, ToWire(New(kind, name, t, overlay).value.properties))
      == New(kind, name, t, overlay)
  {
    var f := New(kind, name, t, overlay).value;
    NewProperties(kind, name, t, overlay);
    ConvertToWireRoundTrip(f.properties);
    var props := f.properties;
    assert Get(props, NAME) == name;
    assert Get(props, TYPE) == Some(TypeName(t));
    FindByNameCorrect(Some(TypeName(t)));
    assert FindByName(Get(props, TYPE)) == Some(t);
    IdentityRemoved(name.value, TypeName(t), overlay);
  }

  /** Taking NAME and TYPE back out of a constructed map leaves the overlay. */
  lemma IdentityRemoved(name: string, typeName: string, overlay: map<Property, string>)
    requires NAME !in overlay && TYPE !in overlay
    ensures (map[NAME := name, TYPE := typeName] + overlay) - {NAME, TYPE} == overlay
  {
    var m := (map[NAME := name, TYPE := typeName] + overlay) - {NAME, TYPE};
    assert m.Keys == overlay.Keys;
  }

  /** build applies no preset: a raw map holding just a name and a registered
      type yields a field with just NAME and TYPE. For a dynamic field,
      {name: "*_s", type: "string"} is one such map. */
  lemma {:induction false} BuildNoPreset(kind: FieldKind, raw: RawMap, t: SolrType)
    requires raw.Keys == {"name", "type"} && raw["type"] == TypeName(t)
    requires IsValidName(kind, Some(raw["name"]))
    ensures Build(kind, raw) == Success(Field(kind, map[NAME := raw["name"], TYPE := raw["type"]]))
  {
    NameTypeKeysKnown(raw);
    assert Get(raw, Key(NAME)) == Some(raw["name"]);
    BuildNameCheck(kind, raw, t);
    BuildKeepsEntries(kind, raw);
    NameTypeOnly(Build(kind, raw).value.properties, raw);
  }

  /** {name: "*_s", type: "string"} builds a dynamic field with just those two properties. */
  lemma DynamicStringBuild(raw: RawMap)
    requires raw == map["name" := "*_s", "type" := "string"]
    ensures Build(DynamicKind, raw) == Success(Field(DynamicKind, map[NAME := "*_s", TYPE := "string"]))
  {
    assert MatchesDynamicPattern("*_s") && TypeName(STRING) == "string";
    assert raw.Keys == {"name", "type"};
    BuildNoPreset(DynamicKind, raw, STRING);
  }

  /** "name" and "type" are both registered property keys. */
  lemma NameTypeKeysKnown(raw: RawMap)
    requires raw.Keys == {"name", "type"}
    ensures forall k :: k in raw ==> Of(Some(k)).Some?
  {
    forall k | k in raw ensures Of(Some(k)).Some? {
      if k == "name" {
        OfKey(NAME);
        assert Key(NAME) == k;
      } else {
        OfKey(TYPE);
        assert Key(TYPE) == k;
      }
    }
  }

  /** A property map mirroring a raw map of just "name" and "type" holds NAME and TYPE only. */
  lemma NameTypeOnly(m: map<Property, string>, raw: RawMap)
    requires raw.Keys == {"name", "type"}
    requires forall p :: p in m <==> Key(p) in raw
    requires forall p :: p in m ==> m[p] == raw[Key(p)]
    ensures m == map[NAME := raw["name"], TYPE := raw["type"]]
  {
    NameTypeKeysOnly(m, raw);
    MapsAgree(m, map[NAME := raw["name"], TYPE := raw["type"]]);
  }

  /** A property map whose keys are those of a raw map of just "name" and "type". */
  lemma NameTypeKeysOnly(m: map<Property, string>, raw: RawMap)
    requires raw.Keys == {"name", "type"}
    requires forall p :: p in m <==> Key(p) in raw
    ensures m.Keys == {NAME, TYPE}
  {
    OfKey(NAME);
    OfKey(TYPE);
    forall p ensures p in m <==> p == NAME || p == TYPE {
      OfKey(p);
    }
  }
}
