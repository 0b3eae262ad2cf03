/** Schema validation (IndexCheckerBean.validateSchema): parse the raw field,
    dynamic-field and copy-field entries of a schema already fetched from Solr. */
module IndexChecker {
  import opened Wrappers
  import opened SchemaErrors
  import opened SolrFieldProperty
  import opened SolrField
  import opened SolrFields
  import opened SolrCopyField

  /** The parts of a SchemaRepresentation the check reads: three lists of raw entries. */
  datatype SchemaRepresentation = SchemaRepresentation(
    fields: seq<RawMap>, dynamicFields: seq<RawMap>, copyFields: seq<RawMap>)

  /** The three lists validateSchema computes. */
  datatype ParsedSchema = ParsedSchema(
    staticFields: seq<SolrField>, dynamicFields: seq<SolrField>, copyFields: seq<CopyField>)

  function BuildStatic(raw: RawMap): Result<SolrField, Error> {
    Build(StaticKind, raw)
  }

  function BuildDynamic(raw: RawMap): Result<SolrField, Error> {
    Build(DynamicKind, raw)
  }

  /** A raw dynamic field is ignored when its "name" entry is in the ignore
      set; an entry without a name is kept. */
  predicate IsIgnored(ignored: set<string>, raw: RawMap) {
    Key(NAME) in raw && raw[Key(NAME)] in ignored
  }

  /** The filter over the raw dynamic fields: the entries not ignored, in order. */
  function KeptDynamic(ignored: set<string>, raws: seq<RawMap>): (kept: seq<RawMap>)
    ensures |kept| <= |raws|
    ensures forall r :: r in kept <==> r in raws && !IsIgnored(ignored, r)
  {
    if raws == [] then
      []
    else
      var rest := KeptDynamic(ignored, raws[1..]);
      assert forall r :: r in raws <==> r == raws[0] || r in raws[1..];
      if IsIgnored(ignored, raws[0]) then rest else [raws[0]] + rest
  }

  /** Filtering a concatenation filters each part: the order of the kept
      entries is that of the raw list. */
  lemma {:induction false} KeptDynamicConcat(ignored: set<string>, a: seq<RawMap>, b: seq<RawMap>)
    ensures KeptDynamic(ignored, a + b) == KeptDynamic(ignored, a) + KeptDynamic(ignored, b)
  {
    if a != [] {
      assert (a + b)[0] == a[0];
      assert (a + b)[1..] == a[1..] + b;
      KeptDynamicConcat(ignored, a[1..], b);
    } else {
      assert a + b == b;
    }
  }

  /** staticFields.stream().filter(name equals).findFirst(): the first field
      whose name equals the given raw value; an absent value matches nothing. */
  function FindFirstByName(fields: seq<SolrField>, name: Option<string>): (r: Option<SolrField>)
    ensures r.Some? <==> name.Some? && exists i :: 0 <= i < |fields| && GetName(fields[i]) == name.value
    ensures r.Some? ==>
      exists i :: 0 <= i < |fields| && fields[i] == r.value && GetName(r.value) == name.value &&
        (forall j :: 0 <= j < i ==> GetName(fields[j]) != name.value)
  {
    if name.None? || fields == [] then
      None
    else if GetName(fields[0]) == name.value then
      Some(fields[0])
    else
      var r := FindFirstByName(fields[1..], name);
      if r.Some? then
        var i :| 0 <= i < |fields[1..]| && fields[1..][i] == r.value && GetName(r.value) == name.value &&
          (forall j :: 0 <= j < i ==> GetName(fields[1..][j]) != name.value);
        assert fields[i + 1] == r.value;
        r
      else
        assert forall i :: 1 <= i < |fields| ==> fields[i] == fields[1..][i - 1];
        r
  }

  /** One raw copy-field entry: both endpoints looked up among the static
      fields (a miss is Optional.get() on an empty Optional), then the
      two-argument copy-field constructor. */
  function ResolveCopyField(statics: seq<SolrField>, raw: RawMap): Result<CopyField, Error> {
    var source := FindFirstByName(statics, Get(raw, Key(SOURCE)));
    var dest := FindFirstByName(statics, Get(raw, Key(DEST)));
    if source.None? || dest.None? then Failure(NoSuchElement) else NewCopyField(source, dest)
  }

  /** The copy-field stream: every raw entry resolved, in order. */
  function ResolveCopyFields(statics: seq<SolrField>, raws: seq<RawMap>): Result<seq<CopyField>, Error> {
    MapAll((raw: RawMap) => ResolveCopyField(statics, raw), raws)
  }

  /** validateSchema(schema): the static fields, then the dynamic fields not
      ignored, then the copy fields; the first failure in that order aborts. */
  function ValidateSchema(schema: SchemaRepresentation, ignored: set<string>): (r: Result<ParsedSchema, Error>)
    ensures r.Success? <==>
      MapAll(BuildStatic, schema.fields).Success? &&
      MapAll(BuildDynamic, KeptDynamic(ignored, schema.dynamicFields)).Success? &&
      ResolveCopyFields(MapAll(BuildStatic, schema.fields).value, schema.copyFields).Success?
    ensures r.Success? ==> r.value == ParsedSchema(
      MapAll(BuildStatic, schema.fields).value,
      MapAll(BuildDynamic, KeptDynamic(ignored, schema.dynamicFields)).value,
      ResolveCopyFields(MapAll(BuildStatic, schema.fields).value, schema.copyFields).value)
    ensures MapAll(BuildStatic, schema.fields).Failure? ==>
      r == Failure(MapAll(BuildStatic, schema.fields).error)
    ensures (MapAll(BuildStatic, schema.fields).Success? &&
             MapAll(BuildDynamic, KeptDynamic(ignored, schema.dynamicFields)).Failure?) ==>
      r == Failure(MapAll(BuildDynamic, KeptDynamic(ignored, schema.dynamicFields)).error)
    ensures (MapAll(BuildStatic, schema.fields).Success? &&
             MapAll(BuildDynamic, KeptDynamic(ignored, schema.dynamicFields)).Success? &&
             ResolveCopyFields(MapAll(BuildStatic, schema.fields).value, schema.copyFields).Failure?) ==>
      r == Failure(ResolveCopyFields(MapAll(BuildStatic, schema.fields).value, schema.copyFields).error)
  {
    var statics :- MapAll(BuildStatic, schema.fields);
    var dynamics :- MapAll(BuildDynamic, KeptDynamic(ignored, schema.dynamicFields));
    var copies :- ResolveCopyFields(statics, schema.copyFields);
    Success(ParsedSchema(statics, dynamics, copies))
  }

  /** One parsed static field per raw field entry, in order; a raw entry that
      does not build aborts validation. */
  lemma StaticFieldsParsed(schema: SchemaRepresentation, ignored: set<string>)
    ensures (exists i :: 0 <= i < |schema.fields| && Build(StaticKind, schema.fields[i]).Failure?) ==>
      ValidateSchema(schema, ignored).Failure?
    ensures ValidateSchema(schema, ignored).Success? ==>
      var p := ValidateSchema(schema, ignored).value;
      |p.staticFields| == |schema.fields| &&
      forall i :: 0 <= i < |schema.fields| ==> Build(StaticKind, schema.fields[i]) == Success(p.staticFields[i])
  {
  }

  /** The parsed dynamic fields are the builds of the raw entries not ignored, in order. */
  lemma DynamicFieldsParsed(schema: SchemaRepresentation, ignored: set<string>)
    ensures ValidateSchema(schema, ignored).Success? ==>
      var p := ValidateSchema(schema, ignored).value;
      var kept := KeptDynamic(ignored, schema.dynamicFields);
      |p.dynamicFields| == |kept| &&
      forall i :: 0 <= i < |kept| ==> Build(DynamicKind, kept[i]) == Success(p.dynamicFields[i])
  {
  }

  /** Fields parsed by build(StaticKind) are static. */
  lemma StaticsAreStatic(raws: seq<RawMap>)
    requires MapAll(BuildStatic, raws).Success?
    ensures forall i :: 0 <= i < |raws| ==> MapAll(BuildStatic, raws).value[i].kind == StaticKind
  {
    var fs := MapAll(BuildStatic, raws).value;
    forall i | 0 <= i < |raws| ensures fs[i].kind == StaticKind {
      BuildKeepsEntries(StaticKind, raws[i]);
    }
  }

  /** One copy field per raw entry, in order; its endpoints are the first
      static fields named by the raw "source" and "dest", and its limit is 3000. */
  lemma CopyFieldsResolved(statics: seq<SolrField>, raws: seq<RawMap>)
    ensures ResolveCopyFields(statics, raws).Success? ==>
      var copies := ResolveCopyFields(statics, raws).value;
      |copies| == |raws| &&
      forall i :: 0 <= i < |raws| ==>
        Some(copies[i].source) == FindFirstByName(statics, Get(raws[i], Key(SOURCE))) &&
        Some(copies[i].dest) == FindFirstByName(statics, Get(raws[i], Key(DEST))) &&
        copies[i].maxChars == 3000
  {
    if ResolveCopyFields(statics, raws).Success? {
      var copies := ResolveCopyFields(statics, raws).value;
      var f := (raw: RawMap) => ResolveCopyField(statics, raw);
      forall i | 0 <= i < |raws|
        ensures Some(copies[i].source) == FindFirstByName(statics, Get(raws[i], Key(SOURCE)))
        ensures Some(copies[i].dest) == FindFirstByName(statics, Get(raws[i], Key(DEST)))
        ensures copies[i].maxChars == 3000
      {
        assert f(raws[i]) == Success(copies[i]);
      }
    }
  }

  /** Against static fields, a raw copy-field entry whose source or dest names
      no field (a dynamic field's name included) makes the copy-field stream
      fail with NoSuchElement, whichever entry fails first. */
  lemma {:induction false} UnresolvedCopyFieldFails(statics: seq<SolrField>, raws: seq<RawMap>, i: nat)
    requires forall j :: 0 <= j < |statics| ==> statics[j].kind == StaticKind
    requires i < |raws|
    requires FindFirstByName(statics, Get(raws[i], Key(SOURCE))).None? ||
      FindFirstByName(statics, Get(raws[i], Key(DEST))).None?
    ensures ResolveCopyFields(statics, raws) == Failure(NoSuchElement)
  {
    var f := (raw: RawMap) => ResolveCopyField(statics, raw);
    assert f(raws[i]).Failure?;
    var r := ResolveCopyFields(statics, raws);
    var k :| 0 <= k < |raws| && f(raws[k]) == Failure(r.error);
    ResolvedEndpointsStatic(statics, raws[k]);
  }

  /** With static fields as endpoints, resolution can only fail for a missing endpoint. */
  lemma ResolvedEndpointsStatic(statics: seq<SolrField>, raw: RawMap)
    requires forall i :: 0 <= i < |statics| ==> statics[i].kind == StaticKind
    ensures ResolveCopyField(statics, raw).Failure? ==> ResolveCopyField(statics, raw).error == NoSuchElement
  {
  }

  /** Validation as a whole fails with NoSuchElement when both field lists
      parse but a copy-field endpoint is not a parsed static field. */
  lemma ValidateUnresolved(schema: SchemaRepresentation, ignored: set<string>, i: nat)
    requires MapAll(BuildStatic, schema.fields).Success?
    requires MapAll(BuildDynamic, KeptDynamic(ignored, schema.dynamicFields)).Success?
    requires i < |schema.copyFields|
    requires
      var statics := MapAll(BuildStatic, schema.fields).value;
      FindFirstByName(statics, Get(schema.copyFields[i], Key(SOURCE))).None? ||
      FindFirstByName(statics, Get(schema.copyFields[i], Key(DEST))).None?
    ensures ValidateSchema(schema, ignored) == Failure(NoSuchElement)
  {
    StaticsAreStatic(schema.fields);
    UnresolvedCopyFieldFails(MapAll(BuildStatic, schema.fields).value, schema.copyFields, i);
  }
}
