/** The common base of <field>, <dynamicField> and <fieldType>: a validated name
    and an enum-keyed property map (schema/SolrField), plus the raw-map property
    conversion the typed fields' build functions use. */
module SolrField {
  import opened Wrappers
  import opened SchemaErrors
  import opened SolrFieldProperty

  /** Which subclass a field value belongs to; it selects the naming rule. */
  datatype Kind = StaticKind | DynamicKind | TypeKind

  /** A field: its kind and its property map. */
  datatype Field = Field(kind: Kind, properties: map<Property, string>)

  /** Every constructor puts NAME, so every field value carries it. */
  type SolrField = f: Field | NAME in f.properties witness Field(StaticKind, map[NAME := "id"])

  predicate IsWordChar(c: char) {
    'A' <= c <= 'Z' || 'a' <= c <= 'z' || '0' <= c <= '9' || c == '_'
  }

  predicate IsNameStart(c: char) {
    'A' <= c <= 'Z' || 'a' <= c <= 'z' || c == '_'
  }

  /** The base pattern `^[A-Za-z_]\w+$`, matched against the whole name. */
  predicate MatchesBasePattern(s: string) {
    |s| >= 2 && IsNameStart(s[0]) && forall i :: 1 <= i < |s| ==> IsWordChar(s[i])
  }

  /** The dynamic-field pattern `^\*_\w+$`, matched against the whole name. */
  predicate MatchesDynamicPattern(s: string) {
    |s| >= 3 && s[0] == '*' && s[1] == '_' && forall i :: 2 <= i < |s| ==> IsWordChar(s[i])
  }

  /** isValidName as each kind has it: SolrDynamicField overrides it with the
      wildcard pattern, the others use the base pattern; null is never valid. */
  predicate IsValidName(kind: Kind, name: Option<string>) {
    name.Some? &&
    if kind == DynamicKind then MatchesDynamicPattern(name.value) else MatchesBasePattern(name.value)
  }

  /** Reference reading of the regex `\w+`: one word character, then `\w*`. */
  predicate WordPlus(s: string)
    decreases |s|
  {
    |s| >= 1 && IsWordChar(s[0]) && (|s| == 1 || WordPlus(s[1..]))
  }

  lemma {:induction false} WordPlusAllWordChars(s: string)
    ensures WordPlus(s) <==> |s| >= 1 && forall i :: 0 <= i < |s| ==> IsWordChar(s[i])
    decreases |s|
  {
    if |s| > 1 {
      WordPlusAllWordChars(s[1..]);
      assert forall i :: 1 <= i < |s| ==> s[i] == s[1..][i - 1];
    }
  }

  /** The base pattern agrees with the regex read piece by piece: one
      `[A-Za-z_]`, then `\w+`. So a valid name has at least two characters and
      no leading digit. */
  lemma BaseNameIsRegex(s: string)
    ensures MatchesBasePattern(s) <==> |s| >= 1 && IsNameStart(s[0]) && WordPlus(s[1..])
    ensures MatchesBasePattern(s) ==> |s| >= 2 && !('0' <= s[0] <= '9')
  {
    if |s| >= 1 {
      WordPlusAllWordChars(s[1..]);
      assert forall i :: 1 <= i < |s| ==> s[i] == s[1..][i - 1];
    }
  }

  /** The dynamic pattern agrees with the regex read piece by piece: `*`, `_`, then `\w+`. */
  lemma DynamicNameIsRegex(s: string)
    ensures MatchesDynamicPattern(s) <==> |s| >= 2 && s[..2] == "*_" && WordPlus(s[2..])
  {
    if |s| >= 2 {
      WordPlusAllWordChars(s[2..]);
      assert forall i :: 2 <= i < |s| ==> s[i] == s[2..][i - 2];
      assert s[..2] == "*_" <==> s[0] == '*' && s[1] == '_';
    }
  }

  /** No name is valid for both a dynamic and a static field: a dynamic name
      starts with '*', which no static name does. */
  lemma NameLanguagesDisjoint(s: string)
    ensures !(MatchesDynamicPattern(s) && MatchesBasePattern(s))
  {
  }

  lemma NameExamples()
    ensures MatchesDynamicPattern("*_s") && !MatchesDynamicPattern("name")
    ensures MatchesBasePattern("_text_") && MatchesBasePattern("id")
    ensures !MatchesBasePattern("a") && !MatchesBasePattern("1a") && !MatchesBasePattern("*_s")
  {
  }

  /** The base constructor SolrField(nameProperty): validate, then put NAME. */
  function NewBase(kind: Kind, name: Option<string>): (r: Result<SolrField, Error>)
    ensures r.Success? <==> IsValidName(kind, name)
    ensures r.Failure? ==> r.error == InvalidName(name)
    ensures r.Success? ==> r.value == Field(kind, map[NAME := name.value])
  {
    if !IsValidName(kind, name) then
      Failure(InvalidName(name))
    else
      Success(Field(kind, map[NAME := name.value]))
  }

  /** getName(); the NoSuchElementException branch cannot happen on a SolrField. */
  function GetName(f: SolrField): string {
    f.properties[NAME]
  }

  function HasProperty(f: SolrField, p: Property): bool {
    p in f.properties
  }

  function GetProperty(f: SolrField, p: Property): (r: Option<string>)
    ensures r.Some? <==> HasProperty(f, p)
    ensures r.Some? ==> r.value == f.properties[p]
  {
    Get(f.properties, p)
  }

  /** equals: uniqueness in a Solr schema is by name. */
  function Equals(a: SolrField, b: SolrField): bool {
    GetName(a) == GetName(b)
  }

  /** The base constructor succeeds exactly for a valid name, and the field
      then answers getName() with that name and has nothing but NAME. */
  lemma NewBaseGivesName(kind: Kind, name: Option<string>)
    ensures NewBase(kind, name).Success? <==> IsValidName(kind, name)
    ensures NewBase(kind, name).Success? ==>
      HasProperty(NewBase(kind, name).value, NAME) &&
      GetName(NewBase(kind, name).value) == name.value &&
      NewBase(kind, name).value.properties.Keys == {NAME}
  {
  }

  /** Equality holds exactly when the names agree, whatever the kind and the
      other properties. */
  lemma EqualsIgnoresOtherProperties(a: SolrField, b: SolrField)
    ensures Equals(a, b) <==> GetName(a) == GetName(b)
    ensures forall k: Kind, m: map<Property, string> | NAME !in m ::
      Equals(a, Field(k, b.properties + m))
      <==> Equals(a, b)
  {
  }

  /** Name equality is an equivalence relation. */
  lemma EqualsIsEquivalence(a: SolrField, b: SolrField, c: SolrField)
    ensures Equals(a, a)
    ensures Equals(a, b) ==> Equals(b, a)
    ensures Equals(a, b) && Equals(b, c) ==> Equals(a, c)
  {
  }

  /** The standard presets of SolrField.StdConf: Stored is STORED,
      StoredIndexed is STORED_INDEXED, StoredIndexedMultivalued is
      STORED_INDEXED_MULTIVALUED. */
  datatype StdConf = Stored | StoredIndexed | StoredIndexedMultivalued

  function Config(c: StdConf): map<Property, string> {
    match c
    case Stored => map[STORED := "true", INDEXED := "false", MULTIVALUED := "false"]
    case StoredIndexed => map[STORED := "true", INDEXED := "true", MULTIVALUED := "false"]
    case StoredIndexedMultivalued => map[STORED := "true", INDEXED := "true", MULTIVALUED := "true"]
  }

  /** Every preset sets exactly stored, indexed and multiValued, never NAME or TYPE. */
  lemma ConfigShape(c: StdConf)
    ensures Config(c).Keys == {STORED, INDEXED, MULTIVALUED}
    ensures NAME !in Config(c) && TYPE !in Config(c)
    ensures Config(c)[STORED] == "true"
    ensures Config(c)[INDEXED] == (if c == Stored then "false" else "true")
    ensures Config(c)[MULTIVALUED] == (if c == StoredIndexedMultivalued then "true" else "false")
  {
  }

  /** A raw wire map from the schema API; its values are modelled as strings. */
  type RawMap = map<string, string>

  /** convertToProperties: each raw key is resolved through of(); an unknown
      key fails, known keys map one to one with their values unchanged. */
  function ConvertToProperties(raw: RawMap): (r: Result<map<Property, string>, Error>)
    ensures r.Success? <==> forall k :: k in raw ==> Of(Some(k)).Some?
    ensures r.Failure? ==> r.error == UnknownWireProperty
    ensures r.Success? ==>
      (forall p :: p in r.value <==> Key(p) in raw) &&
      (forall p :: p in r.value ==> r.value[p] == raw[Key(p)])
  {
    if forall k | k in raw :: Of(Some(k)).Some? then
      Success(map k | k in raw :: Of(Some(k)).value := raw[k])
    else
      Failure(UnknownWireProperty)
  }

  /** A property map in wire-key form, the shape the schema API returns. */
  function ToWire(props: map<Property, string>): (raw: RawMap)
    ensures forall p :: Key(p) in raw <==> p in props
    ensures forall p :: p in props ==> raw[Key(p)] == props[p]
  {
    KeysDistinct();
    map p | p in props :: Key(p) := props[p]
  }

  /** Wire form converted back gives the same property map. */
  lemma ConvertToWireRoundTrip(props: map<Property, string>)
    ensures ConvertToProperties(ToWire(props)) == Success(props)
  {
    var raw := ToWire(props);
    forall k | k in raw ensures Of(Some(k)).Some? {
      var p :| p in props && Key(p) == k;
      OfKey(p);
    }
    var r := ConvertToProperties(raw);
    assert r.Success?;
    forall p ensures p in r.value <==> p in props {
    }
    forall p | p in props ensures r.value[p] == props[p] {
    }
    MapsAgree(r.value, props);
  }

  lemma MapsAgree(m: map<Property, string>, n: map<Property, string>)
    requires forall p :: p in m <==> p in n
    requires forall p :: p in n ==> m[p] == n[p]
    ensures m == n
  {
  }

  /** Converting a map with an undeclared key fails, as "GARBAGE" does. */
  lemma ConvertRejectsUnknownKey(raw: RawMap, k: string)
    requires k in raw && forall p :: Key(p) != k
    ensures ConvertToProperties(raw) == Failure(UnknownWireProperty)
  {
  }
}
