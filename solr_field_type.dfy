/** The catalog of <fieldType> entries (SolrFieldType): 21 constants, each a
    type name, an implementation class and property overrides. */
module SolrFieldType {
  import opened Wrappers
  import opened SchemaErrors
  import opened SolrFieldProperty
  import opened SolrField

  /** The public constants, in declaration order. */
  datatype SolrType =
    | STRING | STRINGS
    | INTEGER | INTEGERS | LONG | LONGS | FLOAT | FLOATS | DOUBLE | DOUBLES
    | DATE | DATES
    | BOOLEAN | BOOLEANS
    | TRIE_INTEGER | TRIE_LONG | TRIE_DATE
    | TEXT_EN | TEXT_GENERAL | TEXT_GENERAL_REV | ALPHA_ONLY_SORT

  /** The arguments each constant is constructed with; None for the
      overrides means the two-argument constructor is used. */
  datatype TypeDeclaration = TypeDeclaration(
    typeName: string, typeClass: string, overrides: Option<map<Property, string>>)

  /** The type name each constant is declared with. */
  function TypeName(t: SolrType): string {
    match t
    case STRING => "string"
    case STRINGS => "strings"
    case INTEGER => "pint"
    case INTEGERS => "pints"
    case LONG => "plong"
    case LONGS => "plongs"
    case FLOAT => "pfloat"
    case FLOATS => "pfloats"
    case DOUBLE => "pdouble"
    case DOUBLES => "pdoubles"
    case DATE => "pdate"
    case DATES => "pdates"
    case BOOLEAN => "boolean"
    case BOOLEANS => "booleans"
    case TRIE_INTEGER => "int"
    case TRIE_LONG => "long"
    case TRIE_DATE => "date"
    case TEXT_EN => "text_en"
    case TEXT_GENERAL => "text_general"
    case TEXT_GENERAL_REV => "text_general_rev"
    case ALPHA_ONLY_SORT => "alphaOnlySort"
  }

  /** The implementation class each constant is declared with. */
  function TypeClass(t: SolrType): string {
    match t
    case STRING => "solr.StrField"
    case STRINGS => "solr.StrField"
    case INTEGER => "solr.IntPointField"
    case INTEGERS => "solr.IntPointField"
    case LONG => "solr.LongPointField"
    case LONGS => "solr.LongPointField"
    case FLOAT => "solr.FloatPointField"
    case FLOATS => "solr.FloatPointField"
    case DOUBLE => "solr.DoublePointField"
    case DOUBLES => "solr.DoublePointField"
    case DATE => "solr.DatePointField"
    case DATES => "solr.DatePointField"
    case BOOLEAN => "solr.BoolField"
    case BOOLEANS => "solr.BoolField"
    case TRIE_INTEGER => "solr.TrieIntField"
    case TRIE_LONG => "solr.TrieLongField"
    case TRIE_DATE => "solr.TrieDateField"
    case TEXT_EN => "solr.TextField"
    case TEXT_GENERAL => "solr.TextField"
    case TEXT_GENERAL_REV => "solr.TextField"
    case ALPHA_ONLY_SORT => "solr.TextField"
  }

  /** The override map each constant is declared with; None for the
      constants built with the two-argument constructor. */
  function TypeOverrides(t: SolrType): Option<map<Property, string>> {
    match t
    case STRING => Some(map[DOCVALUES := "true", SORTMISSINGLAST := "true"])
    case STRINGS => Some(map[DOCVALUES := "true", MULTIVALUED := "true", SORTMISSINGLAST := "true"])
    case INTEGER => Some(map[DOCVALUES := "true"])
    case INTEGERS => Some(map[DOCVALUES := "true", MULTIVALUED := "true"])
    case LONG => Some(map[DOCVALUES := "true"])
    case LONGS => Some(map[DOCVALUES := "true", MULTIVALUED := "true"])
    case FLOAT => Some(map[DOCVALUES := "true"])
    case FLOATS => Some(map[DOCVALUES := "true", MULTIVALUED := "true"])
    case DOUBLE => Some(map[DOCVALUES := "true"])
    case DOUBLES => Some(map[DOCVALUES := "true", MULTIVALUED := "true"])
    case DATE => Some(map[DOCVALUES := "true"])
    case DATES => Some(map[DOCVALUES := "true", MULTIVALUED := "true"])
    case BOOLEAN => Some(map[SORTMISSINGLAST := "true"])
    case BOOLEANS => Some(map[SORTMISSINGLAST := "true", MULTIVALUED := "true"])
    case TRIE_INTEGER => Some(map[PRECISIONSTEP := "0", POSITIONINCREMENTGAP := "0"])
    case TRIE_LONG => Some(map[PRECISIONSTEP := "0", POSITIONINCREMENTGAP := "0"])
    case TRIE_DATE => Some(map[PRECISIONSTEP := "0", POSITIONINCREMENTGAP := "0"])
    case TEXT_EN => None
    case TEXT_GENERAL => Some(map[MULTIVALUED := "true"])
    case TEXT_GENERAL_REV => None
    case ALPHA_ONLY_SORT => None
  }

  function TypeDeclared(t: SolrType): TypeDeclaration {
    TypeDeclaration(TypeName(t), TypeClass(t), TypeOverrides(t))
  }

  /** The two-argument private constructor: the base constructor, then put CLASS. */
  function NewFieldType(typeName: string, typeClass: string): (r: Result<SolrField, Error>)
    ensures r.Success? <==> MatchesBasePattern(typeName)
    ensures r.Success? ==>
      r.value.kind == TypeKind && r.value.properties == map[NAME := typeName, CLASS := typeClass]
  {
    var base :- NewBase(TypeKind, Some(typeName));
    Success(Field(TypeKind, base.properties[CLASS := typeClass]))
  }

  /** The three-argument private constructor: the two-argument one, then putAll. */
  function NewFieldTypeWith(typeName: string, typeClass: string, overrides: map<Property, string>)
    : (r: Result<SolrField, Error>)
    ensures r.Success? <==> MatchesBasePattern(typeName)
    ensures r.Success? ==>
      r.value.kind == TypeKind && r.value.properties == map[NAME := typeName, CLASS := typeClass] + overrides
  {
    var f :- NewFieldType(typeName, typeClass);
    Success(Field(TypeKind, f.properties + overrides))
  }

  /** What constructing a constant with declaration d does. */
  function ConstructDeclared(d: TypeDeclaration): Result<SolrField, Error> {
    match d.overrides
    case None => NewFieldType(d.typeName, d.typeClass)
    case Some(o) => NewFieldTypeWith(d.typeName, d.typeClass, o)
  }

  function Construct(t: SolrType): Result<SolrField, Error> {
    ConstructDeclared(TypeDeclared(t))
  }

  /** Property map a declaration calls for: NAME and CLASS, then the overrides. */
  function DeclaredProperties(d: TypeDeclaration): map<Property, string> {
    map[NAME := d.typeName, CLASS := d.typeClass] + d.overrides.GetOr(map[])
  }

  /** Either constructor, given a valid name, yields the declared property map;
      overrides that avoid NAME and CLASS leave both as given. */
  lemma ConstructDeclaredShape(d: TypeDeclaration)
    requires MatchesBasePattern(d.typeName)
    ensures ConstructDeclared(d) == Success(Field(TypeKind, DeclaredProperties(d)))
    ensures NAME !in d.overrides.GetOr(map[]) && CLASS !in d.overrides.GetOr(map[]) ==>
      DeclaredProperties(d)[NAME] == d.typeName && DeclaredProperties(d)[CLASS] == d.typeClass &&
      DeclaredProperties(d).Keys == {NAME, CLASS} + d.overrides.GetOr(map[]).Keys
  {
    match d.overrides
    case None =>
      assert map[NAME := d.typeName, CLASS := d.typeClass] + map[] == map[NAME := d.typeName, CLASS := d.typeClass];
    case Some(o) =>
  }

  /** No override map touches NAME or CLASS. */
  lemma OverridesAvoidNameAndClass(t: SolrType)
    ensures NAME !in TypeDeclared(t).overrides.GetOr(map[])
    ensures CLASS !in TypeDeclared(t).overrides.GetOr(map[])
  {
  }

  /** Every type name satisfies the base naming pattern. */
  lemma TypeNameValid(t: SolrType)
    ensures MatchesBasePattern(TypeName(t))
  {
    if t == STRING || t == STRINGS || t == INTEGER || t == INTEGERS || t == LONG || t == LONGS || t == FLOAT {
      TypeNamesValidIn1(t);
    } else if t == FLOATS || t == DOUBLE || t == DOUBLES || t == DATE || t == DATES || t == BOOLEAN || t == BOOLEANS {
      TypeNamesValidIn2(t);
    } else {
      TypeNamesValidIn3(t);
    }
  }

  /** TypeNameValid for the constants, seven at a time. */
  lemma TypeNamesValidIn1(t: SolrType)
    requires t == STRING || t == STRINGS || t == INTEGER || t == INTEGERS || t == LONG || t == LONGS || t == FLOAT
    ensures MatchesBasePattern(TypeName(t))
  {
  }

  lemma TypeNamesValidIn2(t: SolrType)
    requires t == FLOATS || t == DOUBLE || t == DOUBLES || t == DATE || t == DATES || t == BOOLEAN || t == BOOLEANS
    ensures MatchesBasePattern(TypeName(t))
  {
  }

  lemma TypeNamesValidIn3(t: SolrType)
    requires t == TRIE_INTEGER || t == TRIE_LONG || t == TRIE_DATE || t == TEXT_EN || t == TEXT_GENERAL || t == TEXT_GENERAL_REV || t == ALPHA_ONLY_SORT
    ensures MatchesBasePattern(TypeName(t))
  {
  }

  /** Every type name satisfies the base naming pattern, so no constant's
      construction throws. */
  lemma {:induction false} ConstantsConstruct(t: SolrType)
    ensures MatchesBasePattern(TypeName(t))
    ensures Construct(t) == Success(Field(TypeKind, DeclaredProperties(TypeDeclared(t))))
  {
    TypeNameValid(t);
    ConstructDeclaredShape(TypeDeclared(t));
  }

  /** The field value of constant t. */
  function AsField(t: SolrType): (f: SolrField)
    ensures Construct(t) == Success(f)
  {
    ConstantsConstruct(t);
    Construct(t).value
  }

  /** NAME and CLASS are the constructor's arguments (the overrides go in after
      CLASS and never contain either), and the other entries are the overrides. */
  lemma {:induction false} ConstantShape(t: SolrType)
    ensures AsField(t).kind == TypeKind
    ensures GetName(AsField(t)) == TypeName(t)
    ensures AsField(t).properties[CLASS] == TypeDeclared(t).typeClass
    ensures AsField(t).properties.Keys == {NAME, CLASS} + TypeDeclared(t).overrides.GetOr(map[]).Keys
    ensures forall p | p in TypeDeclared(t).overrides.GetOr(map[]) ::
      AsField(t).properties[p] == TypeDeclared(t).overrides.GetOr(map[])[p]
  {
    ConstantsConstruct(t);
    OverridesAvoidNameAndClass(t);
    ConstructDeclaredShape(TypeDeclared(t));
  }

  /** The type names are pairwise distinct. */
  lemma TypeNamesDistinct()
    ensures forall t, u :: TypeName(t) == TypeName(u) ==> t == u
  {
  }

  lemma {:induction false} TypeNameInjective(t: SolrType, u: SolrType)
    ensures TypeName(t) == TypeName(u) <==> t == u
  {
    ConstantShape(t);
    ConstantShape(u);
    TypeNamesDistinct();
  }

  /** SolrFieldType.ALL, which the source collects by reflection over the
      public constants, in declaration order. */
  const ALL: seq<SolrType> := [
    STRING, STRINGS, INTEGER, INTEGERS, LONG, LONGS, FLOAT, FLOATS, DOUBLE, DOUBLES,
    DATE, DATES, BOOLEAN, BOOLEANS, TRIE_INTEGER, TRIE_LONG, TRIE_DATE,
    TEXT_EN, TEXT_GENERAL, TEXT_GENERAL_REV, ALPHA_ONLY_SORT]

  function Position(t: SolrType): (i: nat)
    ensures i < |ALL| && ALL[i] == t
  {
    match t
    case STRING => 0 case STRINGS => 1 case INTEGER => 2 case INTEGERS => 3
    case LONG => 4 case LONGS => 5 case FLOAT => 6 case FLOATS => 7
    case DOUBLE => 8 case DOUBLES => 9 case DATE => 10 case DATES => 11
    case BOOLEAN => 12 case BOOLEANS => 13 case TRIE_INTEGER => 14 case TRIE_LONG => 15
    case TRIE_DATE => 16 case TEXT_EN => 17 case TEXT_GENERAL => 18
    case TEXT_GENERAL_REV => 19 case ALPHA_ONLY_SORT => 20
  }

  /** ALL holds every constant exactly once. */
  lemma AllIsTheConstants()
    ensures |ALL| == 21
    ensures forall t: SolrType :: t in ALL
    ensures forall i, j :: 0 <= i < j < |ALL| ==> ALL[i] != ALL[j]
  {
    forall t: SolrType ensures t in ALL {
      assert ALL[Position(t)] == t;
    }
    forall i, j | 0 <= i < j < |ALL| ensures ALL[i] != ALL[j] {
      assert Position(ALL[i]) == i by { PositionOfIndex(i); }
      assert Position(ALL[j]) == j by { PositionOfIndex(j); }
    }
  }

  lemma PositionOfIndex(i: nat)
    requires i < |ALL|
    ensures Position(ALL[i]) == i
  {
  }

  /** ALL.stream().filter(t -> t.getName().equals(name)).findFirst() over ts. */
  function FindFirstNamed(ts: seq<SolrType>, name: Option<string>): (r: Option<SolrType>)
    ensures r.Some? <==> name.Some? && exists i :: 0 <= i < |ts| && TypeName(ts[i]) == name.value
    ensures r.Some? ==> r.value in ts && TypeName(r.value) == name.value
    decreases |ts|
  {
    if ts == [] || name.None? then None
    else if TypeName(ts[0]) == name.value then Some(ts[0])
    else
      var r := FindFirstNamed(ts[1..], name);
      assert forall i :: 1 <= i < |ts| ==> ts[i] == ts[1..][i - 1];
      r
  }

  /** findByName over the whole catalog. */
  function FindByName(name: Option<string>): Option<SolrType> {
    FindFirstNamed(ALL, name)
  }

  /** Looking up a catalog name finds that very constant; any other name
      (and null) finds nothing. */
  lemma {:induction false} FindByNameCorrect(name: Option<string>)
    ensures FindByName(name).Some? <==> name.Some? && exists t :: TypeName(t) == name.value
    ensures forall t :: name == Some(TypeName(t)) ==> FindByName(name) == Some(t)
  {
    AllIsTheConstants();
    forall t | name == Some(TypeName(t)) ensures FindByName(name) == Some(t) {
      assert TypeName(ALL[Position(t)]) == name.value;
      TypeNameInjective(FindByName(name).value, t);
    }
    if name.Some? && exists t :: TypeName(t) == name.value {
      var t :| TypeName(t) == name.value;
      assert TypeName(ALL[Position(t)]) == name.value;
    }
  }

  /** The multi-valued types set MULTIVALUED to "true"; their singular
      counterparts (and the other text types) do not set it at all. */
  lemma MultivaluedSplit(t: SolrType)
    ensures MULTIVALUED in AsField(t).properties <==>
      t in {STRINGS, INTEGERS, LONGS, FLOATS, DOUBLES, DATES, BOOLEANS, TEXT_GENERAL}
    ensures MULTIVALUED in AsField(t).properties ==> AsField(t).properties[MULTIVALUED] == "true"
  {
    ConstantShape(t);
    OverridesMultivalued(t);
  }

  /** Which declared overrides set multiValued, and to what. */
  lemma OverridesMultivalued(t: SolrType)
    ensures MULTIVALUED in TypeOverrides(t).GetOr(map[]) <==>
      t in {STRINGS, INTEGERS, LONGS, FLOATS, DOUBLES, DATES, BOOLEANS, TEXT_GENERAL}
    ensures MULTIVALUED in TypeOverrides(t).GetOr(map[]) ==> TypeOverrides(t).GetOr(map[])[MULTIVALUED] == "true"
  {
  }

  /** text_en, text_general_rev and alphaOnlySort carry only NAME and CLASS. */
  lemma PlainTextTypes(t: SolrType)
    requires t in {TEXT_EN, TEXT_GENERAL_REV, ALPHA_ONLY_SORT}
    ensures AsField(t).properties.Keys == {NAME, CLASS}
  {
    ConstantShape(t);
  }
}
