/** The closed registry of schema property keys (SolrFieldProperty). */
module SolrFieldProperty {
  import opened Wrappers

  datatype Property =
    | NAME | CLASS | TYPE | DEFAULT
    | PRECISIONSTEP | POSITIONINCREMENTGAP | AUTOGENERATEPHRASEQUERIES | SYNONYMQUERYSTYLE
    | ENABLEGRAPHQUERIES | DOCVALUESFORMAT | POSTINGSFORMAT
    | INDEXED | STORED | DOCVALUES | SORTMISSINGFIRST | SORTMISSINGLAST | MULTIVALUED
    | UNINVERTIBLE | OMITNORMS | OMITTERMFREQANDPOSITIONS | OMITPOSITIONS
    | TERMVECTORS | TERMPOSITIONS | TERMOFFSETS | TERMPAYLOADS | REQUIRED
    | USEDOCVALUESASSTORED | LARGE
    | SOURCE | DEST | MAXCHARS

  /** The Java class a property's value is declared with. */
  datatype ValueType = StringType | LongType | BooleanType | IntegerType

  /** The three columns of the enum table: the constructor arguments of each
      entry, which getKey(), getType() and getDefault() return. */

  /** The wire key each entry is declared with. */
  function Key(p: Property): string {
    match p
    case NAME => "name"
    case CLASS => "class"
    case TYPE => "type"
    case DEFAULT => "default"
    case PRECISIONSTEP => "precisionStep"
    case POSITIONINCREMENTGAP => "positionIncrementGap"
    case AUTOGENERATEPHRASEQUERIES => "autoGeneratePhraseQueries"
    case SYNONYMQUERYSTYLE => "synonymQueryStyle"
    case ENABLEGRAPHQUERIES => "enableGraphQueries"
    case DOCVALUESFORMAT => "docValuesFormat"
    case POSTINGSFORMAT => "postingsFormat"
    case INDEXED => "indexed"
    case STORED => "stored"
    case DOCVALUES => "docValues"
    case SORTMISSINGFIRST => "sortMissingFirst"
    case SORTMISSINGLAST => "sortMissingLast"
    case MULTIVALUED => "multiValued"
    case UNINVERTIBLE => "uninvertible"
    case OMITNORMS => "omitNorms"
    case OMITTERMFREQANDPOSITIONS => "omitTermFreqAndPositions"
    case OMITPOSITIONS => "omitPositions"
    case TERMVECTORS => "termVectors"
    case TERMPOSITIONS => "termPositions"
    case TERMOFFSETS => "termOffsets"
    case TERMPAYLOADS => "termPayloads"
    case REQUIRED => "required"
    case USEDOCVALUESASSTORED => "useDocValuesAsStored"
    case LARGE => "large"
    case SOURCE => "source"
    case DEST => "dest"
    case MAXCHARS => "maxChars"
  }

  /** The value type each entry is declared with. */
  function Type(p: Property): ValueType {
    match p
    case NAME => StringType
    case CLASS => StringType
    case TYPE => StringType
    case DEFAULT => StringType
    case PRECISIONSTEP => LongType
    case POSITIONINCREMENTGAP => StringType
    case AUTOGENERATEPHRASEQUERIES => BooleanType
    case SYNONYMQUERYSTYLE => StringType
    case ENABLEGRAPHQUERIES => BooleanType
    case DOCVALUESFORMAT => StringType
    case POSTINGSFORMAT => StringType
    case INDEXED => BooleanType
    case STORED => BooleanType
    case DOCVALUES => BooleanType
    case SORTMISSINGFIRST => BooleanType
    case SORTMISSINGLAST => BooleanType
    case MULTIVALUED => BooleanType
    case UNINVERTIBLE => BooleanType
    case OMITNORMS => BooleanType
    case OMITTERMFREQANDPOSITIONS => BooleanType
    case OMITPOSITIONS => BooleanType
    case TERMVECTORS => BooleanType
    case TERMPOSITIONS => BooleanType
    case TERMOFFSETS => BooleanType
    case TERMPAYLOADS => BooleanType
    case REQUIRED => BooleanType
    case USEDOCVALUESASSTORED => BooleanType
    case LARGE => BooleanType
    case SOURCE => StringType
    case DEST => StringType
    case MAXCHARS => IntegerType
  }

  /** The default each entry is declared with (Optional.ofNullable of the
      third constructor argument). */
  function Default(p: Property): Option<string> {
    match p
    case NAME => None
    case CLASS => None
    case TYPE => None
    case DEFAULT => None
    case PRECISIONSTEP => None
    case POSITIONINCREMENTGAP => None
    case AUTOGENERATEPHRASEQUERIES => None
    case SYNONYMQUERYSTYLE => None
    case ENABLEGRAPHQUERIES => Some("true")
    case DOCVALUESFORMAT => None
    case POSTINGSFORMAT => None
    case INDEXED => Some("true")
    case STORED => Some("true")
    case DOCVALUES => Some("false")
    case SORTMISSINGFIRST => Some("false")
    case SORTMISSINGLAST => Some("false")
    case MULTIVALUED => Some("false")
    case UNINVERTIBLE => Some("true")
    case OMITNORMS => None
    case OMITTERMFREQANDPOSITIONS => None
    case OMITPOSITIONS => None
    case TERMVECTORS => Some("false")
    case TERMPOSITIONS => Some("false")
    case TERMOFFSETS => Some("false")
    case TERMPAYLOADS => Some("false")
    case REQUIRED => Some("false")
    case USEDOCVALUESASSTORED => Some("true")
    case LARGE => Some("false")
    case SOURCE => None
    case DEST => None
    case MAXCHARS => None
  }

  /** values(), in declaration order. */
  function Values(): (s: seq<Property>)
    ensures |s| == 31
  {
    seq(31, EntryAt)
  }

  /** The entry at position i of values(). */
  function EntryAt(i: int): Property
    requires 0 <= i < 31
  {
    if i == 0 then NAME
    else if i == 1 then CLASS
    else if i == 2 then TYPE
    else if i == 3 then DEFAULT
    else if i == 4 then PRECISIONSTEP
    else if i == 5 then POSITIONINCREMENTGAP
    else if i == 6 then AUTOGENERATEPHRASEQUERIES
    else if i == 7 then SYNONYMQUERYSTYLE
    else if i == 8 then ENABLEGRAPHQUERIES
    else if i == 9 then DOCVALUESFORMAT
    else if i == 10 then POSTINGSFORMAT
    else if i == 11 then INDEXED
    else if i == 12 then STORED
    else if i == 13 then DOCVALUES
    else if i == 14 then SORTMISSINGFIRST
    else if i == 15 then SORTMISSINGLAST
    else if i == 16 then MULTIVALUED
    else if i == 17 then UNINVERTIBLE
    else if i == 18 then OMITNORMS
    else if i == 19 then OMITTERMFREQANDPOSITIONS
    else if i == 20 then OMITPOSITIONS
    else if i == 21 then TERMVECTORS
    else if i == 22 then TERMPOSITIONS
    else if i == 23 then TERMOFFSETS
    else if i == 24 then TERMPAYLOADS
    else if i == 25 then REQUIRED
    else if i == 26 then USEDOCVALUESASSTORED
    else if i == 27 then LARGE
    else if i == 28 then SOURCE
    else if i == 29 then DEST
    else MAXCHARS
  }

  /** values() lists every entry exactly once. */
  lemma ValuesComplete()
    ensures |Values()| == 31
    ensures forall p: Property :: p in Values()
    ensures forall i, j :: 0 <= i < j < |Values()| ==> Values()[i] != Values()[j]
  {
    forall p: Property ensures p in Values() && Values()[Ordinal(p)] == p {
      OrdinalIndexes(p);
    }
    forall i | 0 <= i < |Values()| ensures Ordinal(Values()[i]) == i {
      OrdinalOfIndex(i);
    }
  }

  lemma OrdinalIndexes(p: Property)
    ensures EntryAt(Ordinal(p)) == p
    ensures Values()[Ordinal(p)] == p
  {
    assert Values()[Ordinal(p)] == EntryAt(Ordinal(p));
  }

  lemma OrdinalOfIndex(i: nat)
    requires i < |Values()|
    ensures Ordinal(Values()[i]) == i
  {
    assert Values()[i] == EntryAt(i);
  }

  /** The position of an entry in values(). */
  function Ordinal(p: Property): (i: nat)
    ensures i < 31
  {
    match p
    case NAME => 0
    case CLASS => 1
    case TYPE => 2
    case DEFAULT => 3
    case PRECISIONSTEP => 4
    case POSITIONINCREMENTGAP => 5
    case AUTOGENERATEPHRASEQUERIES => 6
    case SYNONYMQUERYSTYLE => 7
    case ENABLEGRAPHQUERIES => 8
    case DOCVALUESFORMAT => 9
    case POSTINGSFORMAT => 10
    case INDEXED => 11
    case STORED => 12
    case DOCVALUES => 13
    case SORTMISSINGFIRST => 14
    case SORTMISSINGLAST => 15
    case MULTIVALUED => 16
    case UNINVERTIBLE => 17
    case OMITNORMS => 18
    case OMITTERMFREQANDPOSITIONS => 19
    case OMITPOSITIONS => 20
    case TERMVECTORS => 21
    case TERMPOSITIONS => 22
    case TERMOFFSETS => 23
    case TERMPAYLOADS => 24
    case REQUIRED => 25
    case USEDOCVALUESASSTORED => 26
    case LARGE => 27
    case SOURCE => 28
    case DEST => 29
    case MAXCHARS => 30
  }

  /** The entry a wire key k can belong to: the keys are told apart by their
      length and, where two keys share a length, by one character. */
  function EntryOfKey(k: string): Option<Property> {
    if |k| == 4 then
      if k[2] == 'm' then Some(NAME) else if k[2] == 'p' then Some(TYPE) else Some(DEST)
    else if |k| == 5 then
      if k[4] == 's' then Some(CLASS) else Some(LARGE)
    else if |k| == 6 then
      if k[5] == 'd' then Some(STORED) else Some(SOURCE)
    else if |k| == 7 then
      if k[6] == 't' then Some(DEFAULT) else Some(INDEXED)
    else if |k| == 8 then
      if k[7] == 'd' then Some(REQUIRED) else Some(MAXCHARS)
    else if |k| == 9 then
      if k[7] == 'e' then Some(DOCVALUES) else Some(OMITNORMS)
    else if |k| == 11 then
      if k[9] == 'e' then Some(MULTIVALUED) else if k[9] == 'r' then Some(TERMVECTORS) else Some(TERMOFFSETS)
    else if |k| == 12 then
      if k[11] == 'e' then Some(UNINVERTIBLE) else Some(TERMPAYLOADS)
    else if |k| == 13 then
      if k[3] == 'c' then Some(PRECISIONSTEP) else if k[3] == 't' then Some(OMITPOSITIONS) else Some(TERMPOSITIONS)
    else if |k| == 14 then
      Some(POSTINGSFORMAT)
    else if |k| == 15 then
      if k[13] == 'a' then Some(DOCVALUESFORMAT) else Some(SORTMISSINGLAST)
    else if |k| == 16 then
      Some(SORTMISSINGFIRST)
    else if |k| == 17 then
      Some(SYNONYMQUERYSTYLE)
    else if |k| == 18 then
      Some(ENABLEGRAPHQUERIES)
    else if |k| == 20 then
      if k[19] == 'p' then Some(POSITIONINCREMENTGAP) else Some(USEDOCVALUESASSTORED)
    else if |k| == 24 then
      Some(OMITTERMFREQANDPOSITIONS)
    else if |k| == 25 then
      Some(AUTOGENERATEPHRASEQUERIES)
    else None
  }

  /** The reverse table recovers every entry from its wire key. */
  lemma EntryOfKeyInverts(p: Property)
    ensures EntryOfKey(Key(p)) == Some(p)
  {
    if p == NAME || p == CLASS || p == TYPE || p == DEFAULT {
      KeysInvertedIn1(p);
    } else if p == PRECISIONSTEP || p == POSITIONINCREMENTGAP || p == AUTOGENERATEPHRASEQUERIES || p == SYNONYMQUERYSTYLE {
      KeysInvertedIn2(p);
    } else if p == ENABLEGRAPHQUERIES || p == DOCVALUESFORMAT || p == POSTINGSFORMAT || p == INDEXED {
      KeysInvertedIn3(p);
    } else if p == STORED || p == DOCVALUES || p == SORTMISSINGFIRST || p == SORTMISSINGLAST {
      KeysInvertedIn4(p);
    } else if p == MULTIVALUED || p == UNINVERTIBLE || p == OMITNORMS || p == OMITTERMFREQANDPOSITIONS {
      KeysInvertedIn5(p);
    } else if p == OMITPOSITIONS || p == TERMVECTORS || p == TERMPOSITIONS || p == TERMOFFSETS {
      KeysInvertedIn6(p);
    } else if p == TERMPAYLOADS || p == REQUIRED || p == USEDOCVALUESASSTORED || p == LARGE {
      KeysInvertedIn7(p);
    } else {
      KeysInvertedIn8(p);
    }
  }

  /** EntryOfKeyInverts for the entries of values(), four at a time. */
  lemma KeysInvertedIn1(p: Property)
    requires p == NAME || p == CLASS || p == TYPE || p == DEFAULT
    ensures EntryOfKey(Key(p)) == Some(p)
  {
  }

  lemma KeysInvertedIn2(p: Property)
    requires p == PRECISIONSTEP || p == POSITIONINCREMENTGAP || p == AUTOGENERATEPHRASEQUERIES || p == SYNONYMQUERYSTYLE
    ensures EntryOfKey(Key(p)) == Some(p)
  {
  }

  lemma KeysInvertedIn3(p: Property)
    requires p == ENABLEGRAPHQUERIES || p == DOCVALUESFORMAT || p == POSTINGSFORMAT || p == INDEXED
    ensures EntryOfKey(Key(p)) == Some(p)
  {
  }

  lemma KeysInvertedIn4(p: Property)
    requires p == STORED || p == DOCVALUES || p == SORTMISSINGFIRST || p == SORTMISSINGLAST
    ensures EntryOfKey(Key(p)) == Some(p)
  {
  }

  lemma KeysInvertedIn5(p: Property)
    requires p == MULTIVALUED || p == UNINVERTIBLE || p == OMITNORMS || p == OMITTERMFREQANDPOSITIONS
    ensures EntryOfKey(Key(p)) == Some(p)
  {
  }

  lemma KeysInvertedIn6(p: Property)
    requires p == OMITPOSITIONS || p == TERMVECTORS || p == TERMPOSITIONS || p == TERMOFFSETS
    ensures EntryOfKey(Key(p)) == Some(p)
  {
  }

  lemma KeysInvertedIn7(p: Property)
    requires p == TERMPAYLOADS || p == REQUIRED || p == USEDOCVALUESASSTORED || p == LARGE
    ensures EntryOfKey(Key(p)) == Some(p)
  {
  }

  lemma KeysInvertedIn8(p: Property)
    requires p == SOURCE || p == DEST || p == MAXCHARS
    ensures EntryOfKey(Key(p)) == Some(p)
  {
  }

  /** No two entries share a wire key; the static members map depends on it,
      since toUnmodifiableMap rejects duplicate keys. */
  lemma KeysDistinct()
    ensures forall p, q :: Key(p) == Key(q) ==> p == q
  {
    forall p, q | Key(p) == Key(q) ensures p == q {
      EntryOfKeyInverts(p);
      EntryOfKeyInverts(q);
    }
  }

  /** The static members map: wire key to entry. Building it is well defined
      only because the keys are distinct. */
  function Members(): (m: map<string, Property>)
    ensures forall p :: Key(p) in m && m[Key(p)] == p
    ensures forall k :: k in m ==> Key(m[k]) == k
  {
    KeysDistinct();
    ValuesComplete();
    map p | p in Values() :: Key(p) := p
  }

  /** of(name): reverse lookup by wire key; null and unknown keys give null. */
  function Of(name: Option<string>): (r: Option<Property>)
    ensures name.None? ==> r.None?
    ensures r.Some? ==> name == Some(Key(r.value))
    ensures name.Some? && r.None? ==> forall p :: Key(p) != name.value
  {
    if name.None? then None else Get(Members(), name.value)
  }

  lemma OfKey(p: Property)
    ensures Of(Some(Key(p))) == Some(p)
  {
  }

  /** A key not in the table is not found; it never resolves to another entry. */
  lemma OfUnknown(k: string)
    ensures Of(Some(k)).None? <==> forall p :: Key(p) != k
  {
    if Of(Some(k)).None? {
    } else {
      OfKey(Of(Some(k)).value);
    }
  }

  /** The defaults as declared: present exactly where the constructor was given one. */
  lemma DefaultsAsDeclared()
    ensures Default(INDEXED) == Some("true") && Default(STORED) == Some("true")
    ensures Default(MULTIVALUED) == Some("false") && Default(DOCVALUES) == Some("false")
    ensures forall p :: Default(p).None? <==> p in {NAME, CLASS, TYPE, DEFAULT, PRECISIONSTEP,
      POSITIONINCREMENTGAP, AUTOGENERATEPHRASEQUERIES, SYNONYMQUERYSTYLE, DOCVALUESFORMAT,
      POSTINGSFORMAT, OMITNORMS, OMITTERMFREQANDPOSITIONS, OMITPOSITIONS, SOURCE, DEST, MAXCHARS}
  {
  }

  /** Every Boolean entry with a default defaults to "true" or "false". */
  lemma BooleanDefaultsAreBooleans(p: Property)
    requires Type(p) == BooleanType && Default(p).Some?
    ensures Default(p).value == "true" || Default(p).value == "false"
  {
  }
}
