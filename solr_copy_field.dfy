/** A <copyField> (SolrCopyField): a source and a destination field, both
    static or dynamic, and a limit on the copied characters. */
module SolrCopyField {
  import opened Wrappers
  import opened SchemaErrors
  import opened SolrField

  /** The range of a Java int, the width of the Integer maxChars. */
  newtype Int32 = x: int | -0x8000_0000 <= x < 0x8000_0000

  /** The limit the opinionated constructor applies. */
  const DEFAULT_MAX_CHARS: Int32 := 3000

  datatype CopyField = CopyField(source: SolrField, dest: SolrField, maxChars: Int32)

  /** A copy-field endpoint may be a static or a dynamic field, never a field type. */
  predicate IsEndpoint(f: SolrField) {
    f.kind != TypeKind
  }

  /** SolrCopyField(source, dest): null endpoints are refused first, then
      field-type endpoints; the limit is 3000. */
  function NewCopyField(source: Option<SolrField>, dest: Option<SolrField>): (r: Result<CopyField, Error>)
    ensures r.Success? <==> source.Some? && dest.Some? && IsEndpoint(source.value) && IsEndpoint(dest.value)
    ensures (source.None? || dest.None?) ==> r == Failure(NullCopyFieldEndpoint)
    ensures source.Some? && dest.Some? && !(IsEndpoint(source.value) && IsEndpoint(dest.value)) ==>
      r == Failure(TypeCopyFieldEndpoint)
    ensures r.Success? ==> r.value == CopyField(source.value, dest.value, 3000)
  {
    if source.None? || dest.None? then
      Failure(NullCopyFieldEndpoint)
    else if source.value.kind == TypeKind || dest.value.kind == TypeKind then
      Failure(TypeCopyFieldEndpoint)
    else
      Success(CopyField(source.value, dest.value, DEFAULT_MAX_CHARS))
  }

  /** SolrCopyField(source, dest, maxChars): the two-argument constructor runs
      first, then a null limit or one below 1 is refused and any other limit
      replaces the default. */
  function NewCopyFieldWithLimit(source: Option<SolrField>, dest: Option<SolrField>, maxChars: Option<Int32>)
    : (r: Result<CopyField, Error>)
    ensures NewCopyField(source, dest).Failure? ==> r == NewCopyField(source, dest)
    ensures NewCopyField(source, dest).Success? ==>
      r == if maxChars.Some? && maxChars.value >= 1
           then Success(CopyField(source.value, dest.value, maxChars.value))
           else Failure(InvalidCharLimit)
  {
    var c :- NewCopyField(source, dest);
    if maxChars.Some? && maxChars.value > 0 then
      Success(c.(maxChars := maxChars.value))
    else
      Failure(InvalidCharLimit)
  }

  /** equals: the two endpoints compared with field equality; maxChars is ignored. */
  function CopyEquals(a: CopyField, b: CopyField): bool {
    Equals(a.source, b.source) && Equals(a.dest, b.dest)
  }

  /** Copy-field equality is that of the (source name, dest name) pairs, so
      the limit and every other endpoint property play no part. */
  lemma CopyEqualsIsNamePair(a: CopyField, b: CopyField)
    ensures CopyEquals(a, b) <==>
      (GetName(a.source), GetName(a.dest)) == (GetName(b.source), GetName(b.dest))
    ensures forall n: Int32 :: CopyEquals(a.(maxChars := n), b) <==> CopyEquals(a, b)
  {
  }

  /** Copy-field equality is an equivalence relation. */
  lemma CopyEqualsIsEquivalence(a: CopyField, b: CopyField, c: CopyField)
    ensures CopyEquals(a, a)
    ensures CopyEquals(a, b) ==> CopyEquals(b, a)
    ensures CopyEquals(a, b) && CopyEquals(b, c) ==> CopyEquals(a, c)
  {
  }

  /** The two constructors agree when the limit given is the default. */
  lemma DefaultLimitAgrees(source: Option<SolrField>, dest: Option<SolrField>)
    ensures NewCopyFieldWithLimit(source, dest, Some(DEFAULT_MAX_CHARS)) == NewCopyField(source, dest)
  {
  }
}
