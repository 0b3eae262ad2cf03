/** The schema cache (SolrSchemaCache): the expected static fields and copy
    fields, derived from the metadata-block field records. */
module SolrSchemaCache {
  import opened Wrappers
  import opened SchemaErrors
  import opened SolrFieldProperty
  import opened SolrField
  import opened SolrFieldType
  import opened SolrFields
  import opened SolrCopyField

  /** The three things the cache reads from a metadata-block field record
      (DatasetFieldType): its name, the Solr type of its field type, and
      whether it allows multiple values. */
  datatype MetadataField = MetadataField(name: string, solrType: SolrType, allowMultiples: bool)

  /** The name of the catch-all full-text field. */
  const FULL_TEXT: string := "_text_"

  /** The overlay the fulltext field is constructed with. */
  function FullTextOverlay(): map<Property, string> {
    map[INDEXED := "true", STORED := "false", MULTIVALUED := "true"]
  }

  /** The construction of the fulltext field, as written. */
  function FullTextConstruction(): Result<SolrField, Error> {
    New(StaticKind, Some(FULL_TEXT), TEXT_GENERAL, FullTextOverlay())
  }

  /** The fulltext static field: "_text_" of type text_general, indexed, not
      stored, multivalued. Its construction never throws. */
  function FullText(): (f: SolrField)
    ensures FullTextConstruction() == Success(f)
    ensures f.kind == StaticKind
    ensures f.properties == map[NAME := "_text_", TYPE := "text_general",
      INDEXED := "true", STORED := "false", MULTIVALUED := "true"]
  {
    FullTextConstructs();
    FullTextConstruction().value
  }

  lemma FullTextConstructs()
    ensures FullTextConstruction().Success?
    ensures FullTextConstruction().value.kind == StaticKind
    ensures FullTextConstruction().value.properties == map[NAME := "_text_", TYPE := "text_general",
      INDEXED := "true", STORED := "false", MULTIVALUED := "true"]
  {
    FullTextNameValid();
    NewProperties(StaticKind, Some(FULL_TEXT), TEXT_GENERAL, FullTextOverlay());
    FullTextProperties();
  }

  /** "_text_" satisfies the static naming rule. */
  lemma FullTextNameValid()
    ensures MatchesBasePattern(FULL_TEXT)
  {
    assert IsNameStart(FULL_TEXT[0]);
    assert forall i | 1 <= i < |FULL_TEXT| :: IsWordChar(FULL_TEXT[i]);
  }

  /** The name, the type and the overlay make up the fulltext property map. */
  lemma FullTextProperties()
    ensures map[NAME := FULL_TEXT, TYPE := TypeName(TEXT_GENERAL)] + FullTextOverlay() ==
      map[NAME := "_text_", TYPE := "text_general", INDEXED := "true", STORED := "false", MULTIVALUED := "true"]
  {
    var m := map[NAME := FULL_TEXT, TYPE := TypeName(TEXT_GENERAL)] + FullTextOverlay();
    var n := map[NAME := "_text_", TYPE := "text_general", INDEXED := "true", STORED := "false", MULTIVALUED := "true"];
    assert m.Keys == n.Keys;
    MapsAgree(m, n);
  }

  /** buildStaticFieldFromMDB: a text_en record becomes a static field of that
      name with the stored + indexed preset, multivalued when the record
      allows multiples; another Solr type is not supported yet. */
  function BuildStaticFieldFromMDB(d: MetadataField): (r: Result<SolrField, Error>)
    ensures r.Success? <==> d.solrType == TEXT_EN && MatchesBasePattern(d.name)
    ensures d.solrType != TEXT_EN ==> r == Failure(NotSupported(TypeName(d.solrType)))
    ensures d.solrType == TEXT_EN && !MatchesBasePattern(d.name) ==> r == Failure(InvalidName(Some(d.name)))
    ensures r.Success? ==> r.value.kind == StaticKind && r.value.properties == map[
      NAME := d.name, TYPE := "text_en", STORED := "true", INDEXED := "true",
      MULTIVALUED := if d.allowMultiples then "true" else "false"]
  {
    if d.solrType == TEXT_EN then
      var c := if d.allowMultiples then StoredIndexedMultivalued else StoredIndexed;
      ConfigShape(c);
      var r := New(StaticKind, Some(d.name), TEXT_EN, Config(c));
      if r.Success? then
        NewProperties(StaticKind, Some(d.name), TEXT_EN, Config(c));
        PresetOverlay(d.name, d.allowMultiples);
        r
      else
        r
    else
      Failure(NotSupported(TypeName(d.solrType)))
  }

  /** The name and type of a text_en record with the preset its multiplicity selects. */
  lemma PresetOverlay(name: string, multiple: bool)
    ensures map[NAME := name, TYPE := TypeName(TEXT_EN)] +
      Config(if multiple then StoredIndexedMultivalued else StoredIndexed) ==
      map[NAME := name, TYPE := "text_en", STORED := "true", INDEXED := "true",
        MULTIVALUED := if multiple then "true" else "false"]
  {
    var c := if multiple then StoredIndexedMultivalued else StoredIndexed;
    ConfigShape(c);
    var m := map[NAME := name, TYPE := TypeName(TEXT_EN)] + Config(c);
    var n := map[NAME := name, TYPE := "text_en", STORED := "true", INDEXED := "true",
      MULTIVALUED := if multiple then "true" else "false"];
    assert m.Keys == n.Keys;
    MapsAgree(m, n);
  }

  /** buildFullTextCopyField: the copy field from a static field into fulltext,
      with the default limit. */
  function BuildFullTextCopyField(s: SolrField): (c: CopyField)
    requires s.kind == StaticKind
    ensures c.source == s && c.dest == FullText() && c.maxChars == 3000
    ensures NewCopyField(Some(s), Some(FullText())) == Success(c)
  {
    NewCopyField(Some(s), Some(FullText())).value
  }

  /** The full-text copy field of each static field, in order. */
  function FullTextCopies(fields: seq<SolrField>): (cs: seq<CopyField>)
    requires forall i :: 0 <= i < |fields| ==> fields[i].kind == StaticKind
    ensures |cs| == |fields|
    ensures forall i :: 0 <= i < |fields| ==> cs[i] == BuildFullTextCopyField(fields[i])
  {
    seq(|fields|, i requires 0 <= i < |fields| => BuildFullTextCopyField(fields[i]))
  }

  /** Some element of list equals c under copy-field equality (List.contains). */
  predicate Holds(list: seq<CopyField>, c: CopyField) {
    exists i :: 0 <= i < |list| && CopyEquals(list[i], c)
  }

  /** No two elements of list are equal under copy-field equality. */
  predicate Distinct(list: seq<CopyField>) {
    forall i, j :: 0 <= i < j < |list| ==> !CopyEquals(list[i], list[j])
  }

  /** CopyOnWriteArrayList.addAllAbsent(items): each item, in order, is
      appended when no element equal to it is in the list yet (earlier
      appended items included). */
  function AppendAbsent(list: seq<CopyField>, items: seq<CopyField>): seq<CopyField>
    decreases |items|
  {
    if items == [] then
      list
    else
      var r := AppendAbsent(list, items[..|items| - 1]);
      var c := items[|items| - 1];
      if Holds(r, c) then r else r + [c]
  }

  /** The list keeps its elements in front; everything after them comes from
      items, and every item is then held. */
  lemma {:induction false} AppendAbsentExtends(list: seq<CopyField>, items: seq<CopyField>)
    ensures |list| <= |AppendAbsent(list, items)|
    ensures AppendAbsent(list, items)[..|list|] == list
    ensures forall k :: |list| <= k < |AppendAbsent(list, items)| ==> AppendAbsent(list, items)[k] in items
    ensures forall c :: c in items ==> Holds(AppendAbsent(list, items), c)
    decreases |items|
  {
    if items != [] {
      var front := items[..|items| - 1];
      AppendAbsentExtends(list, front);
      var r := AppendAbsent(list, front);
      var c := items[|items| - 1];
      assert items == front + [c];
      if !Holds(r, c) {
        assert CopyEquals(c, c);
        assert (r + [c])[|r|] == c;
        forall x | x in items ensures Holds(r + [c], x) {
          if x in front {
            var i :| 0 <= i < |r| && CopyEquals(r[i], x);
            assert (r + [c])[i] == r[i];
          }
        }
      }
    }
  }

  /** A duplicate-free list stays duplicate-free. */
  lemma {:induction false} AppendAbsentKeepsDistinct(list: seq<CopyField>, items: seq<CopyField>)
    requires Distinct(list)
    ensures Distinct(AppendAbsent(list, items))
    decreases |items|
  {
    if items != [] {
      var front := items[..|items| - 1];
      AppendAbsentKeepsDistinct(list, front);
      var r := AppendAbsent(list, front);
      var c := items[|items| - 1];
      if !Holds(r, c) {
        var r' := r + [c];
        forall i, j | 0 <= i < j < |r'| ensures !CopyEquals(r'[i], r'[j]) {
          if j == |r| {
            assert r'[i] == r[i];
          }
        }
      }
    }
  }

  /** Items all held already change nothing. */
  lemma {:induction false} AppendAbsentHeld(list: seq<CopyField>, items: seq<CopyField>)
    requires forall c :: c in items ==> Holds(list, c)
    ensures AppendAbsent(list, items) == list
    decreases |items|
  {
    if items != [] {
      var front := items[..|items| - 1];
      assert forall c :: c in front ==> c in items;
      AppendAbsentHeld(list, front);
      assert items[|items| - 1] in items;
    }
  }

  /** Appending the same items a second time changes nothing. */
  lemma AppendAbsentIdempotent(list: seq<CopyField>, items: seq<CopyField>)
    ensures AppendAbsent(AppendAbsent(list, items), items) == AppendAbsent(list, items)
  {
    AppendAbsentExtends(list, items);
    AppendAbsentHeld(AppendAbsent(list, items), items);
  }

  /** Appending a + b is appending a, then b. */
  lemma {:induction false} AppendAbsentSplit(list: seq<CopyField>, a: seq<CopyField>, b: seq<CopyField>)
    ensures AppendAbsent(list, a + b) == AppendAbsent(AppendAbsent(list, a), b)
    decreases |b|
  {
    if b == [] {
      assert a + b == a;
    } else {
      var ab := a + b;
      assert ab[..|ab| - 1] == a + b[..|b| - 1];
      assert ab[|ab| - 1] == b[|b| - 1];
      AppendAbsentSplit(list, a, b[..|b| - 1]);
    }
  }

  /** What loadSchema computes for the copy-field list: convert every record
      (the first failure aborts), then append the full-text copy fields that
      are absent. */
  function LoadedCopyFields(existing: seq<CopyField>, mdb: seq<MetadataField>): (r: Result<seq<CopyField>, Error>)
    ensures r.Success? <==> forall i :: 0 <= i < |mdb| ==> BuildStaticFieldFromMDB(mdb[i]).Success?
  {
    var fields :- MapAll(BuildStaticFieldFromMDB, mdb);
    Success(AppendAbsent(existing, FullTextCopies(fields)))
  }

  /** loadSchema as written: the copy-field list is never initialised, so it
      is null (None) unless some other code set it, and addAllAbsent on a null
      list throws once every record has converted. */
  function LoadAsWritten(copyFields: Option<seq<CopyField>>, mdb: seq<MetadataField>)
    : (r: Result<seq<CopyField>, Error>)
    ensures MapAll(BuildStaticFieldFromMDB, mdb).Failure? ==>
      r == Failure(MapAll(BuildStaticFieldFromMDB, mdb).error)
    ensures MapAll(BuildStaticFieldFromMDB, mdb).Success? && copyFields.None? ==> r == Failure(NullDereference)
    ensures copyFields.Some? ==> r == LoadedCopyFields(copyFields.value, mdb)
  {
    var fields :- MapAll(BuildStaticFieldFromMDB, mdb);
    if copyFields.None? then Failure(NullDereference)
    else Success(AppendAbsent(copyFields.value, FullTextCopies(fields)))
  }

  /** With the list left null, loading never succeeds: even an empty catalog
      ends in a null dereference, while from an empty list it succeeds. */
  lemma UninitialisedLoadNeverSucceeds(mdb: seq<MetadataField>)
    ensures LoadAsWritten(None, mdb).Failure?
    ensures LoadAsWritten(None, []) == Failure(NullDereference)
    ensures LoadedCopyFields([], []) == Success([])
  {
    assert MapAll(BuildStaticFieldFromMDB, []) == Success([]);
  }

  /** Loading keeps a duplicate-free copy-field list duplicate-free, keeps what
      was there in front, and afterwards holds one copy field per record. */
  lemma LoadKeepsDistinct(existing: seq<CopyField>, mdb: seq<MetadataField>)
    requires Distinct(existing)
    requires LoadedCopyFields(existing, mdb).Success?
    ensures Distinct(LoadedCopyFields(existing, mdb).value)
    ensures |existing| <= |LoadedCopyFields(existing, mdb).value|
    ensures LoadedCopyFields(existing, mdb).value[..|existing|] == existing
    ensures forall i :: 0 <= i < |mdb| ==>
      Holds(LoadedCopyFields(existing, mdb).value, BuildFullTextCopyField(BuildStaticFieldFromMDB(mdb[i]).value))
  {
    var fields := MapAll(BuildStaticFieldFromMDB, mdb).value;
    var copies := FullTextCopies(fields);
    AppendAbsentKeepsDistinct(existing, copies);
    AppendAbsentExtends(existing, copies);
    forall i | 0 <= i < |mdb|
      ensures Holds(AppendAbsent(existing, copies), BuildFullTextCopyField(BuildStaticFieldFromMDB(mdb[i]).value))
    {
      assert copies[i] in copies;
    }
  }

  /** Loading the same catalog twice leaves the copy fields as the first load left them. */
  lemma LoadTwice(existing: seq<CopyField>, mdb: seq<MetadataField>)
    requires LoadedCopyFields(existing, mdb).Success?
    ensures LoadedCopyFields(LoadedCopyFields(existing, mdb).value, mdb) == LoadedCopyFields(existing, mdb)
  {
    var fields := MapAll(BuildStaticFieldFromMDB, mdb).value;
    AppendAbsentIdempotent(existing, FullTextCopies(fields));
  }

  /** A failing record aborts the load with its error. */
  lemma LoadFailsOnUnsupported(existing: seq<CopyField>, mdb: seq<MetadataField>, i: nat)
    requires i < |mdb| && mdb[i].solrType != TEXT_EN
    ensures LoadedCopyFields(existing, mdb).Failure?
  {
    assert BuildStaticFieldFromMDB(mdb[i]).Failure?;
  }

  /** The singleton bean: the cache maps and the copy-field list. */
  class SchemaCache {
    var staticFields: map<string, SolrField>
    var dynamicFields: map<string, SolrField>
    var copyFields: seq<CopyField>
    const fulltext: SolrField := FullText()

    /** Every collection starts empty. */
    constructor ()
      ensures staticFields == map[] && dynamicFields == map[] && copyFields == []
    {
      staticFields := map[];
      dynamicFields := map[];
      copyFields := [];
    }

    /** copyFields.addAllAbsent(items): each item, in order, is appended when
        no element equal to it is in the list yet. */
    method AddAllAbsent(items: seq<CopyField>)
      modifies this
      ensures staticFields == old(staticFields) && dynamicFields == old(dynamicFields)
      ensures copyFields == AppendAbsent(old(copyFields), items)
    {
      for i := 0 to |items|
        invariant staticFields == old(staticFields) && dynamicFields == old(dynamicFields)
        invariant copyFields == AppendAbsent(old(copyFields), items[..i])
      {
        var c := items[i];
        assert items[..i + 1][..i] == items[..i];
        if !Holds(copyFields, c) {
          copyFields := copyFields + [c];
        }
      }
      assert items[..|items|] == items;
    }

    /** loadSchema over the metadata records given: convert each (a failure
        aborts before anything changes), leave the static-field map as it is
        (the putIfAbsent stream is never consumed), and append the absent
        full-text copy fields one by one. */
    method LoadSchema(mdb: seq<MetadataField>) returns (r: Result<(), Error>)
      modifies this
      ensures staticFields == old(staticFields) && dynamicFields == old(dynamicFields)
      ensures r.Success? <==> LoadedCopyFields(old(copyFields), mdb).Success?
      ensures r.Failure? ==>
        copyFields == old(copyFields) && r.error == MapAll(BuildStaticFieldFromMDB, mdb).error
      ensures r.Success? ==> copyFields == LoadedCopyFields(old(copyFields), mdb).value
    {
      var converted := MapAll(BuildStaticFieldFromMDB, mdb);
      if converted.Failure? {
        return Failure(converted.error);
      }
      AddAllAbsent(FullTextCopies(converted.value));
      r := Success(());
    }
  }
}
