/** The search-side field descriptor (search.SolrField): a metadata field's
    searchable name, its derived facet name, its Solr type and two flags. */
module SearchField {
  import opened SolrFieldType

  /** The facet name: "_ss" appended for a multivalued field, "_s" otherwise. */
  function FacetName(name: string, multivalued: bool): (r: string)
    ensures |r| == |name| + (if multivalued then 3 else 2)
    ensures r[..|name|] == name
    ensures r[|name|..] == if multivalued then "_ss" else "_s"
  {
    name + (if multivalued then "_ss" else "_s")
  }

  /** The searchable name is a strict prefix of the facet name. */
  predicate IsStrictPrefix(p: string, s: string) {
    |p| < |s| && s[..|p|] == p
  }

  /** The facet name has the searchable name as a strict prefix, and it
      determines that name once the multivalued flag is fixed. */
  lemma FacetNameInjective(a: string, b: string, multivalued: bool)
    ensures IsStrictPrefix(a, FacetName(a, multivalued))
    ensures FacetName(a, multivalued) == FacetName(b, multivalued) ==> a == b
  {
    var fa, fb := FacetName(a, multivalued), FacetName(b, multivalued);
    if fa == fb {
      assert |a| == |b|;
      assert a == fa[..|a|] == fb[..|b|] == b;
    }
  }

  /** The two suffixes differ, so the same name gives different facet names
      for single- and multivalued fields. */
  lemma FacetNameSeparatesFlags(name: string)
    ensures FacetName(name, true) != FacetName(name, false)
  {
    assert |FacetName(name, true)| != |FacetName(name, false)|;
  }

  class SolrField {
    var nameSearchable: string
    var nameFacetable: string
    var solrFieldType: SolrType
    var allowedToBeMultivalued: bool
    var facetable: bool

    /** The facet name is the searchable name with a suffix. */
    predicate Valid()
      reads this
    {
      IsStrictPrefix(nameSearchable, nameFacetable)
    }

    /** Stores the arguments and derives the facet name from the multivalued flag. */
    constructor (name: string, solrFieldType: SolrType, allowedToBeMultivalued: bool, facetable: bool)
      ensures Valid()
      ensures nameSearchable == name && this.solrFieldType == solrFieldType
      ensures this.allowedToBeMultivalued == allowedToBeMultivalued && this.facetable == facetable
      ensures nameFacetable == FacetName(name, allowedToBeMultivalued)
    {
      nameSearchable := name;
      this.solrFieldType := solrFieldType;
      this.allowedToBeMultivalued := allowedToBeMultivalued;
      this.facetable := facetable;
      if allowedToBeMultivalued {
        nameFacetable := name + "_ss";
      } else {
        nameFacetable := name + "_s";
      }
    }

    function GetNameSearchable(): string
      reads this
    {
      nameSearchable
    }

    function GetNameFacetable(): string
      reads this
    {
      nameFacetable
    }

    function GetSolrType(): SolrType
      reads this
    {
      solrFieldType
    }

    function IsAllowedToBeMultivalued(): bool
      reads this
    {
      allowedToBeMultivalued
    }

    function IsFacetable(): bool
      reads this
    {
      facetable
    }

    /** Changes the multivalued flag only; the facet name keeps the suffix
        chosen at construction. */
    method SetAllowedToBeMultivalued(allowedToBeMultivalued: bool)
      requires Valid()
      modifies this
      ensures Valid()
      ensures this.allowedToBeMultivalued == allowedToBeMultivalued
      ensures nameSearchable == old(nameSearchable) && nameFacetable == old(nameFacetable)
      ensures solrFieldType == old(solrFieldType) && facetable == old(facetable)
    {
      this.allowedToBeMultivalued := allowedToBeMultivalued;
    }
  }
}
