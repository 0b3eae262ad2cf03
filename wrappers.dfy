/** Option and Result, the failure-compatible wrappers the schema model uses for
    Java's nulls and exceptions. */
module Wrappers {

  datatype Option<+T> = None | Some(value: T) {
    predicate IsFailure() { None? }

    function PropagateFailure<U>(): Option<U>
      requires None?
    {
      None
    }

    function Extract(): T
      requires Some?
    {
      value
    }

    function GetOr(default: T): T {
      match this
      case Some(v) => v
      case None => default
    }
  }

  datatype Result<+T, +E> = Success(value: T) | Failure(error: E) {
    predicate IsFailure() { Failure? }

    function PropagateFailure<U>(): Result<U, E>
      requires Failure?
    {
      Failure(error)
    }

    function Extract(): T
      requires Success?
    {
      value
    }
  }

  /** A Java stream map(f).collect(toList()) whose f may throw: the results in
      order, or the first failure. */
  function MapAll<A, B, E>(f: A -> Result<B, E>, xs: seq<A>): (r: Result<seq<B>, E>)
    ensures r.Success? <==> forall i :: 0 <= i < |xs| ==> f(xs[i]).Success?
    ensures r.Success? ==> |r.value| == |xs| && forall i :: 0 <= i < |xs| ==> f(xs[i]) == Success(r.value[i])
    ensures r.Failure? ==>
      exists i :: 0 <= i < |xs| && f(xs[i]) == Failure(r.error) && (forall j :: 0 <= j < i ==> f(xs[j]).Success?)
  {
    if xs == [] then
      Success([])
    else
      var y :- f(xs[0]);
      var ys :- MapAll(f, xs[1..]);
      Success([y] + ys)
  }

  /** Looking a key up in a map, as Java's Map.get does (null becomes None). */
  function Get<K, V>(m: map<K, V>, k: K): (r: Option<V>)
    ensures r.Some? <==> k in m
    ensures r.Some? ==> r.value == m[k]
  {
    if k in m then Some(m[k]) else None
  }
}

/** The exceptions of the schema model, one per distinct throw site kind. */
module SchemaErrors {
  import opened Wrappers

  datatype Error =
    | InvalidName(name: Option<string>)        // name does not follow the kind's naming convention
    | ReservedPropertyOverride                 // overlay tries to set NAME or TYPE
    | UnknownWireProperty                      // raw key without a SolrFieldProperty
    | UnknownFieldType(typeName: Option<string>) // raw type name not among SolrFieldType.ALL
    | NullCopyFieldEndpoint                    // copy-field source or dest is null
    | TypeCopyFieldEndpoint                    // copy-field source or dest is a SolrFieldType
    | InvalidCharLimit                         // maxChars null or below 1
    | NotSupported(solrType: string)           // metadata field of a Solr type not handled yet
    | NoSuchElement                            // Optional.get() on an empty Optional
    | NullDereference                          // a method called on a null reference
}
