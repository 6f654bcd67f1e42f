/** Vocabulary shared by every revision of the handler registry and dispatcher.

    The source resolves a handler's bound message type by reflection and finds
    handlers by scanning a Spring application context. Here a handler bean is an
    explicit triple (bean name, type tag, handler identity), and the scan is the
    sequence of such triples that the container would enumerate. */
module Common {

  /** The bound message type of a handler (a `Class` object in the source). */
  type TypeTag = string

  /** The identity of a handler instance; the source compares handlers with `!=`. */
  type HandlerId = nat

  /** The identity of a caller-supplied callback (a `Consumer` in the source). */
  type CallbackId = nat

  /** A handler bean as enumerated by the container. */
  datatype Bean = Bean(name: string, tag: TypeTag, handler: HandlerId)

  /** A message object: its runtime type and an opaque body. */
  datatype Message = Message(tag: TypeTag, body: nat)

  datatype Option<T> = None | Some(value: T)

  /** The `IllegalArgumentException`s that the registries and dispatchers throw,
      told apart by their message. */
  datatype Failure =
    | DuplicateName(name: string)   // "There is already a request handler with the name ..."
    | DuplicateType(tag: TypeTag)   // "... already has a registered handler"
    | NoHandler(tag: TypeTag)       // "No ... handler found / registered for ..."
    | ClassCast                     // a `Class` cast to `ParameterizedType`
    | NullPointer                   // `!!` on a type argument the resolver could not find

  /** A call that either returns a value or throws. */
  datatype Result<T> = Return(value: T) | Throw(failure: Failure)

  /** A Kotlin nullable map read, `m[k]`. */
  function Get<K, V>(m: map<K, V>, k: K): (r: Option<V>)
    ensures r.Some? <==> k in m
    ensures r.Some? ==> r.value == m[k]
  {
    if k in m then Some(m[k]) else None
  }

  /** The tags of a sequence of beans, in enumeration order. */
  function Tags(bs: seq<Bean>): (r: seq<TypeTag>)
    ensures |r| == |bs|
    ensures forall i :: 0 <= i < |bs| ==> r[i] == bs[i].tag
  {
    seq(|bs|, i requires 0 <= i < |bs| => bs[i].tag)
  }

  /** No two beans of the sequence are bound to the same type. */
  predicate DistinctTags(bs: seq<Bean>) {
    forall i, j :: 0 <= i < j < |bs| ==> bs[i].tag != bs[j].tag
  }
}
