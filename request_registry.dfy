/** `RequestRegistryImpl`: a request-type to request-handler map that is built
    lazily, once, on the first lookup. Each request type has a single handler. */
module RequestRegistry {
  import opened Common
  import opened LazyRegistry

  class RequestRegistryImpl {
    /** The request-handler beans the container enumerates, in its order. */
    const beans: seq<Bean>
    var requestRegistry: map<TypeTag, HandlerId>
    var initialized: bool

    constructor (beans: seq<Bean>)
      ensures this.beans == beans
      ensures requestRegistry == map[] && !initialized
    {
      this.beans := beans;
      requestRegistry := map[];
      initialized := false;
    }

    /** Looks a request type up, initialising the registry first if it has
        not been initialised yet. */
    method GetRequestHandler(tag: TypeTag) returns (r: Result<Option<HandlerId>>)
      modifies this
      ensures r == Lookup(old(initialized), old(requestRegistry), beans, tag)
      // once initialised, a lookup is a plain map read and changes nothing
      ensures old(initialized) ==> unchanged(this) && r == Return(Get(requestRegistry, tag))
      // before that, the lookup first runs the registration pass
      ensures !old(initialized) ==>
                var pass := RegisterAll(old(requestRegistry), beans);
                && requestRegistry == pass.registry
                && initialized == pass.failure.None?
                && r == if pass.failure.Some? then Throw(pass.failure.value) else Return(Get(requestRegistry, tag))
      // entries are only ever added
      ensures forall t :: t in old(requestRegistry) ==> t in requestRegistry && requestRegistry[t] == old(requestRegistry)[t]
    {
      if !initialized {
        var failure := InitializeHandlers();
        if failure.Some? {
          return Throw(failure.value);
        }
      }
      r := Return(Get(requestRegistry, tag));
    }

    /** Runs the registration pass unless the registry is already initialised;
        the flag is set only after the whole pass has succeeded. */
    method InitializeHandlers() returns (failure: Option<Failure>)
      modifies this
      ensures old(initialized) ==> unchanged(this) && failure.None?
      ensures !old(initialized) ==>
                Step(requestRegistry, failure) == RegisterAll(old(requestRegistry), beans)
                && initialized == failure.None?
    {
      failure := None;
      if !initialized {
        var i := 0;
        while i < |beans|
          invariant 0 <= i <= |beans|
          invariant RegisterAll(old(requestRegistry), beans) == RegisterAll(requestRegistry, beans[i..])
          invariant !initialized && failure.None?
        {
          assert beans[i..][0] == beans[i] && beans[i..][1..] == beans[i + 1..];
          failure := RegisterRequestHandler(beans[i]);
          if failure.Some? {
            return;
          }
          i := i + 1;
        }
        initialized := true;
      }
    }

    /** Binds the bean's request type to its handler, throwing if the type is
        already bound. */
    method RegisterRequestHandler(b: Bean) returns (failure: Option<Failure>)
      modifies this`requestRegistry
      ensures Step(requestRegistry, failure) == Register(old(requestRegistry), b)
    {
      if b.tag in requestRegistry {
        return Some(DuplicateType(b.tag));
      }
      requestRegistry := requestRegistry[b.tag := b.handler];
      failure := None;
    }
  }
}
