/** `CommandRegistryImpl`: a command-type to command-handler map that is built
    lazily, once, on the first lookup; and `CommandWrapper`, the mutable slot
    that carries a command and its completion callback. */
module CommandRegistry {
  import opened Common
  import opened LazyRegistry

  class CommandRegistryImpl {
    /** The command-handler beans the container enumerates, in its order. */
    const beans: seq<Bean>
    var commandRegistry: map<TypeTag, HandlerId>
    var initialized: bool

    constructor (beans: seq<Bean>)
      ensures this.beans == beans
      ensures commandRegistry == map[] && !initialized
    {
      this.beans := beans;
      commandRegistry := map[];
      initialized := false;
    }

    /** Looks a command type up, initialising the registry first if it has
        not been initialised yet. */
    method GetCommandHandler(tag: TypeTag) returns (r: Result<Option<HandlerId>>)
      modifies this
      ensures r == Lookup(old(initialized), old(commandRegistry), beans, tag)
      // once initialised, a lookup is a plain map read and changes nothing
      ensures old(initialized) ==> unchanged(this) && r == Return(Get(commandRegistry, tag))
      // before that, the lookup first runs the registration pass
      ensures !old(initialized) ==>
                var pass := RegisterAll(old(commandRegistry), beans);
                && commandRegistry == pass.registry
                && initialized == pass.failure.None?
                && r == if pass.failure.Some? then Throw(pass.failure.value) else Return(Get(commandRegistry, tag))
      // entries are only ever added
      ensures forall t :: t in old(commandRegistry) ==> t in commandRegistry && commandRegistry[t] == old(commandRegistry)[t]
    {
      if !initialized {
        var failure := InitializeHandlers();
        if failure.Some? {
          return Throw(failure.value);
        }
      }
      r := Return(Get(commandRegistry, tag));
    }

    /** Runs the registration pass unless the registry is already initialised;
        the flag is set only after the whole pass has succeeded. */
    method InitializeHandlers() returns (failure: Option<Failure>)
      modifies this
      ensures old(initialized) ==> unchanged(this) && failure.None?
      ensures !old(initialized) ==>
                Step(commandRegistry, failure) == RegisterAll(old(commandRegistry), beans)
                && initialized == failure.None?
    {
      failure := None;
      if !initialized {
        var i := 0;
        while i < |beans|
          invariant 0 <= i <= |beans|
          invariant RegisterAll(old(commandRegistry), beans) == RegisterAll(commandRegistry, beans[i..])
          invariant !initialized && failure.None?
        {
          assert beans[i..][0] == beans[i] && beans[i..][1..] == beans[i + 1..];
          failure := RegisterCommandHandler(beans[i]);
          if failure.Some? {
            return;
          }
          i := i + 1;
        }
        initialized := true;
      }
    }

    /** Binds the bean's command type to its handler, throwing if the type is
        already bound. */
    method RegisterCommandHandler(b: Bean) returns (failure: Option<Failure>)
      modifies this`commandRegistry
      ensures Step(commandRegistry, failure) == Register(old(commandRegistry), b)
    {
      if b.tag in commandRegistry {
        return Some(DuplicateType(b.tag));
      }
      commandRegistry := commandRegistry[b.tag := b.handler];
      failure := None;
    }
  }

  /** The reusable slot: a command (absent in an empty slot) and the callback to
      run once the command has been executed. */
  class CommandWrapper {
    var payload: Option<Message>
    var callback: Option<CallbackId>

    constructor (payload: Option<Message>, callback: Option<CallbackId>)
      ensures this.payload == payload && this.callback == callback
    {
      this.payload := payload;
      this.callback := callback;
    }
  }
}
