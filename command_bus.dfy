/** `DisruptorCommandBus`: an earlier revision with its own lazily built
    command-handler registry, a synchronous `dispatch`, and a queue consumer
    that skips commands nobody handles. */
module CommandBus {
  import opened Common
  import opened LazyRegistry

  /** The fixed capacity of the bus's ring buffer. */
  const BufferSize: nat := 1024

  /** The bus's own `Command<T>`: `tag` stands for the type argument `T` and
      `payload` for its protected `payload` field. */
  datatype BusCommand = BusCommand(tag: TypeTag, payload: Option<nat>)

  /** The slot the ring's event factory pre-builds: a `Command<Any>` whose
      payload is null. */
  const EmptySlot: BusCommand := BusCommand("Any", None)

  /** A call the bus makes into handler code. */
  datatype Effect = Execute(handler: HandlerId, command: BusCommand)

  /** The handler calls of a synchronous dispatch, from the outcome of the
      lookup that precedes it. */
  function Dispatched(found: Result<Option<HandlerId>>, command: BusCommand): (r: Result<seq<Effect>>)
    // a throw from the lookup propagates unchanged
    ensures found.Throw? ==> r == Throw(found.failure)
    // with no handler the dispatch throws, naming the command's type
    ensures found == Return(None) ==> r == Throw(NoHandler(command.tag))
    // with a handler, it is executed exactly once, on this command
    ensures found.Return? && found.value.Some? ==>
              r.Return? && |r.value| == 1 && r.value[0] == Execute(found.value.value, command)
  {
    match found
    case Throw(f) => Throw(f)
    case Return(None) => Throw(NoHandler(command.tag))
    case Return(Some(h)) => Return([Execute(h, command)])
  }

  /** The handler calls the queue consumer makes for one command. */
  function Consumed(found: Result<Option<HandlerId>>, command: BusCommand): (r: Result<seq<Effect>>)
    // a command with no handler is skipped without a call and without a throw
    ensures found == Return(None) ==> r == Return([])
    // the consumer calls exactly what a synchronous dispatch would, otherwise
    ensures found != Return(None) ==> r == Dispatched(found, command)
  {
    match found
    case Throw(f) => Throw(f)
    case Return(None) => Return([])
    case Return(Some(h)) => Return([Execute(h, command)])
  }

  /** `Command<T>.getCommandClass()` as written: it resolves `T` against
      `CommandHandler`, an interface a command class does not implement, so the
      resolver answers null and `!!` throws. */
  function CommandClassAsWritten(command: BusCommand): Result<TypeTag> {
    Throw(NullPointer)
  }

  /** `dispatch` as written: the command's type is resolved before the lookup. */
  function DispatchedAsWritten(initialized: bool, reg: map<TypeTag, HandlerId>, beans: seq<Bean>, command: BusCommand): Result<seq<Effect>> {
    match CommandClassAsWritten(command)
    case Throw(f) => Throw(f)
    case Return(tag) => Dispatched(Lookup(initialized, reg, beans, tag), command)
  }

  /** The consumer step as written: `getCommandHandler(command)` resolves the
      command's type the same way before the lookup. */
  function ConsumedAsWritten(initialized: bool, reg: map<TypeTag, HandlerId>, beans: seq<Bean>, command: BusCommand): Result<seq<Effect>> {
    match CommandClassAsWritten(command)
    case Throw(f) => Throw(f)
    case Return(tag) => Consumed(Lookup(initialized, reg, beans, tag), command)
  }

  /** As written, every dispatch and every consumed command throws a
      `NullPointerException` before the registry is consulted, so no handler
      ever runs; with the command's own type, a handler registered for it runs
      exactly once. */
  lemma AsWrittenBusNeverExecutes(initialized: bool, reg: map<TypeTag, HandlerId>, beans: seq<Bean>, command: BusCommand)
    ensures DispatchedAsWritten(initialized, reg, beans, command) == Throw(NullPointer)
    ensures ConsumedAsWritten(initialized, reg, beans, command) == Throw(NullPointer)
    ensures initialized && command.tag in reg ==>
              && Dispatched(Lookup(initialized, reg, beans, command.tag), command) == Return([Execute(reg[command.tag], command)])
              && Consumed(Lookup(initialized, reg, beans, command.tag), command) == Return([Execute(reg[command.tag], command)])
  {
  }

  class DisruptorCommandBus {
    /** The command-handler beans the container enumerates, in its order. */
    const beans: seq<Bean>
    var commandHandlerRegistry: map<TypeTag, HandlerId>
    var initialized: bool
    /** The ring's slots, pre-built by the event factory. */
    const ring: array<BusCommand>

    constructor (beans: seq<Bean>)
      ensures this.beans == beans
      ensures commandHandlerRegistry == map[] && !initialized
      ensures fresh(ring) && ring.Length == BufferSize
      ensures forall i :: 0 <= i < ring.Length ==> ring[i] == EmptySlot
    {
      this.beans := beans;
      commandHandlerRegistry := map[];
      initialized := false;
      ring := new BusCommand[BufferSize](_ => EmptySlot);
    }

    /** The queue consumer's step for one command. */
    method OnEvent(command: BusCommand) returns (r: Result<seq<Effect>>)
      modifies this`commandHandlerRegistry, this`initialized
      ensures r == Consumed(Lookup(old(initialized), old(commandHandlerRegistry), beans, command.tag), command)
      ensures old(initialized) ==> unchanged(this)
      // a first call runs the registration pass, whose inserts stay even if it throws
      ensures !old(initialized) ==>
                var pass := RegisterAll(old(commandHandlerRegistry), beans);
                commandHandlerRegistry == pass.registry && initialized == pass.failure.None?
    {
      var found := GetCommandHandler(command.tag);
      match found
      case Throw(f) =>
        r := Throw(f);
      case Return(None) =>
        r := Return([]);
      case Return(Some(h)) =>
        r := Return([Execute(h, command)]);
    }

    /** Executes the command on the caller's thread, bypassing the queue. */
    method Dispatch(command: BusCommand) returns (r: Result<seq<Effect>>)
      modifies this`commandHandlerRegistry, this`initialized
      ensures r == Dispatched(Lookup(old(initialized), old(commandHandlerRegistry), beans, command.tag), command)
      ensures old(initialized) ==> unchanged(this)
      // a first call runs the registration pass, whose inserts stay even if it throws
      ensures !old(initialized) ==>
                var pass := RegisterAll(old(commandHandlerRegistry), beans);
                commandHandlerRegistry == pass.registry && initialized == pass.failure.None?
    {
      var found := GetCommandHandler(command.tag);
      match found
      case Throw(f) =>
        r := Throw(f);
      case Return(None) =>
        r := Throw(NoHandler(command.tag));
      case Return(Some(h)) =>
        r := Return([Execute(h, command)]);
    }

    /** Looks a command type up, initialising the registry first if it has
        not been initialised yet. */
    method GetCommandHandler(tag: TypeTag) returns (r: Result<Option<HandlerId>>)
      modifies this`commandHandlerRegistry, this`initialized
      ensures r == Lookup(old(initialized), old(commandHandlerRegistry), beans, tag)
      ensures old(initialized) ==> unchanged(this)
      ensures !old(initialized) ==>
                var pass := RegisterAll(old(commandHandlerRegistry), beans);
                commandHandlerRegistry == pass.registry && initialized == pass.failure.None?
    {
      if !initialized {
        var failure := InitializeHandlers();
        if failure.Some? {
          return Throw(failure.value);
        }
      }
      r := Return(Get(commandHandlerRegistry, tag));
    }

    /** Runs the registration pass unless the registry is already initialised;
        the flag is set only after the whole pass has succeeded. */
    method InitializeHandlers() returns (failure: Option<Failure>)
      modifies this`commandHandlerRegistry, this`initialized
      ensures old(initialized) ==> unchanged(this) && failure.None?
      ensures !old(initialized) ==>
                Step(commandHandlerRegistry, failure) == RegisterAll(old(commandHandlerRegistry), beans)
                && initialized == failure.None?
    {
      failure := None;
      if !initialized {
        var i := 0;
        while i < |beans|
          invariant 0 <= i <= |beans|
          invariant RegisterAll(old(commandHandlerRegistry), beans) == RegisterAll(commandHandlerRegistry, beans[i..])
          invariant !initialized && failure.None?
        {
          assert beans[i..][0] == beans[i] && beans[i..][1..] == beans[i + 1..];
          failure := RegisterCommandHandler(beans[i]);
          if failure.Some? {
            return;
          }
          i := i + 1;
        }
        initialized := true;
      }
    }

    /** Binds the bean's command type to its handler, throwing if the type is
        already bound. */
    method RegisterCommandHandler(b: Bean) returns (failure: Option<Failure>)
      modifies this`commandHandlerRegistry
      ensures Step(commandHandlerRegistry, failure) == Register(old(commandHandlerRegistry), b)
    {
      if b.tag in commandHandlerRegistry {
        return Some(DuplicateType(b.tag));
      }
      commandHandlerRegistry := commandHandlerRegistry[b.tag := b.handler];
      failure := None;
    }
  }
}
