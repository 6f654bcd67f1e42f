/** `MonoDisruptorMediatorImpl`: commands go through a ring of reusable
    `CommandWrapper` slots. A producer claims the next slot and the translator
    fills it in place; the consumer reads a slot, looks its command's handler up,
    executes it and then runs the slot's callback. `dispatchBlocking` executes on
    the caller's thread and leaves the ring alone. The ring's claiming, blocking
    and consumer thread are abstracted to a cursor and a step method. */
module Mediator {
  import opened Common
  import opened LazyRegistry
  import opened CommandRegistry

  /** The fixed capacity of the ring buffer. */
  const BufferSize: nat := 1024

  /** A call the mediator makes into handler or caller code. */
  datatype Effect =
    | Execute(handler: HandlerId, wrapper: CommandWrapper)
    | Accept(callback: CallbackId, command: Message)

  /** The calls the consumer makes for a slot that holds `command` and
      `callback`, once the handler lookup has answered `found`. */
  function StepEffects(wrapper: CommandWrapper, command: Message, callback: Option<CallbackId>,
                       found: Option<HandlerId>): (r: seq<Effect>)
    // a command without a handler is skipped: no execution, no callback
    ensures found.None? ==> r == []
    // otherwise the handler runs first, exactly once, on the slot itself ...
    ensures found.Some? ==> |r| >= 1 && r[0] == Execute(found.value, wrapper)
    ensures forall i :: 0 <= i < |r| && r[i].Execute? ==> i == 0
    // ... and then the callback, if there is one, receives the command
    ensures found.Some? ==> |r| == if callback.Some? then 2 else 1
    ensures found.Some? && callback.Some? ==> r[1] == Accept(callback.value, command)
  {
    match found
    case None => []
    case Some(h) =>
      [Execute(h, wrapper)] + match callback { case None => [] case Some(c) => [Accept(c, command)] }
  }

  /** The translator: fills the claimed slot in place with the command and
      its callback. */
  method Translate(wrapper: CommandWrapper?, input: Message, callback: Option<CallbackId>)
    modifies wrapper
    ensures wrapper != null ==> wrapper.payload == Some(input) && wrapper.callback == callback
  {
    if wrapper == null {
      return;
    }
    wrapper.payload := Some(input);
    wrapper.callback := callback;
  }

  class MonoDisruptorMediatorImpl {
    const commandRegistry: CommandRegistryImpl
    /** The ring's pre-allocated slots. */
    const ring: seq<CommandWrapper>
    /** The sequence number the next producer claims. */
    var cursor: nat

    /** The ring has its fixed capacity and no slot appears twice. */
    ghost predicate Valid()
      reads this
    {
      && |ring| == BufferSize
      && forall i, j :: 0 <= i < j < |ring| ==> ring[i] != ring[j]
    }

    /** Builds the mediator with every slot empty, as the event factory does. */
    constructor (commandRegistry: CommandRegistryImpl)
      ensures Valid() && this.commandRegistry == commandRegistry && cursor == 0
      ensures forall i :: 0 <= i < |ring| ==> fresh(ring[i]) && ring[i].payload.None? && ring[i].callback.None?
    {
      var slots: seq<CommandWrapper> := [];
      while |slots| < BufferSize
        invariant |slots| <= BufferSize
        invariant forall i :: 0 <= i < |slots| ==> fresh(slots[i]) && slots[i].payload.None? && slots[i].callback.None?
        invariant forall i, j :: 0 <= i < j < |slots| ==> slots[i] != slots[j]
      {
        var w := new CommandWrapper(None, None);
        slots := slots + [w];
      }
      this.commandRegistry := commandRegistry;
      ring := slots;
      cursor := 0;
    }

    /** The consumer's step for one slot. It reads the slot and never resets it. */
    method OnEvent(wrapper: CommandWrapper) returns (r: Result<seq<Effect>>)
      modifies commandRegistry
      ensures unchanged(wrapper)
      // an empty slot is skipped before any lookup
      ensures wrapper.payload.None? ==> r == Return([]) && unchanged(commandRegistry)
      // otherwise the lookup's throw propagates, or the step makes the calls above
      ensures wrapper.payload.Some? ==>
                match Lookup(old(commandRegistry.initialized), old(commandRegistry.commandRegistry),
                             commandRegistry.beans, wrapper.payload.value.tag)
                case Throw(f) => r == Throw(f)
                case Return(found) => r == Return(StepEffects(wrapper, wrapper.payload.value, wrapper.callback, found))
      // a first lookup runs the registration pass, whose inserts stay even if it throws
      ensures wrapper.payload.Some? && old(commandRegistry.initialized) ==> unchanged(commandRegistry)
      ensures wrapper.payload.Some? && !old(commandRegistry.initialized) ==>
                var pass := RegisterAll(old(commandRegistry.commandRegistry), commandRegistry.beans);
                commandRegistry.commandRegistry == pass.registry && commandRegistry.initialized == pass.failure.None?
    {
      if wrapper.payload.None? {
        return Return([]);
      }
      var command := wrapper.payload.value;
      var found := commandRegistry.GetCommandHandler(command.tag);
      match found
      case Throw(f) =>
        r := Throw(f);
      case Return(None) =>
        assert StepEffects(wrapper, command, wrapper.callback, None) == [];
        r := Return([]);
      case Return(Some(h)) =>
        var effects := [Execute(h, wrapper)];
        if wrapper.callback.Some? {
          effects := effects + [Accept(wrapper.callback.value, command)];
        }
        assert effects == StepEffects(wrapper, command, wrapper.callback, Some(h));
        r := Return(effects);
    }

    /** Executes the command on the caller's thread, in a fresh slot with no
        callback, without touching the ring. */
    method DispatchBlocking(command: Message) returns (r: Result<seq<Effect>>)
      modifies commandRegistry
      ensures match Lookup(old(commandRegistry.initialized), old(commandRegistry.commandRegistry),
                           commandRegistry.beans, command.tag)
              case Throw(f) => r == Throw(f)
              case Return(None) => r == Throw(NoHandler(command.tag))
              case Return(Some(h)) =>
                && r.Return? && |r.value| == 1 && r.value[0].Execute? && r.value[0].handler == h
                && fresh(r.value[0].wrapper)
                && r.value[0].wrapper.payload == Some(command) && r.value[0].wrapper.callback.None?
      ensures old(commandRegistry.initialized) ==> unchanged(commandRegistry)
      ensures !old(commandRegistry.initialized) ==>
                var pass := RegisterAll(old(commandRegistry.commandRegistry), commandRegistry.beans);
                commandRegistry.commandRegistry == pass.registry && commandRegistry.initialized == pass.failure.None?
      ensures forall i :: 0 <= i < |ring| ==> unchanged(ring[i])
      ensures cursor == old(cursor)
    {
      var found := commandRegistry.GetCommandHandler(command.tag);
      match found
      case Throw(f) =>
        r := Throw(f);
      case Return(None) =>
        r := Throw(NoHandler(command.tag));
      case Return(Some(h)) =>
        var w := new CommandWrapper(Some(command), None);
        r := Return([Execute(h, w)]);
    }

    /** Claims the next slot and has the translator fill it with the command
        and the callback; returns the claimed sequence number. */
    method DispatchAsyncWithCallback(command: Message, callback: Option<CallbackId>) returns (sequence: nat)
      requires Valid()
      modifies this, ring[cursor % BufferSize]
      ensures Valid() && sequence == old(cursor) && cursor == old(cursor) + 1
      ensures ring[sequence % BufferSize].payload == Some(command)
      ensures ring[sequence % BufferSize].callback == callback
      ensures forall i :: 0 <= i < |ring| && i != sequence % BufferSize ==> unchanged(ring[i])
    {
      sequence := cursor;
      Translate(ring[cursor % BufferSize], command, callback);
      cursor := cursor + 1;
    }

    /** Dispatches the command with no callback. */
    method DispatchAsync(command: Message) returns (sequence: nat)
      requires Valid()
      modifies this, ring[cursor % BufferSize]
      ensures Valid() && sequence == old(cursor) && cursor == old(cursor) + 1
      ensures ring[sequence % BufferSize].payload == Some(command)
      ensures ring[sequence % BufferSize].callback.None?
      ensures forall i :: 0 <= i < |ring| && i != sequence % BufferSize ==> unchanged(ring[i])
    {
      sequence := DispatchAsyncWithCallback(command, None);
    }
  }
}
