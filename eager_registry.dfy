/** `RegistryImpl` of `Registry.kt`: the registry that is built eagerly when it
    is constructed and re-scans the container on every lookup miss. Commands and
    queries have one handler per type; events have a list of handlers per type in
    registration order. A bean name may be bound to one handler only. */
module EagerRegistry {
  import opened Common

  /** What the container enumerates for each handler interface, in its order. */
  datatype Beans = Beans(commands: seq<Bean>, queries: seq<Bean>, events: seq<Bean>)

  /** The registry's four maps. */
  datatype State = State(
    byName: map<string, HandlerId>,
    commands: map<TypeTag, HandlerId>,
    queries: map<TypeTag, HandlerId>,
    events: map<TypeTag, seq<HandlerId>>)

  const EmptyState := State(map[], map[], map[], map[])

  /** The maps after a call, and what the call threw (if anything). */
  datatype Run = Run(state: State, failure: Option<Failure>)

  /** The maps after a lookup, and what the lookup returned or threw. */
  datatype Answer<T> = Answer(result: Result<T>, state: State)

  datatype Kind = CommandKind | QueryKind | EventKind

  /** The bean's name is already bound, to a different handler. */
  predicate NameTaken(s: State, b: Bean) {
    b.name in s.byName && s.byName[b.name] != b.handler
  }

  /** The handler list of an event type; an absent type has none. */
  function EventList(events: map<TypeTag, seq<HandlerId>>, t: TypeTag): seq<HandlerId> {
    if t in events then events[t] else []
  }

  /** The handlers of the beans bound to type `t`, in enumeration order. */
  function HandlersFor(bs: seq<Bean>, t: TypeTag): seq<HandlerId> {
    if bs == [] then []
    else (if bs[0].tag == t then [bs[0].handler] else []) + HandlersFor(bs[1..], t)
  }

  /** `s'` keeps everything `s` holds: every name and every command and query
      type keeps its handler, and every event list is only extended. */
  predicate Extends(s: State, s': State) {
    && (forall n :: n in s.byName ==> n in s'.byName && s'.byName[n] == s.byName[n])
    && (forall t :: t in s.commands ==> t in s'.commands && s'.commands[t] == s.commands[t])
    && (forall t :: t in s.queries ==> t in s'.queries && s'.queries[t] == s.queries[t])
    && (forall t :: t in s.events ==> t in s'.events && s.events[t] <= s'.events[t])
  }

  /** Registers a command handler bean. */
  function RegisterCommand(s: State, b: Bean): (r: Run)
    // a name bound to a different handler is rejected first, a bound type next,
    // and in both cases before any map is written
    ensures NameTaken(s, b) ==> r == Run(s, Some(DuplicateName(b.name)))
    ensures !NameTaken(s, b) && b.tag in s.commands ==> r == Run(s, Some(DuplicateType(b.tag)))
    ensures r.failure.None? <==> !NameTaken(s, b) && b.tag !in s.commands
    // a success adds exactly one type entry and one name entry, and nothing else
    ensures r.failure.None? ==>
              r.state == s.(commands := s.commands[b.tag := b.handler], byName := s.byName[b.name := b.handler])
              && |r.state.commands| == |s.commands| + 1
    ensures Extends(s, r.state)
  {
    if NameTaken(s, b) then Run(s, Some(DuplicateName(b.name)))
    else if b.tag in s.commands then Run(s, Some(DuplicateType(b.tag)))
    else Run(State(s.byName[b.name := b.handler], s.commands[b.tag := b.handler], s.queries, s.events), None)
  }

  /** Registers a query handler bean. */
  function RegisterQuery(s: State, b: Bean): (r: Run)
    ensures NameTaken(s, b) ==> r == Run(s, Some(DuplicateName(b.name)))
    ensures !NameTaken(s, b) && b.tag in s.queries ==> r == Run(s, Some(DuplicateType(b.tag)))
    ensures r.failure.None? <==> !NameTaken(s, b) && b.tag !in s.queries
    ensures r.failure.None? ==>
              r.state == s.(queries := s.queries[b.tag := b.handler], byName := s.byName[b.name := b.handler])
              && |r.state.queries| == |s.queries| + 1
    ensures Extends(s, r.state)
  {
    if NameTaken(s, b) then Run(s, Some(DuplicateName(b.name)))
    else if b.tag in s.queries then Run(s, Some(DuplicateType(b.tag)))
    else Run(State(s.byName[b.name := b.handler], s.commands, s.queries[b.tag := b.handler], s.events), None)
  }

  /** Registers an event handler bean: no uniqueness check on the type, and the
      name is checked but not recorded. */
  function RegisterEvent(s: State, b: Bean): (r: Run)
    ensures r.failure.Some? <==> NameTaken(s, b)
    ensures r.failure.Some? ==> r == Run(s, Some(DuplicateName(b.name)))
    // a success appends the handler at the end of its type's list, creating
    // the list if needed, and changes nothing else
    ensures r.failure.None? ==>
              && r.state.byName == s.byName && r.state.commands == s.commands && r.state.queries == s.queries
              && r.state.events.Keys == s.events.Keys + {b.tag}
              && EventList(r.state.events, b.tag) == EventList(s.events, b.tag) + [b.handler]
              && forall t :: t != b.tag ==> EventList(r.state.events, t) == EventList(s.events, t)
    ensures Extends(s, r.state)
  {
    if NameTaken(s, b) then Run(s, Some(DuplicateName(b.name)))
    else
      var list := if b.tag in s.events then s.events[b.tag] else [];
      Run(s.(events := s.events[b.tag := list + [b.handler]]), None)
  }

  function Register(kind: Kind, s: State, b: Bean): Run {
    match kind
    case CommandKind => RegisterCommand(s, b)
    case QueryKind => RegisterQuery(s, b)
    case EventKind => RegisterEvent(s, b)
  }

  /** One loop of the scan: registers the beans of one kind in order, stopping
      at the first throw and keeping what was written before it. */
  function ScanKind(s: State, kind: Kind, bs: seq<Bean>): (r: Run)
    ensures Extends(s, r.state)
    decreases |bs|
  {
    if bs == [] then Run(s, None)
    else
      var step := Register(kind, s, bs[0]);
      if step.failure.Some? then step
      else
        var rest := ScanKind(step.state, kind, bs[1..]);
        ExtendsTransitive(s, step.state, rest.state);
        rest
  }

  /** A full scan: the command handlers, then the query handlers, then the event
      handlers. */
  function Scan(s: State, beans: Beans): (r: Run)
    ensures Extends(s, r.state)
  {
    var c := ScanKind(s, CommandKind, beans.commands);
    if c.failure.Some? then c
    else
      var q := ScanKind(c.state, QueryKind, beans.queries);
      ExtendsTransitive(s, c.state, q.state);
      if q.failure.Some? then q
      else
        var e := ScanKind(q.state, EventKind, beans.events);
        ExtendsTransitive(s, q.state, e.state);
        e
  }

  /** `getCommandHandler`: a hit is returned as is; a miss re-scans the
      container and returns what the second read finds. */
  function LookupCommand(s: State, beans: Beans, tag: TypeTag): (r: Answer<Option<HandlerId>>)
    ensures tag in s.commands ==> r == Answer(Return(Some(s.commands[tag])), s)
    ensures tag !in s.commands ==> r.state == Scan(s, beans).state
    ensures tag !in s.commands && Scan(s, beans).failure.Some? ==>
              r.result == Throw(Scan(s, beans).failure.value)
    // after a successful re-scan, the answer is a second read of the command map
    ensures tag !in s.commands && Scan(s, beans).failure.None? ==>
              r.result == Return(Get(Scan(s, beans).state.commands, tag))
    ensures r.result == Return(None) ==> tag !in r.state.commands
  {
    if tag in s.commands then Answer(Return(Some(s.commands[tag])), s)
    else
      var scan := Scan(s, beans);
      if scan.failure.Some? then Answer(Throw(scan.failure.value), scan.state)
      else Answer(Return(Get(scan.state.commands, tag)), scan.state)
  }

  /** `getQueryHandler`, the same for queries. */
  function LookupQuery(s: State, beans: Beans, tag: TypeTag): (r: Answer<Option<HandlerId>>)
    ensures tag in s.queries ==> r == Answer(Return(Some(s.queries[tag])), s)
    ensures tag !in s.queries ==> r.state == Scan(s, beans).state
    ensures tag !in s.queries && Scan(s, beans).failure.Some? ==>
              r.result == Throw(Scan(s, beans).failure.value)
    ensures tag !in s.queries && Scan(s, beans).failure.None? ==>
              r.result == Return(Get(Scan(s, beans).state.queries, tag))
    ensures r.result == Return(None) ==> tag !in r.state.queries
  {
    if tag in s.queries then Answer(Return(Some(s.queries[tag])), s)
    else
      var scan := Scan(s, beans);
      if scan.failure.Some? then Answer(Throw(scan.failure.value), scan.state)
      else Answer(Return(Get(scan.state.queries, tag)), scan.state)
  }

  /** `getEventHandlers`: like the other lookups, except that a type that is
      still absent after the re-scan yields an empty list, never null. */
  function LookupEvents(s: State, beans: Beans, tag: TypeTag): (r: Answer<seq<HandlerId>>)
    ensures tag in s.events ==> r == Answer(Return(s.events[tag]), s)
    ensures tag !in s.events ==> r.state == Scan(s, beans).state
    ensures tag !in s.events && Scan(s, beans).failure.Some? ==>
              r.result == Throw(Scan(s, beans).failure.value)
    // after a successful re-scan, the answer is the type's list, or an empty one
    ensures tag !in s.events && Scan(s, beans).failure.None? ==>
              r.result == Return(EventList(Scan(s, beans).state.events, tag))
    ensures r.result.Return? ==> r.result.value == EventList(r.state.events, tag)
  {
    if tag in s.events then Answer(Return(s.events[tag]), s)
    else
      var scan := Scan(s, beans);
      if scan.failure.Some? then Answer(Throw(scan.failure.value), scan.state)
      else Answer(Return(EventList(scan.state.events, tag)), scan.state)
  }

  /** The type map a command or query bean is registered in. */
  function TypeMap(s: State, kind: Kind): map<TypeTag, HandlerId> {
    if kind == CommandKind then s.commands else s.queries
  }

  /** An event loop throws only for a bean whose name is bound to another
      handler, and then with a duplicate-name error. */
  lemma {:induction false} EventScanSucceedsIff(s: State, bs: seq<Bean>)
    ensures ScanKind(s, EventKind, bs).failure.None? <==> forall i :: 0 <= i < |bs| ==> !NameTaken(s, bs[i])
    ensures ScanKind(s, EventKind, bs).failure.Some? ==> ScanKind(s, EventKind, bs).failure.value.DuplicateName?
    decreases |bs|
  {
    if bs != [] {
      var step := RegisterEvent(s, bs[0]);
      if step.failure.None? {
        assert ScanKind(s, EventKind, bs) == ScanKind(step.state, EventKind, bs[1..]);
        EventScanSucceedsIff(step.state, bs[1..]);
        assert step.state.byName == s.byName;
        assert (forall i :: 0 <= i < |bs[1..]| ==> !NameTaken(step.state, bs[1..][i])) <==>
               forall i :: 1 <= i < |bs| ==> !NameTaken(s, bs[i]) by {
          assert forall i :: 1 <= i < |bs| ==> bs[i] == bs[1..][i - 1];
        }
      }
    }
  }

  /** A successful event loop leaves the name, command and query maps alone. */
  lemma {:induction false} EventScanKeepsMaps(s: State, bs: seq<Bean>)
    requires ScanKind(s, EventKind, bs).failure.None?
    ensures var r := ScanKind(s, EventKind, bs);
            r.state.byName == s.byName && r.state.commands == s.commands && r.state.queries == s.queries
    decreases |bs|
  {
    if bs != [] {
      var step := RegisterEvent(s, bs[0]);
      assert ScanKind(s, EventKind, bs) == ScanKind(step.state, EventKind, bs[1..]);
      EventScanKeepsMaps(step.state, bs[1..]);
    }
  }

  /** A successful event loop appends the handlers of the beans bound to type
      `t`, in enumeration order, to `t`'s list. */
  lemma {:induction false} EventScanAppends(s: State, bs: seq<Bean>, t: TypeTag)
    requires ScanKind(s, EventKind, bs).failure.None?
    ensures EventList(ScanKind(s, EventKind, bs).state.events, t) == EventList(s.events, t) + HandlersFor(bs, t)
    decreases |bs|
  {
    if bs != [] {
      var step := RegisterEvent(s, bs[0]);
      var r := ScanKind(step.state, EventKind, bs[1..]);
      assert ScanKind(s, EventKind, bs) == r;
      EventScanAppends(step.state, bs[1..], t);
      var head := if bs[0].tag == t then [bs[0].handler] else [];
      assert HandlersFor(bs, t) == head + HandlersFor(bs[1..], t);
      assert EventList(step.state.events, t) == EventList(s.events, t) + head;
    }
  }

  /** After a successful command or query loop, every bean's type is bound to
      its handler, and so is its name. */
  lemma {:induction false} TypedScanBinds(s: State, kind: Kind, bs: seq<Bean>)
    requires kind != EventKind && ScanKind(s, kind, bs).failure.None?
    ensures forall i :: 0 <= i < |bs| ==>
              && bs[i].tag in TypeMap(ScanKind(s, kind, bs).state, kind)
              && TypeMap(ScanKind(s, kind, bs).state, kind)[bs[i].tag] == bs[i].handler
              && bs[i].name in ScanKind(s, kind, bs).state.byName
              && ScanKind(s, kind, bs).state.byName[bs[i].name] == bs[i].handler
    decreases |bs|
  {
    if bs != [] {
      var step := Register(kind, s, bs[0]);
      var r := ScanKind(step.state, kind, bs[1..]);
      assert ScanKind(s, kind, bs) == r;
      TypedScanBinds(step.state, kind, bs[1..]);
      forall i | 0 <= i < |bs|
        ensures && bs[i].tag in TypeMap(r.state, kind) && TypeMap(r.state, kind)[bs[i].tag] == bs[i].handler
                && bs[i].name in r.state.byName && r.state.byName[bs[i].name] == bs[i].handler
      {
        if i > 0 { assert bs[i] == bs[1..][i - 1]; }
      }
    }
  }

  /** The three loops of a successful scan, each from where the one before
      stopped. */
  lemma ScanStages(s: State, beans: Beans)
    requires Scan(s, beans).failure.None?
    ensures var c := ScanKind(s, CommandKind, beans.commands);
            var q := ScanKind(c.state, QueryKind, beans.queries);
            var e := ScanKind(q.state, EventKind, beans.events);
            && c.failure.None? && q.failure.None? && e == Scan(s, beans)
            && Extends(c.state, e.state)
  {
    var c := ScanKind(s, CommandKind, beans.commands);
    var q := ScanKind(c.state, QueryKind, beans.queries);
    var e := ScanKind(q.state, EventKind, beans.events);
    ExtendsTransitive(c.state, q.state, e.state);
  }

  /** A registry built from the container finds every command handler bean
      under its type, without a re-scan. */
  lemma BuiltRegistryFindsCommands(beans: Beans, i: nat)
    requires Scan(EmptyState, beans).failure.None? && i < |beans.commands|
    ensures var s := Scan(EmptyState, beans).state;
            LookupCommand(s, beans, beans.commands[i].tag) == Answer(Return(Some(beans.commands[i].handler)), s)
  {
    ScanStages(EmptyState, beans);
    TypedScanBinds(EmptyState, CommandKind, beans.commands);
  }

  /** The same for every query handler bean. */
  lemma BuiltRegistryFindsQueries(beans: Beans, i: nat)
    requires Scan(EmptyState, beans).failure.None? && i < |beans.queries|
    ensures var s := Scan(EmptyState, beans).state;
            LookupQuery(s, beans, beans.queries[i].tag) == Answer(Return(Some(beans.queries[i].handler)), s)
  {
    ScanStages(EmptyState, beans);
    var c := ScanKind(EmptyState, CommandKind, beans.commands);
    var q := ScanKind(c.state, QueryKind, beans.queries);
    var e := ScanKind(q.state, EventKind, beans.events);
    TypedScanBinds(c.state, QueryKind, beans.queries);
    EventScanKeepsMaps(q.state, beans.events);
  }

  /** A registry built from the container lists, for every event type, the
      handlers of the event handler beans bound to it, in enumeration order. */
  lemma BuiltRegistryListsEvents(beans: Beans, t: TypeTag)
    requires Scan(EmptyState, beans).failure.None?
    ensures EventList(Scan(EmptyState, beans).state.events, t) == HandlersFor(beans.events, t)
  {
    ScanStages(EmptyState, beans);
    var c := ScanKind(EmptyState, CommandKind, beans.commands);
    var q := ScanKind(c.state, QueryKind, beans.queries);
    EventsUntouched(EmptyState, CommandKind, beans.commands);
    EventsUntouched(c.state, QueryKind, beans.queries);
    EventScanAppends(q.state, beans.events, t);
  }

  /** Command and query loops do not touch the event lists. */
  lemma {:induction false} EventsUntouched(s: State, kind: Kind, bs: seq<Bean>)
    requires kind != EventKind
    ensures ScanKind(s, kind, bs).state.events == s.events
    decreases |bs|
  {
    if bs != [] {
      EventsUntouched(Register(kind, s, bs[0]).state, kind, bs[1..]);
    }
  }

  /** Re-scanning the same container after a successful scan throws at the
      first command handler bean, whose type is already bound, and writes
      nothing. */
  lemma RescanThrowsAtFirstCommand(s: State, beans: Beans)
    requires Scan(s, beans).failure.None? && beans.commands != []
    ensures Scan(Scan(s, beans).state, beans) ==
              Run(Scan(s, beans).state, Some(DuplicateType(beans.commands[0].tag)))
  {
    var s1 := Scan(s, beans).state;
    var b := beans.commands[0];
    var step := RegisterCommand(s, b);
    var c := ScanKind(s, CommandKind, beans.commands);
    assert c == ScanKind(step.state, CommandKind, beans.commands[1..]);
    var q := ScanKind(c.state, QueryKind, beans.queries);
    ExtendsTransitive(step.state, c.state, q.state);
    ExtendsTransitive(step.state, q.state, s1);
    assert b.name in s1.byName && s1.byName[b.name] == b.handler && b.tag in s1.commands;
  }

  /** With no command handler bean, a re-scan throws at the first query
      handler bean instead. */
  lemma RescanThrowsAtFirstQuery(s: State, beans: Beans)
    requires Scan(s, beans).failure.None? && beans.commands == [] && beans.queries != []
    ensures Scan(Scan(s, beans).state, beans) ==
              Run(Scan(s, beans).state, Some(DuplicateType(beans.queries[0].tag)))
  {
    var s1 := Scan(s, beans).state;
    var b := beans.queries[0];
    var step := RegisterQuery(s, b);
    var q := ScanKind(s, QueryKind, beans.queries);
    assert q == ScanKind(step.state, QueryKind, beans.queries[1..]);
    ExtendsTransitive(step.state, q.state, s1);
    assert b.name in s1.byName && s1.byName[b.name] == b.handler && b.tag in s1.queries;
  }

  /** With no command or query handler bean, a scan is the event loop. */
  lemma ScanOfEventsOnly(s: State, beans: Beans)
    requires beans.commands == [] && beans.queries == []
    ensures Scan(s, beans) == ScanKind(s, EventKind, beans.events)
  {
    assert ScanKind(s, CommandKind, []) == Run(s, None);
    assert ScanKind(s, QueryKind, []) == Run(s, None);
  }

  /** An event loop from a state with no bound name cannot throw, and
      leaves no name bound. */
  lemma EventScanFromNoNames(s: State, bs: seq<Bean>)
    requires s.byName == map[]
    ensures ScanKind(s, EventKind, bs).failure.None?
    ensures ScanKind(s, EventKind, bs).state.byName == map[]
  {
    EventScanSucceedsIff(s, bs);
    EventScanKeepsMaps(s, bs);
  }

  /** Two event loops over the same beans from the empty registry both
      succeed, and the second appends every handler again. */
  lemma EventScanTwice(bs: seq<Bean>, t: TypeTag)
    ensures ScanKind(EmptyState, EventKind, bs).failure.None?
    ensures var r2 := ScanKind(ScanKind(EmptyState, EventKind, bs).state, EventKind, bs);
            && r2.failure.None?
            && EventList(r2.state.events, t) == HandlersFor(bs, t) + HandlersFor(bs, t)
  {
    var r1 := ScanKind(EmptyState, EventKind, bs);
    EventScanFromNoNames(EmptyState, bs);
    EventScanAppends(EmptyState, bs, t);
    assert EventList(r1.state.events, t) == HandlersFor(bs, t) by {
      assert EventList(EmptyState.events, t) == [];
    }
    EventScanFromNoNames(r1.state, bs);
    EventScanAppends(r1.state, bs, t);
  }

  /** With only event handler beans, a re-scan succeeds and appends every
      event handler a second time. */
  lemma RescanDuplicatesEventHandlers(beans: Beans, t: TypeTag)
    requires beans.commands == [] && beans.queries == []
    ensures Scan(EmptyState, beans).failure.None?
    ensures var s2 := Scan(Scan(EmptyState, beans).state, beans);
            && s2.failure.None?
            && EventList(s2.state.events, t) == HandlersFor(beans.events, t) + HandlersFor(beans.events, t)
  {
    EventScanTwice(beans.events, t);
    ScanOfEventsOnly(EmptyState, beans);
    ScanOfEventsOnly(Scan(EmptyState, beans).state, beans);
  }

  /** Consequently, once a registry has been built from a container with at
      least one command handler, every lookup miss throws instead of returning
      null or an empty list, and leaves the maps as they were. */
  lemma MissAfterBuildThrows(beans: Beans, tag: TypeTag)
    requires Scan(EmptyState, beans).failure.None? && beans.commands != []
    ensures var s := Scan(EmptyState, beans).state;
            var thrown := Answer(Throw(DuplicateType(beans.commands[0].tag)), s);
            && (tag !in s.commands ==> LookupCommand(s, beans, tag) == thrown)
            && (tag !in s.queries ==> LookupQuery(s, beans, tag) == thrown)
            && (tag !in s.events ==>
                  LookupEvents(s, beans, tag) == Answer(Throw(DuplicateType(beans.commands[0].tag)), s))
  {
    RescanThrowsAtFirstCommand(EmptyState, beans);
  }

  lemma ExtendsTransitive(s1: State, s2: State, s3: State)
    requires Extends(s1, s2) && Extends(s2, s3)
    ensures Extends(s1, s3)
  {
    forall t | t in s1.events ensures s1.events[t] <= s3.events[t] {
      assert s1.events[t] <= s2.events[t] <= s3.events[t];
    }
  }

  class RegistryImpl {
    /** The container the registry scans. */
    const context: Beans
    var handlersByName: map<string, HandlerId>
    var commandHandlersByType: map<TypeTag, HandlerId>
    var queryHandlersByType: map<TypeTag, HandlerId>
    var eventHandlersByType: map<TypeTag, seq<HandlerId>>

    function Snapshot(): State
      reads this
    {
      State(handlersByName, commandHandlersByType, queryHandlersByType, eventHandlersByType)
    }

    /** The object with its maps initialised, before the construction-time scan. */
    constructor WithoutHandlers(context: Beans)
      ensures this.context == context && Snapshot() == EmptyState
    {
      this.context := context;
      handlersByName := map[];
      commandHandlersByType := map[];
      queryHandlersByType := map[];
      eventHandlersByType := map[];
    }

    /** Construction: one full scan; if it throws, no registry is obtained. */
    static method Create(context: Beans) returns (r: Result<RegistryImpl>)
      ensures var scan := Scan(EmptyState, context);
              && (r.Throw? <==> scan.failure.Some?)
              && (r.Throw? ==> r.failure == scan.failure.value)
              && (r.Return? ==> fresh(r.value) && r.value.context == context && r.value.Snapshot() == scan.state)
    {
      var registry := new RegistryImpl.WithoutHandlers(context);
      var failure := registry.RegisterHandlers();
      if failure.Some? {
        return Throw(failure.value);
      }
      r := Return(registry);
    }

    /** Scans the container: commands, then queries, then events. */
    method RegisterHandlers() returns (failure: Option<Failure>)
      modifies this
      ensures Run(Snapshot(), failure) == Scan(old(Snapshot()), context)
    {
      failure := RegisterAllOf(CommandKind, context.commands);
      if failure.Some? {
        return;
      }
      failure := RegisterAllOf(QueryKind, context.queries);
      if failure.Some? {
        return;
      }
      failure := RegisterAllOf(EventKind, context.events);
    }

    /** One `for` loop of the scan. */
    method RegisterAllOf(kind: Kind, bs: seq<Bean>) returns (failure: Option<Failure>)
      modifies this
      ensures Run(Snapshot(), failure) == ScanKind(old(Snapshot()), kind, bs)
    {
      var i := 0;
      while i < |bs|
        invariant 0 <= i <= |bs|
        invariant ScanKind(old(Snapshot()), kind, bs) == ScanKind(Snapshot(), kind, bs[i..])
      {
        ghost var before := Snapshot();
        assert bs[i..][0] == bs[i] && bs[i..][1..] == bs[i + 1..];
        failure := RegisterOne(kind, bs[i]);
        if failure.Some? {
          return;
        }
        assert ScanKind(before, kind, bs[i..]) == ScanKind(Snapshot(), kind, bs[i + 1..]);
        i := i + 1;
      }
      failure := None;
    }

    method RegisterOne(kind: Kind, b: Bean) returns (failure: Option<Failure>)
      modifies this
      ensures Run(Snapshot(), failure) == Register(kind, old(Snapshot()), b)
    {
      match kind
      case CommandKind => failure := RegisterCommandHandler(b);
      case QueryKind => failure := RegisterQueryHandler(b);
      case EventKind => failure := RegisterEventHandler(b);
    }

    method RegisterCommandHandler(b: Bean) returns (failure: Option<Failure>)
      modifies this
      ensures Run(Snapshot(), failure) == RegisterCommand(old(Snapshot()), b)
    {
      if b.name in handlersByName && b.handler != handlersByName[b.name] {
        return Some(DuplicateName(b.name));
      }
      if b.tag in commandHandlersByType {
        return Some(DuplicateType(b.tag));
      }
      commandHandlersByType := commandHandlersByType[b.tag := b.handler];
      handlersByName := handlersByName[b.name := b.handler];
      failure := None;
    }

    method RegisterQueryHandler(b: Bean) returns (failure: Option<Failure>)
      modifies this
      ensures Run(Snapshot(), failure) == RegisterQuery(old(Snapshot()), b)
    {
      if b.name in handlersByName && b.handler != handlersByName[b.name] {
        return Some(DuplicateName(b.name));
      }
      if b.tag in queryHandlersByType {
        return Some(DuplicateType(b.tag));
      }
      queryHandlersByType := queryHandlersByType[b.tag := b.handler];
      handlersByName := handlersByName[b.name := b.handler];
      failure := None;
    }

    method RegisterEventHandler(b: Bean) returns (failure: Option<Failure>)
      modifies this
      ensures Run(Snapshot(), failure) == RegisterEvent(old(Snapshot()), b)
    {
      if b.name in handlersByName && b.handler != handlersByName[b.name] {
        return Some(DuplicateName(b.name));
      }
      if b.tag !in eventHandlersByType {
        eventHandlersByType := eventHandlersByType[b.tag := []];
      }
      var handlers := eventHandlersByType[b.tag];
      eventHandlersByType := eventHandlersByType[b.tag := handlers + [b.handler]];
      failure := None;
    }

    method GetCommandHandler(tag: TypeTag) returns (r: Result<Option<HandlerId>>)
      modifies this
      ensures Answer(r, Snapshot()) == LookupCommand(old(Snapshot()), context, tag)
    {
      var handler := Get(commandHandlersByType, tag);
      if handler.None? {
        var failure := RegisterHandlers();
        if failure.Some? {
          return Throw(failure.value);
        }
        return Return(Get(commandHandlersByType, tag));
      }
      r := Return(handler);
    }

    method GetQueryHandler(tag: TypeTag) returns (r: Result<Option<HandlerId>>)
      modifies this
      ensures Answer(r, Snapshot()) == LookupQuery(old(Snapshot()), context, tag)
    {
      var handler := Get(queryHandlersByType, tag);
      if handler.None? {
        var failure := RegisterHandlers();
        if failure.Some? {
          return Throw(failure.value);
        }
        return Return(Get(queryHandlersByType, tag));
      }
      r := Return(handler);
    }

    method GetEventHandlers(tag: TypeTag) returns (r: Result<seq<HandlerId>>)
      modifies this
      ensures Answer(r, Snapshot()) == LookupEvents(old(Snapshot()), context, tag)
    {
      if tag !in eventHandlersByType {
        var failure := RegisterHandlers();
        if failure.Some? {
          return Throw(failure.value);
        }
        if tag in eventHandlersByType {
          return Return(eventHandlersByType[tag]);
        }
        return Return([]);
      }
      r := Return(eventHandlersByType[tag]);
    }
  }
}
