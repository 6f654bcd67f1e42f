/** `RegistryImpl` of `RegistryImpl.kt`: a registry with a once-only
    initialisation pass over command, command-with-result and query handler
    beans, and three lookups that only read the maps. As written, the name map
    and the query map are never written: the name checks cannot fire, query
    handlers land in the command-with-result map, and the query lookup misses
    for every type. */
module OnceRegistry {
  import opened Common
  import LazyRegistry

  /** What the container enumerates for each handler interface, in its order,
      and which handlers' classes also implement `CommandWithResultHandler`
      (the runtime type test behind a checked cast to that interface). */
  datatype Beans = Beans(
    commands: seq<Bean>,
    commandsWithResult: seq<Bean>,
    queries: seq<Bean>,
    withResultHandlers: set<HandlerId>)

  /** The registry's four maps: `requestHandlersByName`,
      `commandHandlersByType`, `commandWithResultHandlersByType` and
      `queryHandlersByType`. */
  datatype State = State(
    byName: map<string, HandlerId>,
    commands: map<TypeTag, HandlerId>,
    commandsWithResult: map<TypeTag, HandlerId>,
    queries: map<TypeTag, HandlerId>)

  const EmptyState := State(map[], map[], map[], map[])

  /** The maps after a call, and what the call threw (if anything). */
  datatype Run = Run(state: State, failure: Option<Failure>)

  datatype Kind = CommandKind | CommandWithResultKind | QueryKind

  /** Registers a command handler bean. */
  function RegisterCommand(s: State, b: Bean): (r: Run)
    // a name already in the name map throws first, a bound type next, and in
    // both cases before any map is written
    ensures b.name in s.byName ==> r == Run(s, Some(DuplicateName(b.name)))
    ensures b.name !in s.byName && b.tag in s.commands ==> r == Run(s, Some(DuplicateType(b.tag)))
    ensures r.failure.None? <==> b.name !in s.byName && b.tag !in s.commands
    // a success adds one command entry and writes no other map
    ensures r.failure.None? ==> r.state == s.(commands := s.commands[b.tag := b.handler])
    ensures r.state.byName == s.byName && r.state.queries == s.queries
  {
    if b.name in s.byName then Run(s, Some(DuplicateName(b.name)))
    else if b.tag in s.commands then Run(s, Some(DuplicateType(b.tag)))
    else Run(s.(commands := s.commands[b.tag := b.handler]), None)
  }

  /** Registers a command-with-result handler bean; its duplicate check reads
      the command-with-result map. */
  function RegisterCommandWithResult(s: State, b: Bean): (r: Run)
    ensures b.name in s.byName ==> r == Run(s, Some(DuplicateName(b.name)))
    ensures b.name !in s.byName && b.tag in s.commandsWithResult ==> r == Run(s, Some(DuplicateType(b.tag)))
    ensures r.failure.None? <==> b.name !in s.byName && b.tag !in s.commandsWithResult
    ensures r.failure.None? ==> r.state == s.(commandsWithResult := s.commandsWithResult[b.tag := b.handler])
    ensures r.state.byName == s.byName && r.state.queries == s.queries
  {
    if b.name in s.byName then Run(s, Some(DuplicateName(b.name)))
    else if b.tag in s.commandsWithResult then Run(s, Some(DuplicateType(b.tag)))
    else Run(s.(commandsWithResult := s.commandsWithResult[b.tag := b.handler]), None)
  }

  /** Registers a query handler bean as written: the duplicate check reads the
      query map, then the handler is cast to `CommandWithResultHandler` and
      stored in the command-with-result map, replacing whatever was there. The
      cast throws for a handler whose class does not also implement that
      interface (`withResult` holds the handlers whose class does). */
  function RegisterQuery(s: State, b: Bean, withResult: set<HandlerId>): (r: Run)
    ensures b.name in s.byName ==> r == Run(s, Some(DuplicateName(b.name)))
    ensures b.name !in s.byName && b.tag in s.queries ==> r == Run(s, Some(DuplicateType(b.tag)))
    // the cast comes after both checks and before the write
    ensures b.name !in s.byName && b.tag !in s.queries && b.handler !in withResult ==>
              r == Run(s, Some(ClassCast))
    ensures r.failure.None? <==> b.name !in s.byName && b.tag !in s.queries && b.handler in withResult
    ensures r.failure.None? ==> r.state == s.(commandsWithResult := s.commandsWithResult[b.tag := b.handler])
    // the query map itself is never written
    ensures r.state.byName == s.byName && r.state.queries == s.queries
  {
    if b.name in s.byName then Run(s, Some(DuplicateName(b.name)))
    else if b.tag in s.queries then Run(s, Some(DuplicateType(b.tag)))
    else if b.handler !in withResult then Run(s, Some(ClassCast))
    else Run(s.(commandsWithResult := s.commandsWithResult[b.tag := b.handler]), None)
  }

  /** Registers a query handler bean as evidently intended: checked against,
      and stored in, the query map. */
  function RegisterQueryIntended(s: State, b: Bean): (r: Run)
    ensures r.failure.None? <==> b.name !in s.byName && b.tag !in s.queries
    ensures r.failure.None? ==> r.state == s.(queries := s.queries[b.tag := b.handler])
    ensures r.failure.Some? ==> r.state == s
  {
    if b.name in s.byName then Run(s, Some(DuplicateName(b.name)))
    else if b.tag in s.queries then Run(s, Some(DuplicateType(b.tag)))
    else Run(s.(queries := s.queries[b.tag := b.handler]), None)
  }

  function Register(kind: Kind, s: State, b: Bean, withResult: set<HandlerId>): Run {
    match kind
    case CommandKind => RegisterCommand(s, b)
    case CommandWithResultKind => RegisterCommandWithResult(s, b)
    case QueryKind => RegisterQuery(s, b, withResult)
  }

  /** One loop of the initialisation: registers the beans of one kind in order,
      stopping at the first throw and keeping what was written before it. */
  function ScanKind(s: State, kind: Kind, bs: seq<Bean>, withResult: set<HandlerId>): (r: Run)
    // no loop writes the name map or the query map
    ensures r.state.byName == s.byName && r.state.queries == s.queries
    decreases |bs|
  {
    if bs == [] then Run(s, None)
    else
      var step := Register(kind, s, bs[0], withResult);
      if step.failure.Some? then step
      else ScanKind(step.state, kind, bs[1..], withResult)
  }

  /** The initialisation pass: command handlers, then command-with-result
      handlers, then query handlers. */
  function Initialize(s: State, beans: Beans): (r: Run)
    ensures r.state.byName == s.byName && r.state.queries == s.queries
  {
    var w := beans.withResultHandlers;
    var c := ScanKind(s, CommandKind, beans.commands, w);
    if c.failure.Some? then c
    else
      var cr := ScanKind(c.state, CommandWithResultKind, beans.commandsWithResult, w);
      if cr.failure.Some? then cr
      else ScanKind(cr.state, QueryKind, beans.queries, w)
  }

  /** The single-handler map a command or command-with-result bean goes in. */
  function TypeMap(s: State, kind: Kind): map<TypeTag, HandlerId> {
    if kind == CommandKind then s.commands else s.commandsWithResult
  }

  function WithTypeMap(s: State, kind: Kind, m: map<TypeTag, HandlerId>): State {
    if kind == CommandKind then s.(commands := m) else s.(commandsWithResult := m)
  }

  /** Every query handler's class also implements `CommandWithResultHandler`. */
  predicate AllCastable(bs: seq<Bean>, withResult: set<HandlerId>) {
    forall i :: 0 <= i < |bs| ==> bs[i].handler in withResult
  }

  /** With no bound name, a command or command-with-result loop is exactly the
      lazy registries' registration pass over its own map. */
  lemma {:induction false} TypedScanIsRegisterAll(s: State, kind: Kind, bs: seq<Bean>, withResult: set<HandlerId>)
    requires kind != QueryKind && s.byName == map[]
    ensures var pass := LazyRegistry.RegisterAll(TypeMap(s, kind), bs);
            ScanKind(s, kind, bs, withResult) == Run(WithTypeMap(s, kind, pass.registry), pass.failure)
    decreases |bs|
  {
    if bs != [] {
      var step := Register(kind, s, bs[0], withResult);
      var lazy := LazyRegistry.Register(TypeMap(s, kind), bs[0]);
      assert step == Run(WithTypeMap(s, kind, lazy.registry), lazy.failure);
      if step.failure.None? {
        TypedScanIsRegisterAll(step.state, kind, bs[1..], withResult);
        assert TypeMap(step.state, kind) == lazy.registry;
        assert WithTypeMap(step.state, kind, LazyRegistry.RegisterAll(lazy.registry, bs[1..]).registry) ==
               WithTypeMap(s, kind, LazyRegistry.RegisterAll(lazy.registry, bs[1..]).registry);
      }
    }
  }

  /** With no bound name and an empty query map, a query loop succeeds exactly
      when every query handler can be cast to `CommandWithResultHandler`,
      otherwise throws `ClassCastException`, and leaves the command map alone
      either way. */
  lemma {:induction false} QueryScanSucceeds(s: State, bs: seq<Bean>, withResult: set<HandlerId>)
    requires s.byName == map[] && s.queries == map[]
    ensures var r := ScanKind(s, QueryKind, bs, withResult);
            && (r.failure.None? <==> AllCastable(bs, withResult))
            && (r.failure.Some? ==> r.failure.value == ClassCast)
            && r.state.commands == s.commands
    decreases |bs|
  {
    if bs != [] {
      var step := RegisterQuery(s, bs[0], withResult);
      var rest := bs[1..];
      assert forall k :: 0 <= k < |rest| ==> rest[k] == bs[k + 1];
      if step.failure.None? {
        assert ScanKind(s, QueryKind, bs, withResult) == ScanKind(step.state, QueryKind, rest, withResult);
        QueryScanSucceeds(step.state, rest, withResult);
      }
    }
  }

  /** Under the same conditions, a query loop stops with a
      `ClassCastException` at the first handler that cannot be cast, keeping
      what the beans before it wrote. */
  lemma {:induction false} QueryScanStopsAt(s: State, bs: seq<Bean>, withResult: set<HandlerId>, i: nat)
    requires s.byName == map[] && s.queries == map[]
    requires i < |bs| && bs[i].handler !in withResult && AllCastable(bs[..i], withResult)
    ensures ScanKind(s, QueryKind, bs, withResult) ==
              Run(ScanKind(s, QueryKind, bs[..i], withResult).state, Some(ClassCast))
    decreases i
  {
    if i > 0 {
      var step := RegisterQuery(s, bs[0], withResult);
      var rest := bs[1..];
      assert bs[..i][0] == bs[0] && bs[..i][1..] == rest[..i - 1];
      assert rest[i - 1] == bs[i];
      assert ScanKind(s, QueryKind, bs, withResult) == ScanKind(step.state, QueryKind, rest, withResult);
      QueryScanStopsAt(step.state, rest, withResult, i - 1);
    }
  }

  /** Under the same conditions, with every handler castable, every query type
      ends up bound, in the command-with-result map, to the handler of the last
      bean with that type. */
  lemma {:induction false} QueryScanLastWins(s: State, bs: seq<Bean>, withResult: set<HandlerId>, i: nat)
    requires s.byName == map[] && s.queries == map[] && AllCastable(bs, withResult)
    requires i < |bs| && forall j :: i < j < |bs| ==> bs[j].tag != bs[i].tag
    ensures var m := ScanKind(s, QueryKind, bs, withResult).state.commandsWithResult;
            bs[i].tag in m && m[bs[i].tag] == bs[i].handler
    decreases |bs|
  {
    var step := RegisterQuery(s, bs[0], withResult);
    var rest := bs[1..];
    assert ScanKind(s, QueryKind, bs, withResult) == ScanKind(step.state, QueryKind, rest, withResult);
    assert forall k :: 0 <= k < |rest| ==> rest[k] == bs[k + 1];
    if i > 0 {
      assert bs[i] == rest[i - 1];
      QueryScanLastWins(step.state, rest, withResult, i - 1);
    } else {
      QueryScanKeeps(step.state, rest, withResult, bs[0].tag);
    }
  }

  /** Under the same conditions a type no query bean is bound to keeps its
      command-with-result entry, whether or not the loop throws. */
  lemma {:induction false} QueryScanKeeps(s: State, bs: seq<Bean>, withResult: set<HandlerId>, t: TypeTag)
    requires s.byName == map[] && s.queries == map[]
    requires t in s.commandsWithResult && forall i :: 0 <= i < |bs| ==> bs[i].tag != t
    ensures var m := ScanKind(s, QueryKind, bs, withResult).state.commandsWithResult;
            t in m && m[t] == s.commandsWithResult[t]
    decreases |bs|
  {
    if bs != [] {
      var step := RegisterQuery(s, bs[0], withResult);
      if step.failure.None? {
        var rest := bs[1..];
        assert ScanKind(s, QueryKind, bs, withResult) == ScanKind(step.state, QueryKind, rest, withResult);
        assert forall k :: 0 <= k < |rest| ==> rest[k] == bs[k + 1];
        QueryScanKeeps(step.state, rest, withResult, t);
      }
    }
  }

  /** From the empty registry, no loop of the initialisation can throw a
      duplicate-name error: what it throws is a duplicate type, or the cast of
      a query handler. */
  lemma NameCheckNeverFires(beans: Beans)
    ensures var r := Initialize(EmptyState, beans);
            r.failure.Some? ==> r.failure.value.DuplicateType? || r.failure.value == ClassCast
  {
    var w := beans.withResultHandlers;
    var c := ScanKind(EmptyState, CommandKind, beans.commands, w);
    TypedScanIsRegisterAll(EmptyState, CommandKind, beans.commands, w);
    if c.failure.None? {
      var cr := ScanKind(c.state, CommandWithResultKind, beans.commandsWithResult, w);
      TypedScanIsRegisterAll(c.state, CommandWithResultKind, beans.commandsWithResult, w);
      if cr.failure.None? {
        QueryScanSucceeds(cr.state, beans.queries, w);
      }
    }
  }

  /** From the empty registry, initialisation succeeds exactly when no two
      command handlers and no two command-with-result handlers share a type
      and every query handler can be cast to `CommandWithResultHandler`. */
  lemma InitializeSucceedsIff(beans: Beans)
    ensures Initialize(EmptyState, beans).failure.None? <==>
              && DistinctTags(beans.commands) && DistinctTags(beans.commandsWithResult)
              && AllCastable(beans.queries, beans.withResultHandlers)
  {
    var w := beans.withResultHandlers;
    var c := ScanKind(EmptyState, CommandKind, beans.commands, w);
    TypedScanIsRegisterAll(EmptyState, CommandKind, beans.commands, w);
    LazyRegistry.RegisterAllSucceedsIff(map[], beans.commands);
    if c.failure.None? {
      var cr := ScanKind(c.state, CommandWithResultKind, beans.commandsWithResult, w);
      TypedScanIsRegisterAll(c.state, CommandWithResultKind, beans.commandsWithResult, w);
      LazyRegistry.RegisterAllSucceedsIff(map[], beans.commandsWithResult);
      if cr.failure.None? {
        QueryScanSucceeds(cr.state, beans.queries, w);
      }
    }
  }

  /** The three loops of a successful initialisation, each from where the one
      before stopped. */
  lemma InitializeStages(s: State, beans: Beans)
    requires Initialize(s, beans).failure.None?
    ensures var w := beans.withResultHandlers;
            var c := ScanKind(s, CommandKind, beans.commands, w);
            var cr := ScanKind(c.state, CommandWithResultKind, beans.commandsWithResult, w);
            && c.failure.None? && cr.failure.None?
            && Initialize(s, beans) == ScanKind(cr.state, QueryKind, beans.queries, w)
  {
  }

  /** After a successful initialisation from the empty registry, every command
      handler is bound to its type, and the query loop has left the command map
      alone. */
  lemma InitializedFindsCommands(beans: Beans, i: nat)
    requires Initialize(EmptyState, beans).failure.None? && i < |beans.commands|
    ensures Get(Initialize(EmptyState, beans).state.commands, beans.commands[i].tag) == Some(beans.commands[i].handler)
  {
    InitializeStages(EmptyState, beans);
    var w := beans.withResultHandlers;
    var c := ScanKind(EmptyState, CommandKind, beans.commands, w);
    TypedScanIsRegisterAll(EmptyState, CommandKind, beans.commands, w);
    LazyRegistry.RegisterAllBinds(map[], beans.commands);
    var cr := ScanKind(c.state, CommandWithResultKind, beans.commandsWithResult, w);
    TypedScanIsRegisterAll(c.state, CommandWithResultKind, beans.commandsWithResult, w);
    QueryScanSucceeds(cr.state, beans.queries, w);
  }

  /** After any initialisation from the empty registry the query map is still
      empty, so the query lookup misses for every type. */
  lemma InitializedQueryMapEmpty(beans: Beans, tag: TypeTag)
    ensures Get(Initialize(EmptyState, beans).state.queries, tag).None?
  {
  }

  /** After a successful initialisation from the empty registry, each query
      type is bound, in the command-with-result map, to the handler of its last
      query handler bean. */
  lemma InitializedQueriesInWrongMap(beans: Beans, i: nat)
    requires Initialize(EmptyState, beans).failure.None? && i < |beans.queries|
    requires forall j :: i < j < |beans.queries| ==> beans.queries[j].tag != beans.queries[i].tag
    ensures Get(Initialize(EmptyState, beans).state.commandsWithResult, beans.queries[i].tag) ==
              Some(beans.queries[i].handler)
  {
    InitializeStages(EmptyState, beans);
    var w := beans.withResultHandlers;
    var c := ScanKind(EmptyState, CommandKind, beans.commands, w);
    var cr := ScanKind(c.state, CommandWithResultKind, beans.commandsWithResult, w);
    QueryScanSucceeds(cr.state, beans.queries, w);
    QueryScanLastWins(cr.state, beans.queries, w, i);
  }

  /** As written, a registered query handler (one whose class also implements
      `CommandWithResultHandler`, so the cast succeeds) is invisible to the
      query lookup, and a second such handler for the same query type does not
      throw but replaces the first. */
  lemma QueryRegistrationInvisible(s: State, b1: Bean, b2: Bean, withResult: set<HandlerId>)
    requires s.byName == map[] && s.queries == map[] && b1.tag == b2.tag
    requires b1.handler in withResult && b2.handler in withResult
    ensures var r1 := RegisterQuery(s, b1, withResult);
            var r2 := RegisterQuery(r1.state, b2, withResult);
            && r1.failure.None? && Get(r1.state.queries, b1.tag).None?
            && r2.failure.None? && r2.state.commandsWithResult[b2.tag] == b2.handler
  {
  }

  /** As intended, a registered query handler is found by the query lookup,
      and a second handler for the same query type throws and writes nothing. */
  lemma {:induction false} IntendedQueryRegistrationFound(s: State, b1: Bean, b2: Bean)
    requires s.byName == map[] && b1.tag !in s.queries && b1.tag == b2.tag
    ensures var r1 := RegisterQueryIntended(s, b1);
            var r2 := RegisterQueryIntended(r1.state, b2);
            && r1.failure.None? && Get(r1.state.queries, b1.tag) == Some(b1.handler)
            && r2 == Run(r1.state, Some(DuplicateType(b2.tag)))
  {
  }

  /** The type a handler bean's `getCommandClass()` yields as written: a
      command handler's is resolved through its generic interface, while the
      command-with-result and query handlers' versions cast the handler's own
      `Class` object to `ParameterizedType`, which a `Class` never is. */
  function ResolveAsWritten(kind: Kind, b: Bean): Result<TypeTag> {
    if kind == CommandKind then Return(b.tag) else Throw(ClassCast)
  }

  /** One registration as written: the name check, then the type resolution,
      then the registration itself. */
  function RegisterAsWritten(kind: Kind, s: State, b: Bean, withResult: set<HandlerId>): (r: Run)
    // past the name check, every command-with-result and query handler throws,
    // and nothing is written
    ensures kind != CommandKind && b.name !in s.byName ==> r == Run(s, Some(ClassCast))
    // a command handler registers exactly as with its type taken from the bean
    ensures kind == CommandKind ==> r == Register(kind, s, b, withResult)
  {
    if b.name in s.byName then Run(s, Some(DuplicateName(b.name)))
    else
      match ResolveAsWritten(kind, b)
      case Throw(f) => Run(s, Some(f))
      case Return(_) => Register(kind, s, b, withResult)
  }

  /** One loop of the initialisation, as written. */
  function ScanKindAsWritten(s: State, kind: Kind, bs: seq<Bean>, withResult: set<HandlerId>): Run
    decreases |bs|
  {
    if bs == [] then Run(s, None)
    else
      var step := RegisterAsWritten(kind, s, bs[0], withResult);
      if step.failure.Some? then step
      else ScanKindAsWritten(step.state, kind, bs[1..], withResult)
  }

  /** The initialisation pass, as written. */
  function InitializeAsWritten(s: State, beans: Beans): Run {
    var w := beans.withResultHandlers;
    var c := ScanKindAsWritten(s, CommandKind, beans.commands, w);
    if c.failure.Some? then c
    else
      var cr := ScanKindAsWritten(c.state, CommandWithResultKind, beans.commandsWithResult, w);
      if cr.failure.Some? then cr
      else ScanKindAsWritten(cr.state, QueryKind, beans.queries, w)
  }

  /** The command handler loop is the same as written and with the type taken
      from the bean. */
  lemma {:induction false} CommandScanAsWritten(s: State, bs: seq<Bean>, withResult: set<HandlerId>)
    ensures ScanKindAsWritten(s, CommandKind, bs, withResult) == ScanKind(s, CommandKind, bs, withResult)
    decreases |bs|
  {
    if bs != [] {
      var step := RegisterAsWritten(CommandKind, s, bs[0], withResult);
      if step.failure.None? {
        CommandScanAsWritten(step.state, bs[1..], withResult);
      }
    }
  }

  /** As written, initialisation from the empty registry throws a
      `ClassCastException` as soon as the command handlers are registered and
      there is any command-with-result or query handler bean, keeping only the
      command entries; with neither kind of bean it is the pass with the types
      taken from the beans. */
  lemma InitializeAsWrittenThrows(beans: Beans)
    ensures var c := ScanKind(EmptyState, CommandKind, beans.commands, beans.withResultHandlers);
            c.failure.None? && (beans.commandsWithResult != [] || beans.queries != []) ==>
              InitializeAsWritten(EmptyState, beans) == Run(c.state, Some(ClassCast))
    ensures beans.commandsWithResult == [] && beans.queries == [] ==>
              InitializeAsWritten(EmptyState, beans) == Initialize(EmptyState, beans)
  {
    CommandScanAsWritten(EmptyState, beans.commands, beans.withResultHandlers);
  }

  class RegistryImpl {
    /** The container the registry scans. */
    const context: Beans
    var requestHandlersByName: map<string, HandlerId>
    var commandHandlersByType: map<TypeTag, HandlerId>
    var commandWithResultHandlersByType: map<TypeTag, HandlerId>
    var queryHandlersByType: map<TypeTag, HandlerId>
    var initialized: bool

    function Snapshot(): State
      reads this
    {
      State(requestHandlersByName, commandHandlersByType, commandWithResultHandlersByType, queryHandlersByType)
    }

    /** The name map and the query map stay empty. */
    ghost predicate Valid()
      reads this
    {
      requestHandlersByName == map[] && queryHandlersByType == map[]
    }

    constructor (context: Beans)
      ensures this.context == context && Snapshot() == EmptyState && !initialized && Valid()
    {
      this.context := context;
      requestHandlersByName := map[];
      commandHandlersByType := map[];
      commandWithResultHandlersByType := map[];
      queryHandlersByType := map[];
      initialized := false;
    }

    /** Runs the initialisation pass unless it has already completed; the flag
        is set only after all three loops. */
    method InitializeHandlers() returns (failure: Option<Failure>)
      modifies this
      ensures old(initialized) ==> unchanged(this) && failure.None?
      ensures !old(initialized) ==>
                Run(Snapshot(), failure) == Initialize(old(Snapshot()), context)
                && initialized == failure.None?
      ensures old(Valid()) ==> Valid()
    {
      failure := None;
      if !initialized {
        failure := RegisterAllOf(CommandKind, context.commands);
        if failure.Some? {
          return;
        }
        failure := RegisterAllOf(CommandWithResultKind, context.commandsWithResult);
        if failure.Some? {
          return;
        }
        failure := RegisterAllOf(QueryKind, context.queries);
        if failure.Some? {
          return;
        }
        initialized := true;
      }
    }

    /** One `for` loop of the initialisation. */
    method RegisterAllOf(kind: Kind, bs: seq<Bean>) returns (failure: Option<Failure>)
      modifies this`requestHandlersByName, this`commandHandlersByType,
               this`commandWithResultHandlersByType, this`queryHandlersByType
      ensures Run(Snapshot(), failure) == ScanKind(old(Snapshot()), kind, bs, context.withResultHandlers)
    {
      var i := 0;
      while i < |bs|
        invariant 0 <= i <= |bs|
        invariant ScanKind(old(Snapshot()), kind, bs, context.withResultHandlers) ==
                  ScanKind(Snapshot(), kind, bs[i..], context.withResultHandlers)
      {
        ghost var before := Snapshot();
        assert bs[i..][0] == bs[i] && bs[i..][1..] == bs[i + 1..];
        failure := RegisterOne(kind, bs[i]);
        if failure.Some? {
          return;
        }
        assert ScanKind(before, kind, bs[i..], context.withResultHandlers) ==
               ScanKind(Snapshot(), kind, bs[i + 1..], context.withResultHandlers);
        i := i + 1;
      }
      failure := None;
    }

    method RegisterOne(kind: Kind, b: Bean) returns (failure: Option<Failure>)
      modifies this`requestHandlersByName, this`commandHandlersByType,
               this`commandWithResultHandlersByType, this`queryHandlersByType
      ensures Run(Snapshot(), failure) == Register(kind, old(Snapshot()), b, context.withResultHandlers)
    {
      match kind
      case CommandKind => failure := RegisterCommandHandler(b);
      case CommandWithResultKind => failure := RegisterCommandWithResultHandler(b);
      case QueryKind => failure := RegisterQueryHandler(b);
    }

    method RegisterCommandHandler(b: Bean) returns (failure: Option<Failure>)
      modifies this`commandHandlersByType
      ensures Run(Snapshot(), failure) == RegisterCommand(old(Snapshot()), b)
    {
      if b.name in requestHandlersByName {
        return Some(DuplicateName(b.name));
      }
      var existing := GetCommandHandler(b.tag);
      if existing.Some? {
        return Some(DuplicateType(b.tag));
      }
      commandHandlersByType := commandHandlersByType[b.tag := b.handler];
      failure := None;
    }

    method RegisterCommandWithResultHandler(b: Bean) returns (failure: Option<Failure>)
      modifies this`commandWithResultHandlersByType
      ensures Run(Snapshot(), failure) == RegisterCommandWithResult(old(Snapshot()), b)
    {
      if b.name in requestHandlersByName {
        return Some(DuplicateName(b.name));
      }
      var existing := GetCommandWithResultHandler(b.tag);
      if existing.Some? {
        return Some(DuplicateType(b.tag));
      }
      commandWithResultHandlersByType := commandWithResultHandlersByType[b.tag := b.handler];
      failure := None;
    }

    method RegisterQueryHandler(b: Bean) returns (failure: Option<Failure>)
      modifies this`commandWithResultHandlersByType
      ensures Run(Snapshot(), failure) == RegisterQuery(old(Snapshot()), b, context.withResultHandlers)
    {
      if b.name in requestHandlersByName {
        return Some(DuplicateName(b.name));
      }
      var existing := GetQueryHandler(b.tag);
      if existing.Some? {
        return Some(DuplicateType(b.tag));
      }
      // the cast to `CommandWithResultHandler` before the write
      if b.handler !in context.withResultHandlers {
        return Some(ClassCast);
      }
      commandWithResultHandlersByType := commandWithResultHandlersByType[b.tag := b.handler];
      failure := None;
    }

    /** A plain read of the command map; never initialises. */
    method GetCommandHandler(tag: TypeTag) returns (r: Option<HandlerId>)
      ensures r.Some? <==> tag in commandHandlersByType
      ensures r.Some? ==> r.value == commandHandlersByType[tag]
    {
      r := Get(commandHandlersByType, tag);
    }

    /** A plain read of the command-with-result map; never initialises. */
    method GetCommandWithResultHandler(tag: TypeTag) returns (r: Option<HandlerId>)
      ensures r.Some? <==> tag in commandWithResultHandlersByType
      ensures r.Some? ==> r.value == commandWithResultHandlersByType[tag]
    {
      r := Get(commandWithResultHandlersByType, tag);
    }

    /** A plain read of the query map; never initialises, and misses while the
        query map is empty, as it always is. */
    method GetQueryHandler(tag: TypeTag) returns (r: Option<HandlerId>)
      ensures r.Some? <==> tag in queryHandlersByType
      ensures r.Some? ==> r.value == queryHandlersByType[tag]
      ensures Valid() ==> r.None?
    {
      r := Get(queryHandlersByType, tag);
    }
  }

  /** The slot of the request mediator's ring: a request (absent in an empty
      slot) and the consumer of its response. */
  class RequestWrapper {
    var payload: Option<Message>
    var consumer: Option<CallbackId>

    constructor (payload: Option<Message>, consumer: Option<CallbackId>)
      ensures this.payload == payload && this.consumer == consumer
    {
      this.payload := payload;
      this.consumer := consumer;
    }

    /** The ring's event factory: a fresh, empty slot. */
    static method Factory() returns (w: RequestWrapper)
      ensures fresh(w) && w.payload.None? && w.consumer.None?
    {
      w := new RequestWrapper(None, None);
    }
  }
}
