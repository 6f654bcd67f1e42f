/** The registration logic shared by the three lazily initialised registries
    (`CommandRegistryImpl`, `RequestRegistryImpl` and the registry inside
    `DisruptorCommandBus`): one map from a message type to its single handler,
    filled by one pass over the handler beans. Registering a type that is
    already present throws before anything is written; a pass stops at the first
    throw and keeps what it inserted before it. */
module LazyRegistry {
  import opened Common

  /** The handler map after a call, and what the call threw (if anything). */
  datatype Step = Step(registry: map<TypeTag, HandlerId>, failure: Option<Failure>)

  /** Registers one handler bean under its bound type. */
  function Register(reg: map<TypeTag, HandlerId>, b: Bean): (r: Step)
    // a type that already has a handler is rejected, and nothing is written
    ensures r.failure.Some? <==> b.tag in reg
    ensures r.failure.Some? ==> r.failure == Some(DuplicateType(b.tag)) && r.registry == reg
    // otherwise exactly one entry, keyed by the bean's type, is added
    ensures r.failure.None? ==> r.registry.Keys == reg.Keys + {b.tag} && r.registry[b.tag] == b.handler
    ensures forall t :: t in reg ==> t in r.registry && r.registry[t] == reg[t]
  {
    if b.tag in reg then Step(reg, Some(DuplicateType(b.tag)))
    else Step(reg[b.tag := b.handler], None)
  }

  /** One registration pass over the beans, in enumeration order, stopping at
      the first throw. */
  function RegisterAll(reg: map<TypeTag, HandlerId>, bs: seq<Bean>): (r: Step)
    // entries are only ever added, never replaced or removed
    ensures forall t :: t in reg ==> t in r.registry && r.registry[t] == reg[t]
    // every entry that is added comes from one of the beans
    ensures forall t :: t in r.registry && t !in reg ==> exists i :: 0 <= i < |bs| && bs[i].tag == t
    // a pass can only throw a duplicate-type error about one of the beans
    ensures r.failure.Some? ==> exists i :: 0 <= i < |bs| && r.failure == Some(DuplicateType(bs[i].tag))
    decreases |bs|
  {
    if bs == [] then Step(reg, None)
    else
      var step := Register(reg, bs[0]);
      if step.failure.Some? then step
      else
        var rest := RegisterAll(step.registry, bs[1..]);
        assert rest.failure.Some? ==> exists i :: 0 <= i < |bs| && rest.failure == Some(DuplicateType(bs[i].tag)) by {
          if rest.failure.Some? {
            var j :| 0 <= j < |bs[1..]| && rest.failure == Some(DuplicateType(bs[1..][j].tag));
            assert bs[j + 1] == bs[1..][j];
          }
        }
        assert forall t :: t in rest.registry && t !in step.registry ==>
          exists i :: 0 <= i < |bs| && bs[i].tag == t by {
          forall t | t in rest.registry && t !in step.registry
            ensures exists i :: 0 <= i < |bs| && bs[i].tag == t
          {
            var j :| 0 <= j < |bs[1..]| && bs[1..][j].tag == t;
            assert bs[j + 1].tag == t;
          }
        }
        rest
  }

  /** What a lazily initialising lookup returns, from the state before it: when
      the registry is not initialised the registration pass runs first, and a
      throw from it propagates; then the map is read. */
  function Lookup(initialized: bool, reg: map<TypeTag, HandlerId>, bs: seq<Bean>, tag: TypeTag): (r: Result<Option<HandlerId>>)
    // only a first lookup can throw, and only with a duplicate-type error
    ensures r.Throw? ==> !initialized && exists i :: 0 <= i < |bs| && r.failure == DuplicateType(bs[i].tag)
    // a type registered before the lookup is always found, with its handler
    ensures tag in reg && r.Return? ==> r.value == Some(reg[tag])
  {
    if initialized then Return(Get(reg, tag))
    else
      var pass := RegisterAll(reg, bs);
      if pass.failure.Some? then
        Throw(pass.failure.value)
      else Return(Get(pass.registry, tag))
  }

  /** A pass succeeds exactly when no two beans share a type and none of their
      types was registered before. */
  lemma {:induction false} RegisterAllSucceedsIff(reg: map<TypeTag, HandlerId>, bs: seq<Bean>)
    ensures RegisterAll(reg, bs).failure.None? <==>
              DistinctTags(bs) && forall i :: 0 <= i < |bs| ==> bs[i].tag !in reg
    decreases |bs|
  {
    if bs != [] {
      var step := Register(reg, bs[0]);
      if step.failure.None? {
        assert RegisterAll(reg, bs) == RegisterAll(step.registry, bs[1..]);
        RegisterAllSucceedsIff(step.registry, bs[1..]);
        FreshCons(reg, bs);
      } else {
        assert RegisterAll(reg, bs).failure.Some? && bs[0].tag in reg;
      }
    }
  }

  /** The condition of `RegisterAllSucceedsIff`, after the first bean is
      inserted. */
  lemma FreshCons(reg: map<TypeTag, HandlerId>, bs: seq<Bean>)
    requires bs != [] && bs[0].tag !in reg
    ensures (DistinctTags(bs) && forall i :: 0 <= i < |bs| ==> bs[i].tag !in reg) <==>
            (DistinctTags(bs[1..]) && forall i :: 0 <= i < |bs[1..]| ==> bs[1..][i].tag !in reg[bs[0].tag := bs[0].handler])
  {
    DistinctTagsCons(bs);
    assert forall i :: 1 <= i < |bs| ==> bs[i] == bs[1..][i - 1];
  }

  /** After a successful pass, every bean's type is bound to that bean's handler. */
  lemma {:induction false} RegisterAllBinds(reg: map<TypeTag, HandlerId>, bs: seq<Bean>)
    requires RegisterAll(reg, bs).failure.None?
    ensures forall i :: 0 <= i < |bs| ==>
              bs[i].tag in RegisterAll(reg, bs).registry && RegisterAll(reg, bs).registry[bs[i].tag] == bs[i].handler
    decreases |bs|
  {
    if bs != [] {
      var step := Register(reg, bs[0]);
      var rest := bs[1..];
      var r := RegisterAll(step.registry, rest);
      assert RegisterAll(reg, bs) == r;
      RegisterAllBinds(step.registry, rest);
      forall i | 0 <= i < |bs| ensures bs[i].tag in r.registry && r.registry[bs[i].tag] == bs[i].handler {
        if i > 0 { assert bs[i] == rest[i - 1]; }
      }
    }
  }

  /** A successful pass binds exactly the types already bound and the beans'
      types. */
  lemma {:induction false} RegisterAllKeys(reg: map<TypeTag, HandlerId>, bs: seq<Bean>)
    requires RegisterAll(reg, bs).failure.None?
    ensures forall t :: t in RegisterAll(reg, bs).registry <==> t in reg || t in Tags(bs)
    decreases |bs|
  {
    if bs != [] {
      var step := Register(reg, bs[0]);
      var rest := bs[1..];
      assert RegisterAll(reg, bs) == RegisterAll(step.registry, rest);
      RegisterAllKeys(step.registry, rest);
      assert Tags(bs) == [bs[0].tag] + Tags(rest);
    }
  }

  /** A pass that throws stops at the first bean whose type is already bound:
      the beans before it were all inserted, and their entries stay. */
  lemma {:induction false} RegisterAllStopsAtDuplicate(reg: map<TypeTag, HandlerId>, bs: seq<Bean>) returns (k: nat)
    requires RegisterAll(reg, bs).failure.Some?
    ensures k < |bs|
    ensures RegisterAll(reg, bs[..k]) == Step(RegisterAll(reg, bs).registry, None)
    ensures bs[k].tag in RegisterAll(reg, bs).registry
    ensures RegisterAll(reg, bs).failure == Some(DuplicateType(bs[k].tag))
    decreases |bs|
  {
    var step := Register(reg, bs[0]);
    if step.failure.Some? {
      k := 0;
      assert bs[..0] == [];
    } else {
      var j := RegisterAllStopsAtDuplicate(step.registry, bs[1..]);
      k := j + 1;
      assert bs[..k][0] == bs[0] && bs[..k][1..] == bs[1..][..j];
    }
  }

  /** Retrying a pass that threw, over the same beans, throws again at the very
      first bean, whose type the failed pass had already inserted, and writes
      nothing. */
  lemma {:induction false} RetryThrowsAtFirstBean(bs: seq<Bean>)
    requires bs != [] && RegisterAll(map[], bs).failure.Some?
    ensures RegisterAll(RegisterAll(map[], bs).registry, bs) ==
              Step(RegisterAll(map[], bs).registry, Some(DuplicateType(bs[0].tag)))
  {
    var step := Register(map[], bs[0]);
    assert step.failure.None? && bs[0].tag in step.registry;
    assert RegisterAll(map[], bs) == RegisterAll(step.registry, bs[1..]);
  }

  /** The first lookup on a fresh registry: when the beans' types are pairwise
      distinct, it finds the handler of the bean bound to the type asked for,
      and no handler for a type that no bean is bound to; otherwise it throws,
      whatever type is asked for. */
  lemma FirstLookup(bs: seq<Bean>, tag: TypeTag)
    ensures DistinctTags(bs) ==>
              forall i :: 0 <= i < |bs| && bs[i].tag == tag ==> Lookup(false, map[], bs, tag) == Return(Some(bs[i].handler))
    ensures DistinctTags(bs) && tag !in Tags(bs) ==> Lookup(false, map[], bs, tag) == Return(None)
    ensures !DistinctTags(bs) ==> Lookup(false, map[], bs, tag).Throw?
  {
    RegisterAllSucceedsIff(map[], bs);
    if DistinctTags(bs) {
      RegisterAllBinds(map[], bs);
      RegisterAllKeys(map[], bs);
    }
  }

  lemma DistinctTagsCons(bs: seq<Bean>)
    requires bs != []
    ensures DistinctTags(bs) <==> DistinctTags(bs[1..]) && forall i :: 1 <= i < |bs| ==> bs[i].tag != bs[0].tag
  {
    if DistinctTags(bs[1..]) && forall i :: 1 <= i < |bs| ==> bs[i].tag != bs[0].tag {
      forall i, j | 0 <= i < j < |bs| ensures bs[i].tag != bs[j].tag {
        if i > 0 { assert bs[i] == bs[1..][i - 1] && bs[j] == bs[1..][j - 1]; }
      }
    }
  }
}
