/** The host framework's scanner context, as far as the scope lifecycle uses
    it: one stack of values per key (`push` and `pop`).
    The framework itself is not part of this model; only the stack
    discipline it offers is stated here. */
module ScannerContexts {
  import opened ArtifactBasedTypeResolving
  import opened DefaultTypeResolving

  /** The keys the context is indexed by (`TypeResolver.class` and the rest). */
  datatype ContextKey = TypeResolverKey | OtherKey(name: string)

  /** The two resolver strategies a TypeResolver stack entry can be. */
  datatype TypeResolver =
    | Default(defaultResolver: DefaultTypeResolver)
    | ArtifactBased(artifactResolver: ArtifactBasedTypeResolver)

  datatype ContextValue = ResolverValue(resolver: TypeResolver) | OtherValue(name: string)

  type Stacks = map<ContextKey, seq<ContextValue>>

  /** The stack under a key; a key never pushed has the empty stack. Tops are last. */
  function StackOf(stacks: Stacks, key: ContextKey): seq<ContextValue>
  {
    if key in stacks then stacks[key] else []
  }

  /** The stacks after pushing `v` under `key`. */
  function Pushed(stacks: Stacks, key: ContextKey, v: ContextValue): (r: Stacks)
    ensures StackOf(r, key) == StackOf(stacks, key) + [v]
    ensures forall k :: k != key ==> StackOf(r, k) == StackOf(stacks, k)
  {
    stacks[key := StackOf(stacks, key) + [v]]
  }

  /** The stacks after popping under a non-empty `key`. */
  function Popped(stacks: Stacks, key: ContextKey): (r: Stacks)
    requires StackOf(stacks, key) != []
    ensures StackOf(r, key) + [StackOf(stacks, key)[|StackOf(stacks, key)| - 1]] == StackOf(stacks, key)
    ensures forall k :: k != key ==> StackOf(r, k) == StackOf(stacks, k)
  {
    var s := StackOf(stacks, key);
    stacks[key := s[..|s| - 1]]
  }

  /** Popping undoes pushing, under every key. */
  lemma PopUndoesPush(stacks: Stacks, key: ContextKey, v: ContextValue)
    ensures StackOf(Pushed(stacks, key, v), key) != []
    ensures forall k :: StackOf(Popped(Pushed(stacks, key, v), key), k) == StackOf(stacks, k)
  {
  }

  class ScannerContext {
    var stacks: Stacks

    constructor ()
      ensures forall k :: StackOf(stacks, k) == []
    {
      stacks := map[];
    }

    function Values(key: ContextKey): seq<ContextValue>
      reads this
    {
      StackOf(stacks, key)
    }

    method Push(key: ContextKey, v: ContextValue)
      modifies this`stacks
      ensures stacks == Pushed(old(stacks), key, v)
    {
      stacks := Pushed(stacks, key, v);
    }

    /** Removes and returns the top under `key`; on an empty stack nothing
        changes and the failure is reported as `None`. */
    method Pop(key: ContextKey) returns (top: Option<ContextValue>)
      modifies this`stacks
      ensures old(Values(key)) == [] ==> top.None? && stacks == old(stacks)
      ensures old(Values(key)) != [] ==>
                top == Some(old(Values(key))[|old(Values(key))| - 1]) && stacks == Popped(old(stacks), key)
    {
      if Values(key) == [] {
        top := None;
      } else {
        var s := Values(key);
        top := Some(s[|s| - 1]);
        stacks := Popped(stacks, key);
      }
    }
  }

  datatype Option<T> = None | Some(value: T)
}
