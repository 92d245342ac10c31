/** The CLASSPATH scope: publishes a TypeResolver on the context's
    TypeResolver stack for the duration of one scan and withdraws it after. */
module JavaSourceScopes {
  import opened DefaultTypeResolving
  import opened ScannerContexts

  /** The resolver factory: always a fresh global resolver, whatever the
      context holds. */
  method CreateTypeResolver(context: ScannerContext) returns (r: TypeResolver)
    ensures r.Default? && fresh(r.defaultResolver)
  {
    var d := new DefaultTypeResolver();
    r := Default(d);
  }

  /** The scopes for Java sources; CLASSPATH is the only one. */
  datatype JavaSourceScope = CLASSPATH {

    /** Pushes exactly one fresh global resolver under TypeResolverKey. */
    method Create(context: ScannerContext)
      modifies context`stacks
      ensures |context.Values(TypeResolverKey)| == |old(context.Values(TypeResolverKey))| + 1
      ensures context.Values(TypeResolverKey)[..|old(context.Values(TypeResolverKey))|]
                == old(context.Values(TypeResolverKey))
      ensures var top := context.Values(TypeResolverKey)[|old(context.Values(TypeResolverKey))|];
                top.ResolverValue? && top.resolver.Default? && fresh(top.resolver.defaultResolver)
      ensures forall k :: k != TypeResolverKey ==> context.Values(k) == old(context.Values(k))
    {
      var resolver := CreateTypeResolver(context);
      context.Push(TypeResolverKey, ResolverValue(resolver));
    }

    /** Pops exactly one entry from the TypeResolver stack; `ok` is false,
        and nothing changes, when that stack is empty. */
    method Destroy(context: ScannerContext) returns (ok: bool)
      modifies context`stacks
      ensures ok <==> old(context.Values(TypeResolverKey)) != []
      ensures ok ==> context.Values(TypeResolverKey) + [old(context.Values(TypeResolverKey))[|old(context.Values(TypeResolverKey))| - 1]]
                       == old(context.Values(TypeResolverKey))
      ensures !ok ==> context.stacks == old(context.stacks)
      ensures forall k :: k != TypeResolverKey ==> context.Values(k) == old(context.Values(k))
    {
      var top := context.Pop(TypeResolverKey);
      ok := top.Some?;
    }

    function GetPrefix(): (r: string)
      ensures r == "javasrc"
    {
      "javasrc"
    }

    /** The enum constant's own name. */
    function GetName(): (r: string)
      ensures r == "CLASSPATH"
    {
      match this
      case CLASSPATH => "CLASSPATH"
    }
  }

  /** Entering and leaving the scope restores every stack of the context. */
  method CreateThenDestroy(scope: JavaSourceScope, context: ScannerContext)
    modifies context`stacks
    ensures forall k :: context.Values(k) == old(context.Values(k))
  {
    ghost var before := context.Values(TypeResolverKey);
    scope.Create(context);
    ghost var pushed := context.Values(TypeResolverKey);
    assert pushed == before + [pushed[|before|]];
    var ok := scope.Destroy(context);
  }
}
