/** The global resolver hooks: both lookups go to the store's index of Type
    nodes by fully-qualified name, and the bookkeeping hooks do nothing. */
module DefaultTypeResolving {
  import opened JavaModel

  /** Stateless: the class has no fields. */
  class DefaultTypeResolver {

    constructor ()
    {
    }

    /** `store.find(TypeDescriptor.class, fullQualifiedName)`: null when the
        store holds no Type under that name. */
    function FindInArtifact(fullQualifiedName: string, store: Store): (r: TypeDescriptor?)
      reads store
      ensures r != null <==> fullQualifiedName in store.types
      ensures r != null ==> r == store.types[fullQualifiedName]
    {
      if fullQualifiedName in store.types then store.types[fullQualifiedName] else null
    }

    /** The same store lookup: no dependency boundary applies globally. */
    function FindInDependencies(fullQualifiedName: string, store: Store): (r: TypeDescriptor?)
      reads store
      ensures r == FindInArtifact(fullQualifiedName, store)
    {
      if fullQualifiedName in store.types then store.types[fullQualifiedName] else null
    }

    /** No-op: there is no scope whose requirements could be retracted. */
    method RemoveRequiredType(fqn: string, typeDescriptor: TypeDescriptor, store: Store)
      ensures unchanged(typeDescriptor, store)
    {
    }

    /** No-op: the `requiredBy` edge is not set. */
    method AddRequiredType(fqn: string, typeDescriptor: TypeDescriptor, store: Store)
      ensures unchanged(typeDescriptor, store)
    {
    }

    /** No-op: declared Types are found through the store itself. */
    method AddContainedType(fqn: string, typeDescriptor: TypeDescriptor, store: Store)
      ensures unchanged(typeDescriptor, store)
    {
    }
  }

  /** A lookup of a name, then one call each of `AddRequiredType`,
      `AddContainedType` and `RemoveRequiredType` with that name and one Type,
      then a second lookup: against the same store, the two lookups agree. */
  method LookupsAreStable(resolver: DefaultTypeResolver, fqn: string, t: TypeDescriptor, store: Store)
    returns (first: TypeDescriptor?, second: TypeDescriptor?)
    ensures first == second
    ensures first != null <==> fqn in store.types
  {
    first := resolver.FindInArtifact(fqn, store);
    resolver.AddRequiredType(fqn, t, store);
    resolver.AddContainedType(fqn, t, store);
    resolver.RemoveRequiredType(fqn, t, store);
    second := resolver.FindInDependencies(fqn, store);
  }
}
