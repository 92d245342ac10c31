/** The slice of the declaration graph that the type resolvers touch.
    In the system these are store-backed descriptor interfaces; here they are
    plain objects (for nodes whose edges are updated in place) and values (for
    relations and references that are only read). */
module JavaModel {

  /** A Type node. Only the parts the resolvers read or write are kept: the
      indexed fully-qualified name and the two single-valued incoming edges
      `declarationUnit` (DECLARES) and `requiredBy` (REQUIRES). */
  class TypeDescriptor {
    const fullQualifiedName: string
    var declarationUnit: JavaCompilationUnit?
    var requiredBy: JavaCompilationUnit?

    constructor (fqn: string)
      ensures fullQualifiedName == fqn
      ensures declarationUnit == null && requiredBy == null
    {
      fullQualifiedName := fqn;
      declarationUnit := null;
      requiredBy := null;
    }
  }

  /** A dependency artifact: an opaque resolution boundary, never mutated here. */
  datatype ArtifactDescriptor = ArtifactDescriptor(fullQualifiedName: string)

  /** A DEPENDS_ON relation of a compilation unit; `dependency` is its target. */
  datatype DependsOn = DependsOn(dependency: ArtifactDescriptor)

  /** An entry of the unit's CONTAINS list: either a Type node or some other
      file descriptor. */
  datatype FileEntry = TypeFile(descriptor: TypeDescriptor) | OtherFile(fileName: string)

  /** The store-side query `resolveRequiredType(fqn, dependencies)`: the Types
      contained in the given artifacts whose name is `fqn`, in result order.
      The query language behind it is not part of this model. */
  type RequiredTypeQuery = (string, seq<ArtifactDescriptor>) -> seq<TypeDescriptor>

  /** A compilation unit, read as an abstract record carrying the three lists
      the resolver iterates over and the query it issues. */
  class JavaCompilationUnit {
    var contains: seq<FileEntry>
    var requiresTypes: seq<TypeDescriptor>
    var dependencies: seq<DependsOn>
    const resolveRequiredType: RequiredTypeQuery

    constructor (contains: seq<FileEntry>, requiresTypes: seq<TypeDescriptor>,
                 dependencies: seq<DependsOn>, query: RequiredTypeQuery)
      ensures this.contains == contains && this.requiresTypes == requiresTypes
      ensures this.dependencies == dependencies && resolveRequiredType == query
    {
      this.contains := contains;
      this.requiresTypes := requiresTypes;
      this.dependencies := dependencies;
      resolveRequiredType := query;
    }
  }

  /** The backing graph store, reduced to its index of Type nodes by
      fully-qualified name (`store.find(TypeDescriptor.class, fqn)`). */
  class Store {
    var types: map<string, TypeDescriptor>

    constructor (types: map<string, TypeDescriptor>)
      ensures this.types == types
    {
      this.types := types;
    }
  }
}
