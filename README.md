# Type-resolver hooks, comment-preserving tree nodes and the line scanner of a Java-source graph scanner

This project models, in Dafny, the sequential core of a jQAssistant plugin that scans Java source into a graph:

- **Type-resolver hooks.** The artifact-scoped resolver keeps a per-compilation-unit map from fully-qualified name to Type node. The map is seeded from the unit's contained Types and then from its required Types. The resolver also copies the unit's dependency list, which gates the dependency query, and it sets and clears the single-valued `requiredBy` edge of Type nodes. The global resolver looks everything up in the store and ignores the bookkeeping hooks.
- **Scope lifecycle.** Entering the CLASSPATH scope pushes a fresh global resolver onto the context's TypeResolver stack. Leaving it pops one entry.
- **Comment-preserving tree enrichment.** The collector token source passes tokens through unchanged and logs those whose type is in a fixed set. Enriched tree nodes carry append-only preceding and following comment lists and a memoised last line. The adapter is the node factory.
- **Plain-text line scanner.** Turns a sequence of lines into numbered Line nodes, links each to the next line, and attaches all of them in order to one file node.

Objects whose fields the source updates in place are classes: Type nodes, compilation units, the store, the resolvers, the scanner context, the token sources, tree nodes and line nodes. Relations and references that are only read are datatypes. Several things become parameters, abstract fields or abstract functions in the model:

- the backing store: a map from name to Type;
- the store query `resolveRequiredType`: a function from a name and an artifact list to a sequence of Types;
- the upstream lexer: a function from position to token;
- the parser library's child list, token indices and `getLine()`: fields of the node;
- the input stream of the line scanner: its sequence of lines.

Two behaviours of the code are worth stating plainly. `TypeResolverBuilder.createTypeResolver` (TypeResolverBuilder.java:9-11) ignores the context and always builds the global resolver. So `JavaSourceScope.Create` pushes a fresh global resolver even when a compilation unit is on the context. `removeRequiredType` (ArtifactBasedTypeResolver.java:83-85) only clears the `requiredBy` edge and keeps the map entry, so a later local lookup still finds the Type.

## Model

| member | source | states |
|---|---|---|
| `ArtifactBasedTypeResolving.ArtifactBasedTypeResolver.constructor` | src/main/java/de/uniulm/iai/jqassistant/javasrc/plugin/api/scanner/ArtifactBasedTypeResolver.java:35-50 | the map is the contained Types put first, then the required Types; the dependency list is the relation targets in order |
| `ArtifactBasedTypeResolving.TypesOfAppend` | src/main/java/de/uniulm/iai/jqassistant/javasrc/plugin/api/scanner/ArtifactBasedTypeResolver.java:37-42 | the filter keeps CONTAINS order: the Types of two consecutive runs of entries are the first run's Types followed by the second's |
| `ArtifactBasedTypeResolving.TypesOfMembership` | src/main/java/de/uniulm/iai/jqassistant/javasrc/plugin/api/scanner/ArtifactBasedTypeResolver.java:37-42 | a Type passes the filter exactly when the unit contains it as a Type entry; non-type files are skipped |
| `ArtifactBasedTypeResolving.PutAllKeys` | src/main/java/de/uniulm/iai/jqassistant/javasrc/plugin/api/scanner/ArtifactBasedTypeResolver.java:40-44 | after a run of puts, a name is a key exactly when it was one before or some put used it |
| `ArtifactBasedTypeResolving.PutAllLastWins` | src/main/java/de/uniulm/iai/jqassistant/javasrc/plugin/api/scanner/ArtifactBasedTypeResolver.java:40-44 | the last put under a name decides its value |
| `ArtifactBasedTypeResolving.PutAllUntouched` | src/main/java/de/uniulm/iai/jqassistant/javasrc/plugin/api/scanner/ArtifactBasedTypeResolver.java:40-44 | a name no put used keeps its old binding or stays absent |
| `ArtifactBasedTypeResolving.ContainedTypeIsSeeded` | src/main/java/de/uniulm/iai/jqassistant/javasrc/plugin/api/scanner/ArtifactBasedTypeResolver.java:37-42 | every contained Type's name is a key of the seeded map |
| `ArtifactBasedTypeResolving.SeededKeys` | src/main/java/de/uniulm/iai/jqassistant/javasrc/plugin/api/scanner/ArtifactBasedTypeResolver.java:37-45 | the seeded keys are exactly the names of the contained Types and of the required Types |
| `ArtifactBasedTypeResolving.RequiredTypeOverridesContained` | src/main/java/de/uniulm/iai/jqassistant/javasrc/plugin/api/scanner/ArtifactBasedTypeResolver.java:43-45 | a required Type overwrites a contained Type of the same name; the last required one under a name is what the map holds |
| `ArtifactBasedTypeResolving.ContainedTypeSurvives` | src/main/java/de/uniulm/iai/jqassistant/javasrc/plugin/api/scanner/ArtifactBasedTypeResolver.java:37-45 | a contained Type whose name no later contained Type and no required Type shares is what the map holds under that name |
| `ArtifactBasedTypeResolving.DependencyTargetsAt` | src/main/java/de/uniulm/iai/jqassistant/javasrc/plugin/api/scanner/ArtifactBasedTypeResolver.java:46-49 | the dependency list has one entry per DEPENDS_ON relation; entry i is relation i's target |
| `ArtifactBasedTypeResolving.ArtifactBasedTypeResolver.FindInArtifact` | src/main/java/de/uniulm/iai/jqassistant/javasrc/plugin/api/scanner/ArtifactBasedTypeResolver.java:53-55 | non-null exactly for names in the local map, and then the mapped Type; it reads only the resolver, never the store |
| `ArtifactBasedTypeResolving.ArtifactBasedTypeResolver.FindInDependencies` | src/main/java/de/uniulm/iai/jqassistant/javasrc/plugin/api/scanner/ArtifactBasedTypeResolver.java:58-69 | null with no dependencies, whatever the query would answer; otherwise the first query result, or null when the result is empty |
| `ArtifactBasedTypeResolving.ArtifactBasedTypeResolver.AddContainedType` | src/main/java/de/uniulm/iai/jqassistant/javasrc/plugin/api/scanner/ArtifactBasedTypeResolver.java:72-74 | the map gains `fqn := td` and is otherwise unchanged; `td.requiredBy` and the dependency list are not in the frame |
| `ArtifactBasedTypeResolving.ArtifactBasedTypeResolver.AddRequiredType` | src/main/java/de/uniulm/iai/jqassistant/javasrc/plugin/api/scanner/ArtifactBasedTypeResolver.java:77-80 | the map gains `fqn := td`, a later lookup of `fqn` returns `td`, and `td.requiredBy` is the resolver's unit |
| `ArtifactBasedTypeResolving.ArtifactBasedTypeResolver.RemoveRequiredType` | src/main/java/de/uniulm/iai/jqassistant/javasrc/plugin/api/scanner/ArtifactBasedTypeResolver.java:83-85 | `td.requiredBy` becomes null; the map and the dependency list stay as they were, so the lookup still succeeds |
| `ArtifactBasedTypeResolving.RequireThenRemove` | src/main/java/de/uniulm/iai/jqassistant/javasrc/plugin/api/scanner/ArtifactBasedTypeResolver.java:77-85 | after adding and then removing a required Type, it is still found under its name and is required by nothing |
| `DefaultTypeResolving.DefaultTypeResolver.FindInArtifact` | src/main/java/de/uniulm/iai/jqassistant/javasrc/plugin/api/scanner/DefaultTypeResolver.java:13-15 | the store's Type under the name, or null when the store has none |
| `DefaultTypeResolving.DefaultTypeResolver.FindInDependencies` | src/main/java/de/uniulm/iai/jqassistant/javasrc/plugin/api/scanner/DefaultTypeResolver.java:18-20 | agrees with `FindInArtifact` for every name and store |
| `DefaultTypeResolving.DefaultTypeResolver.RemoveRequiredType` | src/main/java/de/uniulm/iai/jqassistant/javasrc/plugin/api/scanner/DefaultTypeResolver.java:22-24 | changes neither the Type (so not its `requiredBy`) nor the store |
| `DefaultTypeResolving.DefaultTypeResolver.AddRequiredType` | src/main/java/de/uniulm/iai/jqassistant/javasrc/plugin/api/scanner/DefaultTypeResolver.java:26-28 | changes neither the Type nor the store |
| `DefaultTypeResolving.DefaultTypeResolver.AddContainedType` | src/main/java/de/uniulm/iai/jqassistant/javasrc/plugin/api/scanner/DefaultTypeResolver.java:30-32 | changes neither the Type nor the store |
| `DefaultTypeResolving.LookupsAreStable` | src/main/java/de/uniulm/iai/jqassistant/javasrc/plugin/api/scanner/DefaultTypeResolver.java:10-33 | a lookup by `FindInArtifact`, then `AddRequiredType`, `AddContainedType` and `RemoveRequiredType` once each for that name and one Type, then a lookup by `FindInDependencies`: the two lookups agree, against the same store |
| `ScannerContexts.Pushed` | src/main/java/de/uniulm/iai/jqassistant/javasrc/plugin/api/scanner/JavaSourceScope.java:14 | pushing adds the value on top of the key's stack and leaves every other key's stack alone |
| `ScannerContexts.Popped` | src/main/java/de/uniulm/iai/jqassistant/javasrc/plugin/api/scanner/JavaSourceScope.java:19 | popping removes exactly the top of the key's stack and leaves every other key's stack alone |
| `ScannerContexts.PopUndoesPush` | src/main/java/de/uniulm/iai/jqassistant/javasrc/plugin/api/scanner/JavaSourceScope.java:13-20 | a pop after a push restores every stack |
| `ScannerContexts.ScannerContext.Push` | src/main/java/de/uniulm/iai/jqassistant/javasrc/plugin/api/scanner/JavaSourceScope.java:14 | the stacks become the old stacks with the value on top of the key's stack |
| `ScannerContexts.ScannerContext.Pop` | src/main/java/de/uniulm/iai/jqassistant/javasrc/plugin/api/scanner/JavaSourceScope.java:19 | returns and removes the top; on an empty stack it reports failure and changes nothing |
| `JavaSourceScopes.CreateTypeResolver` | src/main/java/de/uniulm/iai/jqassistant/javasrc/plugin/api/scanner/TypeResolverBuilder.java:9-11 | always a fresh global resolver |
| `JavaSourceScopes.JavaSourceScope.Create` | src/main/java/de/uniulm/iai/jqassistant/javasrc/plugin/api/scanner/JavaSourceScope.java:13-15 | the TypeResolver stack grows by exactly one fresh global resolver on top; other stacks are unchanged |
| `JavaSourceScopes.JavaSourceScope.Destroy` | src/main/java/de/uniulm/iai/jqassistant/javasrc/plugin/api/scanner/JavaSourceScope.java:18-20 | the TypeResolver stack loses exactly its top; other stacks are unchanged |
| `JavaSourceScopes.CreateThenDestroy` | src/main/java/de/uniulm/iai/jqassistant/javasrc/plugin/api/scanner/JavaSourceScope.java:13-20 | entering and leaving the scope restores every stack of the context exactly |
| `JavaSourceScopes.JavaSourceScope.GetPrefix` | src/main/java/de/uniulm/iai/jqassistant/javasrc/plugin/api/scanner/JavaSourceScope.java:24-26 | the prefix is "javasrc" |
| `JavaSourceScopes.JavaSourceScope.GetName` | src/main/java/de/uniulm/iai/jqassistant/javasrc/plugin/api/scanner/JavaSourceScope.java:29-31 | the name is the constant's own name, "CLASSPATH" |
| `Tokens.TokenSource.NextToken` | src/main/java/de/uniulm/iai/comma/lib/ast/javasource/CollectorTokenSource.java:47 | the upstream source yields the token at its cursor and advances by one |
| `CollectorTokenSources.CollectedMembership` | src/main/java/de/uniulm/iai/comma/lib/ast/javasource/CollectorTokenSource.java:46-60 | a token is in the log exactly when it was pulled and its type is collected |
| `CollectorTokenSources.CollectedAppend` | src/main/java/de/uniulm/iai/comma/lib/ast/javasource/CollectorTokenSource.java:46-52 | the log of two runs of pulls is the first run's log followed by the second's |
| `CollectorTokenSources.CollectedMonotone` | src/main/java/de/uniulm/iai/comma/lib/ast/javasource/CollectorTokenSource.java:34-49 | the log is append-only: the log of earlier pulls is a prefix of the log of later pulls |
| `CollectorTokenSources.CollectorTokenSource.constructor` | src/main/java/de/uniulm/iai/comma/lib/ast/javasource/CollectorTokenSource.java:36-40 | the collected types are a copy of the given ones, held in a constant; the log and the pull history start empty |
| `CollectorTokenSources.CollectorTokenSource.NextToken` | src/main/java/de/uniulm/iai/comma/lib/ast/javasource/CollectorTokenSource.java:46-52 | returns exactly the upstream token and advances upstream by one; the log grows by that token exactly when its type is collected; the log stays the filter of all pulls |
| `CollectorTokenSources.CollectorTokenSource.ShouldCollect` | src/main/java/de/uniulm/iai/comma/lib/ast/javasource/CollectorTokenSource.java:57-60 | true exactly when the log's filter keeps the token: filtering it alone gives the token when true and nothing when false |
| `CollectorTokenSources.CollectorTokenSource.GetCollectedTokens` | src/main/java/de/uniulm/iai/comma/lib/ast/javasource/CollectorTokenSource.java:62-64 | the log is the in-order filter, by type membership, of every token pulled so far |
| `CollectorTokenSources.CollectorTokenSource.GetSourceName` | src/main/java/de/uniulm/iai/comma/lib/ast/javasource/CollectorTokenSource.java:68-70 | "Collect hidden channel " followed by the upstream source's name |
| `EnhancedCommonTrees.EnhancedCommonTree.constructor` | src/main/java/de/uniulm/iai/comma/lib/ast/javasource/EnhancedCommonTree.java:29-35 | a new node has empty comment lists and last line -1 |
| `EnhancedCommonTrees.EnhancedCommonTree.ErrorTree` | src/main/java/de/uniulm/iai/comma/lib/ast/javasource/EnhancedCommonErrorTree.java:33-36 | the error variant carries the start token as its own token |
| `EnhancedCommonTrees.EnhancedCommonTree.GetLastLine` | src/main/java/de/uniulm/iai/comma/lib/ast/javasource/EnhancedCommonTree.java:55-68 | a cached value is returned untouched; a leaf with an unset index caches its token's line; a leaf with both indices set returns the unset value without caching; with children the last child's line is cached, not that child's last line; an empty child list caches nothing; asking again gives the same answer |
| `EnhancedCommonTrees.LastLineIsIdempotent` | src/main/java/de/uniulm/iai/comma/lib/ast/javasource/EnhancedCommonTree.java:55-68 | two calls in a row return the same value |
| `EnhancedCommonTrees.EnhancedCommonTree.AddPreceding` | src/main/java/de/uniulm/iai/comma/lib/ast/javasource/EnhancedCommonTree.java:70-76 | the preceding comments become the old list followed by the tokens in order; the following list is not touched |
| `EnhancedCommonTrees.EnhancedCommonTree.GetPrecedingComments` | src/main/java/de/uniulm/iai/comma/lib/ast/javasource/EnhancedCommonTree.java:74-76 | the preceding list itself, everything added so far |
| `EnhancedCommonTrees.EnhancedCommonTree.GetFollowingComments` | src/main/java/de/uniulm/iai/comma/lib/ast/javasource/EnhancedCommonTree.java:82-84 | the following list itself, everything added so far |
| `EnhancedCommonTrees.EnhancedCommonTree.AddFollowing` | src/main/java/de/uniulm/iai/comma/lib/ast/javasource/EnhancedCommonTree.java:78-84 | the following comments become the old list followed by the tokens in order; the preceding list is not touched |
| `EnhancedCommonTreeAdapters.Create` | src/main/java/de/uniulm/iai/comma/lib/ast/javasource/EnhancedCommonTreeAdapter.java:28-30 | a fresh plain node with the given token and its line, empty comment lists, no children, unset token indices and last line -1 |
| `EnhancedCommonTreeAdapters.ErrorNode` | src/main/java/de/uniulm/iai/comma/lib/ast/javasource/EnhancedCommonTreeAdapter.java:33-35 | always a fresh node of the error variant carrying the start token and the error line, never a plain one, with empty comment lists, no children, unset token indices and last line -1 |
| `EnhancedCommonTreeAdapters.DupNode` | src/main/java/de/uniulm/iai/comma/lib/ast/javasource/EnhancedCommonTreeAdapter.java:38-43 | null exactly for null; otherwise a fresh plain node with the same token and that token's line, unset token indices, and none of the comments, children or cached last line |
| `MyLanguageScanner.EndsWith` | src/main/java/com/buschmais/jqassistant/demo/plugin/scanner/MyLanguageScannerPlugin.java:26 | true exactly when the suffix fits and the string's last characters equal it |
| `MyLanguageScanner.Accepts` | src/main/java/com/buschmais/jqassistant/demo/plugin/scanner/MyLanguageScannerPlugin.java:25-27 | true exactly when the path is some stem followed by ".myLanguage" |
| `MyLanguageScanner.Scan` | src/main/java/com/buschmais/jqassistant/demo/plugin/scanner/MyLanguageScannerPlugin.java:30-61 | one fresh file node holding one fresh, distinct Line node per input line, in order (none for empty input); line i has number i and text input[i]; each line's next is the following line; the last line's next stays null |

## Left out

- The resolution algorithm itself: tier order, placeholder creation and promotion of incomplete Types. It lives in `AbstractTypeResolver`, which is not part of this model. Only the hooks that algorithm calls are modelled.
- `ArtifactBasedTypeResolving.ArtifactBasedTypeResolver.AddRequiredType`, `ArtifactBasedTypeResolving.ArtifactBasedTypeResolver.RemoveRequiredType`: in the store, a Type's incoming `requiredBy` edge (TypeDescriptor.java:97-101, the REQUIRES relation of RequiresType.java:11) and the unit's outgoing REQUIRES list read at ArtifactBasedTypeResolver.java:43 are the two ends of one relation. The model keeps them as separate fields. Setting or clearing the edge therefore does not grow or shrink the unit's `requiresTypes` list, and a resolver built later for the same unit is seeded without the Types required or released in between.
- The graph store, its transactions and the Cypher behind `resolveRequiredType`. The store is a map from name to Type, and the query is an abstract function on the compilation unit.
- The scanner context. It belongs to the host framework and is not part of this model. Only its per-key stacks are modelled, as `ScannerContexts.ScannerContext`. The store the context hands out (`context.getStore()`) is passed to the lookups as a parameter instead. An empty-stack pop throws in the framework. The model reports it as a failure value from `Pop` and `Destroy` instead.
- `JavaSourceScopes.JavaSourceScope.Destroy`: returns a success flag, where the source's `destroy` returns nothing.
- `CollectorTokenSources.CollectorTokenSource.GetCollectedTokens`, `EnhancedCommonTrees.EnhancedCommonTree.GetPrecedingComments`, `EnhancedCommonTrees.EnhancedCommonTree.GetFollowingComments`: the source returns the mutable list itself, so a caller could clear, reorder or extend the log or a comment list. The model returns sequence values, so that aliasing is not captured. The log invariant and the append-only claims hold only for callers that never mutate a returned list.
- `EnhancedCommonTrees.EnhancedCommonTree.constructor`, `EnhancedCommonTreeAdapters.Create`, `EnhancedCommonTrees.EnhancedCommonTree.GetLastLine`: the source accepts a null token, which is how the parser library builds nil root nodes. On such a node with no children and an unset index, `getLastLine` throws a null-pointer exception. The model's tokens are never null, so that node and that failure are not captured.
- Node identity of tokens. Tokens are values here, so "appended by reference" reads as "appended equal".
- The parser library's `getLine()` on nodes, child lists, token indices, `getChild`/`getChildren`/`getParent`, and the error tree's delegation to its wrapped error node. `getChild`, `getChildren` and `getParent` are typed casts. `getLine()` is a constant field of each node. For plain nodes it is the token's line; the library's fallback to the first child for line 0 is not modelled. The error tree is a `kind` tag; its line is given when it is built.
- `EnhancedCommonTreeAdapters.DupNode`: a typed model cannot be given a non-node, so the source's class-cast failure on such an argument is not modelled.
- `EnhancedCommonTreeAdapters.ErrorNode`: the token stream and the recognition exception are not modelled; only the start and stop tokens are kept.
- Reading the stream in `MyLanguageScanner.Scan`. The input is its sequence of lines, and read errors are not modelled.
- `MyLanguageScanner.Scan`: the line counter is an unbounded integer, so the 32-bit wrap-around after 2^31 lines is not modelled.
- The descriptor interfaces beyond the Type edges the resolvers use, the measure visitors, the embedded test harness and the sample input files, which have no logic that the modelled operations depend on.
- Concurrency: it is delegated to the store and the host framework.
