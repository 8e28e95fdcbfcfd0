# Turin compiler semantic core, in Dafny

This project models five pieces of the semantic layer of the Turin compiler:

- **Source symbol resolver** (`SrcSymbolResolver`). It is built once from the parsed files of a batch. It fills four tables keyed by qualified name: types, properties, programs and functions. It also collects the set of package (context) names. After that it answers read-only lookups. The model is the class `Resolvers.SrcSymbolResolver`:
  - Its constructor walks the files with a loop and fills `map<string, Decl>` fields.
  - It is proved equal to the specification functions `AllOf`, `Registered` and `Packages`.
  - Lemmas state what a lookup finds after construction.
- **Relation definitions** (`RelationDefinition`). A relation has fields of cardinality SINGLE or MANY. Its kind (ONE_TO_ONE, ONE_TO_MANY or MANY_TO_MANY) is derived by counting. The counting method is proved equal to the function `RelationKindOf`. Lemmas cover the kind table, order independence, and the one-to-many accessors.
- **Function-reference type usages** (`FunctionReferenceTypeUsage`). A datatype with constant capabilities. It sits inside the closed `TypeUsage` datatype: primitive, array, reference, function reference, void.
- **Array access and integer literal expressions** (`ArrayAccess`, `IntLiteral`). Both are AST nodes of one class, `Expressions.Expression`:
  - The kind is immutable. The parent link is mutable and set by the enclosing node's constructor.
  - A type computation covers both kinds.
  - Literal equality and hashing are modelled.

The exceptions the source throws (`UnsupportedOperationException`, `IllegalStateException`, `UnsolvedMethodException`, and out-of-range list access) become `Failure` values of a `Result`. What the source takes from classes outside the model is a given field or parameter here:
- positions;
- qualified and context names;
- the base node's own check;
- the host type mapping.

Files: `wrappers.dfy` (Option, Result), `ast.dfy` (positions, diagnostics, error collector), `declarations.dfy` (declarations, files, symbols), `type_system.dfy`, `expressions.dfy`, `relations.dfy`, `resolvers.dfy`.

Some behaviour of the source that a reader might not expect, and that the model keeps:
- The resolver stores a `parent` resolver but no lookup consults it, so a local miss is simply a miss.
- The four tables may hold the same qualified name; `FindSymbol` resolves that by its fixed order: type, property, function, program.
- When a relation does not have exactly two fields, `SpecificValidate` records the arity error and returns false without running the base node's check.
- `firstField` and `secondField` check nothing but list bounds, whatever the relation kind; `getRelationType` throws for every count combination other than the three accepted ones. The model returns the corresponding failures.

## Model

| member | source | states |
|---|---|---|
| Resolvers.SrcSymbolResolver.constructor | turin-compiler/src/main/java/me/tomassetti/turin/parser/analysis/resolvers/SrcSymbolResolver.java:39-62 | after construction each of the four tables is the map obtained by putting every top-level declaration of its kind, file after file and in source order, under its qualified name (later puts overwrite); the package set is the context names of all of them; parent is null |
| Resolvers.SrcSymbolResolver.IndexFile | turin-compiler/src/main/java/me/tomassetti/turin/parser/analysis/resolvers/SrcSymbolResolver.java:44-61 | one pass of the outer loop: tables and package set that index files `0..i` come to index files `0..i+1`; parent is untouched |
| Resolvers.SrcSymbolResolver.RegisterAll | turin-compiler/src/main/java/me/tomassetti/turin/parser/analysis/resolvers/SrcSymbolResolver.java:45-60 | one inner loop: the table of the given kind becomes the earlier table with each declaration put in order; the other three tables and parent are unchanged; the package set grows by exactly the declarations' context names |
| Resolvers.SrcSymbolResolver.GetParent | turin-compiler/src/main/java/me/tomassetti/turin/parser/analysis/resolvers/SrcSymbolResolver.java:29-32 | returns the stored parent (null after construction) |
| Resolvers.SrcSymbolResolver.SetParent | turin-compiler/src/main/java/me/tomassetti/turin/parser/analysis/resolvers/SrcSymbolResolver.java:34-37 | the parent becomes the new value; the four tables and the package set are unchanged |
| Resolvers.SrcSymbolResolver.FindDefinition | turin-compiler/src/main/java/me/tomassetti/turin/parser/analysis/resolvers/SrcSymbolResolver.java:64-72 | found exactly when `contextName + "." + name` is a key of the property table, and then it is that entry; no other table is consulted |
| Resolvers.SrcSymbolResolver.FindTypeDefinitionIn | turin-compiler/src/main/java/me/tomassetti/turin/parser/analysis/resolvers/SrcSymbolResolver.java:74-81 | found exactly when the name is a key of the type table, whatever the context and resolver arguments, and then it is that entry |
| Resolvers.SrcSymbolResolver.FindTypeUsageIn | turin-compiler/src/main/java/me/tomassetti/turin/parser/analysis/resolvers/SrcSymbolResolver.java:83-90 | found exactly when the name is a key of the type table, and then it is a reference type usage to that entry |
| Resolvers.SrcSymbolResolver.FindJvmDefinition | turin-compiler/src/main/java/me/tomassetti/turin/parser/analysis/resolvers/SrcSymbolResolver.java:92-95 | fails with an unsolved-method error carrying the call, for every call |
| Resolvers.SrcSymbolResolver.FindSymbol | turin-compiler/src/main/java/me/tomassetti/turin/parser/analysis/resolvers/SrcSymbolResolver.java:97-111 | empty exactly when no table holds the name; a name in the type table gives its type entry; otherwise a name in the property table gives its property entry, else the function entry, else the program entry; a result of each tag comes only from that cascade |
| Resolvers.SrcSymbolResolver.ExistPackage | turin-compiler/src/main/java/me/tomassetti/turin/parser/analysis/resolvers/SrcSymbolResolver.java:113-116 | true exactly when the name is in the package set |
| Resolvers.RegisteredKeys | turin-compiler/src/main/java/me/tomassetti/turin/parser/analysis/resolvers/SrcSymbolResolver.java:45-60 | a qualified name is a key of a filled table exactly when some declaration put into it carries that name |
| Resolvers.RegisteredLastWins | turin-compiler/src/main/java/me/tomassetti/turin/parser/analysis/resolvers/SrcSymbolResolver.java:47 | on duplicate qualified names the table keeps the declaration put last |
| Resolvers.InAllOf | turin-compiler/src/main/java/me/tomassetti/turin/parser/analysis/resolvers/SrcSymbolResolver.java:44-61 | the declarations walked for one kind are exactly those some file holds at top level for that kind |
| Resolvers.InContextNames | turin-compiler/src/main/java/me/tomassetti/turin/parser/analysis/resolvers/SrcSymbolResolver.java:46-58 | a name is added to the packages by a list of declarations exactly when one of them has it as context name |
| Resolvers.InFilePackages | turin-compiler/src/main/java/me/tomassetti/turin/parser/analysis/resolvers/SrcSymbolResolver.java:45-60 | one file adds a package name exactly when one of its top-level declarations, of any of the four kinds, has it as context name |
| Resolvers.InPackages | turin-compiler/src/main/java/me/tomassetti/turin/parser/analysis/resolvers/SrcSymbolResolver.java:44-61 | the package set of a batch holds exactly the context names declared at top level in its files |
| Resolvers.ExistPackageIffDeclared | turin-compiler/src/main/java/me/tomassetti/turin/parser/analysis/resolvers/SrcSymbolResolver.java:113-116 | after construction a package exists exactly when some top-level type, property, program or function of some file has it as context name |
| Resolvers.EveryDeclarationIsIndexed | turin-compiler/src/main/java/me/tomassetti/turin/parser/analysis/resolvers/SrcSymbolResolver.java:39-62 | after construction every top-level declaration of every file is a key, under its qualified name, of the table of its kind |
| Resolvers.FindTypeAfterConstruction | turin-compiler/src/main/java/me/tomassetti/turin/parser/analysis/resolvers/SrcSymbolResolver.java:74-90 | after construction a type is found exactly when some top-level type carries the name; what is found is the last such type walked; the type usage wraps that same definition |
| Resolvers.FindDefinitionAfterConstruction | turin-compiler/src/main/java/me/tomassetti/turin/parser/analysis/resolvers/SrcSymbolResolver.java:64-72 | a reference from context `c` to `n` resolves to the last property declared under `c.n` |
| Resolvers.FindSymbolMissAfterConstruction | turin-compiler/src/main/java/me/tomassetti/turin/parser/analysis/resolvers/SrcSymbolResolver.java:97-111 | after construction a symbol is unknown exactly when no top-level declaration of any kind carries the name |
| Relations.RelationDefinition.constructor | turin-compiler/src/main/java/me/tomassetti/turin/parser/ast/relations/RelationDefinition.java:61-65 | keeps the name and fields as given and sets every field's parent to the new relation |
| Relations.RelationDefinition.FirstField | turin-compiler/src/main/java/me/tomassetti/turin/parser/ast/relations/RelationDefinition.java:27-29 | element 0 of the fields, and an index failure exactly when there is none |
| Relations.RelationDefinition.SecondField | turin-compiler/src/main/java/me/tomassetti/turin/parser/ast/relations/RelationDefinition.java:31-33 | element 1 of the fields, and an index failure exactly when there are fewer than two |
| Relations.RelationDefinition.Children | turin-compiler/src/main/java/me/tomassetti/turin/parser/ast/relations/RelationDefinition.java:99-102 | the fields, in declaration order; for two fields, the first field then the second |
| Relations.RelationDefinition.GetRelationType | turin-compiler/src/main/java/me/tomassetti/turin/parser/ast/relations/RelationDefinition.java:76-97 | the counting loop yields the kind `RelationKindOf` assigns to the fields' cardinalities |
| Relations.RelationDefinition.SingleField | turin-compiler/src/main/java/me/tomassetti/turin/parser/ast/relations/RelationDefinition.java:35-44 | succeeds exactly for a one-to-many relation (illegal state for another kind, unsupported when there is no kind), and then returns a field of the relation whose cardinality is SINGLE |
| Relations.RelationDefinition.ManyField | turin-compiler/src/main/java/me/tomassetti/turin/parser/ast/relations/RelationDefinition.java:46-55 | succeeds exactly for a one-to-many relation (illegal state for another kind, unsupported when there is no kind), and then returns a field of the relation whose cardinality is MANY |
| Relations.RelationDefinition.SpecificValidate | turin-compiler/src/main/java/me/tomassetti/turin/parser/ast/relations/RelationDefinition.java:67-74 | with a field count other than 2 records exactly one error with the arity message at the relation's position, skips the base check and fails; with 2 fields it runs the base check: the collector gains exactly the diagnostics the base check records and the result is the base check's |
| Relations.CountsCoverAllFields | turin-compiler/src/main/java/me/tomassetti/turin/parser/ast/relations/RelationDefinition.java:79-87 | every field is counted once: the SINGLE and MANY counts add up to the number of fields |
| Relations.CountIsMultiplicity | turin-compiler/src/main/java/me/tomassetti/turin/parser/ast/relations/RelationDefinition.java:79-87 | the count of a cardinality is its multiplicity in the multiset of the fields' cardinalities |
| Relations.RelationKindDefinedIffTwoFields | turin-compiler/src/main/java/me/tomassetti/turin/parser/ast/relations/RelationDefinition.java:88-96 | a kind is derived exactly when there are two fields; every other field count fails |
| Relations.TwoFieldRelationKind | turin-compiler/src/main/java/me/tomassetti/turin/parser/ast/relations/RelationDefinition.java:88-96 | two SINGLE give ONE_TO_ONE, two MANY give MANY_TO_MANY, one of each gives ONE_TO_MANY, and swapping the two fields changes nothing |
| Relations.RelationKindIgnoresOrder | turin-compiler/src/main/java/me/tomassetti/turin/parser/ast/relations/RelationDefinition.java:79-97 | the kind depends only on the multiset of cardinalities, so any reordering of the fields keeps it |
| Relations.OneToManyHasOneOfEach | turin-compiler/src/main/java/me/tomassetti/turin/parser/ast/relations/RelationDefinition.java:92-93 | a one-to-many relation has exactly two fields, of different cardinalities |
| Relations.OneToManyFieldsDiffer | turin-compiler/src/main/java/me/tomassetti/turin/parser/ast/relations/RelationDefinition.java:35-55 | in a one-to-many relation the two fields are different objects and exactly one of them is SINGLE, so the single and the many field differ |
| TypeSystem.FunctionReferenceTypeUsage.IsInvokable | turin-compiler/src/main/java/me/tomassetti/turin/typesystem/FunctionReferenceTypeUsage.java:47-50 | always true |
| TypeSystem.FunctionReferenceTypeUsage.AsInvokable | turin-compiler/src/main/java/me/tomassetti/turin/typesystem/FunctionReferenceTypeUsage.java:52-55 | the same function reference |
| TypeSystem.FunctionReferenceTypeUsage.CanBeAssignedTo | turin-compiler/src/main/java/me/tomassetti/turin/typesystem/FunctionReferenceTypeUsage.java:67-70 | false for every target type |
| TypeSystem.FunctionReferenceTypeUsage.ReturnTypeWhenInvokedWith | turin-compiler/src/main/java/me/tomassetti/turin/typesystem/FunctionReferenceTypeUsage.java:77-80 | the declared return type, whatever the actual parameters |
| TypeSystem.FunctionReferenceTypeUsage.IsOverloaded | turin-compiler/src/main/java/me/tomassetti/turin/typesystem/FunctionReferenceTypeUsage.java:82-85 | always false |
| TypeSystem.FunctionReferenceTypeUsage.SameType | turin-compiler/src/main/java/me/tomassetti/turin/typesystem/FunctionReferenceTypeUsage.java:42-45 | always an unsupported-operation failure |
| TypeSystem.FunctionReferenceTypeUsage.ReplaceTypeVariables | turin-compiler/src/main/java/me/tomassetti/turin/typesystem/FunctionReferenceTypeUsage.java:32-35 | always an unsupported-operation failure |
| TypeSystem.FunctionReferenceTypeUsage.FindMethodFor | turin-compiler/src/main/java/me/tomassetti/turin/typesystem/FunctionReferenceTypeUsage.java:62-65 | always an unsupported-operation failure |
| TypeSystem.FunctionReferenceTypeUsage.GetInstanceField | turin-compiler/src/main/java/me/tomassetti/turin/typesystem/FunctionReferenceTypeUsage.java:72-75 | always an unsupported-operation failure |
| TypeSystem.ReturnTypeIgnoresArguments | turin-compiler/src/main/java/me/tomassetti/turin/typesystem/FunctionReferenceTypeUsage.java:77-80 | any two argument lists, the empty one included, give the same return type, the declared one |
| TypeSystem.JvmTypeIgnoresParameters | turin-compiler/src/main/java/me/tomassetti/turin/typesystem/FunctionReferenceTypeUsage.java:57-60 | the host type is the return type's host type, so two references that differ only in parameters share it |
| Expressions.Expression.IntLiteral | turin-compiler/src/main/java/me/tomassetti/turin/parser/ast/expressions/literals/IntLiteral.java:13-15 | a literal node holding the given 32-bit value, with no parent yet |
| Expressions.Expression.ArrayAccess | turin-compiler/src/main/java/me/tomassetti/turin/parser/ast/expressions/ArrayAccess.java:20-26 | an access node over the given array and index operands, which become their parent; well formed when both operands are |
| Expressions.Expression.Children | turin-compiler/src/main/java/me/tomassetti/turin/parser/ast/expressions/ArrayAccess.java:28-31 | an access's children are exactly its array operand then its index; a literal has none (IntLiteral.java lines 41-44) |
| Expressions.Expression.Equals | turin-compiler/src/main/java/me/tomassetti/turin/parser/ast/expressions/literals/IntLiteral.java:24-34 | a literal equals another object exactly when that object is a literal with the same value |
| Expressions.Expression.CalcType | turin-compiler/src/main/java/me/tomassetti/turin/parser/ast/expressions/ArrayAccess.java:33-41 | a literal is the INT primitive type (IntLiteral.java lines 46-49); an access succeeds exactly when its array operand's type is an array type, and then its type is that array's component type |
| Expressions.ComponentType | turin-compiler/src/main/java/me/tomassetti/turin/parser/ast/expressions/ArrayAccess.java:35-40 | the component of an array type; a failure for any other type and for a failed operand |
| Expressions.CalcTypeOfNestedAccess | turin-compiler/src/main/java/me/tomassetti/turin/parser/ast/expressions/ArrayAccess.java:33-41 | a chain of accesses has the innermost operand's type with one array layer stripped per access |
| Expressions.NestedAccessOfArrayType | turin-compiler/src/main/java/me/tomassetti/turin/parser/ast/expressions/ArrayAccess.java:33-41 | `d` nested accesses into a `d`-dimensional array yield its element type |
| Expressions.AccessOfNonArrayFails | turin-compiler/src/main/java/me/tomassetti/turin/parser/ast/expressions/ArrayAccess.java:38-40 | an access into a primitive, reference, function-reference or void operand fails |
| Expressions.CalcTypeIgnoresIndex | turin-compiler/src/main/java/me/tomassetti/turin/parser/ast/expressions/ArrayAccess.java:33-41 | two accesses into the same array operand have the same type whatever their indexes |
| Expressions.LiteralEqualsIsEquivalence | turin-compiler/src/main/java/me/tomassetti/turin/parser/ast/expressions/literals/IntLiteral.java:24-34 | literal equality is reflexive, symmetric and transitive, and nothing equals null |
| Expressions.EqualLiteralsHashEqually | turin-compiler/src/main/java/me/tomassetti/turin/parser/ast/expressions/literals/IntLiteral.java:36-39 | the hash code is the value, so equal literals hash equally |

## Left out

- Expressions.Expression.HashCode: carries no contract of its own; `Expressions.EqualLiteralsHashEqually` states it.
- TypeSystem.FunctionReferenceTypeUsage.JvmType: host-platform types are not interpreted; the model takes the host representation of a type usage as a function parameter, and `TypeSystem.JvmTypeIgnoresParameters` states the delegation to the return type.
- The getters (`getArray`, `getIndex`, `getValue`, `getParameterTypes`, `getReturnType`, `getName`, `getFields`) are the datatype destructors and `const` fields of the model: a destructor returns its constructor argument by definition, and the class constructors' contracts state what their fields hold.
- `toString` of every class, and `RelationDefinition.CLASS_PREFIX`: text formatting and a code-generation constant, unused by the modelled behaviour.
- Expression kinds other than integer literals and array accesses: they appear only as `Other`, carrying the type result their own computation would give. The double literal is not part of this model, because its payload and equality are floating point.
- The parse-tree-to-AST translation: it reads token text and contexts of a generated parser that is not part of this model. Positions are therefore taken as given values.
- Node base machinery: the generic parent setter, `getPosition`, the base `specificValidate` and the derivation of context and qualified names. Positions and names are given fields; the base check's outcome is given to `SpecificValidate` as its result `baseValid` and the diagnostics `baseErrors` it records, which are appended to the collector in order.
- The error collector beyond appending: it is modelled as an append-only list of (position, message) diagnostics.
- A cardinality outside SINGLE/MANY (the throw in the counting loop, and a null cardinality): impossible with the two-valued `Cardinality` datatype, so that branch has no counterpart.
- Delegation to the parent resolver: the class only stores it, so no lookup consults it.
- The declarations held by the resolver are reduced to their name, context name and qualified name; what a declaration contains is not part of this model.
- Concurrency, and `java.util` collection identity: the lookups are functions over the tables, and `ImmutableList.copyOf` is a sequence value.
- Java object identity of `equals`: the `this == o` shortcut is subsumed, since a literal always holds its own value.
