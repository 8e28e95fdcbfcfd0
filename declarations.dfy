/** The declarations a compilation unit contributes, and the symbols resolution hands out. */
module Declarations {

  /**
   * A top-level declaration (type definition, property definition, program or
   * function definition): its local name, the name of its enclosing context,
   * and the qualified name the resolver indexes it under.
   */
  datatype Decl = Decl(name: string, contextName: string, qualifiedName: string)

  /** The four kinds of top-level declaration a file holds. */
  datatype DeclKind = TypeKind | PropertyKind | ProgramKind | FunctionKind

  /** A resolved symbol: a declaration tagged with the table it was found in. */
  datatype Symbol =
    | TypeSymbol(decl: Decl)
    | PropertySymbol(decl: Decl)
    | FunctionSymbol(decl: Decl)
    | ProgramSymbol(decl: Decl)

  /** A parsed source file, reduced to its top-level declarations in source order. */
  datatype TurinFile = TurinFile(
    topLevelTypeDefinitions: seq<Decl>,
    topLevelPropertyDefinitions: seq<Decl>,
    topLevelPrograms: seq<Decl>,
    topLevelFunctionDefinitions: seq<Decl>)
  {
    function TopLevel(kind: DeclKind): seq<Decl>
    {
      match kind
      case TypeKind => topLevelTypeDefinitions
      case PropertyKind => topLevelPropertyDefinitions
      case ProgramKind => topLevelPrograms
      case FunctionKind => topLevelFunctionDefinitions
    }
  }

  /** A use of a property by its local name, inside a given context. */
  datatype PropertyReference = PropertyReference(name: string, contextName: string)

  /** A call site; only its identity matters to the source-level resolver. */
  datatype FunctionCall = FunctionCall(name: string)
}
