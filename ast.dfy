/** Positions and the diagnostics collector shared by every AST node. */
module Ast {

  datatype Point = Point(line: nat, column: nat)

  /** A source span; the parse-tree translation attaches it, this model takes it as given. */
  datatype Position = Position(start: Point, end: Point)

  /** A recoverable semantic error, tagged with where it was found. */
  datatype Diagnostic = SemanticError(position: Position, message: string)

  /** The error collector: an append-only list of diagnostics. */
  class ErrorCollector {
    var errors: seq<Diagnostic>

    constructor ()
      ensures errors == []
    {
      errors := [];
    }

    method RecordSemanticError(position: Position, message: string)
      modifies this
      ensures errors == old(errors) + [SemanticError(position, message)]
    {
      errors := errors + [SemanticError(position, message)];
    }

    /** Appends the given diagnostics one at a time, in order. */
    method RecordAll(diagnostics: seq<Diagnostic>)
      modifies this
      ensures errors == old(errors) + diagnostics
    {
      for i := 0 to |diagnostics|
        invariant errors == old(errors) + diagnostics[..i]
      {
        assert diagnostics[..i + 1] == diagnostics[..i] + [diagnostics[i]];
        errors := errors + [diagnostics[i]];
      }
      assert diagnostics[..|diagnostics|] == diagnostics;
    }
  }
}
