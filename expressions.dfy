/**
 * Expressions as AST nodes: integer literals and array accesses, with the
 * type each computes. Expression kinds outside this model appear as `Other`,
 * carrying the result their own type computation gives.
 */
module Expressions {
  import opened Wrappers
  import opened TypeSystem

  /** The host's 32-bit signed integer. */
  newtype Int32 = x: int | -0x8000_0000 <= x < 0x8000_0000

  datatype Kind =
    | IntLiteral(value: Int32)
    | ArrayAccess(arrayOperand: Expression, index: Expression)
    | Other(computed: Result<TypeUsage, Unsupported>)

  class Expression {
    const kind: Kind
    /** Nesting depth; it makes recursion through the operands well founded. */
    ghost const height: nat
    /** The enclosing node, set by that node's constructor. */
    var parent: object?

    /** Operands sit strictly lower than the node that holds them. */
    ghost predicate WellFormed()
      decreases height
    {
      match kind
      case ArrayAccess(arrayOperand, index) =>
        arrayOperand.height < height && index.height < height && arrayOperand.WellFormed() && index.WellFormed()
      case _ => true
    }

    constructor IntLiteral(value: Int32)
      ensures kind == Kind.IntLiteral(value) && parent == null && WellFormed()
    {
      kind := Kind.IntLiteral(value);
      height := 0;
      parent := null;
    }

    /** An expression of a kind outside this model, whose computed type is given. */
    constructor Other(computed: Result<TypeUsage, Unsupported>)
      ensures kind == Kind.Other(computed) && parent == null && WellFormed()
    {
      kind := Kind.Other(computed);
      height := 0;
      parent := null;
    }

    /** Builds an access `a[i]` and makes the new node the parent of both operands. */
    constructor ArrayAccess(arrayOperand: Expression, index: Expression)
      modifies arrayOperand, index
      ensures kind == Kind.ArrayAccess(arrayOperand, index) && parent == null
      ensures arrayOperand.parent == this && index.parent == this
      ensures arrayOperand.WellFormed() && index.WellFormed() ==> WellFormed()
    {
      kind := Kind.ArrayAccess(arrayOperand, index);
      height := (if arrayOperand.height < index.height then index.height else arrayOperand.height) + 1;
      parent := null;
      new;
      arrayOperand.parent := this;
      index.parent := this;
    }

    /** The immediate children, left to right. */
    function Children(): (r: seq<Expression>)
      requires kind.IntLiteral? || kind.ArrayAccess?
      ensures kind.IntLiteral? ==> r == []
      ensures kind.ArrayAccess? ==> r == [kind.arrayOperand, kind.index]
    {
      match kind
      case ArrayAccess(arrayOperand, index) => [arrayOperand, index]
      case _ => []
    }

    /** Literal equality: the other object is an integer literal holding the same value. */
    predicate Equals(o: Expression?)
      requires kind.IntLiteral?
      ensures Equals(o) <==> o != null && o.kind.IntLiteral? && o.kind.value == kind.value
    {
      this == o || (o != null && o.kind.IntLiteral? && o.kind.value == kind.value)
    }

    function HashCode(): Int32
      requires kind.IntLiteral?
    {
      kind.value
    }

    /**
     * The type of the expression. A literal is an int; an array access has the
     * component type of its array operand and fails on any other operand type;
     * the index is never typed.
     */
    function CalcType(): (r: Result<TypeUsage, Unsupported>)
      requires WellFormed()
      decreases height
      ensures kind.IntLiteral? ==> r == Success(Primitive(INT))
      ensures kind.Other? ==> r == kind.computed
      ensures kind.ArrayAccess? ==>
        (r.Success? <==> kind.arrayOperand.CalcType().Success? && kind.arrayOperand.CalcType().value.ArrayType?)
      ensures kind.ArrayAccess? && r.Success? ==> kind.arrayOperand.CalcType() == Success(ArrayType(r.value))
    {
      match kind
      case IntLiteral(_) => Success(Primitive(INT))
      case ArrayAccess(arrayOperand, _) => ComponentType(arrayOperand.CalcType())
      case Other(computed) => computed
    }

    /** How many array accesses are stacked on the array side of this expression. */
    function AccessDepth(): nat
      requires WellFormed()
      decreases height
    {
      match kind
      case ArrayAccess(arrayOperand, _) => arrayOperand.AccessDepth() + 1
      case _ => 0
    }

    /** The innermost array operand, found by following the array side of every access. */
    function Base(): (b: Expression)
      requires WellFormed()
      decreases height
      ensures b.WellFormed() && !b.kind.ArrayAccess?
      ensures AccessDepth() == 0 ==> b == this
    {
      match kind
      case ArrayAccess(arrayOperand, _) => arrayOperand.Base()
      case _ => this
    }
  }

  /** The type an array access yields from its operand's type: the component, or a failure. */
  function ComponentType(operand: Result<TypeUsage, Unsupported>): (r: Result<TypeUsage, Unsupported>)
    ensures r.Success? <==> operand.Success? && operand.value.ArrayType?
    ensures r.Success? ==> operand.value == ArrayType(r.value)
  {
    match operand
    case Success(ArrayType(component)) => Success(component)
    case Success(_) => Failure(UnsupportedOperation)
    case Failure(e) => Failure(e)
  }

  /** `n` array layers stripped off a type, one at a time. */
  function StripArrayLayers(t: Result<TypeUsage, Unsupported>, n: nat): Result<TypeUsage, Unsupported>
  {
    if n == 0 then t else ComponentType(StripArrayLayers(t, n - 1))
  }

  /** The `n`-dimensional array type over `element`. */
  function ArrayOf(element: TypeUsage, n: nat): TypeUsage
  {
    if n == 0 then element else ArrayType(ArrayOf(element, n - 1))
  }

  /** Stripping `m` layers off an `n + m`-dimensional array type leaves an `n`-dimensional one. */
  lemma {:induction false} StripArrayOf(element: TypeUsage, n: nat, m: nat)
    decreases m
    ensures StripArrayLayers(Success(ArrayOf(element, n + m)), m) == Success(ArrayOf(element, n))
  {
    if m > 0 {
      StripArrayOf(element, n + 1, m - 1);
      assert ArrayOf(element, n + 1) == ArrayType(ArrayOf(element, n));
    }
  }

  /**
   * An expression's type is its innermost array operand's type with one array
   * layer stripped per stacked access; a non-array layer on the way fails.
   */
  lemma {:induction false} CalcTypeOfNestedAccess(e: Expression)
    requires e.WellFormed()
    decreases e.height
    ensures e.CalcType() == StripArrayLayers(e.Base().CalcType(), e.AccessDepth())
  {
    match e.kind
    case ArrayAccess(arrayOperand, _) =>
      CalcTypeOfNestedAccess(arrayOperand);
    case _ =>
  }

  /** `d` stacked accesses into a `d`-dimensional array yield its element type. */
  lemma NestedAccessOfArrayType(e: Expression, element: TypeUsage)
    requires e.WellFormed()
    requires e.Base().CalcType() == Success(ArrayOf(element, e.AccessDepth()))
    ensures e.CalcType() == Success(element)
  {
    CalcTypeOfNestedAccess(e);
    StripArrayOf(element, 0, e.AccessDepth());
  }

  /** An array access whose operand is of a primitive, reference, function-reference or void type fails. */
  lemma AccessOfNonArrayFails(e: Expression, operandType: TypeUsage)
    requires e.WellFormed() && e.kind.ArrayAccess?
    requires e.kind.arrayOperand.CalcType() == Success(operandType)
    requires operandType.Primitive? || operandType.Reference? || operandType.FunctionReference? || operandType.Void?
    ensures e.CalcType() == Failure(UnsupportedOperation)
  {
  }

  /** The index operand plays no part in the type of an access. */
  lemma CalcTypeIgnoresIndex(x: Expression, y: Expression)
    requires x.WellFormed() && y.WellFormed()
    requires x.kind.ArrayAccess? && y.kind.ArrayAccess? && x.kind.arrayOperand == y.kind.arrayOperand
    ensures x.CalcType() == y.CalcType()
  {
  }

  /** Literal equality is an equivalence relation. */
  lemma LiteralEqualsIsEquivalence(a: Expression, b: Expression, c: Expression)
    requires a.kind.IntLiteral? && b.kind.IntLiteral? && c.kind.IntLiteral?
    ensures a.Equals(a)
    ensures a.Equals(b) <==> b.Equals(a)
    ensures a.Equals(b) && b.Equals(c) ==> a.Equals(c)
    ensures !a.Equals(null)
  {
  }

  /** Equal literals have equal hash codes, and the hash code is the value. */
  lemma EqualLiteralsHashEqually(a: Expression, b: Expression)
    requires a.kind.IntLiteral? && b.kind.IntLiteral?
    ensures a.HashCode() == a.kind.value
    ensures a.Equals(b) ==> a.HashCode() == b.HashCode()
  {
  }
}
