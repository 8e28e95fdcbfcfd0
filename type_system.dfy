/**
 * The closed set of type usages, and the capabilities of a function-reference
 * type usage.
 */
module TypeSystem {
  import opened Wrappers
  import opened Declarations

  /** The host platform's primitive types. */
  datatype PrimitiveKind = BOOLEAN | CHAR | BYTE | SHORT | INT | LONG | FLOAT | DOUBLE

  datatype TypeUsage =
    | Primitive(kind: PrimitiveKind)
    | ArrayType(componentType: TypeUsage)
    | Reference(definition: Decl)
    | FunctionReference(signature: FunctionReferenceTypeUsage)
    | Void

  /** The failure a type-system operation raises when it does not apply. */
  datatype Unsupported = UnsupportedOperation

  /** A method of the host platform; it is uninterpreted here. */
  datatype JvmMethodDefinition = JvmMethodDefinition(ownerInternalName: string, name: string, descriptor: string)

  /**
   * The type of a reference to a function: fixed parameter types and a fixed
   * return type. The getters are the destructors `parameterTypes` and `returnType`.
   */
  datatype FunctionReferenceTypeUsage = FunctionReferenceTypeUsage(parameterTypes: seq<TypeUsage>, returnType: TypeUsage)
  {
    predicate IsInvokable()
      ensures IsInvokable()
    {
      true
    }

    /** Seen as an invokable type, a function reference is itself. */
    function AsInvokable(): (r: FunctionReferenceTypeUsage)
      ensures r == this
    {
      this
    }

    /** A function reference is never assignable to anything. */
    predicate CanBeAssignedTo(target: TypeUsage)
      ensures !CanBeAssignedTo(target)
    {
      false
    }

    /** The actual parameters are not looked at: there is no overloading. */
    function ReturnTypeWhenInvokedWith<P>(actualParams: seq<P>): (r: TypeUsage)
      ensures r == returnType
    {
      returnType
    }

    predicate IsOverloaded()
      ensures !IsOverloaded()
    {
      false
    }

    /**
     * The host representation is the return type's; `hostType` gives the host
     * representation of every other type usage, which this model does not interpret.
     */
    function JvmType<J>(hostType: TypeUsage -> J): J
    {
      hostType(returnType)
    }

    function SameType(other: TypeUsage): (r: Result<bool, Unsupported>)
      ensures r == Failure(UnsupportedOperation)
    {
      Failure(UnsupportedOperation)
    }

    function ReplaceTypeVariables(typeParams: map<string, TypeUsage>): (r: Result<TypeUsage, Unsupported>)
      ensures r == Failure(UnsupportedOperation)
    {
      Failure(UnsupportedOperation)
    }

    function FindMethodFor<J>(name: string, argsTypes: seq<J>, staticContext: bool): (r: Result<JvmMethodDefinition, Unsupported>)
      ensures r == Failure(UnsupportedOperation)
    {
      Failure(UnsupportedOperation)
    }

    function GetInstanceField(fieldName: string, instance: Symbol): (r: Result<Symbol, Unsupported>)
      ensures r == Failure(UnsupportedOperation)
    {
      Failure(UnsupportedOperation)
    }
  }

  /** Invoking a function reference yields the same type whatever the two argument lists are. */
  lemma ReturnTypeIgnoresArguments<P>(f: FunctionReferenceTypeUsage, args1: seq<P>, args2: seq<P>)
    ensures f.ReturnTypeWhenInvokedWith(args1) == f.ReturnTypeWhenInvokedWith(args2) == f.returnType
    ensures f.ReturnTypeWhenInvokedWith(args1) == f.ReturnTypeWhenInvokedWith<P>([])
  {
  }

  /**
   * The host type of a function reference depends on its return type only:
   * two function references that differ only in their parameters share it.
   */
  lemma JvmTypeIgnoresParameters<J>(f: FunctionReferenceTypeUsage, g: FunctionReferenceTypeUsage, hostType: TypeUsage -> J)
    requires f.returnType == g.returnType
    ensures f.JvmType(hostType) == g.JvmType(hostType) == hostType(f.returnType)
  {
  }
}
