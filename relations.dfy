/**
 * Relation definitions: a named relation between fields, each with a
 * cardinality, from which the relation's kind is derived.
 */
module Relations {
  import opened Wrappers
  import opened Ast

  datatype Cardinality = SINGLE | MANY

  /** The relation kind; the source calls this enumeration `Type`. */
  datatype RelationType = ONE_TO_ONE | ONE_TO_MANY | MANY_TO_MANY

  /** The exceptions the accessors raise, as failure values. */
  datatype RelationError = UnsupportedOperation | IllegalState | IndexOutOfBounds

  const ARITY_MESSAGE := "Each relation should have exactly 2 fields"

  class RelationFieldDefinition {
    const name: string
    const cardinality: Cardinality
    /** The relation that owns this field, set by the relation's constructor. */
    var parent: object?

    constructor (name: string, cardinality: Cardinality)
      ensures this.name == name && this.cardinality == cardinality && parent == null
    {
      this.name := name;
      this.cardinality := cardinality;
      parent := null;
    }
  }

  /** How many entries of `cs` are `c`. */
  function Count(cs: seq<Cardinality>, c: Cardinality): nat
  {
    if cs == [] then 0 else Count(cs[..|cs| - 1], c) + (if cs[|cs| - 1] == c then 1 else 0)
  }

  /**
   * The relation kind for fields of the given cardinalities: two MANY give
   * MANY_TO_MANY, two SINGLE give ONE_TO_ONE, one of each gives ONE_TO_MANY,
   * and every other combination is unsupported.
   */
  function RelationKindOf(cs: seq<Cardinality>): Result<RelationType, RelationError>
  {
    var nMany := Count(cs, MANY);
    var nSingle := Count(cs, SINGLE);
    if nMany == 2 && nSingle == 0 then Success(MANY_TO_MANY)
    else if nMany == 0 && nSingle == 2 then Success(ONE_TO_ONE)
    else if nMany == 1 && nSingle == 1 then Success(ONE_TO_MANY)
    else Failure(UnsupportedOperation)
  }

  class RelationDefinition {
    const name: string
    const fields: seq<RelationFieldDefinition>
    const position: Position

    /** Builds the relation and makes it the parent of every field. */
    constructor (name: string, fields: seq<RelationFieldDefinition>, position: Position)
      modifies set f | f in fields
      ensures this.name == name && this.fields == fields && this.position == position
      ensures forall f :: f in fields ==> f.parent == this
    {
      this.name := name;
      this.fields := fields;
      this.position := position;
      new;
      for i := 0 to |fields|
        invariant forall j :: 0 <= j < i ==> fields[j].parent == this
      {
        fields[i].parent := this;
      }
    }

    /** The fields' cardinalities, in declaration order. */
    function Cardinalities(): (cs: seq<Cardinality>)
      ensures |cs| == |fields|
      ensures forall i :: 0 <= i < |fields| ==> cs[i] == fields[i].cardinality
    {
      seq(|fields|, i requires 0 <= i < |fields| => fields[i].cardinality)
    }

    function FirstField(): (r: Result<RelationFieldDefinition, RelationError>)
      ensures r.Success? <==> 1 <= |fields|
      ensures r.Success? ==> r.value == fields[0]
      ensures r.Failure? ==> r.error == IndexOutOfBounds
    {
      if 1 <= |fields| then Success(fields[0]) else Failure(IndexOutOfBounds)
    }

    function SecondField(): (r: Result<RelationFieldDefinition, RelationError>)
      ensures r.Success? <==> 2 <= |fields|
      ensures r.Success? ==> r.value == fields[1]
      ensures r.Failure? ==> r.error == IndexOutOfBounds
    {
      if 2 <= |fields| then Success(fields[1]) else Failure(IndexOutOfBounds)
    }

    /** The children of the node: the fields, in declaration order. */
    function Children(): (r: seq<RelationFieldDefinition>)
      ensures r == fields
      ensures |fields| == 2 ==> r == [FirstField().value, SecondField().value]
    {
      fields
    }

    /** Counts the fields of each cardinality and derives the relation kind. */
    method GetRelationType() returns (r: Result<RelationType, RelationError>)
      ensures r == RelationKindOf(Cardinalities())
    {
      ghost var cs := Cardinalities();
      var nMany := 0;
      var nSingle := 0;
      for i := 0 to |fields|
        invariant nMany == Count(cs[..i], MANY)
        invariant nSingle == Count(cs[..i], SINGLE)
      {
        assert cs[..i + 1][..i] == cs[..i];
        match fields[i].cardinality
        case SINGLE => nSingle := nSingle + 1;
        case MANY => nMany := nMany + 1;
      }
      assert cs[..|fields|] == cs;
      if nMany == 2 && nSingle == 0 {
        r := Success(MANY_TO_MANY);
      } else if nMany == 0 && nSingle == 2 {
        r := Success(ONE_TO_ONE);
      } else if nMany == 1 && nSingle == 1 {
        r := Success(ONE_TO_MANY);
      } else {
        r := Failure(UnsupportedOperation);
      }
    }

    /** The SINGLE side of a one-to-many relation, whichever position it is in. */
    method SingleField() returns (r: Result<RelationFieldDefinition, RelationError>)
      ensures RelationKindOf(Cardinalities()).Failure? ==> r == Failure(UnsupportedOperation)
      ensures RelationKindOf(Cardinalities()).Success? && RelationKindOf(Cardinalities()).value != ONE_TO_MANY
        ==> r == Failure(IllegalState)
      ensures r.Success? <==> RelationKindOf(Cardinalities()) == Success(ONE_TO_MANY)
      ensures r.Success? ==> r.value in fields && r.value.cardinality == SINGLE
    {
      var kind := GetRelationType();
      if kind.Failure? {
        return Failure(kind.error);
      }
      if kind.value != ONE_TO_MANY {
        return Failure(IllegalState);
      }
      RelationKindDefinedIffTwoFields(Cardinalities());
      if fields[0].cardinality == SINGLE {
        r := Success(fields[0]);
      } else {
        OneToManyHasOneOfEach(Cardinalities());
        r := Success(fields[1]);
      }
    }

    /** The MANY side of a one-to-many relation, whichever position it is in. */
    method ManyField() returns (r: Result<RelationFieldDefinition, RelationError>)
      ensures RelationKindOf(Cardinalities()).Failure? ==> r == Failure(UnsupportedOperation)
      ensures RelationKindOf(Cardinalities()).Success? && RelationKindOf(Cardinalities()).value != ONE_TO_MANY
        ==> r == Failure(IllegalState)
      ensures r.Success? <==> RelationKindOf(Cardinalities()) == Success(ONE_TO_MANY)
      ensures r.Success? ==> r.value in fields && r.value.cardinality == MANY
    {
      var kind := GetRelationType();
      if kind.Failure? {
        return Failure(kind.error);
      }
      if kind.value != ONE_TO_MANY {
        return Failure(IllegalState);
      }
      RelationKindDefinedIffTwoFields(Cardinalities());
      if fields[0].cardinality == MANY {
        r := Success(fields[0]);
      } else {
        OneToManyHasOneOfEach(Cardinalities());
        r := Success(fields[1]);
      }
    }

    /**
     * The relation's own check: anything but two fields records one semantic
     * error at the relation's position and fails, without running the base
     * node's check. With two fields it runs the base check, whose outcome is
     * given as its result `baseValid` and the diagnostics `baseErrors` it records.
     */
    method SpecificValidate(collector: ErrorCollector, baseValid: bool, baseErrors: seq<Diagnostic>) returns (ok: bool)
      modifies collector
      ensures ok <==> |fields| == 2 && baseValid
      ensures |fields| != 2 ==> collector.errors == old(collector.errors) + [SemanticError(position, ARITY_MESSAGE)]
      ensures |fields| == 2 ==> collector.errors == old(collector.errors) + baseErrors
    {
      if |fields| != 2 {
        collector.RecordSemanticError(position, ARITY_MESSAGE);
        return false;
      }
      collector.RecordAll(baseErrors);
      return baseValid;
    }
  }

  /** Every field is SINGLE or MANY, so the two counts add up to the number of fields. */
  lemma {:induction false} CountsCoverAllFields(cs: seq<Cardinality>)
    ensures Count(cs, SINGLE) + Count(cs, MANY) == |cs|
  {
    if cs != [] {
      CountsCoverAllFields(cs[..|cs| - 1]);
    }
  }

  /** Counting a cardinality is taking its multiplicity in the multiset of cardinalities. */
  lemma {:induction false} CountIsMultiplicity(cs: seq<Cardinality>, c: Cardinality)
    ensures Count(cs, c) == multiset(cs)[c]
  {
    if cs != [] {
      var init := cs[..|cs| - 1];
      CountIsMultiplicity(init, c);
      assert cs == init + [cs[|cs| - 1]];
    }
  }

  /** The kind is defined exactly for relations of two fields. */
  lemma RelationKindDefinedIffTwoFields(cs: seq<Cardinality>)
    ensures RelationKindOf(cs).Success? <==> |cs| == 2
  {
    CountsCoverAllFields(cs);
    if |cs| == 2 {
      assert cs[..1][..0] == [];
    }
  }

  /** The kind of a two-field relation, for each pair of cardinalities, in either order. */
  lemma TwoFieldRelationKind(a: Cardinality, b: Cardinality)
    ensures RelationKindOf([a, b]) == RelationKindOf([b, a])
    ensures a == SINGLE && b == SINGLE ==> RelationKindOf([a, b]) == Success(ONE_TO_ONE)
    ensures a == MANY && b == MANY ==> RelationKindOf([a, b]) == Success(MANY_TO_MANY)
    ensures a != b ==> RelationKindOf([a, b]) == Success(ONE_TO_MANY)
  {
    CountOfPair(a, b, SINGLE);
    CountOfPair(a, b, MANY);
    CountOfPair(b, a, SINGLE);
    CountOfPair(b, a, MANY);
  }

  lemma CountOfPair(a: Cardinality, b: Cardinality, c: Cardinality)
    ensures Count([a, b], c) == (if a == c then 1 else 0) + (if b == c then 1 else 0)
  {
    assert [a, b][..1] == [a];
    assert [a][..0] == [];
    assert Count([a], c) == Count([], c) + (if a == c then 1 else 0);
    assert Count([a, b], c) == Count([a], c) + (if b == c then 1 else 0);
  }

  /** The kind depends only on the multiset of cardinalities, not on field order. */
  lemma RelationKindIgnoresOrder(cs: seq<Cardinality>, ds: seq<Cardinality>)
    requires multiset(cs) == multiset(ds)
    ensures RelationKindOf(cs) == RelationKindOf(ds)
  {
    CountIsMultiplicity(cs, SINGLE);
    CountIsMultiplicity(cs, MANY);
    CountIsMultiplicity(ds, SINGLE);
    CountIsMultiplicity(ds, MANY);
  }

  /** A one-to-many relation has two fields of different cardinalities. */
  lemma OneToManyHasOneOfEach(cs: seq<Cardinality>)
    requires RelationKindOf(cs) == Success(ONE_TO_MANY)
    ensures |cs| == 2 && cs[0] != cs[1]
  {
    RelationKindDefinedIffTwoFields(cs);
    TwoFieldRelationKind(cs[0], cs[1]);
    assert cs == [cs[0], cs[1]];
  }

  /** In a one-to-many relation the single and the many field are two different fields. */
  lemma OneToManyFieldsDiffer(rel: RelationDefinition)
    requires RelationKindOf(rel.Cardinalities()) == Success(ONE_TO_MANY)
    ensures |rel.fields| == 2 && rel.fields[0] != rel.fields[1]
    ensures rel.fields[0].cardinality == SINGLE <==> rel.fields[1].cardinality == MANY
  {
    OneToManyHasOneOfEach(rel.Cardinalities());
  }
}
