/**
 * The source-level symbol resolver: tables of the top-level declarations of
 * every file of a compilation batch, keyed by qualified name, and the known
 * package names.
 */
module Resolvers {
  import opened Wrappers
  import opened Declarations
  import opened TypeSystem

  datatype ResolutionError = UnsolvedMethod(call: FunctionCall)

  /** Every top-level declaration of the given kind, file after file, in source order. */
  function AllOf(files: seq<TurinFile>, kind: DeclKind): seq<Decl>
  {
    if files == [] then [] else AllOf(files[..|files| - 1], kind) + files[|files| - 1].TopLevel(kind)
  }

  /**
   * The table after putting each declaration of `ds` in turn under its
   * qualified name: a later declaration overwrites an earlier one.
   */
  function Registered(ds: seq<Decl>): map<string, Decl>
  {
    if ds == [] then map[] else Registered(ds[..|ds| - 1])[ds[|ds| - 1].qualifiedName := ds[|ds| - 1]]
  }

  /** The context names of `ds`, gathered one declaration at a time. */
  function ContextNames(ds: seq<Decl>): set<string>
  {
    if ds == [] then {} else ContextNames(ds[..|ds| - 1]) + {ds[|ds| - 1].contextName}
  }

  /** The context names of the top-level declarations of one file. */
  function FilePackages(f: TurinFile): set<string>
  {
    ContextNames(f.topLevelTypeDefinitions) + ContextNames(f.topLevelPropertyDefinitions)
      + ContextNames(f.topLevelPrograms) + ContextNames(f.topLevelFunctionDefinitions)
  }

  /** The context names of every top-level declaration of every file. */
  function Packages(files: seq<TurinFile>): set<string>
  {
    if files == [] then {} else Packages(files[..|files| - 1]) + FilePackages(files[|files| - 1])
  }

  /** Whether some top-level declaration of some file has context name `p`. */
  ghost predicate DeclaresContext(files: seq<TurinFile>, p: string)
  {
    exists i, kind, d :: 0 <= i < |files| && d in files[i].TopLevel(kind) && d.contextName == p
  }

  class SrcSymbolResolver {
    var packages: set<string>
    var typeDefinitions: map<string, Decl>
    var propertyDefinitions: map<string, Decl>
    var programsDefinitions: map<string, Decl>
    var functionDefinitions: map<string, Decl>
    /** The enclosing resolver; it is stored but no lookup here consults it. */
    var parent: object?
    /** The files the resolver was built from. */
    ghost const files: seq<TurinFile>

    /** The tables and package set are exactly those of the files. */
    ghost predicate Valid()
      reads this
    {
      Indexes(files)
    }

    /** The tables and package set hold exactly the declarations of `fs`. */
    ghost predicate Indexes(fs: seq<TurinFile>)
      reads this
    {
      && typeDefinitions == Registered(AllOf(fs, TypeKind))
      && propertyDefinitions == Registered(AllOf(fs, PropertyKind))
      && programsDefinitions == Registered(AllOf(fs, ProgramKind))
      && functionDefinitions == Registered(AllOf(fs, FunctionKind))
      && packages == Packages(fs)
    }

    /** Walks every file once, filling the four tables and the package set. */
    constructor (turinFiles: seq<TurinFile>)
      ensures files == turinFiles && Valid() && parent == null
    {
      files := turinFiles;
      typeDefinitions := map[];
      propertyDefinitions := map[];
      programsDefinitions := map[];
      functionDefinitions := map[];
      packages := {};
      parent := null;
      new;
      for i := 0 to |turinFiles|
        invariant parent == null
        invariant Indexes(turinFiles[..i])
      {
        IndexFile(turinFiles, i);
      }
      assert turinFiles[..|turinFiles|] == turinFiles;
    }

    /**
     * The body of the constructor's loop, for file `i`: its types, properties,
     * programs and functions in that order, after files `0..i` are done.
     */
    method IndexFile(turinFiles: seq<TurinFile>, i: nat)
      requires i < |turinFiles|
      requires Indexes(turinFiles[..i])
      modifies this
      ensures Indexes(turinFiles[..i + 1])
      ensures parent == old(parent)
    {
      ghost var indexed := turinFiles[..i];
      var turinFile := turinFiles[i];
      NextFile(turinFiles, i);
      RegisterAll(TypeKind, turinFile.topLevelTypeDefinitions, AllOf(indexed, TypeKind));
      assert typeDefinitions == Registered(AllOf(turinFiles[..i + 1], TypeKind));
      RegisterAll(PropertyKind, turinFile.topLevelPropertyDefinitions, AllOf(indexed, PropertyKind));
      assert propertyDefinitions == Registered(AllOf(turinFiles[..i + 1], PropertyKind));
      RegisterAll(ProgramKind, turinFile.topLevelPrograms, AllOf(indexed, ProgramKind));
      assert programsDefinitions == Registered(AllOf(turinFiles[..i + 1], ProgramKind));
      RegisterAll(FunctionKind, turinFile.topLevelFunctionDefinitions, AllOf(indexed, FunctionKind));
    }

    /**
     * The inner loop of the constructor, for one kind of declaration of one
     * file: put each declaration under its qualified name, in order, and add
     * its context name to the packages. `registered` is what the table holds so far.
     */
    method RegisterAll(kind: DeclKind, ds: seq<Decl>, ghost registered: seq<Decl>)
      requires Table(kind) == Registered(registered)
      modifies this
      ensures Table(kind) == Registered(registered + ds)
      ensures kind != TypeKind ==> typeDefinitions == old(typeDefinitions)
      ensures kind != PropertyKind ==> propertyDefinitions == old(propertyDefinitions)
      ensures kind != ProgramKind ==> programsDefinitions == old(programsDefinitions)
      ensures kind != FunctionKind ==> functionDefinitions == old(functionDefinitions)
      ensures packages == old(packages) + ContextNames(ds)
      ensures parent == old(parent)
    {
      assert registered + ds[..0] == registered;
      for j := 0 to |ds|
        invariant Table(kind) == Registered(registered + ds[..j])
        invariant kind != TypeKind ==> typeDefinitions == old(typeDefinitions)
        invariant kind != PropertyKind ==> propertyDefinitions == old(propertyDefinitions)
        invariant kind != ProgramKind ==> programsDefinitions == old(programsDefinitions)
        invariant kind != FunctionKind ==> functionDefinitions == old(functionDefinitions)
        invariant packages == old(packages) + ContextNames(ds[..j])
        invariant parent == old(parent)
      {
        var declaration := ds[j];
        PutOneMore(registered, ds, j);
        packages := packages + {declaration.contextName};
        match kind
        case TypeKind =>
          typeDefinitions := typeDefinitions[declaration.qualifiedName := declaration];
        case PropertyKind =>
          propertyDefinitions := propertyDefinitions[declaration.qualifiedName := declaration];
        case ProgramKind =>
          programsDefinitions := programsDefinitions[declaration.qualifiedName := declaration];
        case FunctionKind =>
          functionDefinitions := functionDefinitions[declaration.qualifiedName := declaration];
      }
      assert ds[..|ds|] == ds;
    }

    /** The table that holds declarations of the given kind. */
    function Table(kind: DeclKind): map<string, Decl>
      reads this
    {
      match kind
      case TypeKind => typeDefinitions
      case PropertyKind => propertyDefinitions
      case ProgramKind => programsDefinitions
      case FunctionKind => functionDefinitions
    }

    function GetParent(): (r: object?)
      reads this
      ensures r == parent
    {
      parent
    }

    /** Replaces the enclosing resolver; the tables and packages stay as they are. */
    method SetParent(newParent: object?)
      modifies this`parent
      ensures parent == newParent
      ensures typeDefinitions == old(typeDefinitions) && propertyDefinitions == old(propertyDefinitions)
      ensures programsDefinitions == old(programsDefinitions) && functionDefinitions == old(functionDefinitions)
      ensures packages == old(packages)
    {
      parent := newParent;
    }

    /** Looks a property reference up in the property table, under its context name, a dot and its name. */
    function FindDefinition(propertyReference: PropertyReference): (r: Option<Decl>)
      reads this
      ensures r.Some? <==> propertyReference.contextName + "." + propertyReference.name in propertyDefinitions
      ensures r.Some? ==> r.value == propertyDefinitions[propertyReference.contextName + "." + propertyReference.name]
    {
      var name := propertyReference.contextName + "." + propertyReference.name;
      if name in propertyDefinitions then Some(propertyDefinitions[name]) else None
    }

    /** Looks a type up by qualified name; the context and the resolver are ignored. */
    function FindTypeDefinitionIn(typeName: string, context: object?, resolver: object?): (r: Option<Decl>)
      reads this
      ensures r.Some? <==> typeName in typeDefinitions
      ensures r.Some? ==> r.value == typeDefinitions[typeName]
    {
      if typeName in typeDefinitions then Some(typeDefinitions[typeName]) else None
    }

    /** A reference type usage to the type found by qualified name. */
    function FindTypeUsageIn(typeName: string, context: object?, resolver: object?): (r: Option<TypeUsage>)
      reads this
      ensures r.Some? <==> typeName in typeDefinitions
      ensures r.Some? ==> r.value == Reference(typeDefinitions[typeName])
    {
      if typeName in typeDefinitions then Some(Reference(typeDefinitions[typeName])) else None
    }

    /** A source-level resolver knows no host methods: every call is unsolved. */
    function FindJvmDefinition(functionCall: FunctionCall): (r: Result<JvmMethodDefinition, ResolutionError>)
      ensures r == Failure(UnsolvedMethod(functionCall))
    {
      Failure(UnsolvedMethod(functionCall))
    }

    /**
     * Looks a name up in the type, property, function and program tables, in
     * that order; the first table holding it wins.
     */
    function FindSymbol(name: string, context: object?): (r: Option<Symbol>)
      reads this
      ensures r.None? <==>
        name !in typeDefinitions && name !in propertyDefinitions
        && name !in functionDefinitions && name !in programsDefinitions
      ensures name in typeDefinitions ==> r == Some(TypeSymbol(typeDefinitions[name]))
      ensures name !in typeDefinitions && name in propertyDefinitions ==>
        r == Some(PropertySymbol(propertyDefinitions[name]))
      ensures name !in typeDefinitions && name !in propertyDefinitions && name in functionDefinitions ==>
        r == Some(FunctionSymbol(functionDefinitions[name]))
      ensures name !in typeDefinitions && name !in propertyDefinitions && name !in functionDefinitions && name in programsDefinitions
        ==> r == Some(ProgramSymbol(programsDefinitions[name]))
      ensures r.Some? && r.value.TypeSymbol? ==> name in typeDefinitions
      ensures r.Some? && r.value.PropertySymbol? ==>
        name !in typeDefinitions && name in propertyDefinitions && r.value.decl == propertyDefinitions[name]
      ensures r.Some? && r.value.FunctionSymbol? ==>
        name !in typeDefinitions && name !in propertyDefinitions
        && name in functionDefinitions && r.value.decl == functionDefinitions[name]
      ensures r.Some? && r.value.ProgramSymbol? ==>
        name !in typeDefinitions && name !in propertyDefinitions && name !in functionDefinitions
        && name in programsDefinitions && r.value.decl == programsDefinitions[name]
    {
      if name in typeDefinitions then Some(TypeSymbol(typeDefinitions[name]))
      else if name in propertyDefinitions then Some(PropertySymbol(propertyDefinitions[name]))
      else if name in functionDefinitions then Some(FunctionSymbol(functionDefinitions[name]))
      else if name in programsDefinitions then Some(ProgramSymbol(programsDefinitions[name]))
      else None
    }

    predicate ExistPackage(packageName: string)
      reads this
      ensures ExistPackage(packageName) <==> packageName in packages
    {
      packageName in packages
    }
  }

  /** One more `put`: registering the next declaration of `ds` after `prefix`. */
  lemma PutOneMore(prefix: seq<Decl>, ds: seq<Decl>, j: nat)
    requires j < |ds|
    ensures Registered(prefix + ds[..j + 1]) == Registered(prefix + ds[..j])[ds[j].qualifiedName := ds[j]]
    ensures ContextNames(ds[..j + 1]) == ContextNames(ds[..j]) + {ds[j].contextName}
  {
    assert ds[..j + 1][..j] == ds[..j];
    assert (prefix + ds[..j + 1])[..|prefix + ds[..j + 1]| - 1] == prefix + ds[..j];
    assert ds[..j + 1] == ds[..j] + [ds[j]];
  }

  /** Moving past file `i` appends its declarations of each kind and adds its context names. */
  lemma NextFile(files: seq<TurinFile>, i: nat)
    requires i < |files|
    ensures AllOf(files[..i + 1], TypeKind) == AllOf(files[..i], TypeKind) + files[i].topLevelTypeDefinitions
    ensures AllOf(files[..i + 1], PropertyKind) == AllOf(files[..i], PropertyKind) + files[i].topLevelPropertyDefinitions
    ensures AllOf(files[..i + 1], ProgramKind) == AllOf(files[..i], ProgramKind) + files[i].topLevelPrograms
    ensures AllOf(files[..i + 1], FunctionKind) == AllOf(files[..i], FunctionKind) + files[i].topLevelFunctionDefinitions
    ensures Packages(files[..i + 1]) == Packages(files[..i]) + FilePackages(files[i])
  {
    assert files[..i + 1][..i] == files[..i];
  }

  /** A context name is gathered exactly when some declaration of `ds` has it. */
  lemma {:induction false} InContextNames(ds: seq<Decl>, p: string)
    ensures p in ContextNames(ds) <==> exists d :: d in ds && d.contextName == p
  {
    if ds != [] {
      var init := ds[..|ds| - 1];
      InContextNames(init, p);
      assert ds == init + [ds[|ds| - 1]];
    }
  }

  /** A qualified name is a key of the table exactly when some registered declaration carries it. */
  lemma {:induction false} RegisteredKeys(ds: seq<Decl>, key: string)
    ensures key in Registered(ds) <==> exists i :: 0 <= i < |ds| && ds[i].qualifiedName == key
  {
    if ds != [] {
      var init := ds[..|ds| - 1];
      RegisteredKeys(init, key);
      if key in Registered(init) {
        var i :| 0 <= i < |init| && init[i].qualifiedName == key;
        assert ds[i] == init[i];
      }
      if exists i :: 0 <= i < |ds| && ds[i].qualifiedName == key {
        var i :| 0 <= i < |ds| && ds[i].qualifiedName == key;
        if i < |init| {
          assert init[i] == ds[i];
        }
      }
    }
  }

  /** On duplicate qualified names the last declaration registered is the one kept. */
  lemma {:induction false} RegisteredLastWins(ds: seq<Decl>, i: nat)
    requires i < |ds|
    requires forall j :: i < j < |ds| ==> ds[j].qualifiedName != ds[i].qualifiedName
    ensures ds[i].qualifiedName in Registered(ds) && Registered(ds)[ds[i].qualifiedName] == ds[i]
  {
    if i < |ds| - 1 {
      var init := ds[..|ds| - 1];
      assert init[i] == ds[i];
      RegisteredLastWins(init, i);
    }
  }

  /** A declaration appears in the flattened list exactly when some file declares it at top level. */
  lemma {:induction false} InAllOf(files: seq<TurinFile>, kind: DeclKind, d: Decl)
    ensures d in AllOf(files, kind) <==> exists i :: 0 <= i < |files| && d in files[i].TopLevel(kind)
  {
    if files != [] {
      var init := files[..|files| - 1];
      InAllOf(init, kind, d);
      if exists i :: 0 <= i < |init| && d in init[i].TopLevel(kind) {
        var i :| 0 <= i < |init| && d in init[i].TopLevel(kind);
        assert files[i] == init[i];
      }
      if exists i :: 0 <= i < |files| && d in files[i].TopLevel(kind) {
        var i :| 0 <= i < |files| && d in files[i].TopLevel(kind);
        if i < |init| {
          assert init[i] == files[i];
        }
      }
    }
  }

  /** One file contributes a package name exactly when one of its top-level declarations has it as context name. */
  lemma InFilePackages(f: TurinFile, p: string)
    ensures p in FilePackages(f) <==> exists kind, d :: d in f.TopLevel(kind) && d.contextName == p
  {
    InContextNames(f.topLevelTypeDefinitions, p);
    InContextNames(f.topLevelPropertyDefinitions, p);
    InContextNames(f.topLevelPrograms, p);
    InContextNames(f.topLevelFunctionDefinitions, p);
    if p in FilePackages(f) {
      if p in ContextNames(f.topLevelTypeDefinitions) {
        var d :| d in f.topLevelTypeDefinitions && d.contextName == p;
        assert d in f.TopLevel(TypeKind);
      } else if p in ContextNames(f.topLevelPropertyDefinitions) {
        var d :| d in f.topLevelPropertyDefinitions && d.contextName == p;
        assert d in f.TopLevel(PropertyKind);
      } else if p in ContextNames(f.topLevelPrograms) {
        var d :| d in f.topLevelPrograms && d.contextName == p;
        assert d in f.TopLevel(ProgramKind);
      } else {
        var d :| d in f.topLevelFunctionDefinitions && d.contextName == p;
        assert d in f.TopLevel(FunctionKind);
      }
    }
  }

  /** The package set of a batch holds exactly the context names its files declare. */
  lemma {:induction false} InPackages(files: seq<TurinFile>, p: string)
    ensures p in Packages(files) <==> DeclaresContext(files, p)
  {
    if files != [] {
      var init := files[..|files| - 1];
      var last := files[|files| - 1];
      InPackages(init, p);
      InFilePackages(last, p);
      if DeclaresContext(init, p) {
        var i, kind, d :| 0 <= i < |init| && d in init[i].TopLevel(kind) && d.contextName == p;
        assert files[i] == init[i];
      }
      if p in FilePackages(last) {
        var kind, d :| d in last.TopLevel(kind) && d.contextName == p;
        assert d in files[|files| - 1].TopLevel(kind);
      }
      if DeclaresContext(files, p) {
        var i, kind, d :| 0 <= i < |files| && d in files[i].TopLevel(kind) && d.contextName == p;
        if i < |init| {
          assert init[i] == files[i];
        }
      }
    }
  }

  /** After construction a package exists exactly when some top-level declaration has it as context name. */
  lemma ExistPackageIffDeclared(r: SrcSymbolResolver, p: string)
    requires r.Valid()
    ensures r.ExistPackage(p) <==> DeclaresContext(r.files, p)
  {
    InPackages(r.files, p);
  }

  /** After construction every top-level declaration of every file is a key of the table of its kind. */
  lemma EveryDeclarationIsIndexed(r: SrcSymbolResolver, i: nat, kind: DeclKind, d: Decl)
    requires r.Valid()
    requires i < |r.files| && d in r.files[i].TopLevel(kind)
    ensures d.qualifiedName in r.Table(kind)
  {
    InAllOf(r.files, kind, d);
    var ds := AllOf(r.files, kind);
    var k :| 0 <= k < |ds| && ds[k] == d;
    RegisteredKeys(ds, d.qualifiedName);
  }

  /**
   * After construction a type is found under a qualified name exactly when a
   * top-level type of some file carries it, and the type found is the last of
   * those; the type usage found wraps that same definition.
   */
  lemma FindTypeAfterConstruction(r: SrcSymbolResolver, typeName: string, context: object?, resolver: object?)
    requires r.Valid()
    ensures r.FindTypeDefinitionIn(typeName, context, resolver).Some? <==>
      exists d :: d in AllOf(r.files, TypeKind) && d.qualifiedName == typeName
    ensures forall i ::
      (0 <= i < |AllOf(r.files, TypeKind)| && AllOf(r.files, TypeKind)[i].qualifiedName == typeName
       && (forall j :: i < j < |AllOf(r.files, TypeKind)| ==> AllOf(r.files, TypeKind)[j].qualifiedName != typeName))
      ==> r.FindTypeDefinitionIn(typeName, context, resolver) == Some(AllOf(r.files, TypeKind)[i])
    ensures r.FindTypeUsageIn(typeName, context, resolver) ==
      match r.FindTypeDefinitionIn(typeName, context, resolver)
      case Some(d) => Some(Reference(d))
      case None => None
  {
    var ds := AllOf(r.files, TypeKind);
    RegisteredKeys(ds, typeName);
    forall i | 0 <= i < |ds| && ds[i].qualifiedName == typeName
      && (forall j :: i < j < |ds| ==> ds[j].qualifiedName != typeName)
      ensures r.FindTypeDefinitionIn(typeName, context, resolver) == Some(ds[i])
    {
      RegisteredLastWins(ds, i);
    }
  }

  /**
   * A property declared with qualified name `ctx.name`, and not redeclared
   * under that name later in the batch, is what a reference to `name` from
   * context `ctx` resolves to.
   */
  lemma FindDefinitionAfterConstruction(r: SrcSymbolResolver, ref: PropertyReference, i: nat)
    requires r.Valid()
    requires i < |AllOf(r.files, PropertyKind)|
    requires AllOf(r.files, PropertyKind)[i].qualifiedName == ref.contextName + "." + ref.name
    requires forall j :: i < j < |AllOf(r.files, PropertyKind)| ==>
      AllOf(r.files, PropertyKind)[j].qualifiedName != ref.contextName + "." + ref.name
    ensures r.FindDefinition(ref) == Some(AllOf(r.files, PropertyKind)[i])
  {
    RegisteredLastWins(AllOf(r.files, PropertyKind), i);
  }

  /** After construction a name is an unknown symbol exactly when no top-level declaration of any kind carries it. */
  lemma FindSymbolMissAfterConstruction(r: SrcSymbolResolver, name: string, context: object?)
    requires r.Valid()
    ensures r.FindSymbol(name, context).None? <==>
      && (forall d :: d in AllOf(r.files, TypeKind) ==> d.qualifiedName != name)
      && (forall d :: d in AllOf(r.files, PropertyKind) ==> d.qualifiedName != name)
      && (forall d :: d in AllOf(r.files, ProgramKind) ==> d.qualifiedName != name)
      && (forall d :: d in AllOf(r.files, FunctionKind) ==> d.qualifiedName != name)
  {
    RegisteredKeys(AllOf(r.files, TypeKind), name);
    RegisteredKeys(AllOf(r.files, PropertyKind), name);
    RegisteredKeys(AllOf(r.files, ProgramKind), name);
    RegisteredKeys(AllOf(r.files, FunctionKind), name);
  }
}
