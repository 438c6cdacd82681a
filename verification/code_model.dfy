/** The facts the Roslyn front end hands to the analyzer, as plain data.
    Parsing, the semantic model and the symbol table are not modelled: a
    compilation is given as a table of declaration nodes (with the invocations
    each one contains), a symbol table, the set of type names that metadata
    lookup can resolve, the special System.DateTime type, and every property
    reference operation of the program. */
module CodeModel {
  import opened Wrappers

  /** A symbol handle. Equality is symbol identity (SymbolEqualityComparer.Default). */
  type Symbol = nat

  /** The index of a declaration node in Compilation.declarations. */
  type DeclId = nat

  /** A named type, identified by its fully qualified metadata name. */
  datatype NamedType = NamedType(fullName: string)

  /** An applied attribute. Roslyn leaves the attribute class null when it cannot bind it. */
  datatype AttributeData = AttributeData(attributeClass: Option<NamedType>)

  datatype ParameterSymbol = ParameterSymbol(attributes: seq<AttributeData>)

  /** What the symbol table knows about a symbol: methods have parameters, other
      symbols (types, fields, properties, ...) only attributes. */
  datatype SymbolInfo =
    | MethodSymbol(attributes: seq<AttributeData>, parameters: seq<ParameterSymbol>)
    | OtherSymbol(attributes: seq<AttributeData>)

  /** What SemanticModel.GetOperation reports for one invocation expression. */
  datatype CallSite =
    | NoOperation                                // no operation for the syntax
    | OtherOperation                             // an operation that is not an invocation
    | Invocation(targetMethod: Option<Symbol>)   // an invocation; None when TargetMethod is null

  /** MethodDeclarationSyntax, or any other syntax that declares a method symbol
      (local function statement, constructor, accessor, ...). */
  datatype DeclarationKind = MethodDeclaration | OtherDeclaration

  /** One declaring syntax node: the symbol it declares, its kind, and the
      invocation expressions among its descendant nodes, in document order
      (those inside lambdas and local functions included). */
  datatype Declaration = Declaration(symbol: Symbol, kind: DeclarationKind, invocations: seq<CallSite>)

  datatype Location = Location(path: string, start: nat, length: nat)

  datatype SyntaxNode = SyntaxNode(location: Location)

  datatype PropertySymbol = PropertySymbol(containingType: NamedType, name: string)

  /** An IPropertyReferenceOperation together with the symbol the operation
      callback reports as containing it (the enclosing method, also for uses
      inside lambdas and local functions). */
  datatype PropertyReference = PropertyReference(syntax: SyntaxNode, property: PropertySymbol, containingSymbol: Symbol)

  /** A compilation. `originalDefinitions` maps each constructed method symbol
      (a generic method applied to type arguments, or a method of a constructed
      generic type) to its original definition, whose declaring syntax it shares. */
  datatype Compilation = Compilation(
    declarations: seq<Declaration>,
    symbols: map<Symbol, SymbolInfo>,
    originalDefinitions: map<Symbol, Symbol>,
    metadataTypeNames: set<string>,
    dateTimeType: NamedType,
    propertyReferences: seq<PropertyReference>)

  datatype DiagnosticDescriptor = DiagnosticDescriptor(id: string)

  datatype Diagnostic = Diagnostic(descriptor: DiagnosticDescriptor, location: Location, messageArgs: seq<string>)

  /** Some declaration node declares `s` itself. */
  predicate IsDeclared(c: Compilation, s: Symbol) {
    exists d :: 0 <= d < |c.declarations| && c.declarations[d].symbol == s
  }

  /** The symbol whose declaring syntax `s` has (ISymbol.OriginalDefinition): a
      constructed symbol's original definition; a symbol that a node declares,
      or that is not constructed, is its own definition. */
  function OriginalDefinition(c: Compilation, s: Symbol): (r: Symbol)
    ensures IsDeclared(c, s) || s !in c.originalDefinitions ==> r == s
    ensures !IsDeclared(c, s) && s in c.originalDefinitions ==> r == c.originalDefinitions[s]
  {
    if s in c.originalDefinitions && !IsDeclared(c, s) then c.originalDefinitions[s] else s
  }

  /** The symbol table entry for `s`, or None where Roslyn would hand back null. */
  function SymbolInfoOf(c: Compilation, s: Symbol): Option<SymbolInfo> {
    if s in c.symbols then Some(c.symbols[s]) else None
  }

  /** ISymbol.ToString() of a property: its containing type's qualified name, a dot, its name. */
  function PropertyDisplayString(p: PropertySymbol): (r: string)
    ensures |r| == |p.containingType.fullName| + 1 + |p.name|
    ensures r[..|p.containingType.fullName|] == p.containingType.fullName
    ensures r[|p.containingType.fullName|] == '.'
    ensures r[|p.containingType.fullName| + 1..] == p.name
  {
    p.containingType.fullName + "." + p.name
  }

  /** Two properties of one type display differently, so the message argument
      tells the reported properties apart. */
  lemma DisplayStringDistinguishesProperties(p: PropertySymbol, q: PropertySymbol)
    requires p.containingType == q.containingType && p.name != q.name
    ensures PropertyDisplayString(p) != PropertyDisplayString(q)
  {
    var n := |p.containingType.fullName| + 1;
    assert PropertyDisplayString(p)[n..] != PropertyDisplayString(q)[n..];
  }
}
