/** Attribute queries on symbols and the construction of a diagnostic. */
module RoslynExtensions {
  import opened Wrappers
  import opened CodeModel

  /** The scan for an attribute of the given class (RoslynExtensions.cs:20 and
      :32): an attribute whose class could not be bound never matches. */
  function AnyOfClass(attributes: seq<AttributeData>, attributeSymbol: NamedType): (b: bool)
    ensures b <==> exists k :: 0 <= k < |attributes| && attributes[k].attributeClass == Some(attributeSymbol)
  {
    if attributes == [] then false
    else attributes[0].attributeClass == Some(attributeSymbol) || AnyOfClass(attributes[1..], attributeSymbol)
  }

  /** The attributes of all the method's parameters, flattened parameter by
      parameter (RoslynExtensions.cs:30-31). */
  function ParameterAttributes(parameters: seq<ParameterSymbol>): (attributes: seq<AttributeData>)
    ensures forall a :: a in attributes <==> exists k :: 0 <= k < |parameters| && a in parameters[k].attributes
  {
    if parameters == [] then []
    else
      var rest := ParameterAttributes(parameters[1..]);
      parameters[0].attributes + rest
  }

  /** A null symbol carries no attribute; otherwise true exactly when one of
      the symbol's own attributes has the given class. */
  function ContainsAttribute(symbol: Option<SymbolInfo>, attributeSymbol: NamedType): (b: bool)
    ensures symbol.None? ==> !b
    ensures b <==> symbol.Some? && exists a :: a in symbol.value.attributes && a.attributeClass == Some(attributeSymbol)
  {
    match symbol
    case None => false
    case Some(s) => AnyOfClass(s.attributes, attributeSymbol)
  }

  /** True exactly when the symbol is a method and one of its parameters carries
      an attribute of the given class; attributes on the method itself do not count. */
  function ContainsAttributeInAnyMethodArguments(symbol: Option<SymbolInfo>, attributeSymbol: NamedType): (b: bool)
    ensures !(symbol.Some? && symbol.value.MethodSymbol?) ==> !b
    ensures b <==> symbol.Some? && symbol.value.MethodSymbol?
                   && exists k, a :: 0 <= k < |symbol.value.parameters|
                                     && a in symbol.value.parameters[k].attributes
                                     && a.attributeClass == Some(attributeSymbol)
  {
    match symbol
    case Some(MethodSymbol(_, parameters)) =>
      var attributes := ParameterAttributes(parameters);
      assert AnyOfClass(attributes, attributeSymbol) <==> exists a :: a in attributes && a.attributeClass == Some(attributeSymbol) by {
        if AnyOfClass(attributes, attributeSymbol) {
          var j :| 0 <= j < |attributes| && attributes[j].attributeClass == Some(attributeSymbol);
          assert attributes[j] in attributes;
        }
      }
      AnyOfClass(attributes, attributeSymbol)
    case _ => false
  }

  /** A method's own attributes have no say in whether it is an orchestration:
      two methods with the same parameters give the same answer. */
  lemma MethodAttributesIgnored(own1: seq<AttributeData>, own2: seq<AttributeData>,
                                parameters: seq<ParameterSymbol>, attributeSymbol: NamedType)
    ensures ContainsAttributeInAnyMethodArguments(Some(MethodSymbol(own1, parameters)), attributeSymbol)
         == ContainsAttributeInAnyMethodArguments(Some(MethodSymbol(own2, parameters)), attributeSymbol)
  {
  }

  /** A method that carries the attribute on itself but on none of its
      parameters is not matched, whatever other attributes the parameters carry. */
  lemma MethodLevelAttributeAlone(attributeSymbol: NamedType, parameters: seq<ParameterSymbol>)
    requires forall k, a :: 0 <= k < |parameters| && a in parameters[k].attributes ==> a.attributeClass != Some(attributeSymbol)
    ensures ContainsAttribute(Some(MethodSymbol([AttributeData(Some(attributeSymbol))], parameters)), attributeSymbol)
    ensures !ContainsAttributeInAnyMethodArguments(Some(MethodSymbol([AttributeData(Some(attributeSymbol))], parameters)), attributeSymbol)
  {
    assert AttributeData(Some(attributeSymbol)) in [AttributeData(Some(attributeSymbol))];
  }

  /** A method without parameters is never matched. */
  lemma NoParametersNoMatch(own: seq<AttributeData>, attributeSymbol: NamedType)
    ensures !ContainsAttributeInAnyMethodArguments(Some(MethodSymbol(own, [])), attributeSymbol)
  {
  }

  /** A diagnostic for the descriptor at the node's location with the given
      message arguments (RoslynExtensions.cs:40-43). */
  function BuildDiagnostic(descriptor: DiagnosticDescriptor, syntaxNode: SyntaxNode, messageArgs: seq<string>): (d: Diagnostic)
    ensures d.descriptor.id == descriptor.id
    ensures d.location == syntaxNode.location
    ensures d.messageArgs == messageArgs
  {
    Diagnostic(descriptor, syntaxNode.location, messageArgs)
  }
}
