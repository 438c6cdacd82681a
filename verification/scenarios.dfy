/** Concrete compilations shaped like the analyzer's test programs, and what
    the model reports for them. Symbols are numbered in the order the test
    program declares its methods. */
module Scenarios {
  import opened Wrappers
  import opened CodeModel
  import KnownTypeSymbols
  import opened OrchestrationAnalyzer
  import opened OrchestrationClosure
  import opened DateTimeOrchestrationAnalyzer

  const SystemDateTime: NamedType := NamedType("System.DateTime")

  /** A method with a single parameter, which carries the orchestration trigger
      attribute (the tests' `Run` methods). */
  const OrchestratorSymbol: SymbolInfo :=
    MethodSymbol([], [ParameterSymbol([AttributeData(Some(NamedType(KnownTypeSymbols.OrchestrationTriggerAttributeName)))])])

  /** An ordinary method. */
  const PlainMethodSymbol: SymbolInfo := MethodSymbol([], [])

  /** A read of `DateTime.<name>` inside method `inMethod`. Locations are
      symbolic: a read the test marks with location marker n sits at position n, and the
      unmarked reads sit at positions 10, 11, … */
  function Read(name: string, at: nat, inMethod: Symbol): PropertyReference {
    PropertyReference(SyntaxNode(Location("Test0.cs", at, 0)), PropertySymbol(SystemDateTime, name), inMethod)
  }

  /** The finding the rule reports for a clock reading: its location and the
      property's display name. */
  function ClockFinding(o: PropertyReference): Diagnostic {
    Diagnostic(DiagnosticDescriptor("DF1101"), o.syntax.location, ["System.DateTime." + o.property.name])
  }

  function Program(declarations: seq<Declaration>, symbols: map<Symbol, SymbolInfo>,
                   references: seq<PropertyReference>): Compilation {
    Compilation(declarations, symbols, map[], {KnownTypeSymbols.OrchestrationTriggerAttributeName}, SystemDateTime, references)
  }

  lemma IsOrchestrator(c: Compilation, s: Symbol)
    requires s in c.symbols && c.symbols[s] == OrchestratorSymbol
    ensures IsOrchestration(c, Trigger(), s)
  {
    var a := AttributeData(Some(Trigger()));
    assert a in OrchestratorSymbol.parameters[0].attributes;
  }

  lemma Declares(c: Compilation, d: DeclId, s: Symbol)
    requires IsMethodDeclarationOf(c, d, s)
    ensures HasMethodDeclaration(c, s)
  {
    assert d in MethodDeclarations(c, s);
  }

  /** In a table whose entry `s` declares symbol `s`, that entry is the first
      (and only) declaration the traversal explores for `s`. */
  lemma DeclaredAtOwnIndex(c: Compilation, s: Symbol)
    requires forall e :: 0 <= e < |c.declarations| ==> c.declarations[e].symbol == e
    requires IsMethodDeclarationOf(c, s, s)
    ensures HasMethodDeclaration(c, s) && FirstMethodDeclaration(c, s) == s
  {
    Declares(c, s, s);
  }

  /** A clock reading of System.DateTime is reported with its own name. */
  lemma ReportIsClockFinding(o: PropertyReference)
    requires o.property.containingType == SystemDateTime
    ensures ReportFor(o) == ClockFinding(o)
  {
    assert PropertyDisplayString(o.property) == "System.DateTime." + o.property.name;
  }

  /** When the first `n` reads of the compilation are reachable clock
      readings of System.DateTime and the rest are not clock readings, the
      expected findings are one clock finding per each of the first `n`. */
  lemma ClockReadsReported(c: Compilation, keys: set<Symbol>, n: nat) returns (f: seq<Diagnostic>)
    requires c.dateTimeType == SystemDateTime && n <= |c.propertyReferences|
    requires forall o :: o in c.propertyReferences[..n] ==> IsNonDeterministicDateTime(c.dateTimeType, o.property) && o.containingSymbol in keys
    requires forall o :: o in c.propertyReferences[n..] ==> !IsNonDeterministicDateTime(c.dateTimeType, o.property)
    ensures f == ExpectedFindings(c.dateTimeType, c.propertyReferences, keys)
    ensures |f| == n
    ensures forall k :: 0 <= k < n ==> f[k] == ClockFinding(c.propertyReferences[k])
  {
    var clocks := c.propertyReferences[..n];
    var rest := c.propertyReferences[n..];
    assert c.propertyReferences == clocks + rest;
    ExpectedFindingsAppend(c.dateTimeType, clocks, rest, keys);
    NoReachableMatchNothingExpected(c.dateTimeType, rest, keys);
    EveryReachableReadReported(c.dateTimeType, clocks, keys);
    f := ExpectedFindings(c.dateTimeType, c.propertyReferences, keys);
    assert f == ExpectedFindings(c.dateTimeType, clocks, keys);
    forall k | 0 <= k < n ensures f[k] == ClockFinding(c.propertyReferences[k]) {
      ReportIsClockFinding(clocks[k]);
    }
  }

  /** A reachable DateTime.Now read followed by a Ticks read on its result
      gives exactly the Now finding. */
  lemma NowThenTicksReportsNow(c: Compilation, now: PropertyReference, ticks: PropertyReference, keys: set<Symbol>)
    requires c.propertyReferences == [now, ticks] && c.dateTimeType == SystemDateTime
    requires now.property == PropertySymbol(SystemDateTime, "Now") && now.containingSymbol in keys
    requires ticks.property == PropertySymbol(SystemDateTime, "Ticks")
    ensures ExpectedFindings(c.dateTimeType, c.propertyReferences, keys) == [ClockFinding(now)]
  {
    ReportIsClockFinding(now);
    assert ExpectedFindings(c.dateTimeType, [ticks], keys) == [];
  }

  /** An orchestration (0) that reads `DateTime.<name>` directly. */
  function DirectRead(name: string): Compilation {
    Program([ Declaration(0, MethodDeclaration, []) ], map[0 := OrchestratorSymbol], [ Read(name, 0, 0) ])
  }

  /** Each of Now, UtcNow and Today read in the orchestration's own body gives
      one finding naming that property; any other property gives none. */
  lemma DirectClockReadReported(name: string)
    ensures name in {"Now", "UtcNow", "Today"} ==> AnalyzeCompilation(DirectRead(name)) == [ClockFinding(Read(name, 0, 0))]
    ensures name !in {"Now", "UtcNow", "Today"} ==> AnalyzeCompilation(DirectRead(name)) == []
  {
    var c := DirectRead(name);
    IsOrchestrator(c, 0);
    Declares(c, 0, 0);
    CallChainReachable(c, Trigger(), [0]);
    ReportIsClockFinding(Read(name, 0, 0));
  }

  /** An orchestration (0) calls 1, which calls 2, which calls 3; method 3
      reads Now (#0), UtcNow (#1) and Today (#2), then the Ticks of each. */
  const ThreeDeep: Compilation := Program(
    [ Declaration(0, MethodDeclaration, [Invocation(Some(1))]),
      Declaration(1, MethodDeclaration, [Invocation(Some(2))]),
      Declaration(2, MethodDeclaration, [Invocation(Some(3))]),
      Declaration(3, MethodDeclaration, []) ],
    map[0 := OrchestratorSymbol, 1 := PlainMethodSymbol, 2 := PlainMethodSymbol, 3 := PlainMethodSymbol],
    [ Read("Now", 0, 3), Read("UtcNow", 1, 3), Read("Today", 2, 3),
      Read("Ticks", 10, 3), Read("Ticks", 11, 3), Read("Ticks", 12, 3) ])

  lemma ThreeDeepReachable()
    ensures 3 in ReachableMethods(ThreeDeep, Trigger())
  {
    var c := ThreeDeep;
    IsOrchestrator(c, 0);
    Declares(c, 0, 0);
    DeclaredAtOwnIndex(c, 1);
    DeclaredAtOwnIndex(c, 2);
    DeclaredAtOwnIndex(c, 3);
    assert Calls(c, Trigger(), 0, 1) by { assert Explored(c, Trigger(), 0, 0); }
    assert Calls(c, Trigger(), 1, 2) by { assert Explored(c, Trigger(), 1, 1); }
    assert Calls(c, Trigger(), 2, 3) by { assert Explored(c, Trigger(), 2, 2); }
    CallChainReachable(c, Trigger(), [0, 1, 2, 3]);
  }

  /** The first three reads are reachable clock readings; the Ticks reads
      are not clock readings. */
  lemma ThreeDeepReadsClassified()
    ensures forall o :: o in ThreeDeep.propertyReferences[..3] ==>
              IsNonDeterministicDateTime(SystemDateTime, o.property) && o.containingSymbol in ReachableMethods(ThreeDeep, Trigger())
    ensures forall o :: o in ThreeDeep.propertyReferences[3..] ==> !IsNonDeterministicDateTime(SystemDateTime, o.property)
  {
    ThreeDeepReachable();
    OnlyClockReadingsMatch(SystemDateTime, NamedType(""), "Ticks");
  }

  /** A method three calls away from the orchestration is reached: its three
      clock readings give exactly three findings, in reference order, and the
      Ticks reads none. */
  lemma ThreeDeepChainReportsThree()
    ensures AnalyzeCompilation(ThreeDeep) ==
              [ClockFinding(Read("Now", 0, 3)), ClockFinding(Read("UtcNow", 1, 3)), ClockFinding(Read("Today", 2, 3))]
  {
    ThreeDeepReadsClassified();
    var f := ClockReadsReported(ThreeDeep, ReachableMethods(ThreeDeep, Trigger()).Keys, 3);
    assert f == [f[0], f[1], f[2]];
  }

  /** An orchestration (0) whose body holds a local function and three
      lambdas, each reading Now (#0 to #3). Each read's containing symbol is
      the orchestration itself. */
  const InLambdas: Compilation := Program(
    [ Declaration(0, MethodDeclaration, []) ],
    map[0 := OrchestratorSymbol],
    [ Read("Now", 0, 0), Read("Now", 1, 0), Read("Now", 2, 0), Read("Now", 3, 0) ])

  lemma InLambdasReachable()
    ensures 0 in ReachableMethods(InLambdas, Trigger())
  {
    IsOrchestrator(InLambdas, 0);
    Declares(InLambdas, 0, 0);
    CallChainReachable(InLambdas, Trigger(), [0]);
  }

  lemma InLambdasReadsReachable()
    ensures forall o :: o in InLambdas.propertyReferences[..4] ==>
              IsNonDeterministicDateTime(SystemDateTime, o.property) && o.containingSymbol in ReachableMethods(InLambdas, Trigger())
    ensures forall o :: o in InLambdas.propertyReferences[4..] ==> !IsNonDeterministicDateTime(SystemDateTime, o.property)
  {
    InLambdasReachable();
  }

  /** Four reads, four findings, in reference order. */
  lemma LambdaReadsReported()
    ensures AnalyzeCompilation(InLambdas) ==
              [ClockFinding(Read("Now", 0, 0)), ClockFinding(Read("Now", 1, 0)),
               ClockFinding(Read("Now", 2, 0)), ClockFinding(Read("Now", 3, 0))]
  {
    InLambdasReadsReachable();
    var f := ClockReadsReported(InLambdas, ReachableMethods(InLambdas, Trigger()).Keys, 4);
    assert f == [f[0], f[1], f[2], f[3]];
  }

  /** An orchestration (0) awaits two methods, 1 and 2, each of which returns
      a task wrapping a Now read (#0 in 1, #1 in 2). */
  const AsyncCallees: Compilation := Program(
    [ Declaration(0, MethodDeclaration, [Invocation(Some(1)), Invocation(Some(2))]),
      Declaration(1, MethodDeclaration, []),
      Declaration(2, MethodDeclaration, []) ],
    map[0 := OrchestratorSymbol, 1 := PlainMethodSymbol, 2 := PlainMethodSymbol],
    [ Read("Now", 0, 1), Read("Now", 1, 2) ])

  lemma AsyncCalleesReachable()
    ensures 1 in ReachableMethods(AsyncCallees, Trigger()) && 2 in ReachableMethods(AsyncCallees, Trigger())
  {
    var c := AsyncCallees;
    IsOrchestrator(c, 0);
    Declares(c, 0, 0);
    Declares(c, 1, 1);
    Declares(c, 2, 2);
    assert Explored(c, Trigger(), 0, 0);
    assert Calls(c, Trigger(), 0, 1) && Calls(c, Trigger(), 0, 2);
    CallChainReachable(c, Trigger(), [0, 1]);
    CallChainReachable(c, Trigger(), [0, 2]);
  }

  /** Both awaited methods are reached and each read is reported. */
  lemma AsyncCalleesReported()
    ensures AnalyzeCompilation(AsyncCallees) == [ClockFinding(Read("Now", 0, 1)), ClockFinding(Read("Now", 1, 2))]
  {
    AsyncCalleesReachable();
    var f := ClockReadsReported(AsyncCallees, ReachableMethods(AsyncCallees, Trigger()).Keys, 2);
    assert f == [f[0], f[1]];
  }

  /** Two orchestrations, Run1 (0) and Run2 (1), each call a helper (2) that
      reads DateTime.Now and then its Ticks. */
  const TwoCallers: Compilation := Program(
    [ Declaration(0, MethodDeclaration, [Invocation(Some(2))]),
      Declaration(1, MethodDeclaration, [Invocation(Some(2))]),
      Declaration(2, MethodDeclaration, []) ],
    map[0 := OrchestratorSymbol, 1 := OrchestratorSymbol, 2 := PlainMethodSymbol],
    [ Read("Now", 0, 2), Read("Ticks", 10, 2) ])

  /** One finding for the helper's read, not one per caller. */
  lemma HelperCalledByTwoOrchestrationsReportedOnce()
    ensures AnalyzeCompilation(TwoCallers) == [ClockFinding(Read("Now", 0, 2))]
  {
    var c := TwoCallers;
    IsOrchestrator(c, 0);
    Declares(c, 0, 0);
    Declares(c, 2, 2);
    assert Explored(c, Trigger(), 0, 0);
    assert Calls(c, Trigger(), 0, 2);
    CallChainReachable(c, Trigger(), [0, 2]);
    NowThenTicksReportsNow(c, Read("Now", 0, 2), Read("Ticks", 10, 2), ReachableMethods(c, Trigger()).Keys);
  }

  /** An orchestration (0) calls a method (1) that calls itself and reads
      DateTime.Now once per body, then Ticks. */
  const SelfRecursive: Compilation := Program(
    [ Declaration(0, MethodDeclaration, [Invocation(Some(1))]),
      Declaration(1, MethodDeclaration, [Invocation(Some(1))]) ],
    map[0 := OrchestratorSymbol, 1 := PlainMethodSymbol],
    [ Read("Now", 0, 1), Read("Ticks", 10, 1) ])

  /** The traversal ends, and the single read site gives a single finding. */
  lemma RecursiveHelperReportedOnce()
    ensures AnalyzeCompilation(SelfRecursive) == [ClockFinding(Read("Now", 0, 1))]
  {
    var c := SelfRecursive;
    IsOrchestrator(c, 0);
    Declares(c, 0, 0);
    Declares(c, 1, 1);
    assert Explored(c, Trigger(), 0, 0);
    assert Calls(c, Trigger(), 0, 1);
    CallChainReachable(c, Trigger(), [0, 1]);
    NowThenTicksReportsNow(c, Read("Now", 0, 1), Read("Ticks", 10, 1), ReachableMethods(c, Trigger()).Keys);
  }

  /** An orchestration (0) that reads nothing, and a method (1) nobody calls
      that reads DateTime.Now. */
  const UncalledReader: Compilation := Program(
    [ Declaration(0, MethodDeclaration, []),
      Declaration(1, MethodDeclaration, []) ],
    map[0 := OrchestratorSymbol, 1 := PlainMethodSymbol],
    [ Read("Now", 10, 1) ])

  /** No finding: the reading method is not reachable. */
  lemma UncalledMethodNotReported()
    ensures AnalyzeCompilation(UncalledReader) == []
  {
    var c := UncalledReader;
    assert forall s :: IsEntry(c, Trigger(), s) ==> s in {0};
    assert forall t :: !Calls(c, Trigger(), 0, t);
    UnreachedUsagesNotReported(c, {0});
  }

  /** An orchestration (0) calls `Helper<int>` (3), a constructed instance of
      the generic method `Helper<T>` (1); `Helper<T>` calls `Other` (2). Other
      reads DateTime.Now (#0), and so does Helper's own body (#1), a read the
      operation callback attributes to the definition `Helper<T>`. */
  const GenericCallee: Compilation := Program(
    [ Declaration(0, MethodDeclaration, [Invocation(Some(3))]),
      Declaration(1, MethodDeclaration, [Invocation(Some(2))]),
      Declaration(2, MethodDeclaration, []) ],
    map[0 := OrchestratorSymbol, 1 := PlainMethodSymbol, 2 := PlainMethodSymbol, 3 := PlainMethodSymbol],
    [ Read("Now", 0, 2), Read("Now", 1, 1) ]).(originalDefinitions := map[3 := 1])

  /** The constructed callee is explored through its definition's declaration,
      so Other is reached. */
  lemma GenericCalleeReachesOther()
    ensures 2 in ReachableMethods(GenericCallee, Trigger())
  {
    var c := GenericCallee;
    IsOrchestrator(c, 0);
    Declares(c, 0, 0);
    assert IsMethodDeclarationOf(c, 1, 3);
    Declares(c, 1, 3);
    assert FirstMethodDeclaration(c, 3) == 1 by {
      assert !IsMethodDeclarationOf(c, 0, 3);
    }
    Declares(c, 2, 2);
    assert Calls(c, Trigger(), 0, 3) by { assert Explored(c, Trigger(), 0, 0); }
    assert Calls(c, Trigger(), 3, 2) by { assert Explored(c, Trigger(), 3, 1); }
    CallChainReachable(c, Trigger(), [0, 3, 2]);
  }

  /** Run is the only entry. */
  lemma GenericCalleeEntries()
    ensures ContainsEntries(GenericCallee, Trigger(), {0, 2, 3})
  {
    assert forall s :: IsEntry(GenericCallee, Trigger(), s) ==> s == 0;
  }

  /** Only Run's call to `Helper<int>`, and `Helper<int>`'s call (through its
      definition's body) to Other, are followed. */
  lemma GenericCalleeClosed()
    ensures ClosedUnderCalls(GenericCallee, Trigger(), {0, 2, 3})
  {
    var c := GenericCallee;
    forall s, t | s in {0, 2, 3} && Calls(c, Trigger(), s, t) ensures t in {0, 2, 3} {
      var d: DeclId :| Explored(c, Trigger(), s, d) && Invocation(Some(t)) in c.declarations[d].invocations;
      assert d == 0 || d == 1;
    }
  }

  /** The definition `Helper<T>` itself is never a key: only the constructed
      `Helper<int>` is inserted. */
  lemma GenericDefinitionNotKey()
    ensures 1 !in ReachableMethods(GenericCallee, Trigger())
  {
    GenericCalleeEntries();
    GenericCalleeClosed();
    ReachableMethodsLeast(GenericCallee, Trigger(), {0, 2, 3});
  }

  /** As written, the read in Other is reported but the read in the generic
      helper's own body is not: the map holds `Helper<int>` while the read is
      recorded under `Helper<T>`. */
  lemma GenericHelperOwnReadNotReported()
    ensures AnalyzeCompilation(GenericCallee) == [ClockFinding(Read("Now", 0, 2))]
  {
    var keys := ReachableMethods(GenericCallee, Trigger()).Keys;
    GenericCalleeReachesOther();
    GenericDefinitionNotKey();
    ReportIsClockFinding(Read("Now", 0, 2));
    assert ExpectedFindings(SystemDateTime, [Read("Now", 1, 1)], keys) == [];
  }

  /** An orchestration (0) calls a method (1) declared twice, as the two parts
      of a partial method; only the second part calls a method (2) that reads
      DateTime.Now. */
  const PartialCallee: Compilation := Program(
    [ Declaration(0, MethodDeclaration, [Invocation(Some(1))]),
      Declaration(1, MethodDeclaration, []),
      Declaration(1, MethodDeclaration, [Invocation(Some(2))]),
      Declaration(2, MethodDeclaration, []) ],
    map[0 := OrchestratorSymbol, 1 := PlainMethodSymbol, 2 := PlainMethodSymbol],
    [ Read("Now", 0, 2) ])

  lemma PartialCalleeEntries()
    ensures ContainsEntries(PartialCallee, Trigger(), {0, 1})
  {
    assert forall s :: IsEntry(PartialCallee, Trigger(), s) ==> s in {0, 1};
  }

  /** Method 1 is explored through declaration 1 only, which calls nothing. */
  lemma PartialCalleeClosed()
    ensures ClosedUnderCalls(PartialCallee, Trigger(), {0, 1})
  {
    var c := PartialCallee;
    assert FirstMethodDeclaration(c, 1) == 1 by {
      Declares(c, 1, 1);
      assert IsMethodDeclarationOf(c, 1, 1);
    }
    assert forall t :: Calls(c, Trigger(), 0, t) ==> t == 1;
    assert forall t :: !Calls(c, Trigger(), 1, t);
  }

  /** As written, the callee is explored through its first declaration only:
      what the second one calls is never reached, and the read is not reported. */
  lemma SecondPartialDeclarationNotExplored()
    ensures AnalyzeCompilation(PartialCallee) == []
  {
    PartialCalleeEntries();
    PartialCalleeClosed();
    UnreachedUsagesNotReported(PartialCallee, {0, 1});
  }
}
