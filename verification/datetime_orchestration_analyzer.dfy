/** Rule DF1101: reading DateTime.Now, DateTime.UtcNow or DateTime.Today in a
    method reachable by an orchestration. Every property reference of the
    program is matched against the rule, and matching ones are recorded with their containing
    method; at the end of the compilation the recorded usages are filtered
    against the reachable map, which by then is complete. */
module DateTimeOrchestrationAnalyzer {
  import opened Wrappers
  import opened CodeModel
  import RoslynExtensions
  import KnownTypeSymbols
  import opened OrchestrationAnalyzer
  import opened OrchestrationClosure

  const DiagnosticId: string := "DF1101"

  const Rule: DiagnosticDescriptor := DiagnosticDescriptor(DiagnosticId)

  /** The names of the three clock-reading properties of System.DateTime
      (DateTimeOrchestrationAnalyzer.cs:39). */
  const NonDeterministicProperties: set<string> := {"Now", "UtcNow", "Today"}

  /** The test of the operation callback: the property belongs to System.DateTime
      and is one of the three clock readings. */
  function IsNonDeterministicDateTime(dateTime: NamedType, property: PropertySymbol): (b: bool)
    ensures b <==> property.containingType == dateTime
                   && (property.name == "Now" || property.name == "UtcNow" || property.name == "Today")
  {
    property.containingType == dateTime && property.name in NonDeterministicProperties
  }

  /** The three clock readings of System.DateTime match; its other properties
      (Ticks, say) and same-named properties of other types do not. */
  lemma OnlyClockReadingsMatch(dateTime: NamedType, other: NamedType, name: string)
    requires other != dateTime
    ensures IsNonDeterministicDateTime(dateTime, PropertySymbol(dateTime, name)) <==> name in {"Now", "UtcNow", "Today"}
    ensures !IsNonDeterministicDateTime(dateTime, PropertySymbol(dateTime, "Ticks"))
    ensures !IsNonDeterministicDateTime(dateTime, PropertySymbol(other, name))
  {
  }

  /** One element of the usage bag: the containing method and the operation. */
  datatype Usage = Usage(containingMethod: Symbol, operation: PropertyReference)

  /** The operation callback applied to every property reference: the bag gets
      one usage per matching reference, tagged with its containing symbol, and
      nothing for the others. */
  function RecordUsages(dateTime: NamedType, references: seq<PropertyReference>): (usages: seq<Usage>)
    ensures |usages| <= |references|
    ensures forall u :: u in usages ==>
              && u.operation in references
              && u.containingMethod == u.operation.containingSymbol
              && IsNonDeterministicDateTime(dateTime, u.operation.property)
    ensures forall o: PropertyReference :: multiset(usages)[Usage(o.containingSymbol, o)]
                        == (if IsNonDeterministicDateTime(dateTime, o.property) then multiset(references)[o] else 0)
  {
    if references == [] then []
    else
      var o := references[0];
      var rest := RecordUsages(dateTime, references[1..]);
      assert references == [o] + references[1..];
      if IsNonDeterministicDateTime(dateTime, o.property) then [Usage(o.containingSymbol, o)] + rest else rest
  }

  /** The report for one usage (DateTimeOrchestrationAnalyzer.cs:53): the rule,
      the operation's syntax and the property's display string. */
  function ReportFor(o: PropertyReference): (d: Diagnostic)
    ensures d.descriptor == Rule && d.location == o.syntax.location
    ensures d.messageArgs == [PropertyDisplayString(o.property)]
  {
    RoslynExtensions.BuildDiagnostic(Rule, o.syntax, [PropertyDisplayString(o.property)])
  }

  /** The compilation-end action: a finding for each usage whose method is a
      key of the reachable map, and for nothing else. */
  function Reconcile(usages: seq<Usage>, reachable: ReachableMap): (findings: seq<Diagnostic>)
    ensures |findings| <= |usages|
    ensures forall f :: f in findings ==> f.descriptor.id == DiagnosticId
    ensures forall f :: f in findings <==> exists u :: u in usages && u.containingMethod in reachable && f == ReportFor(u.operation)
  {
    if usages == [] then []
    else
      var u := usages[0];
      var rest := Reconcile(usages[1..], reachable);
      assert usages == [u] + usages[1..];
      if u.containingMethod in reachable then [ReportFor(u.operation)] + rest else rest
  }

  /** The one-pass reference: walk the property references once and report
      those that match the rule and sit in a method of `keys`. */
  ghost function ExpectedFindings(dateTime: NamedType, references: seq<PropertyReference>, keys: set<Symbol>): (findings: seq<Diagnostic>)
    ensures |findings| <= |references|
    ensures forall f :: f in findings <==>
              exists o :: o in references && IsNonDeterministicDateTime(dateTime, o.property)
                          && o.containingSymbol in keys && f == ReportFor(o)
  {
    if references == [] then []
    else
      var o := references[0];
      var rest := ExpectedFindings(dateTime, references[1..], keys);
      assert references == [o] + references[1..];
      (if IsNonDeterministicDateTime(dateTime, o.property) && o.containingSymbol in keys then [ReportFor(o)] else []) + rest
  }

  /** Recording every match and filtering at the end reports, in reference order, exactly
      the matching references of reachable methods; the declarations recorded
      in the map play no part, only its keys. */
  lemma {:induction false} RecordThenReconcile(dateTime: NamedType, references: seq<PropertyReference>, reachable: ReachableMap)
    ensures Reconcile(RecordUsages(dateTime, references), reachable) == ExpectedFindings(dateTime, references, reachable.Keys)
  {
    if references != [] {
      RecordThenReconcile(dateTime, references[1..], reachable);
      var o := references[0];
      if IsNonDeterministicDateTime(dateTime, o.property) {
        var usages := RecordUsages(dateTime, references);
        assert usages[1..] == RecordUsages(dateTime, references[1..]);
      }
    }
  }

  /** The findings of a concatenation are the findings of its parts, in order. */
  lemma {:induction false} ExpectedFindingsAppend(dateTime: NamedType, a: seq<PropertyReference>, b: seq<PropertyReference>,
                                                  keys: set<Symbol>)
    ensures ExpectedFindings(dateTime, a + b, keys) == ExpectedFindings(dateTime, a, keys) + ExpectedFindings(dateTime, b, keys)
  {
    if a == [] {
      assert a + b == b;
    } else {
      assert (a + b)[1..] == a[1..] + b;
      ExpectedFindingsAppend(dateTime, a[1..], b, keys);
    }
  }

  /** When every reference is a clock reading in a reachable method, each one
      gives its own finding, in reference order. */
  lemma {:induction false} EveryReachableReadReported(dateTime: NamedType, references: seq<PropertyReference>, keys: set<Symbol>)
    requires forall o :: o in references ==> IsNonDeterministicDateTime(dateTime, o.property) && o.containingSymbol in keys
    ensures |ExpectedFindings(dateTime, references, keys)| == |references|
    ensures forall k :: 0 <= k < |references| ==> ExpectedFindings(dateTime, references, keys)[k] == ReportFor(references[k])
  {
    if references != [] {
      var tail := references[1..];
      assert forall o :: o in tail ==> o in references;
      EveryReachableReadReported(dateTime, tail, keys);
      ReportedHead(dateTime, references, keys);
    }
  }

  /** A reachable read at the head of the references is reported first. */
  lemma ReportedHead(dateTime: NamedType, references: seq<PropertyReference>, keys: set<Symbol>)
    requires references != []
    requires IsNonDeterministicDateTime(dateTime, references[0].property) && references[0].containingSymbol in keys
    ensures ExpectedFindings(dateTime, references, keys)
         == [ReportFor(references[0])] + ExpectedFindings(dateTime, references[1..], keys)
  {
  }

  /** A usage whose method is reachable gives exactly one finding however many
      orchestrations reach that method: the filter reads keys, not callers. */
  lemma {:induction false} ReconcileReportsOncePerUsage(usages: seq<Usage>, reachable: ReachableMap)
    requires forall u :: u in usages ==> u.containingMethod in reachable
    ensures |Reconcile(usages, reachable)| == |usages|
    ensures forall k :: 0 <= k < |usages| ==> Reconcile(usages, reachable)[k] == ReportFor(usages[k].operation)
  {
    if usages != [] {
      assert usages[0] in usages;
      assert forall u :: u in usages[1..] ==> u in usages;
      ReconcileReportsOncePerUsage(usages[1..], reachable);
    }
  }

  /** The end action's findings over two runs of usages, one after the other,
      are the two runs' findings, concatenated. */
  lemma {:induction false} ReconcileAppend(a: seq<Usage>, b: seq<Usage>, reachable: ReachableMap)
    ensures Reconcile(a + b, reachable) == Reconcile(a, reachable) + Reconcile(b, reachable)
  {
    if a == [] {
      assert a + b == b;
    } else {
      assert (a + b)[1..] == a[1..] + b;
      ReconcileAppend(a[1..], b, reachable);
    }
  }

  /** The first usage of `u1` sits somewhere in any reordering `u2`, and the
      rest of `u1` reorders what is left of `u2`. */
  lemma FindInReordering(u1: seq<Usage>, u2: seq<Usage>) returns (j: nat)
    requires u1 != [] && multiset(u1) == multiset(u2)
    ensures j < |u2| && u2[j] == u1[0]
    ensures multiset(u1[1..]) == multiset(u2[..j] + u2[j + 1..])
  {
    assert u1[0] in multiset(u1);
    j :| 0 <= j < |u2| && u2[j] == u1[0];
    assert u2 == u2[..j] + ([u2[j]] + u2[j + 1..]);
    assert u1 == [u1[0]] + u1[1..];
    assert multiset(u2[..j] + u2[j + 1..]) == multiset(u2) - multiset{u1[0]};
  }

  /** One step of the reordering argument: equal findings for the rests give
      equal findings for the wholes. */
  lemma ReorderingStep(u1: seq<Usage>, u2: seq<Usage>, j: nat, reachable: ReachableMap)
    requires u1 != [] && j < |u2| && u2[j] == u1[0]
    requires multiset(Reconcile(u1[1..], reachable)) == multiset(Reconcile(u2[..j] + u2[j + 1..], reachable))
    ensures multiset(Reconcile(u1, reachable)) == multiset(Reconcile(u2, reachable))
  {
    var before, after := u2[..j], u2[j + 1..];
    assert u2 == before + ([u2[j]] + after);
    assert u1 == [u1[0]] + u1[1..];
    ReconcileAppend([u1[0]], u1[1..], reachable);
    ReconcileAppend(before, [u2[j]] + after, reachable);
    ReconcileAppend([u2[j]], after, reachable);
    ReconcileAppend(before, after, reachable);
  }

  /** The usage bag has no defined enumeration order: whatever order the end
      action meets the usages in, it reports the same multiset of findings. */
  lemma {:induction false} ReconcileOrderFree(u1: seq<Usage>, u2: seq<Usage>, reachable: ReachableMap)
    requires multiset(u1) == multiset(u2)
    ensures multiset(Reconcile(u1, reachable)) == multiset(Reconcile(u2, reachable))
    decreases |u1|
  {
    if u1 == [] {
      assert |u2| == |multiset(u2)| == 0;
    } else {
      var j := FindInReordering(u1, u2);
      ReconcileOrderFree(u1[1..], u2[..j] + u2[j + 1..], reachable);
      ReorderingStep(u1, u2, j, reachable);
    }
  }

  /** The whole analysis of one compilation. With the trigger attribute type
      unresolved nothing is registered and there are no findings; otherwise the
      findings are the matching references of methods reachable by orchestrations. */
  function AnalyzeCompilation(c: Compilation): (findings: seq<Diagnostic>)
    ensures KnownTypeSymbols.OrchestrationTriggerAttributeName !in c.metadataTypeNames ==> findings == []
    ensures KnownTypeSymbols.OrchestrationTriggerAttributeName in c.metadataTypeNames ==>
              findings == ExpectedFindings(c.dateTimeType, c.propertyReferences,
                                           ReachableMethods(c, NamedType(KnownTypeSymbols.OrchestrationTriggerAttributeName)).Keys)
  {
    match CompilationStart(c)
    case None => []
    case Some(reachable) =>
      RecordThenReconcile(c.dateTimeType, c.propertyReferences, reachable);
      Reconcile(RecordUsages(c.dateTimeType, c.propertyReferences), reachable)
  }

  /** Enumerating the recorded usages in any order, the end action reports
      the same multiset of findings as the analysis. */
  lemma FindingsIndependentOfBagOrder(c: Compilation, enumerated: seq<Usage>)
    requires KnownTypeSymbols.OrchestrationTriggerAttributeName in c.metadataTypeNames
    requires multiset(enumerated) == multiset(RecordUsages(c.dateTimeType, c.propertyReferences))
    ensures multiset(Reconcile(enumerated, ReachableMethods(c, Trigger()))) == multiset(AnalyzeCompilation(c))
  {
    var reachable := ReachableMethods(c, Trigger());
    ReconcileOrderFree(enumerated, RecordUsages(c.dateTimeType, c.propertyReferences), reachable);
    RecordThenReconcile(c.dateTimeType, c.propertyReferences, reachable);
  }

  /** The trigger attribute type as the analysis resolves it. */
  function Trigger(): NamedType {
    NamedType(KnownTypeSymbols.OrchestrationTriggerAttributeName)
  }

  /** A program without orchestrations gets no finding. */
  lemma NoOrchestrationNoFindings(c: Compilation)
    requires forall s :: !IsEntry(c, Trigger(), s)
    ensures AnalyzeCompilation(c) == []
  {
    NoOrchestrationNothingReachable(c, Trigger());
    NoReachableMatchNothingExpected(c.dateTimeType, c.propertyReferences, {});
    if KnownTypeSymbols.OrchestrationTriggerAttributeName in c.metadataTypeNames {
      assert ReachableMethods(c, Trigger()).Keys == {};
    }
  }

  lemma {:induction false} NoReachableMatchNothingExpected(dateTime: NamedType, references: seq<PropertyReference>, keys: set<Symbol>)
    requires forall o :: o in references && IsNonDeterministicDateTime(dateTime, o.property) ==> o.containingSymbol !in keys
    ensures ExpectedFindings(dateTime, references, keys) == []
  {
    if references != [] {
      assert forall o :: o in references[1..] ==> o in references;
      NoReachableMatchNothingExpected(dateTime, references[1..], keys);
    }
  }

  /** When every matching reference sits outside some set that contains the
      entries and is closed under calls, nothing is reported. */
  lemma UnreachedUsagesNotReported(c: Compilation, keys: set<Symbol>)
    requires ContainsEntries(c, Trigger(), keys) && ClosedUnderCalls(c, Trigger(), keys)
    requires forall o :: o in c.propertyReferences && IsNonDeterministicDateTime(c.dateTimeType, o.property) ==>
               o.containingSymbol !in keys
    ensures AnalyzeCompilation(c) == []
  {
    if KnownTypeSymbols.OrchestrationTriggerAttributeName in c.metadataTypeNames {
      var reachable := ReachableMethods(c, Trigger()).Keys;
      ReachableMethodsLeast(c, Trigger(), keys);
      NoReachableMatchNothingExpected(c.dateTimeType, c.propertyReferences, reachable);
    }
  }

  /** Every finding comes from a matching reference inside a set closed under
      calls that contains the entries, so usages in methods no orchestration
      reaches are never reported. */
  lemma FindingsComeFromReachableMethods(c: Compilation, keys: set<Symbol>)
    requires ContainsEntries(c, Trigger(), keys) && ClosedUnderCalls(c, Trigger(), keys)
    ensures forall f :: f in AnalyzeCompilation(c) ==>
              exists o :: o in c.propertyReferences && IsNonDeterministicDateTime(c.dateTimeType, o.property)
                          && o.containingSymbol in keys && f == ReportFor(o)
  {
    if KnownTypeSymbols.OrchestrationTriggerAttributeName in c.metadataTypeNames {
      ReachableMethodsLeast(c, Trigger(), keys);
    }
  }

  /** A matching reference in a method at the end of a call chain from an
      orchestration is reported, at any chain depth. */
  lemma ChainedUsageReported(c: Compilation, chain: seq<Symbol>, o: PropertyReference)
    requires KnownTypeSymbols.OrchestrationTriggerAttributeName in c.metadataTypeNames
    requires |chain| > 0 && IsEntry(c, Trigger(), chain[0])
    requires forall k :: 0 <= k < |chain| - 1 ==> Calls(c, Trigger(), chain[k], chain[k + 1])
    requires o in c.propertyReferences && IsNonDeterministicDateTime(c.dateTimeType, o.property)
    requires o.containingSymbol == chain[|chain| - 1]
    ensures ReportFor(o) in AnalyzeCompilation(c)
  {
    CallChainReachable(c, Trigger(), chain);
  }
}
