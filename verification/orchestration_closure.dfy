/** What the reachable map holds once every syntax-node callback has run: the
    orchestration entries and everything their explored declarations invoke,
    transitively, and nothing more. The call relation is the one the traversal
    follows: an orchestration contributes the invocations of every one of its
    method declarations (each fires the syntax-node callback), any other
    method only those of its first method declaration (later declarations of
    an already inserted symbol are skipped). */
module OrchestrationClosure {
  import opened Wrappers
  import opened CodeModel
  import opened OrchestrationAnalyzer

  /** `d` is a declaration of `s` whose invocations the analysis follows. */
  ghost predicate Explored(c: Compilation, trigger: NamedType, s: Symbol, d: DeclId) {
    && IsMethodDeclarationOf(c, d, s)
    && (IsEntry(c, trigger, s) || d == FirstMethodDeclaration(c, s))
  }

  /** `s` invokes `t` in an explored declaration, and `t` has a method declaration. */
  ghost predicate Calls(c: Compilation, trigger: NamedType, s: Symbol, t: Symbol) {
    && HasMethodDeclaration(c, t)
    && exists d: DeclId :: Explored(c, trigger, s, d) && Invocation(Some(t)) in c.declarations[d].invocations
  }

  /** An orchestration entry: a method that a MethodDeclarationSyntax declares
      itself (so not a constructed symbol), with a trigger-attributed parameter. */
  ghost predicate IsEntry(c: Compilation, trigger: NamedType, s: Symbol) {
    HasMethodDeclaration(c, s) && IsDeclared(c, s) && IsOrchestration(c, trigger, s)
  }

  ghost predicate ContainsEntries(c: Compilation, trigger: NamedType, keys: set<Symbol>) {
    forall s :: IsEntry(c, trigger, s) ==> s in keys
  }

  ghost predicate ClosedUnderCalls(c: Compilation, trigger: NamedType, keys: set<Symbol>) {
    forall s, t :: s in keys && Calls(c, trigger, s, t) ==> t in keys
  }

  /** Fold invariant: a key that is not an orchestration was recorded with its
      first method declaration and all that declaration's callees are keys. */
  ghost predicate KeysExplored(c: Compilation, trigger: NamedType, m: ReachableMap) {
    forall s :: s in m && !IsEntry(c, trigger, s) ==>
      && HasMethodDeclaration(c, s)
      && m[s] == FirstMethodDeclaration(c, s)
      && CalleesIn(c, c.declarations[m[s]].invocations, m.Keys)
  }

  /** Fold invariant: every orchestration declaration before position `i`
      belongs to a key, and its callees are keys. */
  ghost predicate RootsExplored(c: Compilation, trigger: NamedType, i: nat, m: ReachableMap) {
    forall j :: 0 <= j < i && IsOrchestrationDeclaration(c, trigger, j) ==>
      c.declarations[j].symbol in m && CalleesIn(c, c.declarations[j].invocations, m.Keys)
  }

  /** One callback keeps every non-orchestration key explored. */
  lemma ActionKeysExplored(c: Compilation, trigger: NamedType, i: DeclId, m: ReachableMap)
    requires i < |c.declarations| && ValidMap(c, m)
    requires KeysExplored(c, trigger, m)
    ensures KeysExplored(c, trigger, SyntaxNodeAction(c, trigger, i, m))
  {
    var m2 := SyntaxNodeAction(c, trigger, i, m);
    forall s | s in m2 && !IsEntry(c, trigger, s)
      ensures HasMethodDeclaration(c, s) && m2[s] == FirstMethodDeclaration(c, s)
      ensures CalleesIn(c, c.declarations[m2[s]].invocations, m2.Keys)
    {
      if s in m {
        CalleesInMonotone(c, c.declarations[m[s]].invocations, m.Keys, m2.Keys);
      }
    }
  }

  /** One callback on declaration `i` explores it if it is an orchestration's. */
  lemma ActionRootsExplored(c: Compilation, trigger: NamedType, i: DeclId, m: ReachableMap)
    requires i < |c.declarations| && ValidMap(c, m)
    requires RootsExplored(c, trigger, i, m)
    ensures RootsExplored(c, trigger, i + 1, SyntaxNodeAction(c, trigger, i, m))
  {
    var m2 := SyntaxNodeAction(c, trigger, i, m);
    forall j | 0 <= j < i + 1 && IsOrchestrationDeclaration(c, trigger, j)
      ensures c.declarations[j].symbol in m2 && CalleesIn(c, c.declarations[j].invocations, m2.Keys)
    {
      if j < i {
        CalleesInMonotone(c, c.declarations[j].invocations, m.Keys, m2.Keys);
      }
    }
  }

  /** The fold keeps every non-orchestration key explored. */
  lemma {:induction false} VisitDeclarationsKeysExplored(c: Compilation, trigger: NamedType, i: nat, m: ReachableMap)
    requires i <= |c.declarations| && ValidMap(c, m)
    requires KeysExplored(c, trigger, m)
    ensures KeysExplored(c, trigger, VisitDeclarations(c, trigger, i, m))
    decreases |c.declarations| - i
  {
    if i < |c.declarations| {
      ActionKeysExplored(c, trigger, i, m);
      VisitDeclarationsKeysExplored(c, trigger, i + 1, SyntaxNodeAction(c, trigger, i, m));
    }
  }

  /** After the fold every orchestration declaration has been traversed. */
  lemma {:induction false} VisitDeclarationsRootsExplored(c: Compilation, trigger: NamedType, i: nat, m: ReachableMap)
    requires i <= |c.declarations| && ValidMap(c, m)
    requires RootsExplored(c, trigger, i, m)
    ensures RootsExplored(c, trigger, |c.declarations|, VisitDeclarations(c, trigger, i, m))
    decreases |c.declarations| - i
  {
    if i < |c.declarations| {
      ActionRootsExplored(c, trigger, i, m);
      VisitDeclarationsRootsExplored(c, trigger, i + 1, SyntaxNodeAction(c, trigger, i, m));
    }
  }

  /** Completeness: every orchestration entry is a key, and the keys are closed
      under the call relation, so a callee is a key at any depth. */
  lemma ReachableMethodsComplete(c: Compilation, trigger: NamedType)
    ensures ContainsEntries(c, trigger, ReachableMethods(c, trigger).Keys)
    ensures ClosedUnderCalls(c, trigger, ReachableMethods(c, trigger).Keys)
  {
    var r := ReachableMethods(c, trigger);
    VisitDeclarationsKeysExplored(c, trigger, 0, map[]);
    VisitDeclarationsRootsExplored(c, trigger, 0, map[]);
    forall s | IsEntry(c, trigger, s) ensures s in r {
      assert IsOrchestrationDeclaration(c, trigger, FirstMethodDeclaration(c, s));
    }
    forall s, t | s in r && Calls(c, trigger, s, t) ensures t in r {
      var d: DeclId :| Explored(c, trigger, s, d) && Invocation(Some(t)) in c.declarations[d].invocations;
      if IsEntry(c, trigger, s) {
        assert IsOrchestrationDeclaration(c, trigger, d);
      }
    }
  }

  /** Keys that are not orchestrations carry their first method declaration. */
  lemma CalleesRecordFirstDeclaration(c: Compilation, trigger: NamedType)
    ensures forall s :: s in ReachableMethods(c, trigger) && !IsEntry(c, trigger, s) ==>
              HasMethodDeclaration(c, s) && ReachableMethods(c, trigger)[s] == FirstMethodDeclaration(c, s)
  {
    VisitDeclarationsKeysExplored(c, trigger, 0, map[]);
    VisitDeclarationsRootsExplored(c, trigger, 0, map[]);
  }

  lemma FindAndAddStaysWithin(c: Compilation, trigger: NamedType, keys: set<Symbol>, caller: DeclId, m: ReachableMap)
    requires caller < |c.declarations| && ValidMap(c, m)
    requires m.Keys <= keys && ClosedUnderCalls(c, trigger, keys)
    requires CalleesIn(c, c.declarations[caller].invocations, keys)
    ensures FindAndAddInvokedMethods(c, caller, m).Keys <= keys
    decreases Unvisited(c, m), 2, 0
  {
    VisitInvocationsStaysWithin(c, trigger, keys, c.declarations[caller].invocations, m);
  }

  lemma VisitInvocationsStaysWithin(c: Compilation, trigger: NamedType, keys: set<Symbol>, calls: seq<CallSite>, m: ReachableMap)
    requires ValidMap(c, m)
    requires m.Keys <= keys && ClosedUnderCalls(c, trigger, keys)
    requires CalleesIn(c, calls, keys)
    ensures VisitInvocations(c, calls, m).Keys <= keys
    decreases Unvisited(c, m), 1, |calls|
  {
    if calls != [] {
      var m1 := match calls[0]
        case Invocation(Some(callee)) => VisitCalleeDeclarations(c, callee, 0, m)
        case _ => m;
      match calls[0] {
        case Invocation(Some(callee)) =>
          assert calls[0] in calls;
          VisitCalleeStaysWithin(c, trigger, keys, callee, m);
        case _ =>
      }
      UnvisitedMonotone(c, m, m1);
      assert CalleesIn(c, calls[1..], keys) by {
        forall t | Invocation(Some(t)) in calls[1..] ensures Invocation(Some(t)) in calls {
        }
      }
      VisitInvocationsStaysWithin(c, trigger, keys, calls[1..], m1);
    }
  }

  lemma VisitCalleeStaysWithin(c: Compilation, trigger: NamedType, keys: set<Symbol>, callee: Symbol, m: ReachableMap)
    requires ValidMap(c, m)
    requires m.Keys <= keys && ClosedUnderCalls(c, trigger, keys)
    requires HasMethodDeclaration(c, callee) ==> callee in keys
    ensures VisitCalleeDeclarations(c, callee, 0, m).Keys <= keys
    decreases Unvisited(c, m), 0, 1
  {
    if HasMethodDeclaration(c, callee) {
      if callee in m {
        SkippedCalleeUnchanged(c, callee, 0, m);
      } else {
        var first := FirstMethodDeclaration(c, callee);
        InsertedCalleeStaysWithin(c, trigger, keys, callee, m);
        SkippedCalleeUnchanged(c, callee, 1, FindAndAddInvokedMethods(c, first, m[callee := first]));
      }
    }
  }

  /** Exploring a callee just inserted with its first declaration stays
      within a call-closed set that holds the callee. */
  lemma InsertedCalleeStaysWithin(c: Compilation, trigger: NamedType, keys: set<Symbol>, callee: Symbol, m: ReachableMap)
    requires HasMethodDeclaration(c, callee) && callee !in m
    requires ValidMap(c, m)
    requires m.Keys <= keys && ClosedUnderCalls(c, trigger, keys) && callee in keys
    ensures ValidMap(c, m[callee := FirstMethodDeclaration(c, callee)])
    ensures FindAndAddInvokedMethods(c, FirstMethodDeclaration(c, callee), m[callee := FirstMethodDeclaration(c, callee)]).Keys <= keys
    decreases Unvisited(c, m), 0, 0
  {
    var first := FirstMethodDeclaration(c, callee);
    var m1 := m[callee := first];
    assert ValidMap(c, m1);
    UnvisitedDecreases(c, m, callee, first);
    FirstDeclarationCalleesIn(c, trigger, keys, callee);
    FindAndAddStaysWithin(c, trigger, keys, first, m1);
  }

  /** The first declaration of a method in a call-closed set invokes only
      methods of that set. */
  lemma FirstDeclarationCalleesIn(c: Compilation, trigger: NamedType, keys: set<Symbol>, callee: Symbol)
    requires HasMethodDeclaration(c, callee) && callee in keys && ClosedUnderCalls(c, trigger, keys)
    ensures CalleesIn(c, c.declarations[FirstMethodDeclaration(c, callee)].invocations, keys)
  {
    var first := FirstMethodDeclaration(c, callee);
    forall t | Invocation(Some(t)) in c.declarations[first].invocations && HasMethodDeclaration(c, t)
      ensures t in keys
    {
      assert Explored(c, trigger, callee, first);
      assert Calls(c, trigger, callee, t);
    }
  }

  /** One callback stays within a call-closed set holding the entries. */
  lemma ActionStaysWithin(c: Compilation, trigger: NamedType, keys: set<Symbol>, i: DeclId, m: ReachableMap)
    requires i < |c.declarations| && ValidMap(c, m)
    requires m.Keys <= keys
    requires ContainsEntries(c, trigger, keys) && ClosedUnderCalls(c, trigger, keys)
    ensures SyntaxNodeAction(c, trigger, i, m).Keys <= keys
  {
    if IsOrchestrationDeclaration(c, trigger, i) {
      var decl := c.declarations[i];
      assert i in MethodDeclarations(c, decl.symbol);
      assert IsEntry(c, trigger, decl.symbol);
      var m1 := TryAdd(m, decl.symbol, i).1;
      assert ValidMap(c, m1);
      forall t | Invocation(Some(t)) in decl.invocations && HasMethodDeclaration(c, t)
        ensures t in keys
      {
        assert Explored(c, trigger, decl.symbol, i);
        assert Calls(c, trigger, decl.symbol, t);
      }
      FindAndAddStaysWithin(c, trigger, keys, i, m1);
    }
  }

  lemma {:induction false} VisitDeclarationsStaysWithin(c: Compilation, trigger: NamedType, keys: set<Symbol>, i: nat, m: ReachableMap)
    requires i <= |c.declarations| && ValidMap(c, m)
    requires m.Keys <= keys
    requires ContainsEntries(c, trigger, keys) && ClosedUnderCalls(c, trigger, keys)
    ensures VisitDeclarations(c, trigger, i, m).Keys <= keys
    decreases |c.declarations| - i
  {
    if i < |c.declarations| {
      ActionStaysWithin(c, trigger, keys, i, m);
      VisitDeclarationsStaysWithin(c, trigger, keys, i + 1, SyntaxNodeAction(c, trigger, i, m));
    }
  }

  /** Soundness: the keys lie inside every set that contains the entries and
      is closed under calls, so nothing unreachable is ever inserted. With
      ReachableMethodsComplete this makes the keys the least such set. */
  lemma ReachableMethodsLeast(c: Compilation, trigger: NamedType, keys: set<Symbol>)
    requires ContainsEntries(c, trigger, keys) && ClosedUnderCalls(c, trigger, keys)
    ensures ReachableMethods(c, trigger).Keys <= keys
  {
    VisitDeclarationsStaysWithin(c, trigger, keys, 0, map[]);
  }

  /** Without any orchestration the reachable map stays empty. */
  lemma NoOrchestrationNothingReachable(c: Compilation, trigger: NamedType)
    requires forall s :: !IsEntry(c, trigger, s)
    ensures ReachableMethods(c, trigger) == map[]
  {
    ReachableMethodsLeast(c, trigger, {});
  }

  lemma {:induction false} ChainInClosedSet(c: Compilation, trigger: NamedType, keys: set<Symbol>, chain: seq<Symbol>)
    requires |chain| > 0 && chain[0] in keys
    requires ClosedUnderCalls(c, trigger, keys)
    requires forall k :: 0 <= k < |chain| - 1 ==> Calls(c, trigger, chain[k], chain[k + 1])
    ensures chain[|chain| - 1] in keys
  {
    if |chain| > 1 {
      ChainInClosedSet(c, trigger, keys, chain[..|chain| - 1]);
      assert Calls(c, trigger, chain[|chain| - 2], chain[|chain| - 1]);
    }
  }

  /** A method at the end of a call chain that starts at an orchestration is
      reachable, whatever the length of the chain. */
  lemma CallChainReachable(c: Compilation, trigger: NamedType, chain: seq<Symbol>)
    requires |chain| > 0 && IsEntry(c, trigger, chain[0])
    requires forall k :: 0 <= k < |chain| - 1 ==> Calls(c, trigger, chain[k], chain[k + 1])
    ensures chain[|chain| - 1] in ReachableMethods(c, trigger)
  {
    ReachableMethodsComplete(c, trigger);
    ChainInClosedSet(c, trigger, ReachableMethods(c, trigger).Keys, chain);
  }

  /** `chain` starts at an orchestration entry, each method calls the next,
      and the last one is `s`. */
  ghost predicate CallChainTo(c: Compilation, trigger: NamedType, chain: seq<Symbol>, s: Symbol) {
    && |chain| > 0
    && IsEntry(c, trigger, chain[0])
    && (forall k :: 0 <= k < |chain| - 1 ==> Calls(c, trigger, chain[k], chain[k + 1]))
    && chain[|chain| - 1] == s
  }

  /** The declared symbols some call chain ends at. */
  ghost function Chained(c: Compilation, trigger: NamedType): set<Symbol> {
    set t | t in DeclaredSymbols(c) && exists chain :: CallChainTo(c, trigger, chain, t)
  }

  lemma ChainedContainsEntries(c: Compilation, trigger: NamedType)
    ensures ContainsEntries(c, trigger, Chained(c, trigger))
  {
    forall e | IsEntry(c, trigger, e) ensures e in Chained(c, trigger) {
      DeclaredIfHasMethodDeclaration(c, e);
      assert CallChainTo(c, trigger, [e], e);
    }
  }

  lemma ChainedClosed(c: Compilation, trigger: NamedType)
    ensures ClosedUnderCalls(c, trigger, Chained(c, trigger))
  {
    forall a: Symbol, t: Symbol | a in Chained(c, trigger) && Calls(c, trigger, a, t) ensures t in Chained(c, trigger) {
      var chain :| CallChainTo(c, trigger, chain, a);
      var longer := chain + [t];
      assert forall k :: 0 <= k < |chain| ==> longer[k] == chain[k];
      assert CallChainTo(c, trigger, longer, t);
      DeclaredIfHasMethodDeclaration(c, t);
    }
  }

  /** The keys of the reachable map are exactly the orchestration entries and
      the methods at the end of a call chain from one of them. */
  lemma ReachableIffCallChain(c: Compilation, trigger: NamedType, s: Symbol)
    ensures s in ReachableMethods(c, trigger) <==> exists chain :: CallChainTo(c, trigger, chain, s)
  {
    if chain :| CallChainTo(c, trigger, chain, s) {
      CallChainReachable(c, trigger, chain);
    }
    ChainedContainsEntries(c, trigger);
    ChainedClosed(c, trigger);
    ReachableMethodsLeast(c, trigger, Chained(c, trigger));
  }
}
