/** Discovery of orchestration entry methods and the closure of the methods
    they invoke. The concurrent dictionary of the analyzer becomes an immutable
    map threaded through the traversal, and the concurrently firing syntax-node
    callbacks become a fold over the declaration table in order. */
module OrchestrationAnalyzer {
  import opened Wrappers
  import opened CodeModel
  import RoslynExtensions
  import KnownTypeSymbols

  /** The methods reachable by orchestrations: each symbol with the one
      declaration recorded when it was first inserted. */
  type ReachableMap = map<Symbol, DeclId>

  /** `d` is a MethodDeclarationSyntax node among the declaring syntax of `s`:
      it declares the original definition of `s`. */
  predicate IsMethodDeclarationOf(c: Compilation, d: DeclId, s: Symbol) {
    d < |c.declarations| && c.declarations[d].symbol == OriginalDefinition(c, s) && c.declarations[d].kind == MethodDeclaration
  }

  /** The method declarations of `s` found at or after position `i`, in table order. */
  function MethodDeclarationsFrom(c: Compilation, s: Symbol, i: nat): (ds: seq<DeclId>)
    requires i <= |c.declarations|
    ensures forall d :: d in ds <==> i <= d && IsMethodDeclarationOf(c, d, s)
    ensures forall k, l :: 0 <= k < l < |ds| ==> ds[k] < ds[l]
    decreases |c.declarations| - i
  {
    if i == |c.declarations| then []
    else
      var rest := MethodDeclarationsFrom(c, s, i + 1);
      assert forall k :: 0 <= k < |rest| ==> i < rest[k] by {
        forall k | 0 <= k < |rest| ensures i < rest[k] {
          assert rest[k] in rest;
        }
      }
      if IsMethodDeclarationOf(c, i, s) then [i] + rest else rest
  }

  /** The declaring syntax of `s` kept only where it is a method declaration
      (OrchestrationAnalyzer.cs:76): exactly the method declarations of `s`, in
      declaration order. */
  function MethodDeclarations(c: Compilation, s: Symbol): (ds: seq<DeclId>)
    ensures forall d :: d in ds <==> IsMethodDeclarationOf(c, d, s)
    ensures forall k, l :: 0 <= k < l < |ds| ==> ds[k] < ds[l]
  {
    MethodDeclarationsFrom(c, s, 0)
  }

  predicate HasMethodDeclaration(c: Compilation, s: Symbol) {
    |MethodDeclarations(c, s)| > 0
  }

  /** The declaration the traversal explores for a callee: the earliest
      method declaration of the symbol. */
  function FirstMethodDeclaration(c: Compilation, s: Symbol): (d: DeclId)
    requires HasMethodDeclaration(c, s)
    ensures IsMethodDeclarationOf(c, d, s)
    ensures forall e :: IsMethodDeclarationOf(c, e, s) ==> d <= e
  {
    var ds := MethodDeclarations(c, s);
    assert ds[0] in ds;
    assert forall e :: e in ds ==> ds[0] <= e by {
      forall e | e in ds ensures ds[0] <= e {
        var k :| 0 <= k < |ds| && ds[k] == e;
      }
    }
    ds[0]
  }

  /** The symbols that own some declaration node, and the constructed symbols:
      the finite universe the traversal draws new keys from. */
  ghost function DeclaredSymbols(c: Compilation): set<Symbol> {
    (set d | 0 <= d < |c.declarations| :: c.declarations[d].symbol) + c.originalDefinitions.Keys
  }

  /** How many declared symbols are still missing from the map; it shrinks by
      one with every successful insert, which is why the traversal ends. */
  ghost function Unvisited(c: Compilation, m: ReachableMap): nat {
    |DeclaredSymbols(c) - m.Keys|
  }

  /** ConcurrentDictionary.TryAdd: insert when absent, report whether it did. */
  function TryAdd(m: ReachableMap, s: Symbol, d: DeclId): (r: (bool, ReachableMap))
    ensures r.0 <==> s !in m
    ensures r.1.Keys == m.Keys + {s}
    ensures r.1[s] == (if r.0 then d else m[s])
    ensures forall t :: t in m ==> r.1[t] == m[t]
  {
    if s in m then (false, m) else (true, m[s := d])
  }

  /** Every key is mapped to one of its own method declarations. */
  ghost predicate ValidMap(c: Compilation, m: ReachableMap) {
    forall s :: s in m ==> IsMethodDeclarationOf(c, m[s], s)
  }

  /** `r` keeps every entry of `m` unchanged: inserts never overwrite. */
  ghost predicate Extends(m: ReachableMap, r: ReachableMap) {
    m.Keys <= r.Keys && forall s :: s in m ==> r[s] == m[s]
  }

  /** Every resolvable invocation in `calls` whose target has a method
      declaration targets a symbol in `keys`. */
  ghost predicate CalleesIn(c: Compilation, calls: seq<CallSite>, keys: set<Symbol>) {
    forall t :: Invocation(Some(t)) in calls && HasMethodDeclaration(c, t) ==> t in keys
  }

  /** Every key of `r` that is not a key of `m` was recorded with its first
      method declaration, and that declaration's callees are keys of `r`. */
  ghost predicate NewKeysExplored(c: Compilation, m: ReachableMap, r: ReachableMap) {
    forall t :: t in r && t !in m ==>
      && HasMethodDeclaration(c, t)
      && r[t] == FirstMethodDeclaration(c, t)
      && CalleesIn(c, c.declarations[r[t]].invocations, r.Keys)
  }

  lemma UnvisitedMonotone(c: Compilation, m: ReachableMap, r: ReachableMap)
    requires m.Keys <= r.Keys
    ensures Unvisited(c, r) <= Unvisited(c, m)
  {
    SubsetCardinality(DeclaredSymbols(c) - r.Keys, DeclaredSymbols(c) - m.Keys);
  }

  lemma {:induction false} SubsetCardinality<T>(a: set<T>, b: set<T>)
    requires a <= b
    ensures |a| <= |b|
    decreases |b|
  {
    if a != {} {
      var x :| x in a;
      SubsetCardinality(a - {x}, b - {x});
    }
  }

  /** A symbol with a method declaration is in the universe: it is declared
      by a node itself, or it is a constructed symbol. */
  lemma DeclaredIfHasMethodDeclaration(c: Compilation, s: Symbol)
    requires HasMethodDeclaration(c, s)
    ensures s in DeclaredSymbols(c)
  {
    var d := FirstMethodDeclaration(c, s);
    if s !in c.originalDefinitions {
      assert c.declarations[d].symbol == s;
    }
  }

  lemma UnvisitedDecreases(c: Compilation, m: ReachableMap, s: Symbol, d: DeclId)
    requires HasMethodDeclaration(c, s)
    requires s !in m
    ensures Unvisited(c, m[s := d]) < Unvisited(c, m)
  {
    DeclaredIfHasMethodDeclaration(c, s);
    var before := DeclaredSymbols(c) - m.Keys;
    assert DeclaredSymbols(c) - m[s := d].Keys == before - {s};
  }

  lemma CalleesInMonotone(c: Compilation, calls: seq<CallSite>, a: set<Symbol>, b: set<Symbol>)
    requires a <= b
    requires CalleesIn(c, calls, a)
    ensures CalleesIn(c, calls, b)
  {
  }

  lemma NewKeysExploredTransitive(c: Compilation, a: ReachableMap, b: ReachableMap, r: ReachableMap)
    requires Extends(a, b) && Extends(b, r)
    requires NewKeysExplored(c, a, b) && NewKeysExplored(c, b, r)
    ensures NewKeysExplored(c, a, r)
  {
    forall t | t in r && t !in a
      ensures HasMethodDeclaration(c, t) && r[t] == FirstMethodDeclaration(c, t)
      ensures CalleesIn(c, c.declarations[r[t]].invocations, r.Keys)
    {
      if t in b {
        CalleesInMonotone(c, c.declarations[b[t]].invocations, b.Keys, r.Keys);
      }
    }
  }

  /** FindAndAddInvokedMethods: visits every invocation in the caller's body.
      Afterwards every resolvable callee of the caller that has a method
      declaration is a key, the map only grew, and every symbol it inserted
      was recorded with its first declaration, whose callees are keys too. */
  function FindAndAddInvokedMethods(c: Compilation, caller: DeclId, m: ReachableMap): (r: ReachableMap)
    requires caller < |c.declarations|
    requires ValidMap(c, m)
    ensures ValidMap(c, r) && Extends(m, r)
    ensures NewKeysExplored(c, m, r)
    ensures CalleesIn(c, c.declarations[caller].invocations, r.Keys)
    decreases Unvisited(c, m), 2, 0
  {
    VisitInvocations(c, c.declarations[caller].invocations, m)
  }

  /** The `foreach` over the invocation expressions of the caller. A site with
      no operation, with an operation that is not an invocation, or with a null
      target method is skipped. */
  function VisitInvocations(c: Compilation, calls: seq<CallSite>, m: ReachableMap): (r: ReachableMap)
    requires ValidMap(c, m)
    ensures ValidMap(c, r) && Extends(m, r)
    ensures NewKeysExplored(c, m, r)
    ensures CalleesIn(c, calls, r.Keys)
    decreases Unvisited(c, m), 1, |calls|
  {
    if calls == [] then m
    else
      var m1 := match calls[0]
        case Invocation(Some(callee)) => VisitCalleeDeclarations(c, callee, 0, m)
        case _ => m;
      UnvisitedMonotone(c, m, m1);
      var r := VisitInvocations(c, calls[1..], m1);
      NewKeysExploredTransitive(c, m, m1, r);
      assert forall t :: Invocation(Some(t)) in calls ==> calls[0] == Invocation(Some(t)) || Invocation(Some(t)) in calls[1..];
      r
  }

  /** The inner `foreach` over the callee's method declarations, from the
      `k`-th on: TryAdd each and recurse only when the insert succeeded. Once
      the callee is a key every later declaration is skipped, so only the first
      one is ever explored. */
  function VisitCalleeDeclarations(c: Compilation, callee: Symbol, k: nat, m: ReachableMap): (r: ReachableMap)
    requires k <= |MethodDeclarations(c, callee)|
    requires k == 0 || callee in m
    requires ValidMap(c, m)
    ensures ValidMap(c, r) && Extends(m, r)
    ensures NewKeysExplored(c, m, r)
    ensures HasMethodDeclaration(c, callee) ==> callee in r
    decreases Unvisited(c, m), 0, |MethodDeclarations(c, callee)| - k
  {
    var decls := MethodDeclarations(c, callee);
    if k == |decls| then m
    else
      var insert := TryAdd(m, callee, decls[k]);
      if !insert.0 then VisitCalleeDeclarations(c, callee, k + 1, m)
      else
        var m1 := insert.1;
        FirstInsert(c, callee, k, m);
        var m2 := FindAndAddInvokedMethods(c, decls[k], m1);
        UnvisitedMonotone(c, m1, m2);
        var r := VisitCalleeDeclarations(c, callee, k + 1, m2);
        InsertedCalleeExplored(c, callee, m, m2, r);
        r
  }

  /** A successful insert happens only at the first declaration of a callee
      that is not yet a key; it keeps the map valid and shrinks the measure. */
  lemma FirstInsert(c: Compilation, callee: Symbol, k: nat, m: ReachableMap)
    requires k < |MethodDeclarations(c, callee)|
    requires k == 0 || callee in m
    requires callee !in m && ValidMap(c, m)
    ensures k == 0 && MethodDeclarations(c, callee)[k] == FirstMethodDeclaration(c, callee)
    ensures ValidMap(c, m[callee := FirstMethodDeclaration(c, callee)])
    ensures Unvisited(c, m[callee := FirstMethodDeclaration(c, callee)]) < Unvisited(c, m)
  {
    UnvisitedDecreases(c, m, callee, FirstMethodDeclaration(c, callee));
  }

  /** Once the callee is a key, every remaining declaration fails the insert
      and is skipped: the map comes back unchanged. */
  lemma {:induction false} SkippedCalleeUnchanged(c: Compilation, callee: Symbol, k: nat, m: ReachableMap)
    requires k <= |MethodDeclarations(c, callee)| && callee in m && ValidMap(c, m)
    ensures VisitCalleeDeclarations(c, callee, k, m) == m
    decreases |MethodDeclarations(c, callee)| - k
  {
    if k < |MethodDeclarations(c, callee)| {
      SkippedCalleeUnchanged(c, callee, k + 1, m);
    }
  }

  /** The bookkeeping of one successful insert in VisitCalleeDeclarations:
      the callee was recorded with its first declaration and everything that
      exploring it inserted was explored in turn. */
  lemma InsertedCalleeExplored(c: Compilation, callee: Symbol, m: ReachableMap, m2: ReachableMap, r: ReachableMap)
    requires HasMethodDeclaration(c, callee) && callee !in m
    requires ValidMap(c, m)
    requires var m1 := m[callee := FirstMethodDeclaration(c, callee)];
             && Extends(m1, m2) && NewKeysExplored(c, m1, m2)
             && CalleesIn(c, c.declarations[FirstMethodDeclaration(c, callee)].invocations, m2.Keys)
    requires Extends(m2, r) && NewKeysExplored(c, m2, r)
    ensures Extends(m, r)
    ensures NewKeysExplored(c, m, r)
  {
    var m1 := m[callee := FirstMethodDeclaration(c, callee)];
    forall t | t in r && t !in m
      ensures HasMethodDeclaration(c, t) && r[t] == FirstMethodDeclaration(c, t)
      ensures CalleesIn(c, c.declarations[r[t]].invocations, r.Keys)
    {
      if t == callee {
        CalleesInMonotone(c, c.declarations[r[t]].invocations, m2.Keys, r.Keys);
      } else if t in m2 {
        CalleesInMonotone(c, c.declarations[r[t]].invocations, m2.Keys, r.Keys);
      }
    }
  }

  /** The orchestration test of the syntax-node callback: the method's symbol
      has a parameter carrying the trigger attribute. */
  function IsOrchestration(c: Compilation, trigger: NamedType, s: Symbol): (b: bool)
    ensures b ==> s in c.symbols && c.symbols[s].MethodSymbol?
    ensures b <==> s in c.symbols && c.symbols[s].MethodSymbol?
                   && exists k, a :: 0 <= k < |c.symbols[s].parameters|
                                     && a in c.symbols[s].parameters[k].attributes
                                     && a.attributeClass == Some(trigger)
  {
    RoslynExtensions.ContainsAttributeInAnyMethodArguments(SymbolInfoOf(c, s), trigger)
  }

  /** Declaration `i` is a MethodDeclarationSyntax of an orchestration: the
      syntax-node callback acts on it. */
  function IsOrchestrationDeclaration(c: Compilation, trigger: NamedType, i: DeclId): (b: bool)
    ensures b ==> i < |c.declarations| && i in MethodDeclarations(c, c.declarations[i].symbol)
    ensures b ==> HasMethodDeclaration(c, c.declarations[i].symbol) && IsOrchestration(c, trigger, c.declarations[i].symbol)
  {
    && i < |c.declarations|
    && c.declarations[i].kind == MethodDeclaration
    && IsOrchestration(c, trigger, c.declarations[i].symbol)
  }

  /** The syntax-node callback on declaration `i`. For a method declaration of
      an orchestration it tries to insert the entry (the outcome is only
      asserted in debug builds) and explores that declaration whether or not
      the insert succeeded; on any other node it does nothing. */
  function SyntaxNodeAction(c: Compilation, trigger: NamedType, i: DeclId, m: ReachableMap): (r: ReachableMap)
    requires i < |c.declarations| && ValidMap(c, m)
    ensures ValidMap(c, r) && Extends(m, r)
    ensures !IsOrchestrationDeclaration(c, trigger, i) ==> r == m
    ensures IsOrchestrationDeclaration(c, trigger, i) ==>
              && c.declarations[i].symbol in r
              && CalleesIn(c, c.declarations[i].invocations, r.Keys)
              && NewKeysExplored(c, TryAdd(m, c.declarations[i].symbol, i).1, r)
  {
    if IsOrchestrationDeclaration(c, trigger, i) then
      var (_, m1) := TryAdd(m, c.declarations[i].symbol, i);
      assert ValidMap(c, m1);
      FindAndAddInvokedMethods(c, i, m1)
    else
      m
  }

  /** The syntax-node callbacks on declarations[i..], in order. */
  function VisitDeclarations(c: Compilation, trigger: NamedType, i: nat, m: ReachableMap): (r: ReachableMap)
    requires i <= |c.declarations|
    requires ValidMap(c, m)
    ensures ValidMap(c, r) && Extends(m, r)
    decreases |c.declarations| - i
  {
    if i == |c.declarations| then m
    else VisitDeclarations(c, trigger, i + 1, SyntaxNodeAction(c, trigger, i, m))
  }

  /** methodsReachableByOrchestrations once every syntax-node callback ran. */
  function ReachableMethods(c: Compilation, trigger: NamedType): (r: ReachableMap)
    ensures ValidMap(c, r)
  {
    VisitDeclarations(c, trigger, 0, map[])
  }

  /** The compilation-start action: when the trigger attribute type cannot be
      resolved nothing is registered (None); otherwise the reachable map. */
  function CompilationStart(c: Compilation): (r: Option<ReachableMap>)
    ensures r.None? <==> KnownTypeSymbols.OrchestrationTriggerAttributeName !in c.metadataTypeNames
    ensures r.Some? ==> r.value == ReachableMethods(c, NamedType(KnownTypeSymbols.OrchestrationTriggerAttributeName))
  {
    var (trigger, _) := KnownTypeSymbols.OrchestrationTriggerAttribute(KnownTypeSymbols.NewKnownTypes(), c.metadataTypeNames);
    match trigger
    case None => None
    case Some(t) => Some(ReachableMethods(c, t))
  }
}
