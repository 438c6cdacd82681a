/** Lazily resolved, memoised well-known type symbols. Each slot is a
    `Cached` pair that starts empty and is filled by the first lookup with
    whatever metadata resolution returned, an unresolved (None) result
    included, so a failed lookup is never retried. */
module KnownTypeSymbols {
  import opened Wrappers
  import opened CodeModel

  /** The full name of the trigger attribute type, by which it is looked up
      (KnownTypeSymbols.cs:22, :27). */
  const OrchestrationTriggerAttributeName: string := "Microsoft.Azure.Functions.Worker.OrchestrationTriggerAttribute"

  /** A memo slot; `Cached(false, _)` is the struct's default value. */
  datatype Cached<T> = Cached(hasValue: bool, value: T)

  /** The default (never assigned) slot: HasValue is false and Value is null. */
  const EmptySlot: Cached<Option<NamedType>> := Cached(false, None)

  /** The KnownTypeSymbols object: one memo slot per well-known type. */
  datatype KnownTypes = KnownTypes(orchestrationTriggerAttribute: Cached<Option<NamedType>>)

  /** A fresh object, as built at compilation start: every slot empty. */
  function NewKnownTypes(): (k: KnownTypes)
    ensures !k.orchestrationTriggerAttribute.hasValue
  {
    KnownTypes(EmptySlot)
  }

  /** Compilation.GetTypeByMetadataName: the type of that full name, or None. */
  function GetTypeByMetadataName(metadataTypeNames: set<string>, fullyQualifiedName: string): (t: Option<NamedType>)
    ensures t.Some? <==> fullyQualifiedName in metadataTypeNames
    ensures t.Some? ==> t.value.fullName == fullyQualifiedName
  {
    if fullyQualifiedName in metadataTypeNames then Some(NamedType(fullyQualifiedName)) else None
  }

  /** The result of one GetOrResolveType call: the type handed back, the slot
      after the call, and whether metadata resolution was consulted. */
  datatype Lookup = Lookup(result: Option<NamedType>, slot: Cached<Option<NamedType>>, consulted: bool)

  /** A filled slot answers from the cache and stays as it is; an empty slot is
      filled with the resolver's answer for the full name, which is returned. */
  function GetOrResolveType(metadataTypeNames: set<string>, fullyQualifiedName: string,
                            field: Cached<Option<NamedType>>): (l: Lookup)
    ensures field.hasValue ==> l.result == field.value && l.slot == field && !l.consulted
    ensures !field.hasValue ==>
              && l.consulted
              && l.result == GetTypeByMetadataName(metadataTypeNames, fullyQualifiedName)
              && l.slot.hasValue && l.slot.value == l.result
    ensures l.slot.hasValue
  {
    if field.hasValue then Lookup(field.value, field, false)
    else
      var t := GetTypeByMetadataName(metadataTypeNames, fullyQualifiedName);
      Lookup(t, Cached(true, t), true)
  }

  /** The OrchestrationTriggerAttribute property: the result and the updated object. */
  function OrchestrationTriggerAttribute(k: KnownTypes, metadataTypeNames: set<string>): (r: (Option<NamedType>, KnownTypes))
    ensures !k.orchestrationTriggerAttribute.hasValue ==>
              r.0 == GetTypeByMetadataName(metadataTypeNames, OrchestrationTriggerAttributeName)
    ensures k.orchestrationTriggerAttribute.hasValue ==> r == (k.orchestrationTriggerAttribute.value, k)
    ensures r.1.orchestrationTriggerAttribute.hasValue && r.1.orchestrationTriggerAttribute.value == r.0
  {
    var l := GetOrResolveType(metadataTypeNames, OrchestrationTriggerAttributeName, k.orchestrationTriggerAttribute);
    (l.result, KnownTypes(l.slot))
  }

  /** Once a slot is filled, the answer no longer depends on what the resolver
      would say: any two compilations get the cached value, null included. */
  lemma FilledSlotIgnoresResolver(names1: set<string>, names2: set<string>, name: string,
                                  field: Cached<Option<NamedType>>)
    requires !field.hasValue
    ensures var first := GetOrResolveType(names1, name, field);
            GetOrResolveType(names2, name, first.slot).result == first.result
  {
  }

  /** `n` consecutive reads of one slot, threading the slot through. The
      resolver is consulted by the first read only, and every read returns
      what metadata resolution gave for the full name. */
  method ReadRepeatedly(metadataTypeNames: set<string>, fullyQualifiedName: string, n: nat)
    returns (results: seq<Option<NamedType>>, consultations: nat, slot: Cached<Option<NamedType>>)
    ensures |results| == n
    ensures consultations == (if n == 0 then 0 else 1)
    ensures forall k :: 0 <= k < n ==> results[k] == GetTypeByMetadataName(metadataTypeNames, fullyQualifiedName)
    ensures n > 0 ==> slot == Cached(true, GetTypeByMetadataName(metadataTypeNames, fullyQualifiedName))
  {
    slot := Cached(false, None);
    results := [];
    consultations := 0;
    var i := 0;
    while i < n
      invariant 0 <= i <= n
      invariant |results| == i
      invariant consultations == (if i == 0 then 0 else 1)
      invariant i == 0 ==> !slot.hasValue
      invariant i > 0 ==> slot == Cached(true, GetTypeByMetadataName(metadataTypeNames, fullyQualifiedName))
      invariant forall k :: 0 <= k < i ==> results[k] == GetTypeByMetadataName(metadataTypeNames, fullyQualifiedName)
    {
      var l := GetOrResolveType(metadataTypeNames, fullyQualifiedName, slot);
      results := results + [l.result];
      if l.consulted {
        consultations := consultations + 1;
      }
      slot := l.slot;
      i := i + 1;
    }
  }
}
