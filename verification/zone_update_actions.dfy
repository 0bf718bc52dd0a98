/** `ZoneUpdateAction`: one CREATE or DELETE of a record set, the unit of a
    change batch, with its `Builder`, `mergeResources` and its identity
    (`equals`, `hashCode`, `compareTo`). The XML it writes is in the
    `ChangeBatches` module. */
module ZoneUpdateActions {
  import opened Results
  import opened JavaStrings
  import opened StringSort
  import opened RecordTypes
  import opened ZoneResources
  import opened Zones

  const CREATE: string := "CREATE"
  const DELETE: string := "DELETE"

  datatype ZoneUpdateAction = ZoneUpdateAction(
    action: string,
    name: string,
    recordType: RecordType,
    ttl: int32,
    setIdentifier: Option<string>,
    weight: int32,
    resourceRecords: seq<string>)

  /** What the private constructor establishes: the values are sorted. */
  predicate Valid(a: ZoneUpdateAction)
  {
    Sorted(a.resourceRecords)
  }

  /** The private constructor: every field as given, the values sorted in
      natural order with duplicates kept. */
  function Make(action: string, name: string, recordType: RecordType, ttl: int32,
                setIdentifier: Option<string>, weight: int32, values: seq<string>): (r: ZoneUpdateAction)
    ensures Valid(r)
    ensures multiset(r.resourceRecords) == multiset(values)
    ensures r.action == action && r.name == name && r.recordType == recordType && r.ttl == ttl
    ensures r.setIdentifier == setIdentifier && r.weight == weight
  {
    ZoneUpdateAction(action, name, recordType, ttl, setIdentifier, weight, Sort(values))
  }

  // -----------------------------------------------------------------------
  // Builder
  // -----------------------------------------------------------------------

  /** The builder's fields; `None` is a name or type not yet given. */
  datatype Builder = Builder(
    name: Option<string>,
    recordType: Option<RecordType>,
    ttl: int32,
    resourceRecords: seq<string>,
    setIdentifier: Option<string>,
    weight: int32)

  /** `new Builder()`: TTL 600, no set identifier, weight 0, no values. */
  const NewBuilder: Builder := Builder(None, None, 600, [], None, 0)

  predicate Complete(b: Builder)
  {
    b.name.Some? && b.recordType.Some?
  }

  /** `withData(name, type, values)`: sets name and type and APPENDS the
      values to those already collected. */
  function WithData(b: Builder, name: string, recordType: RecordType, values: seq<string>): (r: Builder)
    ensures Complete(r) && r.name == Some(name) && r.recordType == Some(recordType)
    ensures r.resourceRecords == b.resourceRecords + values
    ensures r.ttl == b.ttl && r.setIdentifier == b.setIdentifier && r.weight == b.weight
  {
    b.(name := Some(name), recordType := Some(recordType), resourceRecords := b.resourceRecords + values)
  }

  /** `withData(resourceName, zone, type, values...)`: the name is the
      simple name, a dot, and the zone's name. */
  function WithDataInZone(b: Builder, resourceName: string, zone: Zone, recordType: RecordType,
                          values: seq<string>): (r: Builder)
    ensures r.name == Some(resourceName + "." + zone.name) && r.recordType == Some(recordType)
    ensures r.resourceRecords == b.resourceRecords + values
    ensures r.ttl == b.ttl && r.setIdentifier == b.setIdentifier && r.weight == b.weight
  {
    WithData(b, resourceName + "." + zone.name, recordType, values)
  }

  function WithTtl(b: Builder, ttl: int32): (r: Builder)
    ensures r.ttl == ttl && r == b.(ttl := ttl)
  {
    b.(ttl := ttl)
  }

  /** Both `withResourceRecords` overloads: append, never replace. */
  function WithResourceRecords(b: Builder, values: seq<string>): (r: Builder)
    ensures r.resourceRecords == b.resourceRecords + values
    ensures r == b.(resourceRecords := r.resourceRecords)
  {
    b.(resourceRecords := b.resourceRecords + values)
  }

  function WithRoundRobinData(b: Builder, setIdentifier: Option<string>, weight: int32): (r: Builder)
    ensures r.setIdentifier == setIdentifier && r.weight == weight
    ensures r.resourceRecords == b.resourceRecords
    ensures r.name == b.name && r.recordType == b.recordType && r.ttl == b.ttl
  {
    b.(setIdentifier := setIdentifier, weight := weight)
  }

  /** `fromZoneResource`: every scalar field from the resource, whose
      values are appended to those already collected. */
  function FromZoneResource(b: Builder, res: ZoneResource): (r: Builder)
    ensures Complete(r)
    ensures r.name == Some(res.name) && r.recordType == Some(res.recordType) && r.ttl == res.ttl
    ensures r.setIdentifier == res.setIdentifier && r.weight == res.weight
    ensures r.resourceRecords == b.resourceRecords + res.resourceRecords
  {
    Builder(Some(res.name), Some(res.recordType), res.ttl, b.resourceRecords + res.resourceRecords,
            res.setIdentifier, res.weight)
  }

  function Build(b: Builder, action: string): (r: ZoneUpdateAction)
    requires Complete(b)
    ensures Valid(r) && multiset(r.resourceRecords) == multiset(b.resourceRecords)
    ensures r.action == action && r.name == b.name.value && r.recordType == b.recordType.value
    ensures r.ttl == b.ttl && r.setIdentifier == b.setIdentifier && r.weight == b.weight
  {
    Make(action, b.name.value, b.recordType.value, b.ttl, b.setIdentifier, b.weight, b.resourceRecords)
  }

  function BuildCreate(b: Builder): (r: ZoneUpdateAction)
    requires Complete(b)
    ensures r.action == CREATE && Valid(r)
    ensures multiset(r.resourceRecords) == multiset(b.resourceRecords)
    ensures r.name == b.name.value && r.recordType == b.recordType.value
    ensures r.ttl == b.ttl && r.setIdentifier == b.setIdentifier && r.weight == b.weight
  {
    Build(b, CREATE)
  }

  function BuildDelete(b: Builder): (r: ZoneUpdateAction)
    requires Complete(b)
    ensures r.action == DELETE && Valid(r)
    ensures multiset(r.resourceRecords) == multiset(b.resourceRecords)
    ensures r.name == b.name.value && r.recordType == b.recordType.value
    ensures r.ttl == b.ttl && r.setIdentifier == b.setIdentifier && r.weight == b.weight
  {
    Build(b, DELETE)
  }

  /** A builder given only data yields the defaults: TTL 600, no set
      identifier, weight 0, and exactly the given values, sorted. */
  lemma BuilderDefaults(name: string, recordType: RecordType, values: seq<string>)
    ensures var a := BuildCreate(WithData(NewBuilder, name, recordType, values));
            && a.ttl == 600 && a.setIdentifier == None && a.weight == 0
            && a.name == name && a.recordType == recordType
            && Sorted(a.resourceRecords) && multiset(a.resourceRecords) == multiset(values)
  {
  }

  /** Building a create and a delete from the same builder gives actions
      that differ in the action word alone. */
  lemma CreateAndDeleteDifferOnlyInAction(b: Builder)
    requires Complete(b)
    ensures BuildDelete(b) == BuildCreate(b).(action := DELETE)
    ensures BuildCreate(b) != BuildDelete(b)
  {
  }

  /** Values collected in several steps end up together, in sorted order,
      whatever the order of the steps. */
  lemma AccumulatedValuesAreSorted(b: Builder, xs: seq<string>, ys: seq<string>)
    requires Complete(b)
    ensures BuildCreate(WithResourceRecords(WithResourceRecords(b, xs), ys))
         == BuildCreate(WithResourceRecords(WithResourceRecords(b, ys), xs))
  {
    assert multiset(b.resourceRecords + xs + ys) == multiset(b.resourceRecords + ys + xs);
    SortOfPermutation(b.resourceRecords + xs + ys, b.resourceRecords + ys + xs);
  }

  /** An action built earlier keeps its sorted values when the builder is
      used again: actions are values, not views of the builder's list. */
  lemma BuilderReuseKeepsEarlierAction(b: Builder, more: seq<string>)
    requires Complete(b)
    ensures var first := BuildCreate(b);
            var second := BuildCreate(WithResourceRecords(b, more));
            && Sorted(first.resourceRecords)
            && multiset(first.resourceRecords) == multiset(b.resourceRecords)
            && multiset(second.resourceRecords) == multiset(first.resourceRecords) + multiset(more)
  {
  }

  // -----------------------------------------------------------------------
  // mergeResources
  // -----------------------------------------------------------------------

  /** `mergeResources(action, resources)`: the action's values followed by
      `resources`, re-sorted; every other field from `action`. */
  function MergeResources(a: ZoneUpdateAction, resources: seq<string>): (r: ZoneUpdateAction)
    ensures Valid(r)
    ensures multiset(r.resourceRecords) == multiset(a.resourceRecords) + multiset(resources)
    ensures r == a.(resourceRecords := r.resourceRecords)
  {
    Make(a.action, a.name, a.recordType, a.ttl, a.setIdentifier, a.weight, a.resourceRecords + resources)
  }

  /** Merging nothing into a well-formed action gives the same action. */
  lemma MergeNothing(a: ZoneUpdateAction)
    requires Valid(a)
    ensures MergeResources(a, []) == a
  {
    assert a.resourceRecords + [] == a.resourceRecords;
    SortOfSorted(a.resourceRecords);
  }

  /** Merging in two steps is merging once with both lists. */
  lemma MergeTwice(a: ZoneUpdateAction, xs: seq<string>, ys: seq<string>)
    ensures MergeResources(MergeResources(a, xs), ys) == MergeResources(a, xs + ys)
  {
    var once := MergeResources(a, xs);
    assert multiset(once.resourceRecords + ys) == multiset(a.resourceRecords + (xs + ys));
    SortOfPermutation(once.resourceRecords + ys, a.resourceRecords + (xs + ys));
  }

  // -----------------------------------------------------------------------
  // Identity
  // -----------------------------------------------------------------------

  /** `equals`: action, name, type and set identifier; TTL, weight and
      values are not compared. */
  predicate Equals(a: ZoneUpdateAction, b: ZoneUpdateAction)
  {
    a.action == b.action && a.name == b.name && a.recordType == b.recordType
    && a.setIdentifier == b.setIdentifier
  }

  /** `hashCode` over the fields `equals` compares; the enum's identity
      hash is a parameter. */
  function HashCode(a: ZoneUpdateAction, typeHash: RecordType -> int32): int32
  {
    var h := HashAppend(HashSeed, StringHash(a.action));
    var h := HashAppend(h, StringHash(a.name));
    var h := HashAppend(h, typeHash(a.recordType));
    HashAppend(h, OptionalStringHash(a.setIdentifier))
  }

  /** `CompareToBuilder` on a field that may be null: null first. */
  function CompareOptional(a: Option<string>, b: Option<string>): int
  {
    match (a, b)
    case (None, None) => 0
    case (None, Some(_)) => -1
    case (Some(_), None) => 1
    case (Some(x), Some(y)) => CompareStrings(x, y)
  }

  /** `compareTo`: the first non-zero comparison of action, name, type
      (by ordinal) and set identifier. */
  function CompareTo(a: ZoneUpdateAction, b: ZoneUpdateAction): int
  {
    var byAction := CompareStrings(a.action, b.action);
    if byAction != 0 then byAction
    else
      var byName := CompareStrings(a.name, b.name);
      if byName != 0 then byName
      else
        var byType := Ordinal(a.recordType) - Ordinal(b.recordType);
        if byType != 0 then byType
        else CompareOptional(a.setIdentifier, b.setIdentifier)
  }

  lemma HashCodeAgreesWithEquals(a: ZoneUpdateAction, b: ZoneUpdateAction, typeHash: RecordType -> int32)
    requires Equals(a, b)
    ensures HashCode(a, typeHash) == HashCode(b, typeHash)
  {
  }

  /** Payload changes never affect identity: a merge result is the same
      action as its first operand. */
  lemma MergeKeepsIdentity(a: ZoneUpdateAction, resources: seq<string>)
    ensures Equals(MergeResources(a, resources), a)
    ensures CompareTo(MergeResources(a, resources), a) == 0
  {
    CompareZeroIffEqual(a.action, a.action);
    CompareZeroIffEqual(a.name, a.name);
    if a.setIdentifier.Some? {
      CompareZeroIffEqual(a.setIdentifier.value, a.setIdentifier.value);
    }
  }

  lemma OrdinalInjective(s: RecordType, t: RecordType)
    ensures Ordinal(s) == Ordinal(t) <==> s == t
  {
  }

  /** `compareTo` is zero exactly when `equals` holds. */
  lemma CompareToZeroIffEquals(a: ZoneUpdateAction, b: ZoneUpdateAction)
    ensures CompareTo(a, b) == 0 <==> Equals(a, b)
  {
    CompareZeroIffEqual(a.action, b.action);
    CompareZeroIffEqual(a.name, b.name);
    OrdinalInjective(a.recordType, b.recordType);
    if a.setIdentifier.Some? && b.setIdentifier.Some? {
      CompareZeroIffEqual(a.setIdentifier.value, b.setIdentifier.value);
    }
  }

  /** Swapping the operands negates the comparison. */
  lemma CompareToAntisymmetric(a: ZoneUpdateAction, b: ZoneUpdateAction)
    ensures CompareTo(a, b) == -CompareTo(b, a)
  {
    CompareAntisymmetric(a.action, b.action);
    CompareAntisymmetric(a.name, b.name);
    if a.setIdentifier.Some? && b.setIdentifier.Some? {
      CompareAntisymmetric(a.setIdentifier.value, b.setIdentifier.value);
    }
  }

  lemma StringOrder(x: string, y: string, z: string)
    ensures CompareStrings(x, y) == 0 <==> x == y
    ensures CompareStrings(x, y) == -CompareStrings(y, x)
    ensures CompareStrings(x, y) <= 0 && CompareStrings(y, z) <= 0 ==> CompareStrings(x, z) <= 0
  {
    CompareZeroIffEqual(x, y);
    CompareAntisymmetric(x, y);
    if CompareStrings(x, y) <= 0 && CompareStrings(y, z) <= 0 {
      CompareTransitive(x, y, z);
    }
  }

  lemma OptionalOrder(x: Option<string>, y: Option<string>, z: Option<string>)
    ensures CompareOptional(x, y) == 0 <==> x == y
    ensures CompareOptional(x, y) == -CompareOptional(y, x)
    ensures CompareOptional(x, y) <= 0 && CompareOptional(y, z) <= 0 ==> CompareOptional(x, z) <= 0
  {
    if x.Some? && y.Some? {
      var zz := if z.Some? then z.value else "";
      StringOrder(x.value, y.value, zz);
    }
  }

  /** `compareTo` orders actions transitively, so sorting a batch by it is
      well defined. */
  lemma CompareToTransitive(a: ZoneUpdateAction, b: ZoneUpdateAction, c: ZoneUpdateAction)
    requires CompareTo(a, b) <= 0 && CompareTo(b, c) <= 0
    ensures CompareTo(a, c) <= 0
  {
    StringOrder(a.action, b.action, c.action);
    StringOrder(b.action, c.action, a.action);
    StringOrder(a.action, c.action, b.action);
    StringOrder(a.name, b.name, c.name);
    StringOrder(b.name, c.name, a.name);
    StringOrder(a.name, c.name, b.name);
    OptionalOrder(a.setIdentifier, b.setIdentifier, c.setIdentifier);
    OptionalOrder(b.setIdentifier, c.setIdentifier, a.setIdentifier);
    OptionalOrder(a.setIdentifier, c.setIdentifier, b.setIdentifier);
    OrdinalInjective(a.recordType, b.recordType);
    OrdinalInjective(b.recordType, c.recordType);
    OrdinalInjective(a.recordType, c.recordType);
  }
}
