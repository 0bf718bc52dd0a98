/** `ZoneResource`: one record set as the service publishes it. */
module ZoneResources {
  import opened Results
  import opened JavaStrings
  import opened RecordTypes

  /** The record values keep the order the service listed them in; unlike
      an update action's values they are never sorted. */
  datatype ZoneResource = ZoneResource(
    name: string,
    recordType: RecordType,
    ttl: int32,
    resourceRecords: seq<string>,
    setIdentifier: Option<string>,
    weight: int32)

  /** The four-argument constructor, the one the record listing uses. */
  function Unweighted(name: string, recordType: RecordType, ttl: int32, values: seq<string>): (r: ZoneResource)
    ensures r.setIdentifier == None && r.weight == 0
    ensures r.name == name && r.recordType == recordType && r.ttl == ttl
    ensures r.resourceRecords == values
  {
    ZoneResource(name, recordType, ttl, values, None, 0)
  }

  /** `equals`: name, type, TTL and the ordered values; the set identifier
      and weight are deliberately not compared. */
  predicate Equals(a: ZoneResource, b: ZoneResource)
  {
    a.name == b.name && a.recordType == b.recordType && a.ttl == b.ttl
    && a.resourceRecords == b.resourceRecords
  }

  /** `List.hashCode`: h = 31 * h + element hash, starting from 1. */
  function ListHash(s: seq<string>): int32
  {
    if |s| == 0 then 1
    else WrapInt32(31 * ListHash(s[..|s| - 1]) + StringHash(s[|s| - 1]))
  }

  /** `hashCode` over the same four fields as `equals`. The enum's own
      hash is an identity hash in Java, so it is a parameter here. */
  function HashCode(r: ZoneResource, typeHash: RecordType -> int32): int32
  {
    var h := HashAppend(HashSeed, StringHash(r.name));
    var h := HashAppend(h, typeHash(r.recordType));
    var h := HashAppend(h, r.ttl);
    HashAppend(h, ListHash(r.resourceRecords))
  }

  lemma EqualsIsEquivalence(a: ZoneResource, b: ZoneResource, c: ZoneResource)
    ensures Equals(a, a)
    ensures Equals(a, b) ==> Equals(b, a)
    ensures Equals(a, b) && Equals(b, c) ==> Equals(a, c)
  {
  }

  lemma HashCodeAgreesWithEquals(a: ZoneResource, b: ZoneResource, typeHash: RecordType -> int32)
    requires Equals(a, b)
    ensures HashCode(a, typeHash) == HashCode(b, typeHash)
  {
  }

  /** Two weighted members of one record that carry the same values are
      the same resource as far as `equals` is concerned. */
  lemma WeightedMembersCollide(a: ZoneResource, id: Option<string>, weight: int32)
    ensures Equals(a, a.(setIdentifier := id, weight := weight))
    ensures a.setIdentifier != id ==> a != a.(setIdentifier := id, weight := weight)
  {
  }

  /** Among resources built by the four-argument constructor, `equals` is
      plain structural equality. */
  lemma EqualsOnUnweighted(a: ZoneResource, b: ZoneResource)
    requires a.setIdentifier == None && a.weight == 0
    requires b.setIdentifier == None && b.weight == 0
    ensures Equals(a, b) <==> a == b
  {
  }

  /** `getFirstResource`: the first value; an empty list makes the
      iterator throw, here `None`. */
  function FirstResource(r: ZoneResource): (v: Option<string>)
    ensures v.Some? <==> |r.resourceRecords| > 0
    ensures v.Some? ==> v.value in r.resourceRecords && v.value == r.resourceRecords[0]
  {
    if |r.resourceRecords| == 0 then None else Some(r.resourceRecords[0])
  }
}
