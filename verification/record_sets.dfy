/** The `ResourceRecordSet` element: its shape, shared by the change
    requests the driver writes and the listings the service returns, and
    the reading of one listed record set into a `ZoneResource`. */
module RecordSets {
  import opened Results
  import opened JavaStrings
  import opened Decimal
  import opened Xml
  import opened Protocol
  import opened RecordTypes
  import opened ZoneResources

  /** One `ResourceRecord` holding one `Value` per value, in order. */
  function ValueNodes(values: seq<string>): (r: seq<Node>)
    ensures |r| == |values|
    ensures forall i :: 0 <= i < |values| ==> r[i] == Node("ResourceRecord", "", [Leaf("Value", values[i])])
  {
    if |values| == 0 then []
    else [Node("ResourceRecord", "", [Leaf("Value", values[0])])] + ValueNodes(values[1..])
  }

  /** A `ResourceRecordSet` element: Name, Type, the elements `extra`
      (the weighted-set fields, when present), TTL, ResourceRecords. */
  function RecordSetElement(name: string, recordType: RecordType, ttl: int32, extra: seq<Node>,
                            values: seq<string>): Node
  {
    Node("ResourceRecordSet", "",
      [Leaf("Name", name), Leaf("Type", TypeName(recordType))]
      + extra
      + [Leaf("TTL", IntToDecimal(ttl)), Node("ResourceRecords", "", ValueNodes(values))])
  }

  /** The `Value` text of every `ResourceRecord`; a missing one throws. */
  function DecodeValues(ns: seq<Node>): (r: Result<seq<string>, Failure>)
    ensures r.Ok? ==> |r.value| == |ns|
  {
    if |ns| == 0 then Ok([])
    else
      var v :- Text(ns[0], "Value");
      var vs :- DecodeValues(ns[1..]);
      Ok([v] + vs)
  }

  /** One record set of a listing, as `listZoneRecords` reads it: `Name`,
      `Type` and `TTL`, then the `Value` of every
      `ResourceRecords/ResourceRecord`; `RecordType.valueOf` and
      `Integer.parseInt` may throw. The resource is built by the
      four-argument constructor, so no set identifier is read. */
  function DecodeRecordSet(rec: Node): (r: Result<ZoneResource, Failure>)
    ensures r.Ok? ==> r.value.setIdentifier == None && r.value.weight == 0
    ensures r.Ok? ==> ChildText(rec, "Name") == Some(r.value.name)
    ensures r.Ok? ==> ChildText(rec, "Type") == Some(TypeName(r.value.recordType))
  {
    var name :- Text(rec, "Name");
    var typeName :- Text(rec, "Type");
    var ttlText :- Text(rec, "TTL");
    var values :- DecodeValues(Path2(rec, "ResourceRecords", "ResourceRecord"));
    var recordType :- (match TypeFromName(typeName)
                       case None => Err(Malformed("Type"))
                       case Some(t) => Ok(t));
    var ttl :- (match ParseInt(ttlText)
                case None => Err(Malformed("TTL"))
                case Some(n) => Ok(n));
    Ok(Unweighted(name, recordType, ttl, values))
  }

  lemma {:induction false} DecodeValueNodes(values: seq<string>)
    ensures DecodeValues(ValueNodes(values)) == Ok(values)
  {
    if |values| > 0 {
      var ns := ValueNodes(values);
      assert ns[1..] == ValueNodes(values[1..]);
      ChildAt(ns[0], 0, "Value");
      DecodeValueNodes(values[1..]);
      assert values == [values[0]] + values[1..];
    }
  }

  /** Name and Type lead a record set element. */
  lemma RecordSetElementHead(name: string, recordType: RecordType, ttl: int32, extra: seq<Node>,
                             values: seq<string>)
    ensures var rec := RecordSetElement(name, recordType, ttl, extra, values);
            && ChildText(rec, "Name") == Some(name)
            && ChildText(rec, "Type") == Some(TypeName(recordType))
  {
    var rec := RecordSetElement(name, recordType, ttl, extra, values);
    assert rec.children[0] == Leaf("Name", name);
    assert rec.children[1] == Leaf("Type", TypeName(recordType));
    ChildAt(rec, 0, "Name");
    ChildAt(rec, 1, "Type");
  }

  /** The children of a record set element by position. */
  lemma RecordSetElementChildren(name: string, recordType: RecordType, ttl: int32, extra: seq<Node>,
                                 values: seq<string>)
    ensures var cs := RecordSetElement(name, recordType, ttl, extra, values).children;
            && |cs| == 4 + |extra|
            && cs[0].tag == "Name" && cs[1].tag == "Type"
            && (forall i :: 2 <= i < 2 + |extra| ==> cs[i] == extra[i - 2])
            && cs[2 + |extra|] == Leaf("TTL", IntToDecimal(ttl))
            && cs[3 + |extra|] == Node("ResourceRecords", "", ValueNodes(values))
  {
  }

  /** TTL follows the weighted-set fields. */
  lemma RecordSetElementTtl(name: string, recordType: RecordType, ttl: int32, extra: seq<Node>,
                            values: seq<string>)
    requires forall i :: 0 <= i < |extra| ==> extra[i].tag == "SetIdentifier" || extra[i].tag == "Weight"
    ensures ChildText(RecordSetElement(name, recordType, ttl, extra, values), "TTL") == Some(IntToDecimal(ttl))
  {
    RecordSetElementChildren(name, recordType, ttl, extra, values);
    ChildAt(RecordSetElement(name, recordType, ttl, extra, values), 2 + |extra|, "TTL");
  }

  /** The values come last, in `ResourceRecords`. */
  lemma RecordSetElementValues(name: string, recordType: RecordType, ttl: int32, extra: seq<Node>,
                               values: seq<string>)
    requires forall i :: 0 <= i < |extra| ==> extra[i].tag == "SetIdentifier" || extra[i].tag == "Weight"
    ensures Path2(RecordSetElement(name, recordType, ttl, extra, values), "ResourceRecords", "ResourceRecord")
         == ValueNodes(values)
  {
    RecordSetElementChildren(name, recordType, ttl, extra, values);
    Path2Single(RecordSetElement(name, recordType, ttl, extra, values), 3 + |extra|, "ResourceRecords", "ResourceRecord");
    NamedOfUniform(ValueNodes(values), "ResourceRecord");
  }

  /** Reading a record set element recovers name, type, TTL and the values
      in their written order, whatever weighted-set fields sit between. */
  lemma DecodeRecordSetElement(name: string, recordType: RecordType, ttl: int32, extra: seq<Node>,
                               values: seq<string>)
    requires forall i :: 0 <= i < |extra| ==> extra[i].tag == "SetIdentifier" || extra[i].tag == "Weight"
    ensures DecodeRecordSet(RecordSetElement(name, recordType, ttl, extra, values))
         == Ok(Unweighted(name, recordType, ttl, values))
  {
    RecordSetElementHead(name, recordType, ttl, extra, values);
    RecordSetElementTtl(name, recordType, ttl, extra, values);
    RecordSetElementValues(name, recordType, ttl, extra, values);
    DecodeValueNodes(values);
    TypeFromNameOfName(recordType);
    ParseIntOfDecimal(ttl);
  }

  /** What the service lists for a resource with no weighted-set fields. */
  function ListedElement(r: ZoneResource): Node
  {
    RecordSetElement(r.name, r.recordType, r.ttl, [], r.resourceRecords)
  }

  /** A listed resource reads back as itself. */
  lemma DecodeListedElement(r: ZoneResource)
    requires r.setIdentifier == None && r.weight == 0
    ensures DecodeRecordSet(ListedElement(r)) == Ok(r)
  {
    DecodeRecordSetElement(r.name, r.recordType, r.ttl, [], r.resourceRecords);
  }
}
