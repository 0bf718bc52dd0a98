/** `Zone`: a hosted zone as the service describes it, and `buildZone`,
    which reads one out of a response. */
module Zones {
  import opened Results
  import opened JavaStrings
  import opened Xml
  import opened Protocol

  datatype Zone = Zone(
    zoneId: string,
    name: string,
    callerReference: string,
    comment: string,
    nameServers: seq<string>)

  const HostedZonePrefix: string := "/hostedzone/"

  /** `buildZone(xml)` with the cursor on `at`: `Id`, `Name`,
      `CallerReference` and `Config/Comment` are read relative to `at`, the
      last as a path, so from the first `Comment` under any `Config`; the
      name servers come from the absolute path `//NameServer`, that is from
      the whole document `doc`. The id keeps only what follows the first
      "/hostedzone/". */
  function BuildZone(doc: Node, at: Node): (r: Result<Zone, Failure>)
    ensures r.Ok? ==> r.value.nameServers == Texts(Descendants(doc, "NameServer"))
  {
    var id :- Text(at, "Id");
    var name :- Text(at, "Name");
    var callerReference :- Text(at, "CallerReference");
    var comment :- PathText(Path2(at, "Config", "Comment"), "Config/Comment");
    Ok(Zone(SubstringAfter(id, HostedZonePrefix), name, callerReference, comment,
            Texts(Descendants(doc, "NameServer"))))
  }

  /** A `HostedZone` element as the service writes it for `z`. */
  function HostedZoneElement(z: Zone): Node
  {
    Node("HostedZone", "", [
      Leaf("Id", HostedZonePrefix + z.zoneId),
      Leaf("Name", z.name),
      Leaf("CallerReference", z.callerReference),
      Node("Config", "", [Leaf("Comment", z.comment)])])
  }

  /** A `GetHostedZoneResponse` for `z`: the zone, then its delegation set. */
  function HostedZoneResponse(z: Zone): Node
  {
    Node("GetHostedZoneResponse", "", [
      HostedZoneElement(z),
      Node("DelegationSet", "", [Node("NameServers", "", Leaves("NameServer", z.nameServers))])])
  }

  /** The only name servers in a zone's description are those of its
      delegation set. */
  lemma NameServersOfResponse(z: Zone)
    ensures Descendants(HostedZoneResponse(z), "NameServer") == Leaves("NameServer", z.nameServers)
  {
    var doc := HostedZoneResponse(z);
    var hz := doc.children[0];
    var ds := doc.children[1];
    var nss := ds.children[0];
    var servers := Leaves("NameServer", z.nameServers);
    assert Descendants(nss, "NameServer") == servers by {
      DescendantsOfLeaves("NameServer", z.nameServers);
    }
    DescendantsOfSingleChild(ds, "NameServer");
    assert Lacks(hz.children[3], "NameServer");
    DescendantsOfLacking(hz, "NameServer");
    assert doc.children[1..] == [ds];
    assert DescendantsOfAll(doc.children[1..], "NameServer") == Descendants(ds, "NameServer") by {
      assert doc.children[1..][1..] == [];
      assert DescendantsOfAll(doc.children[1..][1..], "NameServer") == [];
    }
    assert DescendantsOfAll(doc.children, "NameServer")
        == Descendants(hz, "NameServer") + DescendantsOfAll(doc.children[1..], "NameServer");
  }

  /** `buildZone` succeeds exactly when `Id`, `Name`, `CallerReference`
      and some `Config/Comment` are there, and reads each of them: the id
      after "/hostedzone/", the comment from the first `Comment` the path
      selects. */
  lemma BuildZoneReads(doc: Node, at: Node)
    ensures var r := BuildZone(doc, at);
            r.Ok? <==> && ChildText(at, "Id").Some? && ChildText(at, "Name").Some?
                       && ChildText(at, "CallerReference").Some?
                       && 0 < |Path2(at, "Config", "Comment")|
    ensures var r := BuildZone(doc, at);
            r.Ok? ==> && r.value.zoneId == SubstringAfter(ChildText(at, "Id").value, HostedZonePrefix)
                      && r.value.name == ChildText(at, "Name").value
                      && r.value.callerReference == ChildText(at, "CallerReference").value
                      && r.value.comment == Path2(at, "Config", "Comment")[0].text
  {
  }

  /** `buildZone` on an element whose fields are known. */
  lemma BuildZoneOfFields(doc: Node, at: Node, id: string, name: string,
                          callerReference: string, comment: string)
    requires ChildText(at, "Id") == Some(id) && ChildText(at, "Name") == Some(name)
    requires ChildText(at, "CallerReference") == Some(callerReference)
    requires 0 < |Path2(at, "Config", "Comment")| && Path2(at, "Config", "Comment")[0].text == comment
    ensures BuildZone(doc, at)
         == Ok(Zone(SubstringAfter(id, HostedZonePrefix), name, callerReference, comment,
                    Texts(Descendants(doc, "NameServer"))))
  {
  }

  /** Where the fields of a `HostedZone` element are found. */
  lemma HostedZoneElementFields(z: Zone)
    ensures var hz := HostedZoneElement(z);
            && ChildText(hz, "Id") == Some(HostedZonePrefix + z.zoneId)
            && ChildText(hz, "Name") == Some(z.name)
            && ChildText(hz, "CallerReference") == Some(z.callerReference)
            && Path2(hz, "Config", "Comment") == [Leaf("Comment", z.comment)]
  {
    var hz := HostedZoneElement(z);
    ChildAt(hz, 0, "Id");
    ChildAt(hz, 1, "Name");
    ChildAt(hz, 2, "CallerReference");
    Path2Single(hz, 3, "Config", "Comment");
    NamedSingle(hz.children[3].children, 0, "Comment");
  }

  /** A `HostedZone` element with two `Config` children, only the second
      of them holding a `Comment`. */
  function LaterConfigElement(): Node
  {
    Node("HostedZone", "", [
      Leaf("Id", HostedZonePrefix + "Z1"), Leaf("Name", "example.com."), Leaf("CallerReference", "r"),
      Node("Config", "", []),
      Node("Config", "", [Leaf("Comment", "c")])])
  }

  lemma LaterConfigComment()
    ensures Path2(LaterConfigElement(), "Config", "Comment") == [Leaf("Comment", "c")]
  {
    var c := Leaf("Comment", "c");
    var first, second := Node("Config", "", []), Node("Config", "", [c]);
    var cs := [Leaf("Id", HostedZonePrefix + "Z1"), Leaf("Name", "example.com."), Leaf("CallerReference", "r"), first, second];
    assert LaterConfigElement().children == cs;
    NamedSkip(cs, 3, "Config");
    assert cs[3..] == [first, second];
    NamedOfUniform([first, second], "Config");
    ChildrenOfPair(first, second, "Comment");
    NamedSingle([c], 0, "Comment");
  }

  lemma LaterConfigFields()
    ensures && ChildText(LaterConfigElement(), "Id") == Some(HostedZonePrefix + "Z1")
            && ChildText(LaterConfigElement(), "Name") == Some("example.com.")
            && ChildText(LaterConfigElement(), "CallerReference") == Some("r")
  {
    var hz := LaterConfigElement();
    ChildAt(hz, 0, "Id");
    ChildAt(hz, 1, "Name");
    ChildAt(hz, 2, "CallerReference");
  }

  /** `Config/Comment` selects the `Comment` of every `Config` child, so a
      comment under a later `Config` is found when an earlier `Config` has
      none. */
  lemma BuildZoneReadsLaterConfig(doc: Node)
    ensures BuildZone(doc, LaterConfigElement())
         == Ok(Zone("Z1", "example.com.", "r", "c", Texts(Descendants(doc, "NameServer"))))
  {
    LaterConfigComment();
    LaterConfigFields();
    BuildZoneOfFields(doc, LaterConfigElement(), HostedZonePrefix + "Z1", "example.com.", "r", "c");
    SubstringAfterLeadingSeparator(HostedZonePrefix, "Z1");
  }

  /** Reading a zone back out of the service's description of it recovers
      the zone, its id stripped of the "/hostedzone/" prefix. */
  lemma BuildZoneOfResponse(z: Zone)
    ensures var doc := HostedZoneResponse(z);
            BuildZone(doc, doc.children[0]) == Ok(z)
  {
    var doc := HostedZoneResponse(z);
    var hz := HostedZoneElement(z);
    assert doc.children[0] == hz;
    HostedZoneElementFields(z);
    BuildZoneOfFields(doc, hz, HostedZonePrefix + z.zoneId, z.name, z.callerReference, z.comment);
    SubstringAfterLeadingSeparator(HostedZonePrefix, z.zoneId);
    NameServersOfResponse(z);
    assert Texts(Leaves("NameServer", z.nameServers)) == z.nameServers;
  }
}
