/** The driver's view of the service: the calls it makes on the transport
    (`Route53Pilot`, whose HTTP and signing are not part of this model),
    the failures it reports, and the run of one driver operation against a
    scripted sequence of service replies. */
module Protocol {
  import opened Results
  import opened Xml

  /** One transport call, with the request as the driver builds it. */
  datatype Request =
    | PostResourceRecordSets(zoneId: string, payload: Document)
    | GetChangeInfo(changeId: string)
    | GetResourceRecordSets(zoneId: string, query: string)
    | GetHostedZone(zoneId: string)
    | PostHostedZone(payload: Document)

  /** What a driver operation throws. */
  datatype Failure =
      /** `ValetException` built from an `Error` response: "Code: Message". */
    | ServiceError(message: string)
      /** A response lacking an element the driver reads, or holding an
          unknown enum name, a malformed number or date. */
    | Malformed(element: string)
      /** `IllegalArgumentException` thrown by the driver itself. */
    | InvalidArgument(message: string)
      /** The blank-argument guard on a parameter. */
    | Blank(parameter: string)
      /** The scripted service has no reply left for this request. */
    | NoReply(pending: Request)

  /** The requests an operation sent, in order, and its outcome. When run
      against replies `rs`, `rs[i]` answers `sent[i]`. */
  datatype Run<+T> = Run(sent: seq<Request>, result: Result<T, Failure>)

  /** The text of a child element the driver requires. */
  function Text(n: Node, tag: string): (r: Result<string, Failure>)
    ensures r.Ok? <==> ChildText(n, tag).Some?
    ensures r.Ok? ==> r.value == ChildText(n, tag).value
    ensures r.Err? ==> r.error == Malformed(tag)
  {
    match ChildText(n, tag)
    case None => Err(Malformed(tag))
    case Some(t) => Ok(t)
  }

  /** `getText(path)` for a path that selected `selected`: the text of the
      first selected element, in document order, or `Malformed(path)` when
      the path selects nothing. */
  function PathText(selected: seq<Node>, path: string): (r: Result<string, Failure>)
    ensures r.Ok? <==> 0 < |selected|
    ensures r.Ok? ==> r.value == selected[0].text
    ensures r.Err? ==> r.error == Malformed(path)
  {
    if |selected| == 0 then Err(Malformed(path)) else Ok(selected[0].text)
  }

  /** A child element the driver requires (`gotoChild`). */
  function Element(n: Node, tag: string): (r: Result<Node, Failure>)
    ensures r.Ok? <==> Child(n, tag).Some?
    ensures r.Ok? ==> r.value == Child(n, tag).value
    ensures r.Err? ==> r.error == Malformed(tag)
  {
    match Child(n, tag)
    case None => Err(Malformed(tag))
    case Some(c) => Ok(c)
  }
}
