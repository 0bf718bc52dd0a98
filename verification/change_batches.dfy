/** The change-batch protocol: the `ChangeResourceRecordSetsRequest`
    document `updateZone` posts (with each action's `Change` element as
    `addChangeTag` writes it), and the reading of the service's answer:
    a `ChangeInfo` becomes a `ZoneChangeStatus`, an `Error` becomes a
    `ValetException`. A decoder of the request document is given as the
    service's reading of it, to state what the encoding preserves. */
module ChangeBatches {
  import opened Results
  import opened JavaStrings
  import opened Decimal
  import opened Xml
  import opened Protocol
  import opened RecordTypes
  import opened ZoneUpdateActions
  import opened RecordSets

  const Route53Namespace: string := "https://route53.amazonaws.com/doc/2010-10-01/"

  // -----------------------------------------------------------------------
  // Request
  // -----------------------------------------------------------------------

  /** `SetIdentifier` then `Weight`, written only for a non-blank set
      identifier. */
  function WeightedFields(a: ZoneUpdateAction): seq<Node>
  {
    if IsNotBlank(a.setIdentifier) then
      [Leaf("SetIdentifier", a.setIdentifier.value), Leaf("Weight", IntToDecimal(a.weight))]
    else []
  }

  /** `addChangeTag`: Action, then a ResourceRecordSet holding Name, Type,
      the weighted-set fields, TTL and one ResourceRecord/Value per stored
      value in stored (sorted) order. */
  function ChangeTag(a: ZoneUpdateAction): Node
  {
    Node("Change", "", [
      Leaf("Action", a.action),
      RecordSetElement(a.name, a.recordType, a.ttl, WeightedFields(a), a.resourceRecords)])
  }

  /** One `Change` per action, in the order given. */
  function ChangeNodes(actions: seq<ZoneUpdateAction>): (r: seq<Node>)
    ensures |r| == |actions|
    ensures forall i :: 0 <= i < |actions| ==> r[i] == ChangeTag(actions[i])
  {
    if |actions| == 0 then [] else [ChangeTag(actions[0])] + ChangeNodes(actions[1..])
  }

  /** `StringUtils.defaultIfEmpty(comment, "Modify n records.")`: only a
      null or empty comment is replaced; a blank one is kept. */
  function BatchComment(comment: Option<string>, count: nat): (r: string)
    ensures comment.Some? && comment.value != "" ==> r == comment.value
    ensures (comment.None? || comment.value == "") ==> r == "Modify " + IntToDecimal(count) + " records."
  {
    if comment.None? || comment.value == "" then "Modify " + IntToDecimal(count) + " records."
    else comment.value
  }

  /** The document `updateZone` posts for a non-empty batch. */
  function ChangeRequest(comment: string, actions: seq<ZoneUpdateAction>): Document
  {
    Document(Route53Namespace,
      Node("ChangeResourceRecordSetsRequest", "", [
        Node("ChangeBatch", "", [
          Leaf("Comment", comment),
          Node("Changes", "", ChangeNodes(actions))])]))
  }

  // -----------------------------------------------------------------------
  // The service's reading of a request
  // -----------------------------------------------------------------------

  /** What the wire keeps of an action: a blank set identifier is not
      written, so it reads back as absent, with weight 0. */
  function Normalised(a: ZoneUpdateAction): ZoneUpdateAction
  {
    if IsNotBlank(a.setIdentifier) then a else a.(setIdentifier := None, weight := 0)
  }

  function NormalisedAll(actions: seq<ZoneUpdateAction>): (r: seq<ZoneUpdateAction>)
    ensures |r| == |actions|
    ensures forall i :: 0 <= i < |actions| ==> r[i] == Normalised(actions[i])
  {
    if |actions| == 0 then [] else [Normalised(actions[0])] + NormalisedAll(actions[1..])
  }

  /** The weighted-set fields of a record set element: the identifier, if
      any, and then its weight. */
  function DecodeWeighted(rrs: Node): Result<(Option<string>, int32), Failure>
  {
    match ChildText(rrs, "SetIdentifier")
    case None => Ok((None, 0))
    case Some(id) =>
      var w :- Text(rrs, "Weight");
      match ParseInt(w)
      case None => Err(Malformed("Weight"))
      case Some(v) => Ok((Some(id), v))
  }

  function DecodeChange(n: Node): Result<ZoneUpdateAction, Failure>
  {
    if n.tag != "Change" then Err(Malformed("Change"))
    else
      var action :- Text(n, "Action");
      var rrs :- Element(n, "ResourceRecordSet");
      var res :- DecodeRecordSet(rrs);
      var weighted :- DecodeWeighted(rrs);
      Ok(ZoneUpdateAction(action, res.name, res.recordType, res.ttl, weighted.0, weighted.1,
                          res.resourceRecords))
  }

  function DecodeChanges(ns: seq<Node>): Result<seq<ZoneUpdateAction>, Failure>
  {
    if |ns| == 0 then Ok([])
    else
      var a :- DecodeChange(ns[0]);
      var rest :- DecodeChanges(ns[1..]);
      Ok([a] + rest)
  }

  function DecodeChangeRequest(doc: Document): Result<(string, seq<ZoneUpdateAction>), Failure>
  {
    if doc.namespace != Route53Namespace || doc.root.tag != "ChangeResourceRecordSetsRequest" then
      Err(Malformed("ChangeResourceRecordSetsRequest"))
    else
      var batch :- Element(doc.root, "ChangeBatch");
      var comment :- Text(batch, "Comment");
      var changes :- Element(batch, "Changes");
      var actions :- DecodeChanges(changes.children);
      Ok((comment, actions))
  }

  /** The weighted-set elements appear exactly when the set identifier is
      not blank. */
  lemma WeightedFieldsIffNotBlank(a: ZoneUpdateAction)
    ensures var rrs := ChangeTag(a).children[1];
            && (HasChild(rrs, "SetIdentifier") <==> IsNotBlank(a.setIdentifier))
            && (HasChild(rrs, "Weight") <==> IsNotBlank(a.setIdentifier))
  {
    var rrs := ChangeTag(a).children[1];
    if IsNotBlank(a.setIdentifier) {
      assert rrs.children[2].tag == "SetIdentifier" && rrs.children[3].tag == "Weight";
    } else {
      assert |rrs.children| == 4;
      ChildAbsent(rrs, "SetIdentifier");
      ChildAbsent(rrs, "Weight");
    }
  }

  lemma DecodeWeightedPresent(a: ZoneUpdateAction)
    requires IsNotBlank(a.setIdentifier)
    ensures DecodeWeighted(ChangeTag(a).children[1]) == Ok((a.setIdentifier, a.weight))
  {
    var id := a.setIdentifier.value;
    var extra := [Leaf("SetIdentifier", id), Leaf("Weight", IntToDecimal(a.weight))];
    assert WeightedFields(a) == extra;
    var rrs := RecordSetElement(a.name, a.recordType, a.ttl, extra, a.resourceRecords);
    assert ChangeTag(a).children[1] == rrs;
    RecordSetElementChildren(a.name, a.recordType, a.ttl, extra, a.resourceRecords);
    ChildAt(rrs, 2, "SetIdentifier");
    ChildAt(rrs, 3, "Weight");
    ParseIntOfDecimal(a.weight);
  }

  lemma DecodeWeightedAbsent(a: ZoneUpdateAction)
    requires !IsNotBlank(a.setIdentifier)
    ensures DecodeWeighted(ChangeTag(a).children[1]) == Ok((None, 0))
  {
    assert WeightedFields(a) == [];
    var rrs := RecordSetElement(a.name, a.recordType, a.ttl, [], a.resourceRecords);
    assert ChangeTag(a).children[1] == rrs;
    assert |rrs.children| == 4;
    ChildAbsent(rrs, "SetIdentifier");
  }

  lemma DecodeWeightedFields(a: ZoneUpdateAction)
    ensures DecodeWeighted(ChangeTag(a).children[1]) == Ok((Normalised(a).setIdentifier, Normalised(a).weight))
  {
    if IsNotBlank(a.setIdentifier) {
      DecodeWeightedPresent(a);
    } else {
      DecodeWeightedAbsent(a);
    }
  }

  /** Reading a `Change` element back gives the action it was written from,
      up to a blank set identifier, which is not written. */
  lemma DecodeChangeTag(a: ZoneUpdateAction)
    ensures DecodeChange(ChangeTag(a)) == Ok(Normalised(a))
  {
    var n := ChangeTag(a);
    ChildAt(n, 0, "Action");
    ChildAt(n, 1, "ResourceRecordSet");
    DecodeRecordSetElement(a.name, a.recordType, a.ttl, WeightedFields(a), a.resourceRecords);
    DecodeWeightedFields(a);
  }

  lemma {:induction false} DecodeChangeNodes(actions: seq<ZoneUpdateAction>)
    ensures DecodeChanges(ChangeNodes(actions)) == Ok(NormalisedAll(actions))
  {
    if |actions| > 0 {
      assert ChangeNodes(actions)[1..] == ChangeNodes(actions[1..]);
      DecodeChangeTag(actions[0]);
      DecodeChangeNodes(actions[1..]);
      assert NormalisedAll(actions) == [Normalised(actions[0])] + NormalisedAll(actions[1..]);
    }
  }

  /** The posted document carries the comment and every action, in input
      order, each as written by `addChangeTag`. */
  lemma DecodeChangeRequestOf(comment: string, actions: seq<ZoneUpdateAction>)
    ensures DecodeChangeRequest(ChangeRequest(comment, actions)) == Ok((comment, NormalisedAll(actions)))
  {
    var root := ChangeRequest(comment, actions).root;
    ChildAt(root, 0, "ChangeBatch");
    ChildAt(root.children[0], 0, "Comment");
    ChildAt(root.children[0], 1, "Changes");
    DecodeChangeNodes(actions);
  }

  /** A null or empty comment on a batch of three reads "Modify 3 records."; a
      comment of spaces is kept as it is. */
  lemma BatchCommentExamples()
    ensures BatchComment(Some(""), 3) == "Modify 3 records."
    ensures BatchComment(None, 3) == "Modify 3 records."
    ensures BatchComment(Some("  "), 3) == "  "
  {
  }

  // -----------------------------------------------------------------------
  // Response
  // -----------------------------------------------------------------------

  /** Milliseconds since the epoch. */
  type Timestamp = int

  /** `ZoneChangeStatus`: the propagation state of one submitted change. */
  datatype ZoneChangeStatus = ZoneChangeStatus(
    zoneId: string,
    changeId: string,
    status: Status,
    submittedAt: Timestamp)

  const ChangePrefix: string := "/change/"

  /** The answer has a `ChangeInfo` child with an `Id`, a known `Status`
      and a `SubmittedAt` that parses. */
  predicate ChangeInfoReadable(root: Node, parseTime: string -> Option<Timestamp>)
  {
    && HasChild(root, "ChangeInfo")
    && var info := Child(root, "ChangeInfo").value;
    && ChildText(info, "Id").Some?
    && ChildText(info, "Status").Some? && StatusFromName(ChildText(info, "Status").value).Some?
    && ChildText(info, "SubmittedAt").Some? && parseTime(ChildText(info, "SubmittedAt").value).Some?
  }

  /** `parseChangeResourceRecordSetsResponse`: reads `ChangeInfo/Id`,
      keeping only what follows the first "/change/", `ChangeInfo/Status`
      and `ChangeInfo/SubmittedAt`. The zone id is the caller's, not the
      response's. `parseTime` is the `SimpleDateFormat` parse of the
      timestamp, which may fail. */
  function DecodeChangeStatus(zoneId: string, root: Node, parseTime: string -> Option<Timestamp>)
    : (r: Result<ZoneChangeStatus, Failure>)
    ensures r.Ok? ==> r.value.zoneId == zoneId
    ensures r.Ok? ==> HasChild(root, "ChangeInfo")
    ensures r.Err? ==> r.error.Malformed?
    ensures r.Ok? <==> ChangeInfoReadable(root, parseTime)
    ensures r.Ok? ==> var info := Child(root, "ChangeInfo").value;
                      && r.value.changeId == SubstringAfter(ChildText(info, "Id").value, ChangePrefix)
                      && StatusFromName(ChildText(info, "Status").value) == Some(r.value.status)
                      && parseTime(ChildText(info, "SubmittedAt").value) == Some(r.value.submittedAt)
  {
    var info :- Element(root, "ChangeInfo");
    var id :- Text(info, "Id");
    var statusText :- Text(info, "Status");
    var status :- (match StatusFromName(statusText)
                   case None => Err(Malformed("Status"))
                   case Some(s) => Ok(s));
    var submittedText :- Text(info, "SubmittedAt");
    var submitted :- (match parseTime(submittedText)
                      case None => Err(Malformed("SubmittedAt"))
                      case Some(t) => Ok(t));
    Ok(ZoneChangeStatus(zoneId, SubstringAfter(id, ChangePrefix), status, submitted))
  }

  /** `parseErrorResponse`: "Code: Message" of the `Error` element; its
      `Type` is read too, so a missing one throws as well. */
  function DecodeError(root: Node): (f: Failure)
    requires HasChild(root, "Error")
    ensures f.ServiceError? || f.Malformed?
    ensures var error := Child(root, "Error").value;
            f.ServiceError? <==> (forall field | field in ["Type", "Code", "Message"] :: ChildText(error, field).Some?)
    ensures var error := Child(root, "Error").value;
            f.ServiceError? ==> f.message == ChildText(error, "Code").value + ": " + ChildText(error, "Message").value
    ensures var error := Child(root, "Error").value;
            f.Malformed? ==> ChildText(error, f.element).None?
  {
    var error := Child(root, "Error").value;
    match (ChildText(error, "Type"), ChildText(error, "Code"), ChildText(error, "Message"))
    case (None, _, _) => Malformed("Type")
    case (_, None, _) => Malformed("Code")
    case (_, _, None) => Malformed("Message")
    case (Some(_), Some(code), Some(message)) => ServiceError(code + ": " + message)
  }

  /** The answer to a posted batch: an `Error` child means failure, never a
      status; otherwise the change status. */
  function DecodeSubmitResponse(zoneId: string, root: Node, parseTime: string -> Option<Timestamp>)
    : (r: Result<ZoneChangeStatus, Failure>)
    ensures HasChild(root, "Error") ==> r.Err? && (r.error.ServiceError? || r.error.Malformed?)
    ensures !HasChild(root, "Error") ==> r == DecodeChangeStatus(zoneId, root, parseTime)
  {
    if HasChild(root, "Error") then Err(DecodeError(root))
    else DecodeChangeStatus(zoneId, root, parseTime)
  }

  /** A response carrying a `ChangeInfo`, under a root named `rootTag`. */
  function ChangeInfoResponse(rootTag: string, id: string, statusText: string, submittedText: string): Node
  {
    Node(rootTag, "", [ChangeInfoElement(id, statusText, submittedText)])
  }

  /** A `ChangeInfo` element as the service writes it. */
  function ChangeInfoElement(id: string, statusText: string, submittedText: string): Node
  {
    Node("ChangeInfo", "", [Leaf("Id", id), Leaf("Status", statusText), Leaf("SubmittedAt", submittedText)])
  }

  /** An `ErrorResponse` with the given type, code and message. */
  function ErrorResponse(errorType: string, code: string, message: string): Node
  {
    Node("ErrorResponse", "", [
      Node("Error", "", [Leaf("Type", errorType), Leaf("Code", code), Leaf("Message", message)])])
  }

  /** A change status read from the service's `ChangeInfo` carries the
      caller's zone id and the change id with "/change/" stripped once. */
  lemma DecodeChangeInfoResponse(rootTag: string, zoneId: string, changeId: string, status: Status,
                                 submittedText: string, parseTime: string -> Option<Timestamp>)
    requires parseTime(submittedText).Some?
    ensures DecodeChangeStatus(zoneId,
              ChangeInfoResponse(rootTag, ChangePrefix + changeId, StatusName(status), submittedText), parseTime)
         == Ok(ZoneChangeStatus(zoneId, changeId, status, parseTime(submittedText).value))
  {
    var root := ChangeInfoResponse(rootTag, ChangePrefix + changeId, StatusName(status), submittedText);
    DecodeChangeInfoAt(zoneId, root, 0, changeId, status, submittedText, parseTime);
  }

  /** The same, for a `ChangeInfo` at any position among the answer's
      children, as long as it is the first one. */
  lemma DecodeChangeInfoAt(zoneId: string, root: Node, k: nat, changeId: string, status: Status,
                           submittedText: string, parseTime: string -> Option<Timestamp>)
    requires k < |root.children|
    requires root.children[k] == ChangeInfoElement(ChangePrefix + changeId, StatusName(status), submittedText)
    requires forall j :: 0 <= j < k ==> root.children[j].tag != "ChangeInfo"
    requires parseTime(submittedText).Some?
    ensures DecodeChangeStatus(zoneId, root, parseTime)
         == Ok(ZoneChangeStatus(zoneId, changeId, status, parseTime(submittedText).value))
  {
    var info := root.children[k];
    ChildAt(root, k, "ChangeInfo");
    ChildAt(info, 0, "Id");
    ChildAt(info, 1, "Status");
    ChildAt(info, 2, "SubmittedAt");
    SubstringAfterLeadingSeparator(ChangePrefix, changeId);
  }

  /** A status name other than PENDING or INSYNC is a malformed response. */
  lemma UnknownStatusRejected(zoneId: string, id: string, statusText: string, submittedText: string,
                              parseTime: string -> Option<Timestamp>)
    requires statusText != "PENDING" && statusText != "INSYNC"
    ensures DecodeChangeStatus(zoneId, ChangeInfoResponse("ChangeResourceRecordSetsResponse", id, statusText,
                                                          submittedText), parseTime)
         == Err(Malformed("Status"))
  {
    var root := ChangeInfoResponse("ChangeResourceRecordSetsResponse", id, statusText, submittedText);
    ChildAt(root, 0, "ChangeInfo");
    ChildAt(root.children[0], 0, "Id");
    ChildAt(root.children[0], 1, "Status");
  }

  /** An error response is reported as "Code: Message". */
  lemma DecodeErrorResponse(zoneId: string, errorType: string, code: string, message: string,
                            parseTime: string -> Option<Timestamp>)
    ensures DecodeSubmitResponse(zoneId, ErrorResponse(errorType, code, message), parseTime)
         == Err(ServiceError(code + ": " + message))
  {
    var root := ErrorResponse(errorType, code, message);
    ChildAt(root, 0, "Error");
    ChildAt(root.children[0], 0, "Type");
    ChildAt(root.children[0], 1, "Code");
    ChildAt(root.children[0], 2, "Message");
  }
}
