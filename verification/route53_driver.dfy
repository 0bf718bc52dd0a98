/** `Route53Driver`: the operations that talk to the service. Each takes
    the service's replies as a finite script and returns the requests it
    sent with its outcome; the i-th reply answers the i-th request, and an
    operation that needs more replies than the script holds ends in
    `NoReply`. Sleeping, logging and the clock are not modelled: the
    current time is a parameter, and so is the parse of the service's
    timestamps. */
module Route53Driver {
  import opened Results
  import opened JavaStrings
  import opened Xml
  import opened Protocol
  import opened RecordTypes
  import opened ZoneResources
  import opened ZoneUpdateActions
  import opened RecordSets
  import opened ChangeBatches
  import opened Zones

  const NoChangeSubmitted: string := "no-change-submitted"

  // -----------------------------------------------------------------------
  // updateZone
  // -----------------------------------------------------------------------

  /** The request `updateZone` posts for a non-empty batch. */
  function UpdateRequest(zone: Zone, comment: Option<string>, actions: seq<ZoneUpdateAction>): Request
  {
    PostResourceRecordSets(zone.zoneId, ChangeRequest(BatchComment(comment, |actions|), actions))
  }

  /** `updateZone(zone, comment, actions)`: an empty batch is answered at
      once as already in sync, without calling the service; otherwise the
      batch is posted and the answer decoded. */
  function UpdateZone(zone: Zone, comment: Option<string>, actions: seq<ZoneUpdateAction>, now: Timestamp,
                      replies: seq<Node>, parseTime: string -> Option<Timestamp>): (r: Run<ZoneChangeStatus>)
    ensures |actions| == 0 ==> r.sent == [] && r.result == Ok(ZoneChangeStatus(zone.zoneId, NoChangeSubmitted, INSYNC, now))
    ensures |actions| > 0 && |replies| > 0 ==> r.sent == [UpdateRequest(zone, comment, actions)]
    ensures |actions| > 0 && |replies| > 0 && HasChild(replies[0], "Error") ==>
              r.result.Err? && (r.result.error.ServiceError? || r.result.error.Malformed?)
    ensures r.result.Ok? ==> r.result.value.zoneId == zone.zoneId
  {
    if |actions| == 0 then Run([], Ok(ZoneChangeStatus(zone.zoneId, NoChangeSubmitted, INSYNC, now)))
    else if |replies| == 0 then Run([], Err(NoReply(UpdateRequest(zone, comment, actions))))
    else Run([UpdateRequest(zone, comment, actions)], DecodeSubmitResponse(zone.zoneId, replies[0], parseTime))
  }

  /** The posted document carries the defaulted comment and one `Change`
      per action, in the caller's order. */
  lemma UpdateZonePostsBatch(zone: Zone, comment: Option<string>, actions: seq<ZoneUpdateAction>, now: Timestamp,
                             replies: seq<Node>, parseTime: string -> Option<Timestamp>)
    requires |actions| > 0 && |replies| > 0
    ensures var r := UpdateZone(zone, comment, actions, now, replies, parseTime);
            && |r.sent| == 1 && r.sent[0].zoneId == zone.zoneId
            && DecodeChangeRequest(r.sent[0].payload) == Ok((BatchComment(comment, |actions|), NormalisedAll(actions)))
  {
    DecodeChangeRequestOf(BatchComment(comment, |actions|), actions);
  }

  // -----------------------------------------------------------------------
  // queryChangeStatus / waitForSync
  // -----------------------------------------------------------------------

  /** `queryChangeStatus(prev)`: asks for the change by id and decodes the
      answer against the old status's zone id. An `Error` answer is not
      looked for: it fails as a response without `ChangeInfo`. */
  function QueryChangeStatus(prev: ZoneChangeStatus, replies: seq<Node>, parseTime: string -> Option<Timestamp>)
    : (r: Run<ZoneChangeStatus>)
    ensures |replies| > 0 ==> r.sent == [GetChangeInfo(prev.changeId)]
    ensures r.result.Ok? ==> r.result.value.zoneId == prev.zoneId
  {
    if |replies| == 0 then Run([], Err(NoReply(GetChangeInfo(prev.changeId))))
    else Run([GetChangeInfo(prev.changeId)], DecodeChangeStatus(prev.zoneId, replies[0], parseTime))
  }

  /** The reply decodes to a status in state `s`. */
  predicate Reports(prev: ZoneChangeStatus, reply: Node, parseTime: string -> Option<Timestamp>, s: Status)
  {
    var d := DecodeChangeStatus(prev.zoneId, reply, parseTime);
    d.Ok? && d.value.status == s
  }

  /** The polling loop of `waitForSync`: query, stop on INSYNC, otherwise
      (after a pause) query again. A failing query ends the wait. */
  function Poll(prev: ZoneChangeStatus, replies: seq<Node>, parseTime: string -> Option<Timestamp>): (r: Run<()>)
    ensures |r.sent| <= |replies|
    ensures |replies| > 0 ==> 0 < |r.sent|
    decreases |replies|
  {
    var query := GetChangeInfo(prev.changeId);
    if |replies| == 0 then Run([], Err(NoReply(query)))
    else
      match DecodeChangeStatus(prev.zoneId, replies[0], parseTime)
      case Err(e) => Run([query], Err(e))
      case Ok(current) =>
        if current.status == INSYNC then Run([query], Ok(()))
        else
          var rest := Poll(prev, replies[1..], parseTime);
          Run([query] + rest.sent, rest.result)
  }

  /** `waitForSync(old)`: no query at all when already in sync. */
  function WaitForSync(prev: ZoneChangeStatus, replies: seq<Node>, parseTime: string -> Option<Timestamp>)
    : (r: Run<()>)
    ensures prev.status == INSYNC ==> r.sent == [] && r.result.Ok?
    ensures prev.status != INSYNC ==> r == Poll(prev, replies, parseTime)
  {
    if prev.status == INSYNC then Run([], Ok(())) else Poll(prev, replies, parseTime)
  }

  /** A PENDING answer leads to the next query. */
  lemma PollPending(prev: ZoneChangeStatus, replies: seq<Node>, parseTime: string -> Option<Timestamp>)
    requires 0 < |replies| && Reports(prev, replies[0], parseTime, PENDING)
    ensures var rest := Poll(prev, replies[1..], parseTime);
            Poll(prev, replies, parseTime) == Run([GetChangeInfo(prev.changeId)] + rest.sent, rest.result)
  {
  }

  /** Any other answer ends the wait after one query: successfully exactly
      when it reports INSYNC, and never for want of a reply. */
  lemma PollOther(prev: ZoneChangeStatus, replies: seq<Node>, parseTime: string -> Option<Timestamp>)
    requires 0 < |replies| && !Reports(prev, replies[0], parseTime, PENDING)
    ensures var r := Poll(prev, replies, parseTime);
            && r.sent == [GetChangeInfo(prev.changeId)]
            && (r.result.Ok? <==> Reports(prev, replies[0], parseTime, INSYNC))
            && (r.result.Err? ==> !r.result.error.NoReply?)
  {
  }

  /** Every query of the wait asks for the same change. */
  lemma {:induction false} PollQueriesOneChange(prev: ZoneChangeStatus, replies: seq<Node>,
                                                parseTime: string -> Option<Timestamp>)
    ensures var r := Poll(prev, replies, parseTime);
            forall i :: 0 <= i < |r.sent| ==> r.sent[i] == GetChangeInfo(prev.changeId)
    decreases |replies|
  {
    if 0 < |replies| {
      if Reports(prev, replies[0], parseTime, PENDING) {
        PollPending(prev, replies, parseTime);
        PollQueriesOneChange(prev, replies[1..], parseTime);
      } else {
        PollOther(prev, replies, parseTime);
      }
    }
  }

  /** Every answer before the last one read was PENDING. */
  lemma {:induction false} PollPendingBeforeLast(prev: ZoneChangeStatus, replies: seq<Node>,
                                                 parseTime: string -> Option<Timestamp>)
    ensures var r := Poll(prev, replies, parseTime);
            forall i :: 0 <= i < |r.sent| - 1 ==> Reports(prev, replies[i], parseTime, PENDING)
    decreases |replies|
  {
    if 0 < |replies| {
      if Reports(prev, replies[0], parseTime, PENDING) {
        var r := Poll(prev, replies, parseTime);
        PollPending(prev, replies, parseTime);
        PollPendingBeforeLast(prev, replies[1..], parseTime);
        forall i | 1 <= i < |r.sent| - 1 ensures Reports(prev, replies[i], parseTime, PENDING) {
          assert replies[1..][i - 1] == replies[i];
        }
      } else {
        PollOther(prev, replies, parseTime);
      }
    }
  }

  /** The wait succeeds only on an INSYNC answer, the last one read. */
  lemma {:induction false} PollSucceedsOnInSync(prev: ZoneChangeStatus, replies: seq<Node>,
                                                parseTime: string -> Option<Timestamp>)
    ensures var r := Poll(prev, replies, parseTime);
            r.result.Ok? ==> 0 < |r.sent| && Reports(prev, replies[|r.sent| - 1], parseTime, INSYNC)
    decreases |replies|
  {
    if 0 < |replies| {
      if Reports(prev, replies[0], parseTime, PENDING) {
        var r := Poll(prev, replies, parseTime);
        var rest := Poll(prev, replies[1..], parseTime);
        PollPending(prev, replies, parseTime);
        PollSucceedsOnInSync(prev, replies[1..], parseTime);
        if r.result.Ok? {
          assert replies[1..][|rest.sent| - 1] == replies[|r.sent| - 1];
        }
      } else {
        PollOther(prev, replies, parseTime);
      }
    }
  }

  /** The wait runs out of replies only after using them all. */
  lemma {:induction false} PollNoReplyUsesAll(prev: ZoneChangeStatus, replies: seq<Node>,
                                              parseTime: string -> Option<Timestamp>)
    ensures var r := Poll(prev, replies, parseTime);
            r.result.Err? && r.result.error.NoReply? ==> |r.sent| == |replies|
    decreases |replies|
  {
    if 0 < |replies| {
      if Reports(prev, replies[0], parseTime, PENDING) {
        PollPending(prev, replies, parseTime);
        PollNoReplyUsesAll(prev, replies[1..], parseTime);
      } else {
        PollOther(prev, replies, parseTime);
      }
    }
  }

  /** The wait goes on only past PENDING answers, succeeds only on an
      INSYNC answer, and runs out of replies only after using them all. */
  lemma PollOutcome(prev: ZoneChangeStatus, replies: seq<Node>, parseTime: string -> Option<Timestamp>)
    ensures var r := Poll(prev, replies, parseTime);
            && (forall i :: 0 <= i < |r.sent| - 1 ==> Reports(prev, replies[i], parseTime, PENDING))
            && (r.result.Ok? ==> 0 < |r.sent| && Reports(prev, replies[|r.sent| - 1], parseTime, INSYNC))
            && (r.result.Err? && r.result.error.NoReply? ==> |r.sent| == |replies|)
  {
    PollPendingBeforeLast(prev, replies, parseTime);
    PollSucceedsOnInSync(prev, replies, parseTime);
    PollNoReplyUsesAll(prev, replies, parseTime);
  }

  /** When the service reports PENDING k times and then INSYNC, the wait
      makes exactly k + 1 queries and succeeds. */
  lemma {:induction false} PollStopsAtFirstInSync(prev: ZoneChangeStatus, replies: seq<Node>, k: nat,
                                                  parseTime: string -> Option<Timestamp>)
    requires k < |replies|
    requires forall i :: 0 <= i < k ==> Reports(prev, replies[i], parseTime, PENDING)
    requires Reports(prev, replies[k], parseTime, INSYNC)
    ensures |Poll(prev, replies, parseTime).sent| == k + 1
    ensures Poll(prev, replies, parseTime).result.Ok?
  {
    if k == 0 {
      PollOther(prev, replies, parseTime);
    } else {
      forall i | 0 <= i < k - 1 ensures Reports(prev, replies[1..][i], parseTime, PENDING) {
        assert replies[1..][i] == replies[i + 1];
      }
      assert replies[1..][k - 1] == replies[k];
      PollStopsAtFirstInSync(prev, replies[1..], k - 1, parseTime);
      PollPending(prev, replies, parseTime);
    }
  }

  // -----------------------------------------------------------------------
  // listZoneRecords
  // -----------------------------------------------------------------------

  /** One page of a record listing: the `IsTruncated` text, the record
      sets in document order, and the name of the last one ("" if none). */
  datatype Page = Page(truncated: string, records: seq<ZoneResource>, lastName: string)

  function DecodeRecordSets(ns: seq<Node>): (r: Result<seq<ZoneResource>, Failure>)
    ensures r.Ok? ==> |r.value| == |ns|
    ensures r.Ok? ==> forall i :: 0 <= i < |ns| ==> DecodeRecordSet(ns[i]) == Ok(r.value[i])
  {
    if |ns| == 0 then Ok([])
    else
      var x :- DecodeRecordSet(ns[0]);
      var xs :- DecodeRecordSets(ns[1..]);
      Ok([x] + xs)
  }

  /** `//IsTruncated` is read first, then every `//ResourceRecordSet`. */
  function DecodePage(root: Node): (r: Result<Page, Failure>)
    ensures r.Ok? ==> forall i :: 0 <= i < |r.value.records| ==>
                        r.value.records[i].setIdentifier == None && r.value.records[i].weight == 0
  {
    var truncated :- (match DescendantText(root, "IsTruncated")
                      case None => Err(Malformed("IsTruncated"))
                      case Some(t) => Ok(t));
    var records :- DecodeRecordSets(Descendants(root, "ResourceRecordSet"));
    Ok(Page(truncated, records, if |records| == 0 then "" else records[|records| - 1].name))
  }

  /** A page holds one record set per `//ResourceRecordSet` element, in
      document order, and the next cursor names the last of them ("" when
      the page is empty). */
  lemma DecodePageCursor(root: Node)
    requires DecodePage(root).Ok?
    ensures var page := DecodePage(root).value;
            var ns := Descendants(root, "ResourceRecordSet");
            && |page.records| == |ns|
            && (forall i :: 0 <= i < |ns| ==> DecodeRecordSet(ns[i]) == Ok(page.records[i]))
            && (|ns| == 0 ==> page.lastName == "")
            && (0 < |ns| ==> page.lastName == page.records[|ns| - 1].name)
  {
    var ns := Descendants(root, "ResourceRecordSet");
    var records := DecodeRecordSets(ns);
    assert records.Ok?;
    assert DecodePage(root).value.records == records.value;
  }

  /** The page decodes and is marked truncated (anything but "false"). */
  predicate Continues(reply: Node)
  {
    DecodePage(reply).Ok? && DecodePage(reply).value.truncated != "false"
  }

  predicate Finishes(reply: Node)
  {
    DecodePage(reply).Ok? && DecodePage(reply).value.truncated == "false"
  }

  /** Some element of `s` is `equals` to `x`. */
  predicate Holds(s: seq<ZoneResource>, x: ZoneResource)
  {
    exists i :: 0 <= i < |s| && ZoneResources.Equals(s[i], x)
  }

  /** No two elements are `equals`. */
  predicate NoDuplicates(s: seq<ZoneResource>)
  {
    forall i, j :: 0 <= i < j < |s| ==> !ZoneResources.Equals(s[i], s[j])
  }

  lemma HoldsAppend(a: seq<ZoneResource>, b: seq<ZoneResource>, x: ZoneResource)
    ensures Holds(a + b, x) <==> Holds(a, x) || Holds(b, x)
  {
    if Holds(a + b, x) {
      var i :| 0 <= i < |a + b| && ZoneResources.Equals((a + b)[i], x);
      if i >= |a| {
        assert ZoneResources.Equals(b[i - |a|], x);
      }
    }
    if Holds(a, x) {
      var i :| 0 <= i < |a| && ZoneResources.Equals(a[i], x);
      assert (a + b)[i] == a[i];
    }
    if Holds(b, x) {
      var i :| 0 <= i < |b| && ZoneResources.Equals(b[i], x);
      assert (a + b)[|a| + i] == b[i];
    }
  }

  /** `HashSet.add`: an element `equals` to one already held is dropped. */
  function Add(acc: seq<ZoneResource>, x: ZoneResource): (r: seq<ZoneResource>)
    requires NoDuplicates(acc)
    ensures NoDuplicates(r)
    ensures forall y :: Holds(r, y) <==> Holds(acc, y) || ZoneResources.Equals(x, y)
    ensures forall i :: 0 <= i < |r| ==> r[i] in acc || r[i] == x
  {
    if Holds(acc, x) then
      assert forall y :: ZoneResources.Equals(x, y) ==> Holds(acc, y) by {
        forall y | ZoneResources.Equals(x, y) ensures Holds(acc, y) {
          var i :| 0 <= i < |acc| && ZoneResources.Equals(acc[i], x);
        }
      }
      acc
    else
      var r := acc + [x];
      assert forall y :: Holds(r, y) <==> Holds(acc, y) || ZoneResources.Equals(x, y) by {
        forall y ensures Holds(r, y) <==> Holds(acc, y) || ZoneResources.Equals(x, y) {
          HoldsAppend(acc, [x], y);
          assert Holds([x], y) <==> ZoneResources.Equals(x, y) by {
            if ZoneResources.Equals(x, y) { assert [x][0] == x; }
          }
        }
      }
      r
  }

  function AddAll(acc: seq<ZoneResource>, xs: seq<ZoneResource>): (r: seq<ZoneResource>)
    requires NoDuplicates(acc)
    ensures NoDuplicates(r)
    ensures forall i :: 0 <= i < |r| ==> r[i] in acc || r[i] in xs
    decreases |xs|
  {
    if |xs| == 0 then acc
    else
      var r := AddAll(Add(acc, xs[0]), xs[1..]);
      assert forall i :: 0 <= i < |r| ==> r[i] in acc || r[i] in xs by {
        forall i | 0 <= i < |r| ensures r[i] in acc || r[i] in xs {
          if r[i] in xs[1..] {
            var j :| 0 <= j < |xs[1..]| && xs[1..][j] == r[i];
            assert xs[j + 1] == r[i];
          }
        }
      }
      r
  }

  lemma HoldsCons(xs: seq<ZoneResource>, y: ZoneResource)
    requires 0 < |xs|
    ensures Holds(xs, y) <==> ZoneResources.Equals(xs[0], y) || Holds(xs[1..], y)
  {
    if Holds(xs, y) && !ZoneResources.Equals(xs[0], y) {
      var i :| 0 <= i < |xs| && ZoneResources.Equals(xs[i], y);
      assert xs[1..][i - 1] == xs[i];
    }
    if Holds(xs[1..], y) {
      var i :| 0 <= i < |xs[1..]| && ZoneResources.Equals(xs[1..][i], y);
      assert xs[i + 1] == xs[1..][i];
    }
  }

  /** Adding a sequence keeps what was held and gains what was added. */
  lemma {:induction false} AddAllHolds(acc: seq<ZoneResource>, xs: seq<ZoneResource>, y: ZoneResource)
    requires NoDuplicates(acc)
    ensures Holds(AddAll(acc, xs), y) <==> Holds(acc, y) || Holds(xs, y)
    decreases |xs|
  {
    if |xs| > 0 {
      var next := Add(acc, xs[0]);
      assert AddAll(acc, xs) == AddAll(next, xs[1..]);
      AddAllHolds(next, xs[1..], y);
      assert Holds(next, y) <==> Holds(acc, y) || ZoneResources.Equals(xs[0], y);
      HoldsCons(xs, y);
    }
  }

  /** Every record set of the pages, those that decode, in order. */
  function Gathered(pages: seq<Node>): seq<ZoneResource>
  {
    if |pages| == 0 then []
    else
      (match DecodePage(pages[0]) case Ok(p) => p.records case Err(_) => [])
      + Gathered(pages[1..])
  }

  predicate Unweighted?(s: seq<ZoneResource>)
  {
    forall i :: 0 <= i < |s| ==> s[i].setIdentifier == None && s[i].weight == 0
  }

  /** The listing loop from cursor `query`, with the record sets `acc`
      collected so far. */
  function ListFrom(zoneId: string, query: string, acc: seq<ZoneResource>, replies: seq<Node>)
    : (r: Run<seq<ZoneResource>>)
    requires NoDuplicates(acc)
    ensures |r.sent| <= |replies|
    ensures |replies| > 0 ==> 0 < |r.sent| && r.sent[0] == GetResourceRecordSets(zoneId, query)
    ensures r.result.Ok? ==> 0 < |r.sent| && NoDuplicates(r.result.value)
    decreases |replies|
  {
    var request := GetResourceRecordSets(zoneId, query);
    if |replies| == 0 then Run([], Err(NoReply(request)))
    else
      match DecodePage(replies[0])
      case Err(e) => Run([request], Err(e))
      case Ok(page) =>
        var collected := AddAll(acc, page.records);
        if page.truncated == "false" then Run([request], Ok(collected))
        else
          var rest := ListFrom(zoneId, "name=" + page.lastName, collected, replies[1..]);
          Run([request] + rest.sent, rest.result)
  }

  /** One turn of the listing loop on a truncated page. */
  lemma ListFromContinues(zoneId: string, query: string, acc: seq<ZoneResource>, replies: seq<Node>)
    requires NoDuplicates(acc) && 0 < |replies| && Continues(replies[0])
    ensures var page := DecodePage(replies[0]).value;
            var rest := ListFrom(zoneId, "name=" + page.lastName, AddAll(acc, page.records), replies[1..]);
            ListFrom(zoneId, query, acc, replies) == Run([GetResourceRecordSets(zoneId, query)] + rest.sent, rest.result)
  {
  }

  /** A page that fails to decode or reads "false" ends the listing after
      one request. */
  lemma ListFromEnds(zoneId: string, query: string, acc: seq<ZoneResource>, replies: seq<Node>)
    requires NoDuplicates(acc) && 0 < |replies| && !Continues(replies[0])
    ensures var r := ListFrom(zoneId, query, acc, replies);
            && r.sent == [GetResourceRecordSets(zoneId, query)]
            && (r.result.Ok? ==> Finishes(replies[0]))
  {
  }

  /** Every request is a record listing of the zone. */
  lemma {:induction false} ListFromTargetsZone(zoneId: string, query: string, acc: seq<ZoneResource>, replies: seq<Node>)
    requires NoDuplicates(acc)
    ensures var r := ListFrom(zoneId, query, acc, replies);
            forall i :: 0 <= i < |r.sent| ==> r.sent[i].GetResourceRecordSets? && r.sent[i].zoneId == zoneId
    decreases |replies|
  {
    if 0 < |replies| && Continues(replies[0]) {
      var page := DecodePage(replies[0]).value;
      var collected := AddAll(acc, page.records);
      ListFromContinues(zoneId, query, acc, replies);
      ListFromTargetsZone(zoneId, "name=" + page.lastName, collected, replies[1..]);
    }
  }

  /** Each request after the first is sent only after a truncated page,
      with "name=" and that page's last record name as its cursor. */
  lemma {:induction false} ListFromCursor(zoneId: string, query: string, acc: seq<ZoneResource>, replies: seq<Node>)
    requires NoDuplicates(acc)
    ensures var r := ListFrom(zoneId, query, acc, replies);
            forall i :: 0 <= i < |r.sent| - 1 ==>
              Continues(replies[i]) && r.sent[i + 1] == GetResourceRecordSets(zoneId, "name=" + DecodePage(replies[i]).value.lastName)
    decreases |replies|
  {
    var r := ListFrom(zoneId, query, acc, replies);
    if 0 < |replies| && Continues(replies[0]) {
      var page := DecodePage(replies[0]).value;
      var collected := AddAll(acc, page.records);
      var rest := ListFrom(zoneId, "name=" + page.lastName, collected, replies[1..]);
      ListFromContinues(zoneId, query, acc, replies);
      ListFromCursor(zoneId, "name=" + page.lastName, collected, replies[1..]);
      assert r.sent == [GetResourceRecordSets(zoneId, query)] + rest.sent;
      forall i | 0 <= i < |r.sent| - 1
        ensures Continues(replies[i]) && r.sent[i + 1] == GetResourceRecordSets(zoneId, "name=" + DecodePage(replies[i]).value.lastName)
      {
        assert r.sent[i + 1] == rest.sent[i];
        if i > 0 {
          assert replies[1..][i - 1] == replies[i];
        }
      }
    }
  }

  /** A listing succeeds only on a page that reads `IsTruncated` "false". */
  lemma {:induction false} ListFromStops(zoneId: string, query: string, acc: seq<ZoneResource>, replies: seq<Node>)
    requires NoDuplicates(acc)
    ensures var r := ListFrom(zoneId, query, acc, replies);
            r.result.Ok? ==> Finishes(replies[|r.sent| - 1])
    decreases |replies|
  {
    if 0 < |replies| && Continues(replies[0]) {
      var page := DecodePage(replies[0]).value;
      var collected := AddAll(acc, page.records);
      var rest := ListFrom(zoneId, "name=" + page.lastName, collected, replies[1..]);
      ListFromContinues(zoneId, query, acc, replies);
      ListFromStops(zoneId, "name=" + page.lastName, collected, replies[1..]);
      if rest.result.Ok? {
        assert replies[1..][|rest.sent| - 1] == replies[|rest.sent|];
      }
    } else if 0 < |replies| {
      ListFromEnds(zoneId, query, acc, replies);
    }
  }

  /** The pages read: the first one, then those read after it. */
  lemma GatheredPrefix(replies: seq<Node>, n: nat)
    requires 0 < n <= |replies|
    ensures Gathered(replies[..n])
         == (match DecodePage(replies[0]) case Ok(p) => p.records case Err(_) => [])
            + Gathered(replies[1..][..n - 1])
  {
    assert replies[..n][0] == replies[0];
    assert replies[..n][1..] == replies[1..][..n - 1];
  }

  /** The result holds, under `ZoneResource` equality, exactly the record
      sets of `acc` and of the pages the listing read. */
  lemma {:induction false} ListFromCollects(zoneId: string, query: string, acc: seq<ZoneResource>, replies: seq<Node>)
    requires NoDuplicates(acc)
    ensures var r := ListFrom(zoneId, query, acc, replies);
            r.result.Ok? ==> forall y :: Holds(r.result.value, y) <==> Holds(acc, y) || Holds(Gathered(replies[..|r.sent|]), y)
    decreases |replies|
  {
    var r := ListFrom(zoneId, query, acc, replies);
    if r.result.Ok? {
      var page := DecodePage(replies[0]).value;
      var collected := AddAll(acc, page.records);
      var n := |r.sent|;
      GatheredPrefix(replies, n);
      if !Continues(replies[0]) {
        assert n == 1 && Gathered(replies[1..][..0]) == [];
        assert page.records + [] == page.records;
        forall y ensures Holds(r.result.value, y) <==> Holds(acc, y) || Holds(Gathered(replies[..n]), y) {
          AddAllHolds(acc, page.records, y);
        }
      } else {
        ListFromContinues(zoneId, query, acc, replies);
        ListFromCollects(zoneId, "name=" + page.lastName, collected, replies[1..]);
        forall y ensures Holds(r.result.value, y) <==> Holds(acc, y) || Holds(Gathered(replies[..n]), y) {
          HoldsAppend(page.records, Gathered(replies[1..][..n - 1]), y);
          AddAllHolds(acc, page.records, y);
        }
      }
    }
  }

  /** The listing reads only unweighted record sets. */
  lemma {:induction false} ListFromUnweighted(zoneId: string, query: string, acc: seq<ZoneResource>, replies: seq<Node>)
    requires NoDuplicates(acc) && Unweighted?(acc)
    ensures var r := ListFrom(zoneId, query, acc, replies);
            r.result.Ok? ==> Unweighted?(r.result.value)
    decreases |replies|
  {
    var r := ListFrom(zoneId, query, acc, replies);
    if r.result.Ok? {
      var page := DecodePage(replies[0]).value;
      var collected := AddAll(acc, page.records);
      assert Unweighted?(collected);
      if Continues(replies[0]) {
        ListFromContinues(zoneId, query, acc, replies);
        ListFromUnweighted(zoneId, "name=" + page.lastName, collected, replies[1..]);
      }
    }
  }

  /** `listZoneRecords(zone)`: the first query is empty; each further one
      is "name=" and the name of the last record set of the page before;
      the loop ends on a page whose `IsTruncated` reads "false". The result
      holds each record set once under `ZoneResource` equality; its order
      (a `HashSet`'s in the source) is first-seen order here. */
  function ListZoneRecords(zone: Zone, replies: seq<Node>): (r: Run<seq<ZoneResource>>)
    ensures |r.sent| <= |replies|
    ensures |replies| > 0 ==> 0 < |r.sent| && r.sent[0] == GetResourceRecordSets(zone.zoneId, "")
    ensures r.result.Ok? ==> NoDuplicates(r.result.value) && Unweighted?(r.result.value)
    ensures r.result.Ok? ==> forall y :: Holds(r.result.value, y) <==> Holds(Gathered(replies[..|r.sent|]), y)
  {
    ListFromUnweighted(zone.zoneId, "", [], replies);
    ListFromCollects(zone.zoneId, "", [], replies);
    ListFrom(zone.zoneId, "", [], replies)
  }

  // -----------------------------------------------------------------------
  // listZones / zoneDetails
  // -----------------------------------------------------------------------

  function DecodeZones(doc: Node, ns: seq<Node>): (r: Result<seq<Zone>, Failure>)
    ensures r.Ok? ==> |r.value| == |ns|
    ensures r.Ok? ==> forall i :: 0 <= i < |ns| ==> BuildZone(doc, ns[i]) == Ok(r.value[i])
  {
    if |ns| == 0 then Ok([])
    else
      var z :- BuildZone(doc, ns[0]);
      var zs :- DecodeZones(doc, ns[1..]);
      Ok([z] + zs)
  }

  /** `listZones()`: every `//HostedZone` of the answer to an unfiltered
      hosted-zone query. */
  function ListZones(replies: seq<Node>): (r: Run<seq<Zone>>)
    ensures |r.sent| <= 1 && |r.sent| <= |replies|
    ensures |replies| > 0 ==> r.sent == [GetHostedZone("")]
    ensures |replies| > 0 && r.result.Ok? ==> |r.result.value| == |Descendants(replies[0], "HostedZone")|
    ensures |replies| > 0 && r.result.Ok? ==>
              forall i :: 0 <= i < |r.result.value| ==>
                BuildZone(replies[0], Descendants(replies[0], "HostedZone")[i]) == Ok(r.result.value[i])
  {
    if |replies| == 0 then Run([], Err(NoReply(GetHostedZone(""))))
    else Run([GetHostedZone("")], DecodeZones(replies[0], Descendants(replies[0], "HostedZone")))
  }

  /** Zones that each read as the matching element are read as a whole. */
  lemma {:induction false} DecodeZonesOfAll(doc: Node, ns: seq<Node>, zs: seq<Zone>)
    requires |ns| == |zs|
    requires forall i :: 0 <= i < |ns| ==> BuildZone(doc, ns[i]) == Ok(zs[i])
    ensures DecodeZones(doc, ns) == Ok(zs)
  {
    if |ns| > 0 {
      var ns', zs' := ns[1..], zs[1..];
      assert BuildZone(doc, ns[0]) == Ok(zs[0]);
      forall i | 0 <= i < |ns'| ensures BuildZone(doc, ns'[i]) == Ok(zs'[i]) {
        assert ns'[i] == ns[i + 1] && zs'[i] == zs[i + 1];
      }
      DecodeZonesOfAll(doc, ns', zs');
      DecodeZonesStep(doc, ns, zs[0], zs');
      assert zs == [zs[0]] + zs';
    }
  }

  lemma DecodeZonesStep(doc: Node, ns: seq<Node>, z: Zone, zs: seq<Zone>)
    requires 0 < |ns| && BuildZone(doc, ns[0]) == Ok(z) && DecodeZones(doc, ns[1..]) == Ok(zs)
    ensures DecodeZones(doc, ns) == Ok([z] + zs)
  {
  }

  /** The `HostedZone` elements the service writes for `zs`, in order. */
  function HostedZoneElements(zs: seq<Zone>): (r: seq<Node>)
    ensures |r| == |zs|
    ensures forall i :: 0 <= i < |zs| ==> r[i] == HostedZoneElement(zs[i])
  {
    if |zs| == 0 then [] else [HostedZoneElement(zs[0])] + HostedZoneElements(zs[1..])
  }

  /** A `ListHostedZonesResponse` holding `zs` on one page. A listing
      carries no delegation sets. */
  function ListZonesResponse(zs: seq<Zone>): Node
  {
    Node("ListHostedZonesResponse", "", [
      Node("HostedZones", "", HostedZoneElements(zs)),
      Leaf("IsTruncated", "false"),
      Leaf("MaxItems", "100")])
  }

  /** Below a `HostedZone` element there are only its five field tags. */
  lemma HostedZoneElementLacks(z: Zone, tag: string)
    requires tag !in ["Id", "Name", "CallerReference", "Config", "Comment"]
    ensures forall i :: 0 <= i < |HostedZoneElement(z).children| ==> Lacks(HostedZoneElement(z).children[i], tag)
  {
    var hz := HostedZoneElement(z);
    assert Lacks(hz.children[3].children[0], tag);
  }

  lemma {:induction false} DescendantsOfHostedZoneElements(zs: seq<Zone>)
    ensures DescendantsOfAll(HostedZoneElements(zs), "HostedZone") == HostedZoneElements(zs)
    ensures DescendantsOfAll(HostedZoneElements(zs), "NameServer") == []
  {
    if |zs| > 0 {
      var hz := HostedZoneElement(zs[0]);
      var es := HostedZoneElements(zs);
      assert es[0] == hz && es[1..] == HostedZoneElements(zs[1..]);
      HostedZoneElementLacks(zs[0], "HostedZone");
      HostedZoneElementLacks(zs[0], "NameServer");
      DescendantsOfAllLacking(hz.children, "HostedZone");
      DescendantsOfAllLacking(hz.children, "NameServer");
      assert Descendants(hz, "HostedZone") == [hz];
      assert Descendants(hz, "NameServer") == [];
      DescendantsOfHostedZoneElements(zs[1..]);
      assert es == [hz] + es[1..];
    }
  }

  /** Below the listing's own frame, a search reaches only the zone elements. */
  lemma ListZonesResponseFrame(zs: seq<Zone>, tag: string)
    requires tag !in ["ListHostedZonesResponse", "HostedZones", "IsTruncated", "MaxItems"]
    ensures Descendants(ListZonesResponse(zs), tag) == DescendantsOfAll(HostedZoneElements(zs), tag)
  {
    var doc := ListZonesResponse(zs);
    var cs := doc.children;
    assert Lacks(cs[1], tag) && Lacks(cs[2], tag);
    DescendantsOfAllLacking(cs[1..], tag);
    assert Descendants(cs[0], tag) == DescendantsOfAll(HostedZoneElements(zs), tag);
    assert DescendantsOfAll(cs, tag) == Descendants(cs[0], tag) + DescendantsOfAll(cs[1..], tag);
  }

  /** In a listing, `//HostedZone` finds the listed zones and
      `//NameServer` finds nothing. */
  lemma ListZonesResponseDescendants(zs: seq<Zone>)
    ensures Descendants(ListZonesResponse(zs), "HostedZone") == HostedZoneElements(zs)
    ensures Descendants(ListZonesResponse(zs), "NameServer") == []
  {
    var frame := ["ListHostedZonesResponse", "HostedZones", "IsTruncated", "MaxItems"];
    assert "HostedZone" !in frame && "NameServer" !in frame by {
      assert frame[0] != "HostedZone" && frame[1] != "HostedZone";
      assert frame[0] != "NameServer" && frame[1] != "NameServer";
    }
    DescendantsOfHostedZoneElements(zs);
    ListZonesResponseFrame(zs, "HostedZone");
    ListZonesResponseFrame(zs, "NameServer");
  }

  /** Reading the service's listing of `zs` gives every zone in order,
      without name servers, which a listing does not carry. */
  lemma ListZonesOfResponse(zs: seq<Zone>, replies: seq<Node>)
    requires 0 < |replies| && replies[0] == ListZonesResponse(zs)
    ensures var r := ListZones(replies);
            && r.sent == [GetHostedZone("")]
            && r.result.Ok? && |r.result.value| == |zs|
            && forall i :: 0 <= i < |zs| ==> r.result.value[i] == zs[i].(nameServers := [])
  {
    var doc := replies[0];
    var es := HostedZoneElements(zs);
    var expected := seq(|zs|, i requires 0 <= i < |zs| => zs[i].(nameServers := []));
    ListZonesResponseDescendants(zs);
    forall i | 0 <= i < |zs| ensures BuildZone(doc, es[i]) == Ok(expected[i]) {
      var z := zs[i];
      var hz := HostedZoneElement(z);
      HostedZoneElementFields(z);
      BuildZoneOfFields(doc, hz, HostedZonePrefix + z.zoneId, z.name, z.callerReference, z.comment);
      SubstringAfterLeadingSeparator(HostedZonePrefix, z.zoneId);
    }
    DecodeZonesOfAll(doc, es, expected);
  }

  /** `zoneDetails(zoneId)`: the `HostedZone` child of the answer. */
  function ZoneDetails(zoneId: string, replies: seq<Node>): (r: Run<Zone>)
    ensures |replies| > 0 ==> r.sent == [GetHostedZone(zoneId)]
  {
    if |replies| == 0 then Run([], Err(NoReply(GetHostedZone(zoneId))))
    else
      var root := replies[0];
      match Element(root, "HostedZone")
      case Err(e) => Run([GetHostedZone(zoneId)], Err(e))
      case Ok(hz) => Run([GetHostedZone(zoneId)], BuildZone(root, hz))
  }

  /** Asking for a zone the service describes returns that zone. */
  lemma ZoneDetailsOfResponse(z: Zone, replies: seq<Node>)
    requires 0 < |replies| && replies[0] == HostedZoneResponse(z)
    ensures ZoneDetails(z.zoneId, replies) == Run([GetHostedZone(z.zoneId)], Ok(z))
  {
    ChildAt(replies[0], 0, "HostedZone");
    BuildZoneOfResponse(z);
  }

  // -----------------------------------------------------------------------
  // createZone and its guards
  // -----------------------------------------------------------------------

  /** A blank name has no last character, or a whitespace one: never a
      period. */
  lemma BlankEndsInWhitespace(name: string)
    requires IsBlank(Some(name))
    ensures 0 < |name| ==> name[|name| - 1] != '.'
  {
    if 0 < |name| {
      assert IsJavaWhitespace(name[|name| - 1]);
    }
  }

  /** `checkDomainName`: not blank, not starting with a dot, ending with a
      dot. */
  function CheckDomainName(name: string): (r: Result<(), Failure>)
    ensures r.Ok? <==> 0 < |name| && name[0] != '.' && name[|name| - 1] == '.'
    ensures r.Err? ==> r.error.Blank? || r.error.InvalidArgument?
  {
    StartsWithChar(name, '.');
    EndsWithChar(name, '.');
    if IsBlank(Some(name)) then
      BlankEndsInWhitespace(name);
      Err(Blank("name"))
    else if StartsWith(name, ".") || !EndsWith(name, ".") then
      Err(InvalidArgument("Domain name '" + name
                          + "' is invalid to create. Name can not start with a period and must end with a period."))
    else Ok(())
  }

  /** Some zone's name is exactly `name`. */
  predicate HostedExactly(zones: seq<Zone>, name: string)
  {
    exists i :: 0 <= i < |zones| && zones[i].name == name
  }

  /** Some zone's name equals `name` ignoring case. */
  predicate HostedIgnoringCase(zones: seq<Zone>, name: string)
  {
    exists i :: 0 <= i < |zones| && EqualsIgnoreCase(name, zones[i].name)
  }

  /** `ensureDomainNameNotAlreadyCreated`: lists the zones and refuses a
      name some zone has exactly (case-sensitive). */
  function EnsureDomainNameNotAlreadyCreated(domainName: string, replies: seq<Node>): (r: Run<()>)
    ensures r.sent == ListZones(replies).sent
    ensures r.result.Ok? <==> ListZones(replies).result.Ok? && !HostedExactly(ListZones(replies).result.value, domainName)
  {
    var listing := ListZones(replies);
    match listing.result
    case Err(e) => Run(listing.sent, Err(e))
    case Ok(zones) =>
      if HostedExactly(zones, domainName) then
        Run(listing.sent, Err(InvalidArgument("Domain name '" + domainName + "' is already hosted by Route53.")))
      else Run(listing.sent, Ok(()))
  }

  /** `zoneExists`: checks the name, lists the zones, and matches names
      ignoring case. */
  function ZoneExists(domainName: string, replies: seq<Node>): (r: Run<bool>)
    ensures CheckDomainName(domainName).Err? ==> r.sent == [] && r.result.Err?
    ensures r.result.Ok? ==> CheckDomainName(domainName).Ok? && ListZones(replies).result.Ok?
    ensures r.result.Ok? ==> (r.result.value <==> HostedIgnoringCase(ListZones(replies).result.value, domainName))
  {
    match CheckDomainName(domainName)
    case Err(e) => Run([], Err(e))
    case Ok(_) =>
      var listing := ListZones(replies);
      match listing.result
      case Err(e) => Run(listing.sent, Err(e))
      case Ok(zones) => Run(listing.sent, Ok(HostedIgnoringCase(zones, domainName)))
  }

  /** The two checks disagree: a name hosted under different letter case
      exists for `zoneExists` and is not a duplicate for `createZone`. */
  lemma DuplicateCheckIsCaseSensitive()
    ensures var zones := [Zone("Z1", "Example.com.", "", "", [])];
            HostedIgnoringCase(zones, "example.com.") && !HostedExactly(zones, "example.com.")
  {
    var zones := [Zone("Z1", "Example.com.", "", "", [])];
    assert EqualsIgnoreCase("example.com.", zones[0].name);
    assert "Example.com."[0] != "example.com."[0];
  }

  lemma HostedExactlyIsHostedIgnoringCase(zones: seq<Zone>, name: string)
    requires HostedExactly(zones, name)
    ensures HostedIgnoringCase(zones, name)
  {
    var i :| 0 <= i < |zones| && zones[i].name == name;
    assert EqualsIgnoreCase(name, zones[i].name);
  }

  /** The `CreateHostedZoneRequest` document; `callerToken` stands for the
      random UUID of the caller reference. */
  function CreateZoneRequest(domainName: string, comment: string, callerToken: string): Document
  {
    Document(Route53Namespace,
      Node("CreateHostedZoneRequest", "", [
        Leaf("Name", domainName),
        Leaf("CallerReference", "Created by Valet53 (" + callerToken + ")"),
        Node("HostedZoneConfig", "", [Leaf("Comment", comment)])]))
  }

  /** A `CreateHostedZoneResponse` as the service writes it: the new zone,
      the change that creates it, and the zone's delegation set. */
  function CreateZoneResponse(z: Zone, changeId: string, status: Status, submittedText: string): Node
  {
    Node("CreateHostedZoneResponse", "", [
      HostedZoneElement(z),
      ChangeInfoElement(ChangePrefix + changeId, StatusName(status), submittedText),
      Node("DelegationSet", "", [Node("NameServers", "", Leaves("NameServer", z.nameServers))])])
  }

  /** The creation post and the reading of its answer, corrected: the zone
      is read from the answer's `HostedZone` child, as `zoneDetails` reads
      it, and the change status from the answer's root. */
  function PostZone(domainName: string, comment: string, callerToken: string, replies: seq<Node>,
                    parseTime: string -> Option<Timestamp>): (r: Run<ZoneChangeStatus>)
    ensures 0 < |replies| ==> r.sent == [PostHostedZone(CreateZoneRequest(domainName, comment, callerToken))]
    ensures r.result.Ok? ==> 0 < |replies| && HasChild(replies[0], "HostedZone") && HasChild(replies[0], "ChangeInfo")
  {
    var post := PostHostedZone(CreateZoneRequest(domainName, comment, callerToken));
    if |replies| == 0 then Run([], Err(NoReply(post)))
    else
      var root := replies[0];
      match Element(root, "HostedZone")
      case Err(e) => Run([post], Err(e))
      case Ok(hz) =>
        match BuildZone(root, hz)
        case Err(e) => Run([post], Err(e))
        case Ok(zone) => Run([post], DecodeChangeStatus(zone.zoneId, root, parseTime))
  }

  /** The service's answer to a creation yields the status of the change,
      for the id of the new zone. */
  lemma PostZoneOfResponse(domainName: string, comment: string, callerToken: string, replies: seq<Node>,
                           parseTime: string -> Option<Timestamp>, z: Zone, changeId: string, status: Status,
                           submittedText: string)
    requires 0 < |replies| && replies[0] == CreateZoneResponse(z, changeId, status, submittedText)
    requires parseTime(submittedText).Some?
    ensures PostZone(domainName, comment, callerToken, replies, parseTime)
         == Run([PostHostedZone(CreateZoneRequest(domainName, comment, callerToken))],
                Ok(ZoneChangeStatus(z.zoneId, changeId, status, parseTime(submittedText).value)))
  {
    var root := CreateZoneResponse(z, changeId, status, submittedText);
    var post := PostHostedZone(CreateZoneRequest(domainName, comment, callerToken));
    CreateZoneResponseZone(z, changeId, status, submittedText);
    var zone := BuildZone(root, HostedZoneElement(z)).value;
    assert PostZone(domainName, comment, callerToken, replies, parseTime)
        == Run([post], DecodeChangeStatus(zone.zoneId, root, parseTime));
    DecodeChangeInfoAt(z.zoneId, root, 1, changeId, status, submittedText, parseTime);
  }

  /** The zone read from the `HostedZone` child of a creation answer has
      the new zone's id. */
  lemma CreateZoneResponseZone(z: Zone, changeId: string, status: Status, submittedText: string)
    ensures var root := CreateZoneResponse(z, changeId, status, submittedText);
            && Element(root, "HostedZone") == Ok(HostedZoneElement(z))
            && BuildZone(root, HostedZoneElement(z)).Ok?
            && BuildZone(root, HostedZoneElement(z)).value.zoneId == z.zoneId
  {
    var root := CreateZoneResponse(z, changeId, status, submittedText);
    var hz := HostedZoneElement(z);
    ChildAt(root, 0, "HostedZone");
    HostedZoneElementFields(z);
    BuildZoneOfFields(root, hz, HostedZonePrefix + z.zoneId, z.name, z.callerReference, z.comment);
    SubstringAfterLeadingSeparator(HostedZonePrefix, z.zoneId);
  }

  /** The creation post as the source writes it: `buildZone` is applied
      with the cursor on the answer's root, so `Id`, `Name`,
      `CallerReference` and `Config/Comment` are looked for among the
      root's own children. */
  function PostZoneAsWritten(domainName: string, comment: string, callerToken: string, replies: seq<Node>,
                             parseTime: string -> Option<Timestamp>): (r: Run<ZoneChangeStatus>)
    ensures 0 < |replies| ==> r.sent == [PostHostedZone(CreateZoneRequest(domainName, comment, callerToken))]
    ensures r.result.Ok? ==> 0 < |replies| && HasChild(replies[0], "Id") && HasChild(replies[0], "ChangeInfo")
  {
    var post := PostHostedZone(CreateZoneRequest(domainName, comment, callerToken));
    if |replies| == 0 then Run([], Err(NoReply(post)))
    else
      var root := replies[0];
      match BuildZone(root, root)
      case Err(e) => Run([post], Err(e))
      case Ok(zone) => Run([post], DecodeChangeStatus(zone.zoneId, root, parseTime))
  }

  /** As written, the service's answer to a creation is refused for want of
      an `Id` at its root, after the zone has been created. */
  lemma PostZoneAsWrittenRefusesResponse(domainName: string, comment: string, callerToken: string,
                                         replies: seq<Node>, parseTime: string -> Option<Timestamp>, z: Zone,
                                         changeId: string, status: Status, submittedText: string)
    requires 0 < |replies| && replies[0] == CreateZoneResponse(z, changeId, status, submittedText)
    ensures PostZoneAsWritten(domainName, comment, callerToken, replies, parseTime)
         == Run([PostHostedZone(CreateZoneRequest(domainName, comment, callerToken))], Err(Malformed("Id")))
  {
    ChildAbsent(replies[0], "Id");
  }

  /** `createZone(domainName, comment)`: checks the name, refuses a name
      already hosted, then posts the creation request. */
  function CreateZone(domainName: string, comment: string, callerToken: string, replies: seq<Node>,
                      parseTime: string -> Option<Timestamp>): (r: Run<ZoneChangeStatus>)
    ensures CheckDomainName(domainName).Err? ==> r.sent == [] && r.result.Err?
    ensures r.result.Ok? ==> CheckDomainName(domainName).Ok?
    ensures r.result.Ok? ==> EnsureDomainNameNotAlreadyCreated(domainName, replies).result.Ok?
    ensures r.result.Ok? ==> r.sent == [GetHostedZone(""), PostHostedZone(CreateZoneRequest(domainName, comment, callerToken))]
  {
    match CheckDomainName(domainName)
    case Err(e) => Run([], Err(e))
    case Ok(_) =>
      var guard := EnsureDomainNameNotAlreadyCreated(domainName, replies);
      if guard.result.Err? then Run(guard.sent, Err(guard.result.error))
      else
        var post := PostZone(domainName, comment, callerToken, replies[|guard.sent|..], parseTime);
        Run(guard.sent + post.sent, post.result)
  }

  /** A name some listed zone already has exactly is never created, and
      the creation request is then not sent. */
  lemma CreateZoneRefusesHostedName(domainName: string, comment: string, callerToken: string, replies: seq<Node>,
                                    parseTime: string -> Option<Timestamp>)
    requires ListZones(replies).result.Ok? && HostedExactly(ListZones(replies).result.value, domainName)
    ensures var r := CreateZone(domainName, comment, callerToken, replies, parseTime);
            r.result.Err? && |r.sent| <= 1
    ensures var r := CreateZone(domainName, comment, callerToken, replies, parseTime);
            CheckDomainName(domainName).Ok? ==>
              && r.sent == [GetHostedZone("")]
              && r.result == Err(InvalidArgument("Domain name '" + domainName + "' is already hosted by Route53."))
  {
  }

  /** Creating a name the listing does not hold: the zones are listed, the
      creation request is posted, and the answer's new zone id, change id,
      status and submission time come back. */
  lemma CreateZoneOfResponses(domainName: string, comment: string, callerToken: string, replies: seq<Node>,
                              parseTime: string -> Option<Timestamp>, listed: seq<Zone>,
                              z: Zone, changeId: string, status: Status, submittedText: string)
    requires CheckDomainName(domainName).Ok?
    requires 2 <= |replies| && replies[0] == ListZonesResponse(listed)
    requires forall i :: 0 <= i < |listed| ==> listed[i].name != domainName
    requires replies[1] == CreateZoneResponse(z, changeId, status, submittedText)
    requires parseTime(submittedText).Some?
    ensures CreateZone(domainName, comment, callerToken, replies, parseTime)
         == Run([GetHostedZone(""), PostHostedZone(CreateZoneRequest(domainName, comment, callerToken))],
                Ok(ZoneChangeStatus(z.zoneId, changeId, status, parseTime(submittedText).value)))
  {
    ListZonesOfResponse(listed, replies);
    var guard := EnsureDomainNameNotAlreadyCreated(domainName, replies);
    assert guard.result.Ok? && guard.sent == [GetHostedZone("")];
    var rest := replies[|guard.sent|..];
    assert rest[0] == replies[1];
    PostZoneOfResponse(domainName, comment, callerToken, rest, parseTime, z, changeId, status, submittedText);
  }
}
