# Valet Route53 client, modelled in Dafny

This project models the core of Widen's *valet*, a Java client for the
Amazon Route53 DNS service (API version 2010-10-01):

- `ZoneUpdateAction`, one `Change` of a change batch. It is built by a
  fluent `Builder`, holds its values sorted, can be merged with more
  values, and is written as a `Change` XML element.
- `ZoneResource`, one record set as the service lists it, and the
  create or delete action built from it.
- `Route53Driver`, the operations that talk to the service:
  - submitting a change batch, querying a change and waiting for it to
    reach INSYNC;
  - listing a zone's record sets page by page;
  - listing zones and reading the details of one zone;
  - checking domain names, and creating a zone.

The service is a scripted oracle. Every driver operation takes the
service's replies as a sequence of XML trees. It returns the requests it
sent together with its outcome. The i-th reply answers the i-th request.
An operation that needs more replies than the script holds ends in
`NoReply`, and that bound stands in for the source's unbounded loops.

XML documents are trees (`Xml.Node`). Building a request gives a tree.
Reading a response navigates a tree. The change batch and the record set
elements have matching decoders, and the round trips between them are
proved; so is the reading of the service's zone and change descriptions.
The `CreateHostedZoneRequest` document is only built, not read back.

Java behaviour that the contracts depend on is written out:

- `String.compareTo` and `String.hashCode`, over UTF-16 code units: a
  character above U+FFFF is a surrogate pair, so it sorts and hashes as
  Java does, not as its code point would;
- `StringUtils` `isBlank`, `substringAfter` and `equalsIgnoreCase`, the
  last with case folding of ASCII letters only;
- `Integer.toString`, and `Integer.parseInt` for ASCII digits only;
- 32-bit wrap-around in `String.hashCode`, `List.hashCode` and
  `HashCodeBuilder` (seed 17, multiplier 37);
- `EqualsBuilder` and `CompareToBuilder`, with nulls first;
- `Collections.sort`. It is modelled as an insertion sort, and since a
  sorted permutation is unique, any correct sort gives the same result.

Modules, one per file:

| module | file |
|---|---|
| `Results` | `results.dfy` |
| `JavaStrings` | `java_strings.dfy` |
| `StringSort` | `string_sort.dfy` |
| `Decimal` | `decimal.dfy` |
| `Xml` | `xml.dfy` |
| `RecordTypes` | `record_types.dfy` |
| `Protocol` | `protocol.dfy` |
| `Zones` | `zones.dfy` |
| `ZoneResources` | `zone_resources.dfy` |
| `ZoneUpdateActions` | `zone_update_actions.dfy` |
| `ZoneResourceActions` | `zone_resource_actions.dfy` |
| `RecordSets` | `record_sets.dfy` |
| `ChangeBatches` | `change_batches.dfy` |
| `Route53Driver` | `route53_driver.dfy` |
| `BuilderAliasing` | `builder_aliasing.dfy` |

## Model

Source paths are relative to the repository root.

| member | source | states |
|---|---|---|
| JavaStrings.CompareZeroIffEqual | src/main/java/com/widen/valet/ZoneUpdateAction.java:197 | `String.compareTo` is zero exactly when the two strings are equal |
| JavaStrings.CompareAntisymmetric | src/main/java/com/widen/valet/ZoneUpdateAction.java:197 | swapping the operands of `String.compareTo` negates the result |
| JavaStrings.CompareTransitive | src/main/java/com/widen/valet/ZoneUpdateAction.java:44 | `String.compareTo` order is transitive, so sorting by it is well defined |
| JavaStrings.Utf16 | src/main/java/com/widen/valet/ZoneUpdateAction.java:44 | a character is one code unit below U+10000 and otherwise a high surrogate followed by a low one; the units decode back to the character |
| JavaStrings.UnitsInjective | src/main/java/com/widen/valet/ZoneUpdateAction.java:44 | two strings with the same UTF-16 code units are the same string, so comparing code units is zero only on equal strings |
| JavaStrings.SupplementarySortsBelowHighBmp | src/main/java/com/widen/valet/ZoneUpdateAction.java:44 | `compareTo` orders by code units: U+1F600 sorts before U+FFFD although its code point is larger |
| JavaStrings.SubstringAfter | src/main/java/com/widen/valet/Route53Driver.java:240 | the result is what follows the first occurrence of the separator, with nothing before that occurrence; it is "" when the separator never occurs |
| JavaStrings.SubstringAfterLeadingSeparator | src/main/java/com/widen/valet/Route53Driver.java:98 | an id written as "/change/" + x (or "/hostedzone/" + x) gives back x |
| JavaStrings.WrapInt32 | src/main/java/com/widen/valet/ZoneUpdateAction.java:191 | Java `int` arithmetic: congruent to the exact value modulo 2^32, and equal to it inside the `int` range |
| StringSort.Sort | src/main/java/com/widen/valet/ZoneUpdateAction.java:44 | `Collections.sort` gives a sorted permutation of its input |
| StringSort.SortedPermutationUnique | src/main/java/com/widen/valet/ZoneUpdateAction.java:44 | two sorted permutations of the same values are equal, so the sort result does not depend on the algorithm |
| StringSort.SortOfPermutation | src/main/java/com/widen/valet/ZoneUpdateAction.java:44 | sorting forgets the order in which values were added |
| Decimal.NatToDecimal | src/main/java/com/widen/valet/Route53Driver.java:48 | the decimal text of a count is non-empty, all digits, with no leading zero |
| Decimal.ParseIntOfDecimal | src/main/java/com/widen/valet/Route53Driver.java:182-191 | `Integer.parseInt` reads back every `int` that `String.valueOf` writes, negative ones included |
| Xml.Child | src/main/java/com/widen/valet/Route53Driver.java:96 | `gotoChild` finds a child exactly when one has the tag, and that child has the tag |
| Xml.Descendants | src/main/java/com/widen/valet/Route53Driver.java:178 | a `//tag` query yields only elements with that tag |
| Xml.DescendantsArePreorderNamed | src/main/java/com/widen/valet/Route53Driver.java:178 | a `//tag` query yields exactly the tagged elements of the whole tree, in document order (the tree listed node first, then each child's subtree in turn) |
| Xml.DescendantsComplete | src/main/java/com/widen/valet/Route53Driver.java:178 | every element of the tree that carries the tag is found by the `//tag` query |
| RecordTypes.TypeFromName | src/main/java/com/widen/valet/Route53Driver.java:191 | `RecordType.valueOf` returns the constant whose name is the text, and fails when no constant has it |
| RecordTypes.TypeFromNameOfName | src/main/java/com/widen/valet/ZoneUpdateAction.java:147 | a type written with `name()` is read back as the same type |
| RecordTypes.StatusFromName | src/main/java/com/widen/valet/Route53Driver.java:100 | `Status.valueOf` accepts exactly "PENDING" and "INSYNC" |
| Protocol.Text | src/main/java/com/widen/valet/Route53Driver.java:180-182 | `getText` of a child yields the text of the first child with the tag, and fails with `Malformed` naming the tag exactly when there is none (both taken from xmltool, see "## Left out") |
| Protocol.Element | src/main/java/com/widen/valet/Route53Driver.java:96 | `gotoChild` is read as yielding the first child with the tag, and failing with `Malformed` naming the tag exactly when there is none (both taken from xmltool, see "## Left out") |
| Protocol.PathText | src/main/java/com/widen/valet/Route53Driver.java:246 | `getText` of a path yields the text of the first element the path selects, and fails with `Malformed` naming the path exactly when it selects none |
| Zones.BuildZone | src/main/java/com/widen/valet/Route53Driver.java:238-256 | the name servers are the texts of every `NameServer` in the whole document, in document order |
| Zones.BuildZoneReads | src/main/java/com/widen/valet/Route53Driver.java:238-256 | a zone is read exactly when `Id`, `Name`, `CallerReference` and some `Config/Comment` exist; the id is what follows "/hostedzone/", and the comment is the first `Comment` under any `Config` |
| Zones.BuildZoneReadsLaterConfig | src/main/java/com/widen/valet/Route53Driver.java:246 | the path `Config/Comment` finds a comment under a second `Config` when the first has none |
| Zones.NameServersOfResponse | src/main/java/com/widen/valet/Route53Driver.java:250-253 | in a hosted-zone answer, the `//NameServer` query finds exactly the zone's name servers |
| Zones.BuildZoneOfResponse | src/main/java/com/widen/valet/Route53Driver.java:238-256 | reading a hosted-zone element written from a zone gives that zone back (id without "/hostedzone/", name, caller reference, comment, name servers) |
| ZoneResources.Unweighted | src/main/java/com/widen/valet/ZoneResource.java:24-27 | the four-argument constructor has no set identifier, weight 0, and keeps the values in the given order |
| ZoneResources.EqualsIsEquivalence | src/main/java/com/widen/valet/ZoneResource.java:60-65 | `equals` is reflexive, symmetric and transitive |
| ZoneResources.HashCodeAgreesWithEquals | src/main/java/com/widen/valet/ZoneResource.java:67-71 | equal resources have equal `hashCode`, for any hash of the record-type constants |
| ZoneResources.WeightedMembersCollide | src/main/java/com/widen/valet/ZoneResource.java:60-65 | `equals` ignores set identifier and weight, so members of a weighted set with different identifiers are equal |
| ZoneResources.EqualsOnUnweighted | src/main/java/com/widen/valet/ZoneResource.java:60-65 | on resources without set identifier or weight, `equals` is plain equality |
| ZoneResources.FirstResource | src/main/java/com/widen/valet/ZoneResource.java:39-42 | the first value is present exactly when the list is non-empty, and is its head |
| ZoneUpdateActions.Make | src/main/java/com/widen/valet/ZoneUpdateAction.java:34-46 | the constructor keeps every field and holds a sorted permutation of the given values |
| ZoneUpdateActions.WithData | src/main/java/com/widen/valet/ZoneUpdateAction.java:81-87 | sets name and type, appends the values, and leaves TTL, set identifier and weight alone |
| ZoneUpdateActions.WithDataInZone | src/main/java/com/widen/valet/ZoneUpdateAction.java:76-79 | the name is the simple name, a dot, and the zone's name; the type is set, the values are appended, and TTL, set identifier and weight are kept |
| ZoneUpdateActions.WithTtl | src/main/java/com/widen/valet/ZoneUpdateAction.java:89-93 | changes the TTL and nothing else |
| ZoneUpdateActions.WithResourceRecords | src/main/java/com/widen/valet/ZoneUpdateAction.java:95-105 | appends the values and changes nothing else |
| ZoneUpdateActions.WithRoundRobinData | src/main/java/com/widen/valet/ZoneUpdateAction.java:107-112 | sets set identifier and weight, and keeps name, type, TTL and values |
| ZoneUpdateActions.FromZoneResource | src/main/java/com/widen/valet/ZoneUpdateAction.java:114-123 | copies every field of the resource and appends its values |
| ZoneUpdateActions.Build | src/main/java/com/widen/valet/ZoneUpdateAction.java:57-65 | the action carries the builder's fields and a sorted permutation of its values |
| ZoneUpdateActions.BuildCreate | src/main/java/com/widen/valet/ZoneUpdateAction.java:57-60 | a CREATE action with the builder's name, type, TTL, set identifier and weight, holding its values sorted |
| ZoneUpdateActions.BuildDelete | src/main/java/com/widen/valet/ZoneUpdateAction.java:62-65 | a DELETE action with the builder's name, type, TTL, set identifier and weight, holding its values sorted |
| ZoneUpdateActions.BuilderDefaults | src/main/java/com/widen/valet/ZoneUpdateAction.java:50-55 | a fresh builder gives TTL 600, no set identifier and weight 0 |
| ZoneUpdateActions.CreateAndDeleteDifferOnlyInAction | src/main/java/com/widen/valet/ZoneUpdateAction.java:57-65 | the same builder gives CREATE and DELETE actions that differ in the action word alone |
| ZoneUpdateActions.AccumulatedValuesAreSorted | src/main/java/com/widen/valet/ZoneUpdateAction.java:95-105 | the built action does not depend on the order in which value lists were added |
| ZoneUpdateActions.BuilderReuseKeepsEarlierAction | src/main/java/com/widen/valet/ZoneUpdateAction.java:43-45 | corrected behaviour: an action built earlier keeps its sorted values when the builder is used again |
| ZoneUpdateActions.MergeResources | src/main/java/com/widen/valet/ZoneUpdateAction.java:132-139 | the merged action has the old values plus the new ones, sorted, and every other field unchanged |
| ZoneUpdateActions.MergeNothing | src/main/java/com/widen/valet/ZoneUpdateAction.java:132-139 | merging no values gives back the same action |
| ZoneUpdateActions.MergeTwice | src/main/java/com/widen/valet/ZoneUpdateAction.java:132-139 | merging twice is the same as merging once with both lists |
| ZoneUpdateActions.HashCodeAgreesWithEquals | src/main/java/com/widen/valet/ZoneUpdateAction.java:181-192 | equal actions (same action, name, type and set identifier) have equal `hashCode` |
| ZoneUpdateActions.MergeKeepsIdentity | src/main/java/com/widen/valet/ZoneUpdateAction.java:181-198 | a merged action is `equals` to the original and compares as 0 |
| ZoneUpdateActions.CompareToZeroIffEquals | src/main/java/com/widen/valet/ZoneUpdateAction.java:181-198 | `compareTo` is 0 exactly when `equals` holds |
| ZoneUpdateActions.CompareToAntisymmetric | src/main/java/com/widen/valet/ZoneUpdateAction.java:194-198 | swapping the operands of `compareTo` negates the result |
| ZoneUpdateActions.CompareToTransitive | src/main/java/com/widen/valet/ZoneUpdateAction.java:194-198 | `compareTo` is transitive, so it is a total order consistent with `equals` |
| ZoneResourceActions.CreateAction | src/main/java/com/widen/valet/ZoneResource.java:44-47 | a CREATE action with the resource's name, type and TTL and its values sorted |
| ZoneResourceActions.DeleteAction | src/main/java/com/widen/valet/ZoneResource.java:49-52 | a DELETE action with the resource's name, type and TTL and its values sorted |
| ZoneResourceActions.CreateAndDeleteMirror | src/main/java/com/widen/valet/ZoneResource.java:44-52 | the delete action is the create action with DELETE as its action word |
| ZoneResourceActions.EqualResourcesGiveEqualActions | src/main/java/com/widen/valet/ZoneResource.java:44-65 | resources that are `equals` give identical create actions |
| ZoneResourceActions.SortedValuesKeptAsListed | src/main/java/com/widen/valet/ZoneResource.java:44-47 | values already sorted are kept in their order |
| ZoneResourceActions.FromZoneResourceAgreesWithFactory | src/main/java/com/widen/valet/ZoneUpdateAction.java:114-123 | for an unweighted resource, a fresh builder loaded with `fromZoneResource` builds the same delete action as `deleteAction()` |
| RecordSets.DecodeRecordSet | src/main/java/com/widen/valet/Route53Driver.java:178-194 | a listed record set is read with its Name and Type texts, no set identifier and weight 0 |
| RecordSets.DecodeValueNodes | src/main/java/com/widen/valet/Route53Driver.java:186-189 | the `ResourceRecords/ResourceRecord` values are read back in the order they were written |
| RecordSets.DecodeRecordSetElement | src/main/java/com/widen/valet/ZoneUpdateAction.java:141-167 | a `ResourceRecordSet` element written from name, type, TTL and values is read back as the resource with exactly those fields |
| RecordSets.DecodeListedElement | src/main/java/com/widen/valet/Route53Driver.java:178-194 | an unweighted record set listed by the service is read back unchanged |
| ChangeBatches.ChangeNodes | src/main/java/com/widen/valet/Route53Driver.java:59-63 | one `Change` element per action, in the caller's order |
| ChangeBatches.BatchComment | src/main/java/com/widen/valet/Route53Driver.java:48 | the caller's comment unless it is null or empty, otherwise "Modify n records." |
| ChangeBatches.BatchCommentExamples | src/main/java/com/widen/valet/Route53Driver.java:48 | an empty or missing comment is replaced, and a blank one is kept |
| ChangeBatches.WeightedFieldsIffNotBlank | src/main/java/com/widen/valet/ZoneUpdateAction.java:149-153 | `SetIdentifier` and `Weight` are written exactly when the set identifier is not blank |
| ChangeBatches.DecodeChangeTag | src/main/java/com/widen/valet/ZoneUpdateAction.java:141-167 | a `Change` element is read back as its action, with a blank set identifier read as none and weight 0 |
| ChangeBatches.DecodeChangeRequestOf | src/main/java/com/widen/valet/Route53Driver.java:50-63 | the whole change request is read back as its comment and its actions, in order |
| ChangeBatches.DecodeChangeStatus | src/main/java/com/widen/valet/Route53Driver.java:94-116 | a status is read exactly when `ChangeInfo` has an `Id`, a known `Status` and a `SubmittedAt` that parses; its change id is the `Id` text after the first "/change/" ("" when there is none), its status and time are those texts read, its zone id is the caller's; any failure is a malformed response |
| ChangeBatches.DecodeChangeInfoResponse | src/main/java/com/widen/valet/Route53Driver.java:94-116 | a `ChangeInfo` answer gives the change id without "/change/", the status and the parsed submission time |
| ChangeBatches.DecodeChangeInfoAt | src/main/java/com/widen/valet/Route53Driver.java:94-116 | a `ChangeInfo` written by the service, wherever it sits among the answer's children, is read back as its change id, status and time |
| ChangeBatches.UnknownStatusRejected | src/main/java/com/widen/valet/Route53Driver.java:100 | a status other than PENDING or INSYNC makes the answer malformed |
| ChangeBatches.DecodeError | src/main/java/com/widen/valet/Route53Driver.java:118-127 | a service failure exactly when `Type`, `Code` and `Message` are all present, with the message code + ": " + message; otherwise a malformed response naming a missing field |
| ChangeBatches.DecodeSubmitResponse | src/main/java/com/widen/valet/Route53Driver.java:75-82 | an answer with an `Error` child always fails; any other answer is decoded as a change status |
| ChangeBatches.DecodeErrorResponse | src/main/java/com/widen/valet/Route53Driver.java:118-127 | an `Error` answer fails with the message "code: message" |
| Route53Driver.UpdateZone | src/main/java/com/widen/valet/Route53Driver.java:41-83 | an empty batch sends nothing and reports INSYNC with "no-change-submitted"; otherwise one post to the zone; an `Error` answer never yields a status |
| Route53Driver.UpdateZonePostsBatch | src/main/java/com/widen/valet/Route53Driver.java:48-69 | the posted document reads back as the defaulted comment and every action, in order |
| Route53Driver.QueryChangeStatus | src/main/java/com/widen/valet/Route53Driver.java:85-92 | one query for the change id; the status keeps the old status's zone id |
| Route53Driver.PollQueriesOneChange | src/main/java/com/widen/valet/Route53Driver.java:133-135 | every query of the wait asks for the change being waited on |
| Route53Driver.PollOutcome | src/main/java/com/widen/valet/Route53Driver.java:133-154 | every answer before the last was PENDING; success means the last answer was INSYNC; running out of replies means all were used |
| Route53Driver.PollPendingBeforeLast | src/main/java/com/widen/valet/Route53Driver.java:133-154 | the wait goes past an answer only when it reports PENDING |
| Route53Driver.PollSucceedsOnInSync | src/main/java/com/widen/valet/Route53Driver.java:133-154 | the wait succeeds only on an answer reporting INSYNC, the last one read |
| Route53Driver.PollNoReplyUsesAll | src/main/java/com/widen/valet/Route53Driver.java:133-154 | the wait runs out of replies only after reading them all |
| Route53Driver.WaitForSync | src/main/java/com/widen/valet/Route53Driver.java:129-155 | a change already in sync needs no query; otherwise the service is polled |
| Route53Driver.PollStopsAtFirstInSync | src/main/java/com/widen/valet/Route53Driver.java:133-154 | after k PENDING answers and then INSYNC, the wait makes exactly k + 1 queries and succeeds |
| Route53Driver.DecodePage | src/main/java/com/widen/valet/Route53Driver.java:169-194 | every record set of a page is read without set identifier or weight |
| Route53Driver.DecodePageCursor | src/main/java/com/widen/valet/Route53Driver.java:176-196 | a page holds one record set per `//ResourceRecordSet` element, in document order; the next cursor name is the Name of the last one, or "" when the page is empty |
| Route53Driver.Add | src/main/java/com/widen/valet/Route53Driver.java:191 | `HashSet.add` keeps the set free of `equals` duplicates, and afterwards the set holds the old members and the new one |
| Route53Driver.AddAllHolds | src/main/java/com/widen/valet/Route53Driver.java:178-194 | after adding a page of records, the set holds exactly the old members and the page's records |
| Route53Driver.ListFromTargetsZone | src/main/java/com/widen/valet/Route53Driver.java:167 | every listing request is for the zone being listed |
| Route53Driver.ListFromCursor | src/main/java/com/widen/valet/Route53Driver.java:171-196 | a further page is requested only after a truncated page, with "name=" and that page's last record name as the cursor |
| Route53Driver.ListFromStops | src/main/java/com/widen/valet/Route53Driver.java:171-174 | a listing ends successfully only on a page whose `IsTruncated` reads "false" |
| Route53Driver.ListFromCollects | src/main/java/com/widen/valet/Route53Driver.java:159-203 | the result holds, up to `equals`, exactly the record sets of the pages read |
| Route53Driver.ListFromUnweighted | src/main/java/com/widen/valet/Route53Driver.java:191 | a listing yields only unweighted record sets |
| Route53Driver.ListZoneRecords | src/main/java/com/widen/valet/Route53Driver.java:157-204 | the first query is empty; the result has no `equals` duplicates and holds exactly the record sets of the pages read |
| Route53Driver.ListZones | src/main/java/com/widen/valet/Route53Driver.java:206-220 | one unfiltered hosted-zone query; one zone per `//HostedZone` element, the i-th zone being what `buildZone` reads from the i-th element |
| Route53Driver.DecodeZonesOfAll | src/main/java/com/widen/valet/Route53Driver.java:214-217 | when every element reads as its zone, the loop yields all of those zones in order |
| Route53Driver.ListZonesOfResponse | src/main/java/com/widen/valet/Route53Driver.java:206-220 | the service's listing of some zones is read back as exactly those zones (id, name, caller reference and comment), in order, with no name servers, which a listing does not carry |
| Route53Driver.ZoneDetails | src/main/java/com/widen/valet/Route53Driver.java:229-236 | one hosted-zone query for the given id |
| Route53Driver.ZoneDetailsOfResponse | src/main/java/com/widen/valet/Route53Driver.java:222-236 | asking for a zone that the service describes gives that zone |
| Route53Driver.CheckDomainName | src/main/java/com/widen/valet/Route53Driver.java:327-335 | a name is accepted exactly when it is non-empty, does not start with a period and ends with one |
| Route53Driver.EnsureDomainNameNotAlreadyCreated | src/main/java/com/widen/valet/Route53Driver.java:297-308 | the guard passes exactly when the listing succeeds and no zone has exactly this name |
| Route53Driver.ZoneExists | src/main/java/com/widen/valet/Route53Driver.java:310-325 | an invalid name fails without a request; otherwise the answer is whether a zone's name matches ignoring case |
| Route53Driver.DuplicateCheckIsCaseSensitive | src/main/java/com/widen/valet/Route53Driver.java:303 | a zone named with other letter case exists for `zoneExists` but is not a duplicate for `createZone` |
| Route53Driver.HostedExactlyIsHostedIgnoringCase | src/main/java/com/widen/valet/Route53Driver.java:303-318 | every exact duplicate is also found by `zoneExists` |
| Route53Driver.CreateZone | src/main/java/com/widen/valet/Route53Driver.java:267-295 | an invalid name fails without a request; success needs a valid name that passed the duplicate guard, after one listing request and one creation post |
| Route53Driver.PostZone | src/main/java/com/widen/valet/Route53Driver.java:273-294 | corrected: one creation post; a status is returned only from an answer with a `HostedZone` and a `ChangeInfo` child |
| Route53Driver.PostZoneOfResponse | src/main/java/com/widen/valet/Route53Driver.java:283-294 | corrected: the service's answer to a creation yields the change status for the new zone's id |
| Route53Driver.PostZoneAsWritten | src/main/java/com/widen/valet/Route53Driver.java:283-294 | as written: the zone is read at the answer's root, so a status is returned only from an answer whose root has an `Id` child |
| Route53Driver.PostZoneAsWrittenRefusesResponse | src/main/java/com/widen/valet/Route53Driver.java:283-294 | as written: the service's answer to a creation fails as malformed for want of `Id`, after the zone has been created |
| Route53Driver.CreateZoneRefusesHostedName | src/main/java/com/widen/valet/Route53Driver.java:297-308 | a name some listed zone has exactly is refused, and the creation request is not sent; for a valid name only the listing is sent and the error is the "already hosted by Route53" `IllegalArgumentException` |
| Route53Driver.CreateZoneOfResponses | src/main/java/com/widen/valet/Route53Driver.java:267-295 | corrected: creating a valid name the listing lacks sends the listing query and the creation post, and returns the new zone's id with the change id, status and submission time of the answer |
| BuilderAliasing.BuildAsWritten | src/main/java/com/widen/valet/ZoneUpdateAction.java:43-45 | as written, the action is a view of the builder's own list, which is sorted in place |
| BuilderAliasing.LaterValuesReachEarlierAction | src/main/java/com/widen/valet/ZoneUpdateAction.java:57-60 | as written, values added to the builder after a build show up in the action built before |
| BuilderAliasing.ReusedBuilderUnsortsEarlierAction | src/main/java/com/widen/valet/ZoneUpdateAction.java:43-45 | as written, a reused builder leaves an earlier action with the unsorted values ["a", "b", "0"] |

## Left out

- Transport is not modelled: the HTTP client, request signing, XML text
  serialisation and parsing, and namespace prefixes. The XML model is a
  tree; requests carry the tree and the default namespace.
- Logging, `Thread.sleep(2000)` between polls, `new Date()` and
  `UUID.randomUUID()` are not modelled. The current time (`now`) and the
  caller token are parameters.
- Parsing `SubmittedAt` with `SimpleDateFormat` is a parameter
  (`parseTime`). A time it cannot read makes the answer malformed.
- `Zone.java`, `ZoneChangeStatus.java`, `RecordType.java`, `Route53Pilot`,
  `ValetException` and `Defense` are not part of this model. Their
  behaviour is taken from how the core uses them. `RecordType` is assumed
  to declare A, AAAA, CNAME, MX, TXT, NS, SOA, SRV, PTR and SPF in that
  order, and this order drives `compareTo`.
- The Java enum `hashCode` is an identity hash, so it is a parameter
  (`typeHash`) of both `HashCode` functions.
- The overloads `updateZone(zone, comment, actions...)` and
  `zoneDetails(String zoneId)` only forward their arguments, so they are
  not modelled separately. `Route53Driver.ZoneDetails` models
  `zoneDetails(Zone)`, which does the work, from the zone's id.
- `toString` (reflection based) is not modelled.
- `equals` called with a foreign class or null, and the exceptions Java
  would throw then, are not modelled.
- ZoneUpdateActions.Build: requires the builder's name and type to be set
  (`Complete`). Java builds an action with a null name or type, and it
  fails later when the `Change` element is written.
- ZoneUpdateActions.BuildCreate: same requirement as `Build`.
- ZoneUpdateActions.BuildDelete: same requirement as `Build`.
- ZoneResourceActions.CreateAction: the `ZoneUpdateAction.createAction`
  factory it calls is not part of this model. It is taken to be
  `withData(...).withTtl(ttl).buildCreate()`.
- ZoneResourceActions.DeleteAction: same assumption, with `buildDelete()`.
- ZoneResources.FirstResource: Java throws `NoSuchElementException` on an
  empty list; the model returns `None`.
- Route53Driver.PollOutcome: the Java loop never gives up. The model stops when
  the script of replies runs out and then reports `NoReply`.
- Route53Driver.ListZoneRecords: Java returns the set in `HashSet`
  iteration order. The model returns first-seen order, and its contract
  only states which record sets it holds.
- Route53Driver.UpdateZone: Java's `hasTag("Error")` is read as "the answer
  has a direct child `Error`".
- Route53Driver.CreateZone: reads the new zone from the answer's
  `HostedZone` child, which is the corrected behaviour of the defect
  listed under Findings. The Java code reads it at the answer's root and
  fails there; `Route53Driver.PostZoneAsWritten` keeps that reading.
- Route53Driver.ZoneExists: `StringUtils.equalsIgnoreCase` folds case with
  `Character.toUpperCase` and `toLowerCase` over all of Unicode. The model
  folds ASCII letters only, so names that differ in the case of a
  non-ASCII letter (such as 'é' and 'É') are not matched. The Unicode case
  tables are not part of this model.
- JavaStrings.EqualsIgnoreCase: same restriction, ASCII case folding only.
- Route53Driver.QueryChangeStatus: an `Error` answer is not looked for, as
  in Java; it fails as a malformed answer.
- Decimal.ParseInt: reads ASCII digits '0'..'9' only. Java's
  `Integer.parseInt` takes every digit `Character.digit(c, 10)` accepts,
  which includes the other Unicode decimal digits (Arabic-Indic "١٢٠" reads
  as 120). The model returns `None` for those, so a TTL or weight written
  with them is a malformed answer here. The Unicode digit tables are not
  part of this model. `String.valueOf` writes ASCII digits only, so the
  round trip `Decimal.ParseIntOfDecimal` is not affected.
- Protocol.Element: xmltool's `gotoChild` is not part of this model. It is
  taken to move to the first child with the tag and to throw when there is
  none. xmltool may instead refuse an element with several children of
  that name; the model then reads the first where Java would fail, as
  `ChangeBatches.DecodeChangeInfoAt` does with a second `ChangeInfo` after
  position k.
- Protocol.Text: xmltool's `getText` is not part of this model. It is taken
  to read the first element its path selects and to throw when the path
  selects nothing. Every `Malformed` result, and the second Finding, rests
  on that throw.
- Route53Driver.ListZones: each listed zone's name servers come from the
  search `//NameServer`. The model takes that search over the whole
  answer, as an absolute XPath is. This relies on the XML library
  (xmltool, not part of this model) evaluating an absolute path from a
  child against the whole document rather than the child's subtree. A
  listing has no `NameServer`, so listed zones have no name servers
  either way (`Route53Driver.ListZonesOfResponse`).

## Findings

| source | as written | input that shows it | evidently intended | confidence | as-written member | corrected member |
|---|---|---|---|---|---|---|
| src/main/java/com/widen/valet/ZoneUpdateAction.java:43-45 | the constructor sorts the builder's list in place and keeps an unmodifiable view of that same list, so the builder and every action built from it share one list | `withData(n, A, ["b", "a"])`, then `buildCreate()` gives x with values ["a", "b"]; then `withResourceRecords("0")` on the same builder changes x's values to ["a", "b", "0"], which is not sorted | the constructor copies the list before sorting it, so an action keeps its own sorted values | not executed | BuilderAliasing.ReusedBuilderUnsortsEarlierAction | ZoneUpdateActions.BuilderReuseKeepsEarlierAction |
| src/main/java/com/widen/valet/Route53Driver.java:283-290 | `createZone` calls `buildZone` on the answer with the cursor on its root, `CreateHostedZoneResponse`, so `getText("Id")` looks for `Id` among the root's children; the service writes `Id`, `Name` and `CallerReference` inside the `HostedZone` child | the answer `CreateHostedZoneResponse` holding `HostedZone` (with `Id` "/hostedzone/Z1"), `ChangeInfo` and `DelegationSet`: reading it fails for want of `Id`, after the zone has been created | the zone is read from the `HostedZone` child, as `zoneDetails` does at Route53Driver.java:235, and the change status from the root | medium: rests on `getText` throwing for a missing element; not executed | Route53Driver.PostZoneAsWrittenRefusesResponse | Route53Driver.PostZoneOfResponse |
