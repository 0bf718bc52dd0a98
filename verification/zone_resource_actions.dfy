/** `ZoneResource.createAction()` / `deleteAction()`. Both call four-
    argument factories of `ZoneUpdateAction` (name, type, TTL, values) that
    are not part of this model; they are taken to be the builder sequence
    `withData(name, type, values).withTtl(ttl)` followed by `buildCreate()`
    or `buildDelete()`. The resource's set identifier and weight are
    therefore not carried over. */
module ZoneResourceActions {
  import opened Results
  import opened StringSort
  import opened ZoneResources
  import opened ZoneUpdateActions

  function FactoryBuilder(r: ZoneResource): Builder
  {
    WithTtl(WithData(NewBuilder, r.name, r.recordType, r.resourceRecords), r.ttl)
  }

  function CreateAction(r: ZoneResource): (a: ZoneUpdateAction)
    ensures a.action == CREATE
    ensures a.name == r.name && a.recordType == r.recordType && a.ttl == r.ttl
    ensures a.setIdentifier == None && a.weight == 0
    ensures Sorted(a.resourceRecords) && multiset(a.resourceRecords) == multiset(r.resourceRecords)
  {
    assert NewBuilder.resourceRecords + r.resourceRecords == r.resourceRecords;
    BuildCreate(FactoryBuilder(r))
  }

  function DeleteAction(r: ZoneResource): (a: ZoneUpdateAction)
    ensures a.action == DELETE
    ensures a.name == r.name && a.recordType == r.recordType && a.ttl == r.ttl
    ensures a.setIdentifier == None && a.weight == 0
    ensures Sorted(a.resourceRecords) && multiset(a.resourceRecords) == multiset(r.resourceRecords)
  {
    assert NewBuilder.resourceRecords + r.resourceRecords == r.resourceRecords;
    BuildDelete(FactoryBuilder(r))
  }

  /** The two factories differ in the action word alone. */
  lemma CreateAndDeleteMirror(r: ZoneResource)
    ensures DeleteAction(r) == CreateAction(r).(action := DELETE)
  {
  }

  /** Resources that `equals` identifies yield identical actions, since
      both factories read only the fields `equals` compares. */
  lemma EqualResourcesGiveEqualActions(r: ZoneResource, s: ZoneResource)
    requires ZoneResources.Equals(r, s)
    ensures CreateAction(r) == CreateAction(s) && DeleteAction(r) == DeleteAction(s)
  {
  }

  /** When the service already lists the values in sorted order, the
      action carries them unchanged. */
  lemma SortedValuesKeptAsListed(r: ZoneResource)
    requires Sorted(r.resourceRecords)
    ensures CreateAction(r).resourceRecords == r.resourceRecords
  {
    SortedPermutationUnique(CreateAction(r).resourceRecords, r.resourceRecords);
  }

  /** For a listed (unweighted) resource, `fromZoneResource` followed by
      `buildDelete` builds exactly `deleteAction()`. */
  lemma FromZoneResourceAgreesWithFactory(r: ZoneResource)
    requires r.setIdentifier == None && r.weight == 0
    ensures BuildDelete(FromZoneResource(NewBuilder, r)) == DeleteAction(r)
  {
    assert NewBuilder.resourceRecords + r.resourceRecords == r.resourceRecords;
  }
}
