/** `ListsService` carried out on the store, step by step as the service does it; each
    method ends in the state and result its `Lists` function describes. */
module ListsService {
  import opened Errors
  import opened Entities
  import opened Segments
  import opened Repository
  import Lists

  /** `findOne(listId, organizationId)` as far as the services use it: is the list there? */
  predicate FoundInOrg(store: Store, listId: Id, org: OrgId)
    reads store
  {
    listId in store.lists && store.lists[listId].organizationId == org
  }

  method AddSubscriber(store: Store, listId: Id, subscriberId: Id, org: OrgId) returns (r: Result<List>)
    modifies store
    ensures (store.State(), r) == Lists.AddSubscriber(old(store.State()), listId, subscriberId, org)
  {
    if !FoundInOrg(store, listId, org) {
      return Err(ListNotFound);
    }
    if !(subscriberId in store.subscribers && store.subscribers[subscriberId].organizationId == org) {
      return Err(SubscriberNotFound);
    }
    if subscriberId in store.lists[listId].members {
      return Err(AlreadyInList);
    }
    store.AddMembers(listId, {subscriberId});
    return Ok(store.lists[listId]);
  }

  method RemoveSubscriber(store: Store, listId: Id, subscriberId: Id, org: OrgId) returns (r: Result<List>)
    modifies store
    ensures (store.State(), r) == Lists.RemoveSubscriber(old(store.State()), listId, subscriberId, org)
  {
    if !FoundInOrg(store, listId, org) {
      return Err(ListNotFound);
    }
    if !(subscriberId in store.subscribers && store.subscribers[subscriberId].organizationId == org) {
      return Err(SubscriberNotFound);
    }
    store.RemoveMember(listId, subscriberId);
    return Ok(store.lists[listId]);
  }

  method AddSubscribersToList(store: Store, listId: Id, subscriberIds: seq<Id>) returns (r: Result<()>)
    modifies store
    ensures (store.State(), r) == Lists.AddSubscribersToList(old(store.State()), listId, subscriberIds)
  {
    if listId !in store.lists {
      return Err(ListNotFound);
    }
    var found := set id | id in subscriberIds && id in store.subscribers;
    store.AddMembers(listId, found);
    return Ok(());
  }

  method AddSegmentRule(store: Store, listId: Id, org: OrgId, rule: Rule) returns (r: Result<List>)
    modifies store
    ensures (store.State(), r) == Lists.AddSegmentRule(old(store.State()), listId, org, rule)
  {
    if !FoundInOrg(store, listId, org) {
      return Err(ListNotFound);
    }
    var list := store.lists[listId];
    var rules := if list.segmentRules.None? then [] else list.segmentRules.value;
    if rule.field !in list.customFields {
      return Err(UnknownField(rule.field));
    }
    rules := rules + [rule];
    list := list.(segmentRules := Some(rules));
    store.SaveList(listId, list);
    return Ok(list);
  }

  /** `getSegmentedSubscribers(listId, organizationId)`: the rows of the segment, each once,
      in whatever order the database returns them, or the error the lookup or the query
      raises. */
  method GetSegmentedSubscribers(store: Store, listId: Id, org: OrgId) returns (r: Result<seq<Id>>)
    ensures var segment := Resolve(store.State(), listId, org);
      && (segment.Err? ==> r == Err(segment.error))
      && (segment.Ok? ==> r.Ok? && Enumerates(r.value, segment.value))
  {
    var segment := Resolve(store.State(), listId, org);
    match segment
    case Err(e) =>
      r := Err(e);
    case Ok(ids) =>
      var rows := Enumerate(ids);
      r := Ok(rows);
  }

  /** `importSubscribersFromCsv(listId, organizationId, file)`, the file already parsed into
      `records`: the rows are built, then saved and linked a slice at a time. */
  method ImportSubscribersFromCsv(store: Store, listId: Id, org: OrgId, records: seq<map<string, string>>)
    returns (r: Result<()>)
    modifies store
    ensures var o := Lists.ImportCsv(old(store.State()), listId, org, records);
      store.State() == o.db && r == o.result
  {
    if !FoundInOrg(store, listId, org) {
      return Err(ListNotFound);
    }
    var subscribers := Lists.Drafts(records, org);
    ghost var total := Lists.ImportFrom(store.State(), listId, subscribers);
    var n := |subscribers|;
    var i := 0;
    while i < n
      invariant listId in store.lists
      invariant var rest := Lists.ImportFrom(store.State(), listId, subscribers[Lists.Min(i, n)..]);
        rest.db == total.db && rest.result == total.result
    {
      var end := Lists.Min(i + Lists.BatchSize, n);
      var batch := subscribers[i..end];
      ghost var before := store.State();
      Lists.ImportFromUnfold(before, listId, subscribers, i);
      var saved := store.InsertAll(batch);
      if saved.Err? {
        return Err(saved.error);
      }
      store.AddMembers(listId, saved.value);
      assert store.State() == Commit(before, listId, batch);
      i := i + Lists.BatchSize;
    }
    assert subscribers[Lists.Min(i, n)..] == [];
    return Ok(());
  }
}
