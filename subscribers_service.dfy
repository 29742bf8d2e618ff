/** `SubscribersService` carried out on the store, step by step as the service does it; each
    method ends in the state and result its `Subscribers` function describes. */
module SubscribersService {
  import opened Errors
  import opened Entities
  import opened Repository
  import opened Subscribers
  import ListsService
  import Lists

  method Create(store: Store, listId: Id, input: SubscriberInput) returns (r: Result<Id>)
    modifies store
    ensures (store.State(), r) == Subscribers.Create(old(store.State()), listId, input)
  {
    if EmailInOrg(store.State(), input.email, input.organizationId) {
      return Err(SubscriberExists);
    }
    var subscriber := Subscriber(input.email, input.organizationId,
                                 if input.customFields.Some? then input.customFields.value else map[]);
    var saved := store.Insert(subscriber);
    if saved.Err? {
      return Err(CreateError(saved.error));
    }
    var linked := ListsService.AddSubscriber(store, listId, saved.value, input.organizationId);
    if linked.Err? {
      return Err(CreateError(linked.error));
    }
    return Ok(saved.value);
  }

  method FindOne(store: Store, id: Id, org: OrgId) returns (r: Result<Subscriber>)
    ensures r == Subscribers.FindOne(store.State(), id, org)
  {
    if id in store.subscribers && store.subscribers[id].organizationId == org {
      return Ok(store.subscribers[id]);
    }
    return Err(SubscriberNotFound);
  }

  method Update(store: Store, id: Id, org: OrgId, changes: Changes) returns (r: Result<Subscriber>)
    modifies store
    ensures (store.State(), r) == Subscribers.Update(old(store.State()), id, org, changes)
  {
    var found := FindOne(store, id, org);
    if found.Err? {
      return Err(UpdateError(found.error));
    }
    if changes.email.Some? && changes.email.value != "" && EmailTakenInOrg(store.State(), changes.email.value, org, id) {
      return Err(EmailTaken);
    }
    var subscriber := Apply(found.value, changes);
    var saved := store.Update(id, subscriber);
    if saved.Err? {
      return Err(UpdateError(saved.error));
    }
    return Ok(subscriber);
  }

  method Remove(store: Store, id: Id, org: OrgId) returns (r: Result<()>)
    modifies store
    ensures (store.State(), r) == Subscribers.Remove(old(store.State()), id, org)
  {
    var found := FindOne(store, id, org);
    if found.Err? {
      return Err(found.error);
    }
    store.Delete(id);
    return Ok(());
  }

  /** `bulkImport(listId, organizationId, rows)`: each row is created in turn under the
      given organisation; a failed row is counted and reported, and the loop goes on. */
  method BulkImport(store: Store, listId: Id, org: OrgId, rows: seq<SubscriberInput>) returns (results: BulkResult)
    modifies store
    ensures (store.State(), results) == Subscribers.BulkImport(old(store.State()), listId, org, rows)
  {
    results := BulkResult(0, 0, []);
    ghost var outcomes: seq<Result<Id>> := [];
    ghost var db := old(store.State());
    var i := 0;
    while i < |rows|
      invariant 0 <= i <= |rows|
      invariant store.State() == Attempts(db, listId, org, rows[..i]).0
      invariant outcomes == Attempts(db, listId, org, rows[..i]).1
      invariant results == Tally(rows[..i], outcomes)
    {
      results, outcomes := ImportRow(store, listId, org, rows, i, results, db, outcomes);
      i := i + 1;
    }
    assert rows[..|rows|] == rows;
  }

  /** One turn of `bulkImport`'s loop: row `i` is created and its outcome tallied. */
  method ImportRow(store: Store, listId: Id, org: OrgId, rows: seq<SubscriberInput>, i: nat,
                   results: BulkResult, ghost db: Db, ghost outcomes: seq<Result<Id>>)
    returns (results': BulkResult, ghost outcomes': seq<Result<Id>>)
    requires i < |rows|
    requires store.State() == Attempts(db, listId, org, rows[..i]).0
    requires outcomes == Attempts(db, listId, org, rows[..i]).1
    requires results == Tally(rows[..i], outcomes)
    modifies store
    ensures store.State() == Attempts(db, listId, org, rows[..i + 1]).0
    ensures outcomes' == Attempts(db, listId, org, rows[..i + 1]).1
    ensures results' == Tally(rows[..i + 1], outcomes')
  {
    var row := rows[i];
    var created := Create(store, listId, row.(organizationId := org));
    AttemptsStep(db, listId, org, rows, i, (store.State(), created));
    TallyStep(rows, i, outcomes, created);
    if created.Ok? {
      results' := results.(success := results.success + 1);
    } else {
      results' := BulkResult(results.success, results.failed + 1, results.errors + [RowError(row.email, created.error)]);
    }
    outcomes' := outcomes + [created];
  }

  /** `findAll(query)`: one page of the selected subscribers, in the order the database
      returns them, with the total count and the number of pages. */
  method FindAll(store: Store, query: SubscriberQuery) returns (data: seq<Id>, total: nat, totalPages: nat, ghost order: seq<Id>)
    requires ValidQuery(query)
    ensures Enumerates(order, Matching(store.State(), query.organizationId, SearchText(query)))
    ensures data == Page(order, PageNumber(query), PageSize(query))
    ensures total == |Matching(store.State(), query.organizationId, SearchText(query))|
    ensures totalPages == TotalPages(total, PageSize(query))
  {
    var selected := Matching(store.State(), query.organizationId, SearchText(query));
    var rows := Enumerate(selected);
    order := rows;
    var page, limit := PageNumber(query), PageSize(query);
    data := Page(rows, page, limit);
    total := |selected|;
    totalPages := TotalPages(total, limit);
  }
}
