/** The database as the services see it through their TypeORM repositories: one mutable
    store holding the three tables and the id generator. */
module Repository {
  import opened Errors
  import opened Entities

  /** Each element of `xs` appears once. */
  predicate Distinct(xs: seq<Id>) {
    forall i, j :: 0 <= i < j < |xs| ==> xs[i] != xs[j]
  }

  /** `rows` lists the elements of `s`, each exactly once, in some order. */
  predicate Enumerates(rows: seq<Id>, s: set<Id>) {
    && Distinct(rows) && |rows| == |s|
    && (forall x :: x in rows ==> x in s)
    && (forall x :: x in s ==> x in rows)
  }

  /** The rows of a result set in the order the database returns them; the order is not
      specified, so any order may come back. */
  method Enumerate(s: set<Id>) returns (rows: seq<Id>)
    ensures Enumerates(rows, s)
  {
    rows := [];
    var pending := s;
    while pending != {}
      invariant pending <= s
      invariant forall x :: x in rows <==> x in s && x !in pending
      invariant Distinct(rows)
      invariant |rows| + |pending| == |s|
      decreases |pending|
    {
      var x :| x in pending;
      rows := rows + [x];
      pending := pending - {x};
    }
  }

  class Store {
    var subscribers: map<Id, Subscriber>
    var lists: map<Id, List>
    var campaigns: map<Id, Campaign>
    var nextId: nat

    function State(): Db
      reads this
    {
      Db(subscribers, lists, campaigns, nextId)
    }

    ghost predicate Valid()
      reads this
    {
      State().Valid()
    }

    /** An empty database. */
    constructor ()
      ensures State() == Db(map[], map[], map[], 0)
      ensures Valid()
    {
      subscribers, lists, campaigns, nextId := map[], map[], map[], 0;
    }

    /** `subscriberRepository.save(rows)`: the rows go in within one transaction. Either the
        first constraint a row violates fails the statement and nothing is stored, or every
        row is stored under the next fresh id, in order. */
    method InsertAll(batch: seq<Draft>) returns (r: Result<set<Id>>)
      modifies this
      ensures var fault := BatchFault(Emails(old(State())), batch);
        && (fault.Some? ==> r == Err(Database(fault.value)) && State() == old(State()))
        && (fault.None? ==>
              && HaveEmails(batch)
              && r == Ok(IdRange(old(nextId), |batch|))
              && State() == old(State()).(subscribers := old(subscribers) + Saved(batch, old(nextId)),
                                          nextId := old(nextId) + |batch|))
    {
      var fault := BatchFault(Emails(State()), batch);
      if fault.Some? {
        return Err(Database(fault.value));
      }
      BatchFaultMeaning(Emails(State()), batch);
      var first, stored := nextId, subscribers;
      var rows, ids := stored, {};
      var i := 0;
      while i < |batch|
        invariant 0 <= i <= |batch|
        invariant HaveEmails(batch[..i])
        invariant rows == stored + Saved(batch[..i], first)
        invariant ids == IdRange(first, i)
        invariant State() == old(State())
      {
        SavedSnoc(stored, batch, i, first);
        IdRangeSnoc(first, i);
        rows := rows[first + i := ToSubscriber(batch[i])];
        ids := ids + {first + i};
        i := i + 1;
      }
      assert batch[..|batch|] == batch;
      subscribers, nextId := rows, first + |batch|;
      return Ok(ids);
    }

    /** Adds junction rows linking the subscribers `ids` to the list `listId`. */
    method AddMembers(listId: Id, ids: set<Id>)
      modifies this
      ensures State() == old(State()).(lists := Link(old(lists), listId, ids))
    {
      lists := Link(lists, listId, ids);
    }

    /** `subscriberRepository.save(subscriber)` of a new subscriber: stored under a fresh id
        unless its email is already stored. */
    method Insert(subscriber: Subscriber) returns (r: Result<Id>)
      modifies this
      ensures subscriber.email in Emails(old(State())) ==> r == Err(Database(UniqueEmail)) && State() == old(State())
      ensures subscriber.email !in Emails(old(State())) ==>
        && r == Ok(old(nextId))
        && State() == old(State()).(subscribers := old(subscribers)[old(nextId) := subscriber], nextId := old(nextId) + 1)
    {
      if subscriber.email in Emails(State()) {
        return Err(Database(UniqueEmail));
      }
      r := Ok(nextId);
      subscribers := subscribers[nextId := subscriber];
      nextId := nextId + 1;
    }

    /** `subscriberRepository.save(subscriber)` of a stored subscriber: rejected when another
        subscriber holds its email. */
    method Update(id: Id, subscriber: Subscriber) returns (r: Result<()>)
      modifies this
      ensures EmailHeldByOther(old(State()), subscriber.email, Some(id)) ==>
        r == Err(Database(UniqueEmail)) && State() == old(State())
      ensures !EmailHeldByOther(old(State()), subscriber.email, Some(id)) ==>
        r == Ok(()) && State() == old(State()).(subscribers := old(subscribers)[id := subscriber])
    {
      if exists other :: other in subscribers && subscribers[other].email == subscriber.email && other != id {
        return Err(Database(UniqueEmail));
      }
      subscribers := subscribers[id := subscriber];
      return Ok(());
    }

    /** `subscriberRepository.remove(subscriber)`. */
    method Delete(id: Id)
      modifies this
      ensures State() == DeleteSubscriberRow(old(State()), id)
    {
      subscribers := subscribers - {id};
      lists := map l | l in lists :: lists[l].(members := lists[l].members - {id});
    }

    /** `listsRepository.save(list)` of a stored list. */
    method SaveList(id: Id, list: List)
      modifies this
      ensures State() == old(State()).(lists := old(lists)[id := list])
    {
      lists := lists[id := list];
    }

    /** Deletes the junction row linking the subscriber `id` to the list `listId`. */
    method RemoveMember(listId: Id, id: Id)
      requires listId in lists
      modifies this
      ensures State() == old(State()).(lists := old(lists)[listId := old(lists)[listId].(members := old(lists)[listId].members - {id})])
    {
      lists := lists[listId := lists[listId].(members := lists[listId].members - {id})];
    }

    /** `campaignsRepository.save(campaign)` of a new campaign. */
    method InsertCampaign(campaign: Campaign) returns (id: Id)
      modifies this
      ensures id == old(nextId)
      ensures State() == old(State()).(campaigns := old(campaigns)[id := campaign], nextId := old(nextId) + 1)
    {
      id := nextId;
      campaigns := campaigns[id := campaign];
      nextId := nextId + 1;
    }

    /** `campaignsRepository.save(campaign)` of a stored campaign. */
    method SaveCampaign(id: Id, campaign: Campaign)
      modifies this
      ensures State() == old(State()).(campaigns := old(campaigns)[id := campaign])
    {
      campaigns := campaigns[id := campaign];
    }
  }
}
