/** What each operation of `ListsService` does to the database and returns, as functions of
    the state before it; `ListsService` carries out the same steps on a `Store`. */
module Lists {
  import opened Errors
  import opened Entities
  import opened Segments

  // ----- membership -----

  /** `addSubscriber(listId, subscriberId, organizationId)`, with the list it returns. */
  function AddSubscriber(db: Db, listId: Id, subscriberId: Id, org: OrgId): (r: (Db, Result<List>))
    ensures !ListInOrg(db, listId, org) ==> r.1 == Err(ListNotFound)
    ensures ListInOrg(db, listId, org) && !SubscriberInOrg(db, subscriberId, org) ==> r.1 == Err(SubscriberNotFound)
    ensures (&& ListInOrg(db, listId, org) && SubscriberInOrg(db, subscriberId, org)
             && subscriberId in db.lists[listId].members) ==> r.1 == Err(AlreadyInList)
    ensures r.1.Ok? <==> (&& ListInOrg(db, listId, org) && SubscriberInOrg(db, subscriberId, org)
                          && subscriberId !in db.lists[listId].members)
    ensures r.1.Err? ==> r.0 == db
    ensures r.1.Ok? ==>
      && r.1.value.members == db.lists[listId].members + {subscriberId}
      && r.1.value == db.lists[listId].(members := r.1.value.members)
      && r.0 == db.(lists := db.lists[listId := r.1.value])
    ensures db.Valid() ==> r.0.Valid()
  {
    if !ListInOrg(db, listId, org) then (db, Err(ListNotFound))
    else if !SubscriberInOrg(db, subscriberId, org) then (db, Err(SubscriberNotFound))
    else if subscriberId in db.lists[listId].members then (db, Err(AlreadyInList))
    else
      var list := db.lists[listId];
      var list' := list.(members := list.members + {subscriberId});
      (db.(lists := db.lists[listId := list']), Ok(list'))
  }

  /** `removeSubscriber(listId, subscriberId, organizationId)`, with the list it returns.
      Removing a subscriber that is not a member changes nothing and succeeds. */
  function RemoveSubscriber(db: Db, listId: Id, subscriberId: Id, org: OrgId): (r: (Db, Result<List>))
    ensures !ListInOrg(db, listId, org) ==> r.1 == Err(ListNotFound)
    ensures ListInOrg(db, listId, org) && !SubscriberInOrg(db, subscriberId, org) ==> r.1 == Err(SubscriberNotFound)
    ensures r.1.Ok? <==> ListInOrg(db, listId, org) && SubscriberInOrg(db, subscriberId, org)
    ensures r.1.Err? ==> r.0 == db
    ensures r.1.Ok? ==>
      && r.1.value.members == db.lists[listId].members - {subscriberId}
      && r.1.value == db.lists[listId].(members := r.1.value.members)
      && r.0 == db.(lists := db.lists[listId := r.1.value])
    ensures db.Valid() ==> r.0.Valid()
  {
    if !ListInOrg(db, listId, org) then (db, Err(ListNotFound))
    else if !SubscriberInOrg(db, subscriberId, org) then (db, Err(SubscriberNotFound))
    else
      var list := db.lists[listId];
      var list' := list.(members := list.members - {subscriberId});
      (db.(lists := db.lists[listId := list']), Ok(list'))
  }

  /** Removing a subscriber just added restores the database. */
  lemma RemoveUndoesAdd(db: Db, listId: Id, subscriberId: Id, org: OrgId)
    requires AddSubscriber(db, listId, subscriberId, org).1.Ok?
    ensures RemoveSubscriber(AddSubscriber(db, listId, subscriberId, org).0, listId, subscriberId, org).0 == db
  {
    var list := db.lists[listId];
    var db' := AddSubscriber(db, listId, subscriberId, org).0;
    assert db'.lists[listId].members - {subscriberId} == list.members;
    assert db'.lists[listId := list] == db.lists;
  }

  /** Adding back a member just removed restores the database. */
  lemma AddUndoesRemove(db: Db, listId: Id, subscriberId: Id, org: OrgId)
    requires RemoveSubscriber(db, listId, subscriberId, org).1.Ok?
    requires subscriberId in db.lists[listId].members
    ensures AddSubscriber(RemoveSubscriber(db, listId, subscriberId, org).0, listId, subscriberId, org).0 == db
  {
    var list := db.lists[listId];
    var db' := RemoveSubscriber(db, listId, subscriberId, org).0;
    assert db'.lists[listId].members + {subscriberId} == list.members;
    assert db'.lists[listId := list] == db.lists;
  }

  /** The private `addSubscribersToList(listId, subscriberIds)`: looks the list up by id
      alone, then links those of the ids that name a stored subscriber, of any organisation. */
  function AddSubscribersToList(db: Db, listId: Id, ids: seq<Id>): (r: (Db, Result<()>))
    ensures listId !in db.lists ==> r == (db, Err(ListNotFound))
    ensures listId in db.lists ==>
      && r.1.Ok?
      && r.0.lists.Keys == db.lists.Keys
      && (forall id :: id in r.0.lists[listId].members <==>
            id in db.lists[listId].members || (id in ids && id in db.subscribers))
      && r.0.lists[listId] == db.lists[listId].(members := r.0.lists[listId].members)
      && (forall l :: l in db.lists && l != listId ==> r.0.lists[l] == db.lists[l])
      && r.0 == db.(lists := r.0.lists)
    ensures db.Valid() ==> r.0.Valid()
  {
    if listId !in db.lists then (db, Err(ListNotFound))
    else (db.(lists := Link(db.lists, listId, set id | id in ids && id in db.subscribers)), Ok(()))
  }

  // ----- segment rules -----

  /** `addSegmentRule(listId, organizationId, rule)`, with the list it returns. */
  function AddSegmentRule(db: Db, listId: Id, org: OrgId, rule: Rule): (r: (Db, Result<List>))
    ensures !ListInOrg(db, listId, org) ==> r == (db, Err(ListNotFound))
    ensures ListInOrg(db, listId, org) && rule.field !in db.lists[listId].customFields ==>
      r == (db, Err(UnknownField(rule.field)))
    ensures r.1.Ok? <==> ListInOrg(db, listId, org) && rule.field in db.lists[listId].customFields
    ensures r.1.Ok? ==>
      && r.1.value.segmentRules == Some(RulesOf(db.lists[listId]) + [rule])
      && r.1.value == db.lists[listId].(segmentRules := r.1.value.segmentRules)
      && r.0 == db.(lists := db.lists[listId := r.1.value])
    ensures r.1.Ok? && db.lists[listId].segmentRules.None? ==> r.1.value.segmentRules == Some([rule])
    ensures db.Valid() ==> r.0.Valid()
  {
    if !ListInOrg(db, listId, org) then (db, Err(ListNotFound))
    else
      var list := db.lists[listId];
      if rule.field !in list.customFields then (db, Err(UnknownField(rule.field)))
      else
        var list' := list.(segmentRules := Some(RulesOf(list) + [rule]));
        assert list.segmentRules.None? ==> RulesOf(list) + [rule] == [rule];
        assert list'.members == list.members;
        (db.(lists := db.lists[listId := list']), Ok(list'))
  }

  /** The rules already on the list keep their places: adding a rule only appends. */
  lemma AddSegmentRuleKeepsEarlier(db: Db, listId: Id, org: OrgId, rule: Rule)
    requires AddSegmentRule(db, listId, org, rule).1.Ok?
    ensures var rules := RulesOf(AddSegmentRule(db, listId, org, rule).1.value);
      && |rules| == |RulesOf(db.lists[listId])| + 1
      && rules[..|rules| - 1] == RulesOf(db.lists[listId])
      && rules[|rules| - 1] == rule
  {
    var rules := RulesOf(AddSegmentRule(db, listId, org, rule).1.value);
    assert rules == RulesOf(db.lists[listId]) + [rule];
  }

  /** A list's segment after adding a rule is contained in its segment before, every
      subscriber in it satisfies the new rule, and a segment that could not be resolved
      before cannot be resolved after. */
  lemma AddSegmentRuleNarrows(db: Db, listId: Id, org: OrgId, rule: Rule)
    requires AddSegmentRule(db, listId, org, rule).1.Ok?
    ensures var after := Resolve(AddSegmentRule(db, listId, org, rule).0, listId, org);
      after.Ok? ==>
        && Resolve(db, listId, org).Ok? && after.value <= Resolve(db, listId, org).value
        && forall s :: s in after.value ==> s in db.subscribers && Matches(db.subscribers[s].customFields, rule)
  {
    var rules := RulesOf(db.lists[listId]);
    var db' := AddSegmentRule(db, listId, org, rule).0;
    ResolveNarrows(db, listId, org, [rule]);
    assert db' == WithRules(db, listId, rules + [rule]);
    assert RulesOf(db'.lists[listId]) == rules + [rule];
    var after := Resolve(db', listId, org);
    if after.Ok? {
      forall s | s in after.value
        ensures s in db.subscribers && Matches(db.subscribers[s].customFields, rule)
      {
        MatchesAllAppend(db.subscribers[s].customFields, rules, rule);
      }
    }
  }

  // ----- CSV import -----

  /** The import saves and links the rows in slices of this many. */
  const BatchSize: nat := 100

  function Min(a: int, b: int): int {
    if a <= b then a else b
  }

  /** A parsed CSV record becomes a subscriber of the organisation: its `email` column, when
      present, is the email, and every other column, with its raw text, a custom field. */
  function RowToDraft(record: map<string, string>, org: OrgId): (d: Draft)
    ensures d.email.Some? <==> "email" in record
    ensures d.email.Some? ==> d.email.value == record["email"]
    ensures d.organizationId == org
    ensures d.customFields.Keys == record.Keys - {"email"}
    ensures forall k :: k in d.customFields ==> d.customFields[k] == record[k]
  {
    Draft(if "email" in record then Some(record["email"]) else None, org, record - {"email"})
  }

  function Drafts(records: seq<map<string, string>>, org: OrgId): seq<Draft> {
    seq(|records|, i requires 0 <= i < |records| => RowToDraft(records[i], org))
  }

  /** The state an import reaches, how many leading rows it committed, and how it ended. */
  datatype ImportOutcome = ImportOutcome(db: Db, committed: nat, result: Result<()>)

  /** The batch loop run over `drafts` for the list `listId`: each slice of `BatchSize` rows is
      inserted in one statement, then linked to the list; the first slice that fails ends the
      import with its error, leaving the slices before it committed and linked. */
  function ImportFrom(db: Db, listId: Id, drafts: seq<Draft>): (o: ImportOutcome)
    ensures o.committed <= |drafts|
    ensures o.result.Ok? <==> o.committed == |drafts|
    ensures HaveEmails(drafts[..o.committed])
    ensures o.db == Commit(db, listId, drafts[..o.committed])
    decreases |drafts|
  {
    if drafts == [] then
      EmptyCommit(db, listId);
      assert drafts[..0] == [];
      ImportOutcome(db, 0, Ok(()))
    else
      var n := Min(|drafts|, BatchSize);
      var batch := drafts[..n];
      match BatchFault(Emails(db), batch)
      case Some(fault) =>
        EmptyCommit(db, listId);
        assert drafts[..0] == [];
        ImportOutcome(db, 0, Err(Database(fault)))
      case None =>
        BatchFaultMeaning(Emails(db), batch);
        var rest := ImportFrom(Commit(db, listId, batch), listId, drafts[n..]);
        ImportStep(db, listId, drafts, n, rest.committed);
        ImportOutcome(rest.db, n + rest.committed, rest.result)
  }

  /** One turn of the batch loop at row `i`: the slice from `i` is inserted and linked, and
      the loop goes on from the slice's end, or the insert fails and the import ends. */
  lemma ImportFromUnfold(db: Db, listId: Id, drafts: seq<Draft>, i: nat)
    requires i < |drafts|
    ensures var end := Min(i + BatchSize, |drafts|);
      var batch := drafts[i..end];
      var fault := BatchFault(Emails(db), batch);
      var o := ImportFrom(db, listId, drafts[i..]);
      && (fault.Some? ==> o.db == db && o.result == Err(Database(fault.value)))
      && (fault.None? ==>
            && HaveEmails(batch)
            && var rest := ImportFrom(Commit(db, listId, batch), listId, drafts[end..]);
               o.db == rest.db && o.result == rest.result)
  {
    var end := Min(i + BatchSize, |drafts|);
    var batch := drafts[i..end];
    assert drafts[i..][..Min(|drafts| - i, BatchSize)] == batch;
    assert drafts[i..][Min(|drafts| - i, BatchSize)..] == drafts[end..];
    BatchFaultMeaning(Emails(db), batch);
  }

  /** An import stops only at a slice boundary, at the first slice whose insert the database
      rejects, with that insert's error, reached from the state the earlier slices left. */
  lemma {:induction false} ImportFromFails(db: Db, listId: Id, drafts: seq<Draft>)
    ensures var o := ImportFrom(db, listId, drafts);
      o.result.Err? ==>
        && o.committed % BatchSize == 0
        && o.result.error.Database?
        && BatchFault(Emails(o.db), drafts[o.committed..Min(o.committed + BatchSize, |drafts|)]) == Some(o.result.error.fault)
    decreases |drafts|
  {
    if drafts != [] {
      var n := Min(|drafts|, BatchSize);
      var batch := drafts[..n];
      if BatchFault(Emails(db), batch).None? {
        BatchFaultMeaning(Emails(db), batch);
        var db1 := Commit(db, listId, batch);
        var rest := ImportFrom(db1, listId, drafts[n..]);
        var o := ImportFrom(db, listId, drafts);
        assert o == ImportOutcome(rest.db, n + rest.committed, rest.result);
        ImportFromFails(db1, listId, drafts[n..]);
        if rest.result.Err? {
          var c := rest.committed;
          assert n == BatchSize;
          NextBoundary(c);
          NextSlice(drafts, n, c);
        }
      } else {
        assert drafts[0..Min(BatchSize, |drafts|)] == batch;
      }
    }
  }

  lemma NextBoundary(c: nat)
    requires c % BatchSize == 0
    ensures (BatchSize + c) % BatchSize == 0
  {
  }

  /** The slice at `c` in what follows the first `n` rows is the slice at `n + c`. */
  lemma NextSlice(drafts: seq<Draft>, n: nat, c: nat)
    requires n <= |drafts| && c <= |drafts| - n
    ensures drafts[n + c..Min(n + c + BatchSize, |drafts|)] == drafts[n..][c..Min(c + BatchSize, |drafts| - n)]
  {
  }

  /** An import keeps every guarantee of the schema. */
  lemma {:induction false} ImportFromValid(db: Db, listId: Id, drafts: seq<Draft>)
    requires db.Valid()
    ensures ImportFrom(db, listId, drafts).db.Valid()
    decreases |drafts|
  {
    if drafts != [] {
      var n := Min(|drafts|, BatchSize);
      if BatchFault(Emails(db), drafts[..n]).None? {
        BatchFaultMeaning(Emails(db), drafts[..n]);
        CommitValid(db, listId, drafts[..n]);
        ImportFromValid(Commit(db, listId, drafts[..n]), listId, drafts[n..]);
      }
    }
  }

  lemma EmptyCommit(db: Db, listId: Id)
    ensures HaveEmails([])
    ensures Commit(db, listId, []) == db
  {
    assert IdRange(db.nextId, 0) == {};
    assert Saved([], db.nextId) == map[];
    assert db.subscribers + map[] == db.subscribers;
    if listId in db.lists {
      assert db.lists[listId].members + {} == db.lists[listId].members;
    }
  }

  /** Committing the first slice and then `c` rows of the remainder commits `n + c` rows. */
  lemma ImportStep(db: Db, listId: Id, drafts: seq<Draft>, n: nat, c: nat)
    requires n <= |drafts| && c <= |drafts| - n
    requires HaveEmails(drafts[..n]) && HaveEmails(drafts[n..][..c])
    ensures HaveEmails(drafts[..n + c])
    ensures Commit(Commit(db, listId, drafts[..n]), listId, drafts[n..][..c]) == Commit(db, listId, drafts[..n + c])
  {
    CommitTwice(db, listId, drafts[..n], drafts[n..][..c]);
    assert drafts[..n] + drafts[n..][..c] == drafts[..n + c];
  }

  /** `importSubscribersFromCsv(listId, organizationId, file)` given the parsed records. */
  function ImportCsv(db: Db, listId: Id, org: OrgId, records: seq<map<string, string>>): (o: ImportOutcome)
    ensures !ListInOrg(db, listId, org) ==> o == ImportOutcome(db, 0, Err(ListNotFound))
    ensures db.Valid() ==> o.db.Valid()
  {
    if !ListInOrg(db, listId, org) then ImportOutcome(db, 0, Err(ListNotFound))
    else
      assert db.Valid() ==> ImportFrom(db, listId, Drafts(records, org)).db.Valid() by {
        if db.Valid() { ImportFromValid(db, listId, Drafts(records, org)); }
      }
      ImportFrom(db, listId, Drafts(records, org))
  }

  /** Once the import has committed some rows, row `i` among them is stored under the `i`-th
      fresh id, built from record `i`, and is a member of the list; no other subscriber is
      added or changed. */
  lemma ImportCommitsInOrder(db: Db, listId: Id, org: OrgId, records: seq<map<string, string>>)
    requires db.Valid() && ListInOrg(db, listId, org)
    ensures var o := ImportCsv(db, listId, org, records);
      && (o.result.Ok? ==> o.committed == |records|)
      && (o.result.Err? ==> o.committed < |records|)
      && o.db.nextId == db.nextId + o.committed
      && (forall id :: id in o.db.subscribers <==> id in db.subscribers || db.nextId <= id < db.nextId + o.committed)
      && (forall id :: id in db.subscribers ==> o.db.subscribers[id] == db.subscribers[id])
      && (forall i :: 0 <= i < o.committed ==>
            && RowToDraft(records[i], org).email.Some?
            && o.db.subscribers[db.nextId + i] == ToSubscriber(RowToDraft(records[i], org))
            && db.nextId + i in o.db.lists[listId].members)
  {
    var drafts := Drafts(records, org);
    var o := ImportFrom(db, listId, drafts);
    assert ImportCsv(db, listId, org, records) == o;
    var c := o.committed;
    var done := drafts[..c];
    var db' := Commit(db, listId, done);
    assert o.db == db';
    CommitKeeps(db, listId, done);
    CommitRows(db, listId, done);
    CommitLinks(db, listId, done);
    forall i | 0 <= i < c
      ensures && RowToDraft(records[i], org).email.Some?
              && db'.subscribers[db.nextId + i] == ToSubscriber(RowToDraft(records[i], org))
              && db.nextId + i in db'.lists[listId].members
    {
      assert done[i] == RowToDraft(records[i], org);
      assert db.nextId + i in IdRange(db.nextId, c);
    }
  }
}
