/** What each operation of `SubscribersService` does to the database and returns, as
    functions of the state before it. */
module Subscribers {
  import opened Errors
  import opened Entities
  import opened Text
  import opened SqlLike
  import Lists

  /** The body of a create request: email, organisation and optional custom fields. */
  datatype SubscriberInput = SubscriberInput(email: string, organizationId: OrgId, customFields: Option<map<string, string>>)

  /** `create`'s catch block: a BadRequest passes through, any other failure is wrapped. */
  function CreateError(e: Error): (r: Error)
    ensures IsBadRequest(r)
    ensures IsBadRequest(e) ==> r == e
    ensures !IsBadRequest(e) ==> r.CreateFailed? && r.cause == e
  {
    if IsBadRequest(e) then e else CreateFailed(e)
  }

  /** `create(listId, input)`: the id of the new subscriber, or the failure. */
  function Create(db: Db, listId: Id, input: SubscriberInput): (r: (Db, Result<Id>))
    ensures EmailInOrg(db, input.email, input.organizationId) ==> r == (db, Err(SubscriberExists))
    ensures !EmailInOrg(db, input.email, input.organizationId) && input.email in Emails(db) ==>
      r == (db, Err(CreateFailed(Database(UniqueEmail))))
    ensures r.1.Err? ==> IsBadRequest(r.1.error)
    ensures input.email !in Emails(db) ==>
      && r.0.subscribers == db.subscribers[db.nextId := Subscriber(input.email, input.organizationId,
                                                                   if input.customFields.Some? then input.customFields.value else map[])]
      && r.0.nextId == db.nextId + 1
      && r.0.campaigns == db.campaigns
    ensures input.email !in Emails(db) && !ListInOrg(db, listId, input.organizationId) ==>
      && r.0.lists == db.lists
      && r.1 == Err(CreateFailed(ListNotFound))
    ensures db.Valid() && input.email !in Emails(db) && ListInOrg(db, listId, input.organizationId) ==>
      && r.1 == Ok(db.nextId)
      && r.0.lists == db.lists[listId := db.lists[listId].(members := db.lists[listId].members + {db.nextId})]
  {
    if EmailInOrg(db, input.email, input.organizationId) then
      (db, Err(SubscriberExists))
    else if input.email in Emails(db) then
      (db, Err(CreateError(Database(UniqueEmail))))
    else
      var subscriber := Subscriber(input.email, input.organizationId,
                                   if input.customFields.Some? then input.customFields.value else map[]);
      var id := db.nextId;
      var saved := db.(subscribers := db.subscribers[id := subscriber], nextId := id + 1);
      // `addSubscriber` on the row just saved: the row is in the organisation, so only the
      // list lookup and the membership test can fail (see CreateLinks)
      if !ListInOrg(saved, listId, input.organizationId) then
        (saved, Err(CreateError(ListNotFound)))
      else if id in saved.lists[listId].members then
        (saved, Err(CreateError(AlreadyInList)))
      else
        (saved.(lists := saved.lists[listId := saved.lists[listId].(members := saved.lists[listId].members + {id})]), Ok(id))
  }

  /** The linking step of `create` is `addSubscriber` applied to the row just saved: the state
      and error it leaves are those `addSubscriber` gives, its error passed through the catch. */
  lemma CreateLinks(db: Db, listId: Id, input: SubscriberInput)
    requires input.email !in Emails(db)
    ensures var saved := db.(subscribers := db.subscribers[db.nextId := Subscriber(input.email, input.organizationId,
                                              if input.customFields.Some? then input.customFields.value else map[])],
                             nextId := db.nextId + 1);
      var linked := Lists.AddSubscriber(saved, listId, db.nextId, input.organizationId);
      var r := Create(db, listId, input);
      && r.0 == linked.0
      && (linked.1.Ok? ==> r.1 == Ok(db.nextId))
      && (linked.1.Err? ==> r.1 == Err(CreateError(linked.1.error)))
  {
    assert !EmailInOrg(db, input.email, input.organizationId);
  }

  /** Create keeps the database valid: the unique index refuses a stored email. */
  lemma CreateValid(db: Db, listId: Id, input: SubscriberInput)
    requires db.Valid()
    ensures Create(db, listId, input).0.Valid()
  {
    if !EmailInOrg(db, input.email, input.organizationId) && input.email !in Emails(db) {
      var id := db.nextId;
      var saved := db.(subscribers := db.subscribers[id := Subscriber(input.email, input.organizationId,
                                   if input.customFields.Some? then input.customFields.value else map[])],
                       nextId := id + 1);
      forall a | a in db.subscribers ensures db.subscribers[a].email != input.email {
        assert db.subscribers[a].email in Emails(db);
      }
      assert saved.Valid();
    }
  }

  /** Once a subscriber is created, a second create with its email in the same organisation
      is refused and changes nothing. */
  lemma CreateTwiceRefused(db: Db, listId: Id, other: Id, input: SubscriberInput)
    requires input.email !in Emails(db)
    ensures var db' := Create(db, listId, input).0;
      Create(db', other, input) == (db', Err(SubscriberExists))
  {
    var db' := Create(db, listId, input).0;
    assert db'.subscribers[db.nextId].email == input.email;
  }

  /** The service checks emails only within one organisation, but the unique index on the
      email column spans all of them: an email stored in another organisation is refused. */
  lemma CreateRefusesEmailOfOtherOrganisation(db: Db, listId: Id, holder: Id, input: SubscriberInput)
    requires db.Valid() && holder in db.subscribers
    requires db.subscribers[holder].email == input.email
    requires db.subscribers[holder].organizationId != input.organizationId
    ensures Create(db, listId, input) == (db, Err(CreateFailed(Database(UniqueEmail))))
  {
    assert input.email in Emails(db);
  }

  /** `findOne(id, organizationId)`. */
  function FindOne(db: Db, id: Id, org: OrgId): (r: Result<Subscriber>)
    ensures r.Ok? <==> SubscriberInOrg(db, id, org)
    ensures r.Ok? ==> r.value == db.subscribers[id] && r.value.organizationId == org
    ensures r.Err? ==> r.error == SubscriberNotFound
  {
    if SubscriberInOrg(db, id, org) then Ok(db.subscribers[id]) else Err(SubscriberNotFound)
  }

  /** `update`'s catch block: NotFound and BadRequest pass through, any other failure is wrapped. */
  function UpdateError(e: Error): (r: Error)
    ensures IsNotFound(r) || IsBadRequest(r)
    ensures IsNotFound(e) || IsBadRequest(e) ==> r == e
    ensures !(IsNotFound(e) || IsBadRequest(e)) ==> r.UpdateFailed? && r.cause == e
  {
    if IsNotFound(e) || IsBadRequest(e) then e else UpdateFailed(e)
  }

  /** The fields of an update request; absent fields are None. */
  datatype Changes = Changes(email: Option<string>, customFields: Option<map<string, string>>)

  /** Another subscriber of the organisation has this email. */
  predicate EmailTakenInOrg(db: Db, email: string, org: OrgId, id: Id) {
    exists other :: other in db.subscribers && db.subscribers[other].email == email
                    && db.subscribers[other].organizationId == org && other != id
  }

  /** The subscriber with the supplied fields written over its own. */
  function Apply(s: Subscriber, changes: Changes): Subscriber {
    s.(email := if changes.email.Some? then changes.email.value else s.email,
       customFields := if changes.customFields.Some? then changes.customFields.value else s.customFields)
  }

  /** `update(id, organizationId, changes)`: the saved subscriber, or the failure. Only a
      non-empty new email is checked against the organisation. */
  function Update(db: Db, id: Id, org: OrgId, changes: Changes): (r: (Db, Result<Subscriber>))
    ensures !SubscriberInOrg(db, id, org) ==> r == (db, Err(SubscriberNotFound))
    ensures SubscriberInOrg(db, id, org) ==>
      (r.1 == Err(EmailTaken) <==>
         changes.email.Some? && changes.email.value != "" && EmailTakenInOrg(db, changes.email.value, org, id))
    ensures SubscriberInOrg(db, id, org) && r.1 != Err(EmailTaken) ==>
      (r.1.Ok? <==> !EmailHeldByOther(db, Apply(db.subscribers[id], changes).email, Some(id)))
    ensures r.1.Err? ==> r.0 == db
    ensures r.1.Ok? ==>
      && SubscriberInOrg(db, id, org)
      && r.1.value.email == (if changes.email.Some? then changes.email.value else db.subscribers[id].email)
      && r.1.value.customFields == (if changes.customFields.Some? then changes.customFields.value
                                    else db.subscribers[id].customFields)
      && r.1.value.organizationId == org
      && r.0 == db.(subscribers := db.subscribers[id := r.1.value])
    ensures db.Valid() ==> r.0.Valid()
  {
    if !SubscriberInOrg(db, id, org) then
      (db, Err(SubscriberNotFound))
    else if changes.email.Some? && changes.email.value != "" && EmailTakenInOrg(db, changes.email.value, org, id) then
      (db, Err(EmailTaken))
    else
      var s := Apply(db.subscribers[id], changes);
      if EmailHeldByOther(db, s.email, Some(id)) then
        (db, Err(UpdateError(Database(UniqueEmail))))
      else
        (db.(subscribers := db.subscribers[id := s]), Ok(s))
  }

  /** A successful update is what a later `findOne` returns. */
  lemma UpdateThenFind(db: Db, id: Id, org: OrgId, changes: Changes)
    requires Update(db, id, org, changes).1.Ok?
    ensures var r := Update(db, id, org, changes);
      FindOne(r.0, id, org) == Ok(r.1.value)
  {
  }

  /** Writing back a subscriber's own email is never refused. */
  lemma UpdateOwnEmail(db: Db, id: Id, org: OrgId, fields: Option<map<string, string>>)
    requires db.Valid() && SubscriberInOrg(db, id, org)
    ensures Update(db, id, org, Changes(Some(db.subscribers[id].email), fields)).1.Ok?
  {
  }

  /** An update that supplies no fields stores the subscriber unchanged. */
  lemma UpdateNothing(db: Db, id: Id, org: OrgId)
    requires db.Valid() && SubscriberInOrg(db, id, org)
    ensures Update(db, id, org, Changes(None, None)) == (db, Ok(db.subscribers[id]))
  {
    assert db.subscribers[id := db.subscribers[id]] == db.subscribers;
  }

  /** `remove(id, organizationId)`. */
  function Remove(db: Db, id: Id, org: OrgId): (r: (Db, Result<()>))
    ensures !SubscriberInOrg(db, id, org) ==> r == (db, Err(SubscriberNotFound))
    ensures SubscriberInOrg(db, id, org) ==>
      && r.1.Ok?
      && r.0.subscribers == db.subscribers - {id}
      && r.0.lists.Keys == db.lists.Keys
      && (forall l :: l in db.lists ==> r.0.lists[l] == db.lists[l].(members := db.lists[l].members - {id}))
      && r.0.campaigns == db.campaigns
      && r.0.nextId == db.nextId
    ensures db.Valid() ==> r.0.Valid()
  {
    if !SubscriberInOrg(db, id, org) then (db, Err(SubscriberNotFound))
    else (DeleteSubscriberRow(db, id), Ok(()))
  }

  /** After a removal, `findOne` no longer finds the subscriber, and no list holds it. */
  lemma RemoveThenFind(db: Db, id: Id, org: OrgId)
    requires Remove(db, id, org).1.Ok?
    ensures var db' := Remove(db, id, org).0;
      && FindOne(db', id, org) == Err(SubscriberNotFound)
      && forall l :: l in db'.lists ==> id !in db'.lists[l].members
  {
  }

  // ----- bulkImport -----

  /** One failed row of a bulk import: the email it carried and why it failed. */
  datatype RowError = RowError(email: string, error: Error)

  datatype BulkResult = BulkResult(success: nat, failed: nat, errors: seq<RowError>)

  /** Every row is created in turn, each seeing the state the earlier ones left, whatever
      became of them; the outcome of each row, in order. */
  function Attempts(db: Db, listId: Id, org: OrgId, rows: seq<SubscriberInput>): (r: (Db, seq<Result<Id>>))
    ensures |r.1| == |rows|
    decreases |rows|
  {
    if rows == [] then (db, [])
    else
      var before := Attempts(db, listId, org, rows[..|rows| - 1]);
      var last := Create(before.0, listId, rows[|rows| - 1].(organizationId := org));
      (last.0, before.1 + [last.1])
  }

  /** The counters and the error list `bulkImport` accumulates over the outcomes. */
  function Tally(rows: seq<SubscriberInput>, outcomes: seq<Result<Id>>): (t: BulkResult)
    requires |rows| == |outcomes|
    ensures t.success + t.failed == |rows|
    ensures |t.errors| == t.failed
    decreases |rows|
  {
    if rows == [] then BulkResult(0, 0, [])
    else
      var n := |rows| - 1;
      var t := Tally(rows[..n], outcomes[..n]);
      match outcomes[n]
      case Ok(_) => t.(success := t.success + 1)
      case Err(e) => BulkResult(t.success, t.failed + 1, t.errors + [RowError(rows[n].email, e)])
  }

  /** Every row's create keeps the database valid, so the whole import does. */
  lemma {:induction false} AttemptsValid(db: Db, listId: Id, org: OrgId, rows: seq<SubscriberInput>)
    ensures db.Valid() ==> Attempts(db, listId, org, rows).0.Valid()
    decreases |rows|
  {
    if rows != [] && db.Valid() {
      var n := |rows| - 1;
      AttemptsValid(db, listId, org, rows[..n]);
      CreateValid(Attempts(db, listId, org, rows[..n]).0, listId, rows[n].(organizationId := org));
    }
  }

  /** One more row attempted: its create runs on the state the earlier rows left. */
  lemma AttemptsStep(db: Db, listId: Id, org: OrgId, rows: seq<SubscriberInput>, i: nat, step: (Db, Result<Id>))
    requires i < |rows|
    requires step == Create(Attempts(db, listId, org, rows[..i]).0, listId, rows[i].(organizationId := org))
    ensures Attempts(db, listId, org, rows[..i + 1]) == (step.0, Attempts(db, listId, org, rows[..i]).1 + [step.1])
  {
    assert rows[..i + 1][..i] == rows[..i];
  }

  /** One more outcome tallied. */
  lemma TallyStep(rows: seq<SubscriberInput>, i: nat, outcomes: seq<Result<Id>>, outcome: Result<Id>)
    requires i < |rows| && |outcomes| == i
    ensures var t := Tally(rows[..i], outcomes);
      Tally(rows[..i + 1], outcomes + [outcome]) ==
        if outcome.Ok? then t.(success := t.success + 1)
        else BulkResult(t.success, t.failed + 1, t.errors + [RowError(rows[i].email, outcome.error)])
  {
    assert rows[..i + 1][..i] == rows[..i];
    assert (outcomes + [outcome])[..i] == outcomes;
  }

  /** The positions of the failed outcomes, in increasing order. */
  function Failures(outcomes: seq<Result<Id>>): (f: seq<nat>)
    ensures forall k :: 0 <= k < |f| ==> f[k] < |outcomes| && outcomes[f[k]].Err?
    ensures forall k, m :: 0 <= k < m < |f| ==> f[k] < f[m]
    ensures forall i :: 0 <= i < |outcomes| && outcomes[i].Err? ==> i in f
    decreases |outcomes|
  {
    if outcomes == [] then []
    else
      var n := |outcomes| - 1;
      var f := Failures(outcomes[..n]);
      if outcomes[n].Err? then f + [n] else f
  }

  /** The errors of a bulk import are the failed rows, in input order, each with the email
      of its row and the error its create raised. */
  lemma {:induction false} TallyErrors(rows: seq<SubscriberInput>, outcomes: seq<Result<Id>>)
    requires |rows| == |outcomes|
    ensures var t, f := Tally(rows, outcomes), Failures(outcomes);
      && |t.errors| == |f|
      && forall k :: 0 <= k < |f| ==> t.errors[k] == RowError(rows[f[k]].email, outcomes[f[k]].error)
    decreases |rows|
  {
    if rows != [] {
      var n := |rows| - 1;
      TallyErrors(rows[..n], outcomes[..n]);
      var t0, f0 := Tally(rows[..n], outcomes[..n]), Failures(outcomes[..n]);
      var t, f := Tally(rows, outcomes), Failures(outcomes);
      if outcomes[n].Err? {
        assert f == f0 + [n];
        assert t.errors == t0.errors + [RowError(rows[n].email, outcomes[n].error)];
      } else {
        assert f == f0 && t.errors == t0.errors;
      }
      forall k | 0 <= k < |f|
        ensures t.errors[k] == RowError(rows[f[k]].email, outcomes[f[k]].error)
      {
        if k < |f0| {
          assert f[k] == f0[k] && t.errors[k] == t0.errors[k];
          assert rows[..n][f0[k]] == rows[f0[k]];
          assert outcomes[..n][f0[k]] == outcomes[f0[k]];
        }
      }
    }
  }

  /** `bulkImport(listId, organizationId, rows)`: the state after every row was attempted,
      and the tally. */
  function BulkImport(db: Db, listId: Id, org: OrgId, rows: seq<SubscriberInput>): (r: (Db, BulkResult))
    ensures r.1.success + r.1.failed == |rows|
    ensures |r.1.errors| == r.1.failed
    ensures db.Valid() ==> r.0.Valid()
  {
    var attempts := Attempts(db, listId, org, rows);
    AttemptsValid(db, listId, org, rows);
    (attempts.0, Tally(rows, attempts.1))
  }

  /** Every subscriber stored in `before` is stored, unchanged, in `after`. */
  predicate KeepsRows(before: Db, after: Db) {
    forall k :: k in before.subscribers ==> k in after.subscribers && after.subscribers[k] == before.subscribers[k]
  }

  /** The rows attempted first keep their outcomes, and the subscribers they left stay
      stored as they were: a later create only adds a row under a fresh id. */
  lemma AttemptsPrefix(db: Db, listId: Id, org: OrgId, rows: seq<SubscriberInput>, n: nat)
    requires db.Valid() && n <= |rows|
    ensures var whole, part := Attempts(db, listId, org, rows), Attempts(db, listId, org, rows[..n]);
      whole.1[..n] == part.1 && KeepsRows(part.0, whole.0)
  {
    AttemptsOutcomesPrefix(db, listId, org, rows, n);
    AttemptsKeepRows(db, listId, org, rows, n);
  }

  lemma {:induction false} AttemptsOutcomesPrefix(db: Db, listId: Id, org: OrgId, rows: seq<SubscriberInput>, n: nat)
    requires n <= |rows|
    ensures Attempts(db, listId, org, rows).1[..n] == Attempts(db, listId, org, rows[..n]).1
    decreases |rows|
  {
    if n == |rows| {
      assert rows[..n] == rows;
    } else {
      var m := |rows| - 1;
      assert rows[..m][..n] == rows[..n];
      AttemptsOutcomesPrefix(db, listId, org, rows[..m], n);
      var before := Attempts(db, listId, org, rows[..m]).1;
      var outcomes := Attempts(db, listId, org, rows).1;
      assert outcomes == before + [outcomes[m]];
      assert (before + [outcomes[m]])[..n] == before[..n];
    }
  }

  lemma {:induction false} AttemptsKeepRows(db: Db, listId: Id, org: OrgId, rows: seq<SubscriberInput>, n: nat)
    requires db.Valid() && n <= |rows|
    ensures KeepsRows(Attempts(db, listId, org, rows[..n]).0, Attempts(db, listId, org, rows).0)
    decreases |rows|
  {
    if n == |rows| {
      assert rows[..n] == rows;
    } else {
      var m := |rows| - 1;
      var prefix := rows[..m];
      assert prefix[..n] == rows[..n];
      AttemptsKeepRows(db, listId, org, prefix, n);
      AttemptsValid(db, listId, org, prefix);
      var before := Attempts(db, listId, org, prefix).0;
      var step := Create(before, listId, rows[m].(organizationId := org));
      AttemptsStep(db, listId, org, rows, m, step);
      assert rows[..m + 1] == rows;
      CreateKeeps(before, listId, rows[m].(organizationId := org));
      KeepsRowsTrans(Attempts(db, listId, org, rows[..n]).0, before, step.0);
    }
  }

  lemma KeepsRowsTrans(a: Db, b: Db, c: Db)
    requires KeepsRows(a, b) && KeepsRows(b, c)
    ensures KeepsRows(a, c)
  {
  }

  /** A create never alters a stored subscriber of a valid database. */
  lemma CreateKeeps(db: Db, listId: Id, input: SubscriberInput)
    requires db.Valid()
    ensures KeepsRows(db, Create(db, listId, input).0)
  {
    assert db.nextId !in db.subscribers;
  }

  /** The subscriber row `i` of a bulk import would create. */
  function RowSubscriber(row: SubscriberInput, org: OrgId): Subscriber {
    Subscriber(row.email, org, if row.customFields.Some? then row.customFields.value else map[])
  }

  /** Row `i` of a bulk import, if its email was new when its turn came, failed with the
      list error and yet left its subscriber stored under the id it was given. */
  predicate FreshRowKept(db: Db, listId: Id, org: OrgId, rows: seq<SubscriberInput>, i: nat)
    requires i < |rows|
  {
    var before := Attempts(db, listId, org, rows[..i]).0;
    var r := Attempts(db, listId, org, rows);
    rows[i].email !in Emails(before) ==>
      && r.1[i] == Err(CreateFailed(ListNotFound))
      && before.nextId in r.0.subscribers
      && r.0.subscribers[before.nextId] == RowSubscriber(rows[i], org)
  }

  /** With a list that is not in the organisation every row fails, yet each row whose email
      was new is stored: create saves before it links. */
  lemma {:induction false} BulkImportWithoutList(db: Db, listId: Id, org: OrgId, rows: seq<SubscriberInput>)
    requires !ListInOrg(db, listId, org)
    ensures var r := Attempts(db, listId, org, rows);
      && (forall i :: 0 <= i < |rows| ==> r.1[i].Err?)
      && r.0.lists == db.lists
      && db.subscribers.Keys <= r.0.subscribers.Keys
    ensures db.Valid() ==> forall i :: 0 <= i < |rows| ==> FreshRowKept(db, listId, org, rows, i)
    decreases |rows|, 1
  {
    if rows != [] {
      var n := |rows| - 1;
      BulkImportWithoutList(db, listId, org, rows[..n]);
      var before := Attempts(db, listId, org, rows[..n]);
      assert !ListInOrg(before.0, listId, org);
    }
    if db.Valid() {
      forall i | 0 <= i < |rows|
        ensures FreshRowKept(db, listId, org, rows, i)
      {
        FreshRowStep(db, listId, org, rows, i);
      }
    }
  }

  /** One row of `BulkImportWithoutList`'s second promise. */
  lemma FreshRowStep(db: Db, listId: Id, org: OrgId, rows: seq<SubscriberInput>, i: nat)
    requires !ListInOrg(db, listId, org) && db.Valid() && i < |rows|
    ensures FreshRowKept(db, listId, org, rows, i)
    decreases |rows|, 0
  {
    var before := Attempts(db, listId, org, rows[..i]);
    BulkImportWithoutList(db, listId, org, rows[..i]);
    var input := rows[i].(organizationId := org);
    var step := Create(before.0, listId, input);
    AttemptsStep(db, listId, org, rows, i, step);
    AttemptsPrefix(db, listId, org, rows, i + 1);
    if rows[i].email !in Emails(before.0) {
      assert !ListInOrg(before.0, listId, org);
      assert step.1 == Err(CreateFailed(ListNotFound));
      assert step.0.subscribers[before.0.nextId] == RowSubscriber(rows[i], org);
      var r := Attempts(db, listId, org, rows);
      assert r.1[..i + 1][i] == step.1;
    }
  }

  // ----- findAll -----

  /** The query string of `findAll`; page and limit default to 1 and 10. */
  datatype SubscriberQuery = SubscriberQuery(organizationId: OrgId, search: Option<string>, page: Option<nat>, limit: Option<nat>)

  /** The validation `findAll`'s query passes: page and limit, when given, are at least 1. */
  predicate ValidQuery(q: SubscriberQuery) {
    (q.page.Some? ==> q.page.value >= 1) && (q.limit.Some? ==> q.limit.value >= 1)
  }

  function PageNumber(q: SubscriberQuery): (n: nat)
    ensures ValidQuery(q) ==> n >= 1
    ensures q.page.None? ==> n == 1
  {
    if q.page.Some? then q.page.value else 1
  }

  function PageSize(q: SubscriberQuery): (n: nat)
    ensures ValidQuery(q) ==> n >= 1
    ensures q.limit.None? ==> n == 10
  {
    if q.limit.Some? then q.limit.value else 10
  }

  /** The search text, empty when none was given. */
  function SearchText(q: SubscriberQuery): string {
    if q.search.Some? then q.search.value else ""
  }

  /** The subscribers `findAll` selects before paging: those of the organisation and, when
      the search text is not empty, those whose email is `LIKE '%search%'`. */
  function Matching(db: Db, org: OrgId, search: string): set<Id> {
    set id | id in db.subscribers && db.subscribers[id].organizationId == org
             && (search == [] || Like("%" + search + "%", db.subscribers[id].email))
  }

  /** A search text free of LIKE's special characters selects the emails containing it,
      case-sensitively. */
  lemma SearchMeaning(db: Db, org: OrgId, search: string, id: Id)
    requires Plain(search) && search != []
    ensures id in Matching(db, org, search) <==>
      SubscriberInOrg(db, id, org) && IsSubstring(search, db.subscribers[id].email)
  {
    if id in db.subscribers {
      PlainInfix(search, db.subscribers[id].email);
    }
  }

  /** `skip((page - 1) * limit).take(limit)` over the rows in the order they come back. */
  function Page(rows: seq<Id>, page: nat, limit: nat): (p: seq<Id>)
    requires page >= 1 && limit >= 1
    ensures |p| <= limit
    ensures Skip(page, limit) <= |rows| ==> p <= rows[Skip(page, limit)..]
    ensures Skip(page, limit) + limit <= |rows| ==> |p| == limit
    ensures Skip(page, limit) >= |rows| ==> p == []
    ensures Skip(page, limit) < |rows| ==> |p| == Lists.Min(limit, |rows| - Skip(page, limit))
  {
    var skip := Skip(page, limit);
    if skip >= |rows| then [] else rows[skip..Lists.Min(skip + limit, |rows|)]
  }

  /** The rows before page `page`. */
  function Skip(page: nat, limit: nat): nat
    requires page >= 1
  {
    (page - 1) * limit
  }

  /** `Math.ceil(total / limit)`. */
  function TotalPages(total: nat, limit: nat): (n: nat)
    requires limit >= 1
    ensures n * limit >= total
    ensures n > 0 ==> (n - 1) * limit < total
  {
    (total + limit - 1) / limit
  }

  /** The first `k` pages, one after the other. */
  function FirstPages(rows: seq<Id>, limit: nat, k: nat): seq<Id>
    requires limit >= 1
  {
    if k == 0 then [] else FirstPages(rows, limit, k - 1) + Page(rows, k, limit)
  }

  /** The first `k` pages are the rows before page `k + 1`. */
  lemma {:induction false} FirstPagesPrefix(rows: seq<Id>, limit: nat, k: nat)
    requires limit >= 1
    ensures FirstPages(rows, limit, k) == rows[..Lists.Min(Skip(k + 1, limit), |rows|)]
    decreases k
  {
    if k > 0 {
      var j := k - 1;
      var before, after := Skip(j + 1, limit), Skip(k + 1, limit);
      SkipNext(k, limit);
      FirstPagesPrefix(rows, limit, j);
      PrefixGrows(rows, before, after, Page(rows, k, limit));
    }
  }

  /** A prefix of `rows` followed by the slice after it, clipped to `rows`, is a longer prefix. */
  lemma PrefixGrows(rows: seq<Id>, before: nat, after: nat, slice: seq<Id>)
    requires before <= after
    requires before < |rows| ==> slice == rows[before..Lists.Min(after, |rows|)]
    requires before >= |rows| ==> slice == []
    ensures rows[..Lists.Min(before, |rows|)] + slice == rows[..Lists.Min(after, |rows|)]
  {
    if before < |rows| {
      var end := Lists.Min(after, |rows|);
      assert rows[..before] + rows[before..end] == rows[..end];
    }
  }

  /** Each page starts `limit` rows after the one before it. */
  lemma SkipNext(k: nat, limit: nat)
    requires k >= 1
    ensures Skip(k + 1, limit) == Skip(k, limit) + limit
  {
  }

  /** Reading pages 1 to `TotalPages` returns every row once, in order; later pages are empty. */
  lemma PagesCoverRows(rows: seq<Id>, limit: nat)
    requires limit >= 1
    ensures FirstPages(rows, limit, TotalPages(|rows|, limit)) == rows
    ensures forall page :: page > TotalPages(|rows|, limit) ==> Page(rows, page, limit) == []
  {
    var n := TotalPages(|rows|, limit);
    FirstPagesPrefix(rows, limit, n);
    assert Skip(n + 1, limit) >= |rows|;
    forall page | page > n
      ensures Page(rows, page, limit) == []
    {
      MulMonotonic(n, page - 1, limit);
      assert Skip(page, limit) >= |rows|;
    }
  }

  lemma MulMonotonic(a: nat, b: nat, c: nat)
    requires a <= b
    ensures a * c <= b * c
  {
  }
}
