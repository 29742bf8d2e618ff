/** The stored entities (the list, subscriber and campaign entity classes) and the database that holds them. */
module Entities {
  import opened Errors

  /** Primary keys. The database generates a fresh uuid per row; here a counter does. */
  type Id = nat

  /** Organisations are referenced by id only. */
  type OrgId = string

  /** The operators a segment rule may use (src/lists/dto/segment-rule.dto.ts). */
  datatype Operator = Equals | Contains | StartsWith | EndsWith | GreaterThan | LessThan

  /** A segment rule; `value` is the text the query binds for it. */
  datatype Rule = Rule(field: string, operator: Operator, value: string)

  /** A subscriber row; `customFields` holds the text of each JSONB field. */
  datatype Subscriber = Subscriber(email: string, organizationId: OrgId, customFields: map<string, string>)

  /** A list row with its membership (the `list_subscribers` junction table).
      `customFields` is the list's schema: only its keys matter. `segmentRules` is a
      nullable JSONB column. */
  datatype List = List(
    name: string,
    organizationId: OrgId,
    customFields: set<string>,
    segmentRules: Option<seq<Rule>>,
    members: set<Id>)

  datatype Campaign = Campaign(subject: string, content: string, listId: Id, organizationId: OrgId)

  /** The rules a list's query applies: a null column applies none. */
  function RulesOf(list: List): seq<Rule> {
    match list.segmentRules
    case None => []
    case Some(rules) => rules
  }

  /** No two subscribers share an email: the unique index on `subscribers.email`. */
  predicate EmailsUnique(subscribers: map<Id, Subscriber>) {
    forall a, b :: a in subscribers && b in subscribers && subscribers[a].email == subscribers[b].email ==> a == b
  }

  /** The three repositories, and the next id the database will hand out. */
  datatype Db = Db(
    subscribers: map<Id, Subscriber>,
    lists: map<Id, List>,
    campaigns: map<Id, Campaign>,
    nextId: nat)
  {
    /** What the schema guarantees of every state: ids were handed out before, the
        junction table only references existing subscribers, emails are unique. */
    ghost predicate Valid() {
      && (forall id :: id in subscribers ==> id < nextId)
      && (forall id :: id in lists ==> id < nextId)
      && (forall id :: id in campaigns ==> id < nextId)
      && (forall l :: l in lists ==> lists[l].members <= subscribers.Keys)
      && EmailsUnique(subscribers)
    }
  }

  predicate ListInOrg(db: Db, listId: Id, org: OrgId) {
    listId in db.lists && db.lists[listId].organizationId == org
  }

  predicate SubscriberInOrg(db: Db, id: Id, org: OrgId) {
    id in db.subscribers && db.subscribers[id].organizationId == org
  }

  predicate CampaignInOrg(db: Db, id: Id, org: OrgId) {
    id in db.campaigns && db.campaigns[id].organizationId == org
  }

  /** Some subscriber of the organisation has this email. */
  predicate EmailInOrg(db: Db, email: string, org: OrgId) {
    exists id :: id in db.subscribers && db.subscribers[id].email == email && db.subscribers[id].organizationId == org
  }

  /** Some subscriber other than `except`, in any organisation, has this email. */
  predicate EmailHeldByOther(db: Db, email: string, except: Option<Id>) {
    exists id :: id in db.subscribers && db.subscribers[id].email == email && Some(id) != except
  }

  /** Every email stored, across organisations. */
  function Emails(db: Db): set<string> {
    set id | id in db.subscribers :: db.subscribers[id].email
  }

  /** Deleting a subscriber row: the junction rows referencing it go with it (the foreign
      keys of `list_subscribers` cascade on delete). */
  function DeleteSubscriberRow(db: Db, id: Id): Db {
    db.(subscribers := db.subscribers - {id},
        lists := map l | l in db.lists :: db.lists[l].(members := db.lists[l].members - {id}))
  }

  // ----- inserting rows -----

  /** A subscriber built but not yet saved; `email` is None when the row had no email column. */
  datatype Draft = Draft(email: Option<string>, organizationId: OrgId, customFields: map<string, string>)

  predicate HaveEmails(drafts: seq<Draft>) {
    forall i :: 0 <= i < |drafts| ==> drafts[i].email.Some?
  }

  function ToSubscriber(d: Draft): Subscriber
    requires d.email.Some?
  {
    Subscriber(d.email.value, d.organizationId, d.customFields)
  }

  /** Every row has an email, none already stored, no two alike. */
  predicate Insertable(taken: set<string>, batch: seq<Draft>) {
    && (forall i :: 0 <= i < |batch| ==> batch[i].email.Some? && batch[i].email.value !in taken)
    && (forall i, j :: 0 <= i < j < |batch| ==> batch[i].email != batch[j].email)
  }

  /** The constraint a multi-row insert violates first, rows taken in order, when `taken`
      holds the emails already stored; None when the insert succeeds. */
  function BatchFault(taken: set<string>, batch: seq<Draft>): (f: Option<Fault>)
    ensures f.Some? ==> f.value == NullEmail || f.value == UniqueEmail
    decreases |batch|
  {
    if batch == [] then None
    else if batch[0].email.None? then Some(NullEmail)
    else if batch[0].email.value in taken then Some(UniqueEmail)
    else BatchFault(taken + {batch[0].email.value}, batch[1..])
  }

  /** An insert fails exactly when some row lacks an email, repeats a stored one, or repeats
      one of an earlier row. */
  lemma {:induction false} BatchFaultMeaning(taken: set<string>, batch: seq<Draft>)
    ensures BatchFault(taken, batch).None? <==> Insertable(taken, batch)
    decreases |batch|
  {
    if batch != [] && batch[0].email.Some? && batch[0].email.value !in taken {
      BatchFaultMeaning(taken + {batch[0].email.value}, batch[1..]);
      assert forall j :: 1 <= j < |batch| ==> batch[j] == batch[1..][j - 1];
    }
  }

  /** `id` is one of the `count` consecutive ids starting at `first`. */
  predicate InRange(first: Id, count: nat, id: Id) {
    first <= id < first + count
  }

  /** The rows of `drafts` saved under consecutive ids starting at `first`, in order. */
  function Saved(drafts: seq<Draft>, first: Id): map<Id, Subscriber>
    requires HaveEmails(drafts)
    decreases |drafts|
  {
    if drafts == [] then map[]
    else Saved(drafts[..|drafts| - 1], first)[first + |drafts| - 1 := ToSubscriber(drafts[|drafts| - 1])]
  }

  /** Row `i` of `drafts` is saved under id `first + i`, and nothing else is saved. */
  lemma {:induction false} SavedAt(drafts: seq<Draft>, first: Id)
    requires HaveEmails(drafts)
    ensures forall id: Id :: id in Saved(drafts, first) <==> InRange(first, |drafts|, id)
    ensures forall id: Id :: InRange(first, |drafts|, id) ==> Saved(drafts, first)[id] == ToSubscriber(drafts[id - first])
    decreases |drafts|
  {
    if drafts != [] {
      var init := drafts[..|drafts| - 1];
      SavedAt(init, first);
      assert forall i :: 0 <= i < |init| ==> init[i] == drafts[i];
    }
  }

  function IdRange(first: Id, count: nat): set<Id> {
    set id: Id | first <= id < first + count && InRange(first, count, id)
  }

  /** The list `listId`, when it exists, gains the members `ids`. */
  function Link(lists: map<Id, List>, listId: Id, ids: set<Id>): map<Id, List> {
    if listId in lists then lists[listId := lists[listId].(members := lists[listId].members + ids)]
    else lists
  }

  /** `drafts` saved, then linked to the list `listId`: the effect of one committed batch. */
  function Commit(db: Db, listId: Id, drafts: seq<Draft>): Db
    requires HaveEmails(drafts)
  {
    db.(subscribers := db.subscribers + Saved(drafts, db.nextId),
        nextId := db.nextId + |drafts|,
        lists := Link(db.lists, listId, IdRange(db.nextId, |drafts|)))
  }

  lemma HavePrefixEmails(drafts: seq<Draft>, i: nat)
    requires i <= |drafts| && HaveEmails(drafts)
    ensures HaveEmails(drafts[..i])
  {
    assert forall k :: 0 <= k < i ==> drafts[..i][k] == drafts[k];
  }

  /** Saving one more row stores it under the next id. */
  lemma SavedSnoc(m: map<Id, Subscriber>, drafts: seq<Draft>, i: nat, first: Id)
    requires i < |drafts| && HaveEmails(drafts)
    ensures HaveEmails(drafts[..i]) && HaveEmails(drafts[..i + 1])
    ensures (m + Saved(drafts[..i], first))[first + i := ToSubscriber(drafts[i])] == m + Saved(drafts[..i + 1], first)
  {
    HavePrefixEmails(drafts, i);
    HavePrefixEmails(drafts, i + 1);
    assert drafts[..i + 1][..i] == drafts[..i];
  }

  lemma HaveEmailsConcat(a: seq<Draft>, b: seq<Draft>)
    requires HaveEmails(a) && HaveEmails(b)
    ensures HaveEmails(a + b)
  {
    assert forall i :: 0 <= i < |a + b| ==> (a + b)[i] == if i < |a| then a[i] else b[i - |a|];
  }

  lemma {:induction false} SavedConcat(a: seq<Draft>, b: seq<Draft>, first: Id)
    requires HaveEmails(a) && HaveEmails(b)
    ensures HaveEmails(a + b)
    ensures Saved(a, first) + Saved(b, first + |a|) == Saved(a + b, first)
    decreases |b|
  {
    HaveEmailsConcat(a, b);
    if b == [] {
      assert a + b == a;
    } else {
      var init := b[..|b| - 1];
      SavedConcat(a, init, first);
      assert (a + b)[..|a + b| - 1] == a + init;
    }
  }

  lemma IdRangeConcat(first: Id, m: nat, n: nat)
    ensures IdRange(first, m) + IdRange(first + m, n) == IdRange(first, m + n)
  {
    forall id | id in IdRange(first, m + n)
      ensures id in IdRange(first, m) || id in IdRange(first + m, n)
    {
      assert InRange(first, m, id) || InRange(first + m, n, id);
    }
  }

  lemma IdRangeSnoc(first: Id, count: nat)
    ensures IdRange(first, count + 1) == IdRange(first, count) + {first + count}
  {
    assert InRange(first + count, 1, first + count);
    IdRangeConcat(first, count, 1);
  }

  lemma LinkTwice(lists: map<Id, List>, listId: Id, x: set<Id>, y: set<Id>)
    ensures Link(Link(lists, listId, x), listId, y) == Link(lists, listId, x + y)
  {
    if listId in lists {
      var l := lists[listId];
      assert l.members + x + y == l.members + (x + y);
      assert l.(members := l.members + x).(members := l.members + x + y) == l.(members := l.members + (x + y));
    }
  }

  lemma MapUnionAssoc<K, V>(x: map<K, V>, y: map<K, V>, z: map<K, V>)
    ensures x + y + z == x + (y + z)
  {
  }

  /** Committing two runs one after the other commits their concatenation. */
  lemma CommitTwice(db: Db, listId: Id, a: seq<Draft>, b: seq<Draft>)
    requires HaveEmails(a) && HaveEmails(b)
    ensures HaveEmails(a + b)
    ensures Commit(Commit(db, listId, a), listId, b) == Commit(db, listId, a + b)
  {
    var first := db.nextId;
    SavedConcat(a, b, first);
    MapUnionAssoc(db.subscribers, Saved(a, first), Saved(b, first + |a|));
    IdRangeConcat(first, |a|, |b|);
    LinkTwice(db.lists, listId, IdRange(first, |a|), IdRange(first + |a|, |b|));
  }

  /** Rows saved under fresh ids with fresh, distinct emails keep emails unique. */
  lemma SavedUnique(subscribers: map<Id, Subscriber>, drafts: seq<Draft>, first: Id)
    requires EmailsUnique(subscribers)
    requires forall id :: id in subscribers ==> id < first
    requires Insertable(set id | id in subscribers :: subscribers[id].email, drafts)
    ensures HaveEmails(drafts)
    ensures EmailsUnique(subscribers + Saved(drafts, first))
  {
    var saved := Saved(drafts, first);
    SavedAt(drafts, first);
    var all := subscribers + saved;
    forall a, b | a in all && b in all && all[a].email == all[b].email
      ensures a == b
    {
      if a in saved && b in saved {
        var i, j := a - first, b - first;
        assert drafts[i].email == drafts[j].email;
        if i < j || j < i {
          assert false;
        }
      }
    }
  }

  /** A committed batch of insertable rows keeps every guarantee of the schema. */
  lemma CommitValid(db: Db, listId: Id, drafts: seq<Draft>)
    requires db.Valid() && Insertable(Emails(db), drafts)
    ensures HaveEmails(drafts)
    ensures Commit(db, listId, drafts).Valid()
  {
    var first := db.nextId;
    SavedUnique(db.subscribers, drafts, first);
    SavedAt(drafts, first);
    var db' := Commit(db, listId, drafts);
    assert forall id :: id in Saved(drafts, first) ==> id < db'.nextId;
    CommitMembersStored(db, listId, drafts);
  }

  /** The new junction rows reference the subscribers the commit stored. */
  lemma CommitMembersStored(db: Db, listId: Id, drafts: seq<Draft>)
    requires db.Valid() && HaveEmails(drafts)
    ensures var db' := Commit(db, listId, drafts);
      forall l :: l in db'.lists ==> db'.lists[l].members <= db'.subscribers.Keys
  {
    var first := db.nextId;
    var saved := Saved(drafts, first);
    SavedAt(drafts, first);
    var db' := Commit(db, listId, drafts);
    forall l | l in db'.lists
      ensures db'.lists[l].members <= db'.subscribers.Keys
    {
      if l == listId {
        forall id | id in IdRange(first, |drafts|)
          ensures id in saved
        {
          assert InRange(first, |drafts|, id);
        }
      }
    }
  }

  /** What a commit does to the subscribers: exactly the next ids are added, and no stored
      subscriber changes. */
  lemma CommitKeeps(db: Db, listId: Id, drafts: seq<Draft>)
    requires db.Valid() && HaveEmails(drafts)
    ensures var db' := Commit(db, listId, drafts);
      && db'.nextId == db.nextId + |drafts|
      && (forall id :: id in db'.subscribers <==> id in db.subscribers || db.nextId <= id < db.nextId + |drafts|)
      && (forall id :: id in db.subscribers ==> db'.subscribers[id] == db.subscribers[id])
  {
    var first := db.nextId;
    SavedAt(drafts, first);
    forall id | first <= id < first + |drafts|
      ensures InRange(first, |drafts|, id)
    {
    }
  }

  /** The subscriber `id` is the row built from `draft`. */
  predicate StoredAs(db: Db, id: Id, draft: Draft) {
    id in db.subscribers && draft.email.Some? && db.subscribers[id] == ToSubscriber(draft)
  }

  /** Row `i` of a commit is stored under the `i`-th fresh id. */
  lemma CommitRows(db: Db, listId: Id, drafts: seq<Draft>)
    requires HaveEmails(drafts)
    ensures forall i :: 0 <= i < |drafts| ==> StoredAs(Commit(db, listId, drafts), db.nextId + i, drafts[i])
  {
    forall i | 0 <= i < |drafts|
      ensures StoredAs(Commit(db, listId, drafts), db.nextId + i, drafts[i])
    {
      CommitRow(db, listId, drafts, i);
    }
  }

  lemma CommitRow(db: Db, listId: Id, drafts: seq<Draft>, i: nat)
    requires HaveEmails(drafts) && i < |drafts|
    ensures db.nextId + i in Commit(db, listId, drafts).subscribers
    ensures Commit(db, listId, drafts).subscribers[db.nextId + i] == ToSubscriber(drafts[i])
  {
    var first := db.nextId;
    SavedAt(drafts, first);
    assert InRange(first, |drafts|, first + i);
  }

  /** What a commit does to the list: the new ids become members. */
  lemma CommitLinks(db: Db, listId: Id, drafts: seq<Draft>)
    requires listId in db.lists && HaveEmails(drafts)
    ensures Commit(db, listId, drafts).lists[listId].members == db.lists[listId].members + IdRange(db.nextId, |drafts|)
    ensures forall id :: id in IdRange(db.nextId, |drafts|) <==> db.nextId <= id < db.nextId + |drafts|
  {
    forall id ensures id in IdRange(db.nextId, |drafts|) <==> db.nextId <= id < db.nextId + |drafts| {
      assert db.nextId <= id < db.nextId + |drafts| ==> InRange(db.nextId, |drafts|, id);
    }
  }
}
