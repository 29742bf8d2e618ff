/** What each operation of `CampaignsService` does to the database and returns, as functions
    of the state before it, and what a dispatch reports. */
module Campaigns {
  import opened Errors
  import opened Entities
  import opened Segments
  import opened Email

  /** The body of a create request. */
  datatype CampaignInput = CampaignInput(subject: string, content: string, listId: Id, organizationId: OrgId)

  /** `create(input)`: the campaign is saved only when its list is in the organisation. */
  function Create(db: Db, input: CampaignInput): (r: (Db, Result<Id>))
    ensures !ListInOrg(db, input.listId, input.organizationId) ==> r == (db, Err(ListNotFound))
    ensures ListInOrg(db, input.listId, input.organizationId) ==>
      && r.1 == Ok(db.nextId)
      && r.0.campaigns == db.campaigns[db.nextId := Campaign(input.subject, input.content, input.listId, input.organizationId)]
      && r.0.nextId == db.nextId + 1
      && r.0.subscribers == db.subscribers && r.0.lists == db.lists
    ensures db.Valid() ==> r.0.Valid()
  {
    if !ListInOrg(db, input.listId, input.organizationId) then
      (db, Err(ListNotFound))
    else
      var campaign := Campaign(input.subject, input.content, input.listId, input.organizationId);
      (db.(campaigns := db.campaigns[db.nextId := campaign], nextId := db.nextId + 1), Ok(db.nextId))
  }

  /** `findOne(id, organizationId)`. */
  function FindOne(db: Db, id: Id, org: OrgId): (r: Result<Campaign>)
    ensures r.Ok? <==> CampaignInOrg(db, id, org)
    ensures r.Ok? ==> r.value == db.campaigns[id] && r.value.organizationId == org
    ensures r.Err? ==> r.error == CampaignNotFound
  {
    if CampaignInOrg(db, id, org) then Ok(db.campaigns[id]) else Err(CampaignNotFound)
  }

  /** A created campaign is found under the id `create` returned, with the input's fields,
      and the campaigns stored before are untouched. */
  lemma CreateThenFind(db: Db, input: CampaignInput)
    requires db.Valid() && ListInOrg(db, input.listId, input.organizationId)
    ensures var r := Create(db, input);
      && FindOne(r.0, r.1.value, input.organizationId) == Ok(Campaign(input.subject, input.content, input.listId, input.organizationId))
      && r.1.value !in db.campaigns
      && forall c :: c in db.campaigns ==> c in r.0.campaigns && r.0.campaigns[c] == db.campaigns[c]
  {
    assert db.nextId !in db.campaigns;
  }

  /** The fields of an update request; absent fields are None. */
  datatype CampaignChanges = CampaignChanges(subject: Option<string>, content: Option<string>)

  /** `update(id, organizationId, changes)`: the saved campaign, or NotFound. */
  function Update(db: Db, id: Id, org: OrgId, changes: CampaignChanges): (r: (Db, Result<Campaign>))
    ensures !CampaignInOrg(db, id, org) ==> r == (db, Err(CampaignNotFound))
    ensures CampaignInOrg(db, id, org) ==>
      && r.1.Ok?
      && r.1.value.subject == (if changes.subject.Some? then changes.subject.value else db.campaigns[id].subject)
      && r.1.value.content == (if changes.content.Some? then changes.content.value else db.campaigns[id].content)
      && r.1.value.listId == db.campaigns[id].listId
      && r.1.value.organizationId == org
      && r.0 == db.(campaigns := db.campaigns[id := r.1.value])
    ensures db.Valid() ==> r.0.Valid()
  {
    if !CampaignInOrg(db, id, org) then
      (db, Err(CampaignNotFound))
    else
      var c := db.campaigns[id];
      var updated := c.(subject := if changes.subject.Some? then changes.subject.value else c.subject,
                        content := if changes.content.Some? then changes.content.value else c.content);
      (db.(campaigns := db.campaigns[id := updated]), Ok(updated))
  }

  /** Repeating an update changes nothing more. */
  lemma UpdateIdempotent(db: Db, id: Id, org: OrgId, changes: CampaignChanges)
    ensures var once := Update(db, id, org, changes);
      Update(once.0, id, org, changes) == once
  {
    if CampaignInOrg(db, id, org) {
      var once := Update(db, id, org, changes);
      assert once.0.campaigns[id := once.1.value] == once.0.campaigns;
    }
  }

  /** An update is what a later `findOne` returns. */
  lemma UpdateThenFind(db: Db, id: Id, org: OrgId, changes: CampaignChanges)
    requires CampaignInOrg(db, id, org)
    ensures var r := Update(db, id, org, changes);
      FindOne(r.0, id, org) == r.1
  {
  }

  // ----- send -----

  /** The subscribers `send` addresses, or the error it fails with before sending anything:
      the campaign must be in the organisation, then its list, then the segment must resolve
      and be non-empty. */
  function Recipients(db: Db, id: Id, org: OrgId): (r: Result<set<Id>>)
    ensures !CampaignInOrg(db, id, org) ==> r == Err(CampaignNotFound)
    ensures CampaignInOrg(db, id, org) && !ListInOrg(db, db.campaigns[id].listId, org) ==> r == Err(ListNotFound)
    ensures CampaignInOrg(db, id, org) && Resolve(db, db.campaigns[id].listId, org) == Ok({}) ==> r == Err(NoSubscribers)
    ensures r.Ok? ==>
      && CampaignInOrg(db, id, org)
      && r == Resolve(db, db.campaigns[id].listId, org)
      && r.value != {}
    ensures r.Err? ==> IsNotFound(r.error) || r.error == NoSubscribers || r.error == Database(InvalidNumeric)
    ensures CampaignInOrg(db, id, org) && ListInOrg(db, db.campaigns[id].listId, org) ==>
      var segment := Resolve(db, db.campaigns[id].listId, org);
      && (segment.Err? ==> r == segment)
      && (segment.Ok? && segment.value != {} ==> r.Ok?)
  {
    if !CampaignInOrg(db, id, org) then
      Err(CampaignNotFound)
    else
      var listId := db.campaigns[id].listId;
      if !ListInOrg(db, listId, org) then
        Err(ListNotFound)
      else
        match Resolve(db, listId, org)
        case Err(e) => Err(e)
        case Ok(ids) => if ids == {} then Err(NoSubscribers) else Ok(ids)
  }

  /** `send` addresses exactly the members of the campaign's list that belong to the
      organisation and satisfy every rule of the list. */
  lemma RecipientsAreSegment(db: Db, id: Id, org: OrgId)
    requires Recipients(db, id, org).Ok?
    ensures var listId := db.campaigns[id].listId;
      forall s :: s in Recipients(db, id, org).value <==>
        && s in db.lists[listId].members
        && SubscriberInOrg(db, s, org)
        && MatchesAll(db.subscribers[s].customFields, RulesOf(db.lists[listId]))
  {
    ResolveExactly(db, db.campaigns[id].listId, org);
  }

  /** The two counters `send` keeps. */
  datatype SendReport = SendReport(successCount: nat, failureCount: nat)

  /** The counters after the given attempts: accepted ones count as successes, the rest as
      failures. */
  function Counts(attempts: seq<Delivery>): (c: SendReport)
    ensures c.successCount + c.failureCount == |attempts|
    decreases |attempts|
  {
    if attempts == [] then SendReport(0, 0)
    else
      var c := Counts(attempts[..|attempts| - 1]);
      if attempts[|attempts| - 1].accepted then c.(successCount := c.successCount + 1)
      else c.(failureCount := c.failureCount + 1)
  }

  /** The failures are exactly the attempts the provider refused. */
  lemma {:induction false} CountsFailures(attempts: seq<Delivery>)
    ensures Counts(attempts).failureCount == 0 <==> forall k :: 0 <= k < |attempts| ==> attempts[k].accepted
    decreases |attempts|
  {
    if attempts != [] {
      var n := |attempts| - 1;
      CountsFailures(attempts[..n]);
      assert forall k :: 0 <= k < n ==> attempts[..n][k] == attempts[k];
    }
  }

  /** The counters add up over consecutive runs of attempts. */
  lemma {:induction false} CountsConcat(a: seq<Delivery>, b: seq<Delivery>)
    ensures Counts(a + b) == SendReport(Counts(a).successCount + Counts(b).successCount,
                                        Counts(a).failureCount + Counts(b).failureCount)
    decreases |b|
  {
    if b == [] {
      assert a + b == a;
    } else {
      var n := |b| - 1;
      assert (a + b)[..|a + b| - 1] == a + b[..n];
      CountsConcat(a, b[..n]);
    }
  }

  /** One more attempt counted. */
  lemma CountsSnoc(attempts: seq<Delivery>, d: Delivery)
    ensures var c := Counts(attempts);
      Counts(attempts + [d]) ==
        if d.accepted then c.(successCount := c.successCount + 1) else c.(failureCount := c.failureCount + 1)
  {
    assert (attempts + [d])[..|attempts|] == attempts;
  }

  /** `attempts` are one send per subscriber of `ids`, in that order, to the subscriber's
      email, with the campaign's subject and content. */
  predicate Addressed(attempts: seq<Delivery>, db: Db, ids: seq<Id>, campaign: Campaign) {
    && |attempts| == |ids|
    && forall k :: 0 <= k < |attempts| ==> AddressedTo(attempts[k], db, ids[k], campaign)
  }

  /** One send to the subscriber `id` with the campaign's subject and content. */
  predicate AddressedTo(attempt: Delivery, db: Db, id: Id, campaign: Campaign) {
    && id in db.subscribers
    && attempt.to == db.subscribers[id].email
    && attempt.subject == campaign.subject
    && attempt.content == campaign.content
  }

  /** One more recipient addressed. */
  lemma AddressedSnoc(attempts: seq<Delivery>, db: Db, ids: seq<Id>, campaign: Campaign, i: nat, d: Delivery)
    requires i < |ids| && Addressed(attempts, db, ids[..i], campaign) && AddressedTo(d, db, ids[i], campaign)
    ensures Addressed(attempts + [d], db, ids[..i + 1], campaign)
  {
    assert forall k :: 0 <= k < i ==> ids[..i + 1][k] == ids[..i][k];
  }
}
