/** `CampaignsService` carried out on the store and the mailer, step by step as the service
    does it. */
module CampaignsService {
  import opened Errors
  import opened Entities
  import opened Repository
  import opened Email
  import opened Campaigns
  import ListsService

  method Create(store: Store, input: CampaignInput) returns (r: Result<Id>)
    modifies store
    ensures (store.State(), r) == Campaigns.Create(old(store.State()), input)
  {
    if !ListsService.FoundInOrg(store, input.listId, input.organizationId) {
      return Err(ListNotFound);
    }
    var id := store.InsertCampaign(Campaign(input.subject, input.content, input.listId, input.organizationId));
    return Ok(id);
  }

  method FindOne(store: Store, id: Id, org: OrgId) returns (r: Result<Campaign>)
    ensures r == Campaigns.FindOne(store.State(), id, org)
  {
    if id in store.campaigns && store.campaigns[id].organizationId == org {
      return Ok(store.campaigns[id]);
    }
    return Err(CampaignNotFound);
  }

  method Update(store: Store, id: Id, org: OrgId, changes: CampaignChanges) returns (r: Result<Campaign>)
    modifies store
    ensures (store.State(), r) == Campaigns.Update(old(store.State()), id, org, changes)
  {
    var found := FindOne(store, id, org);
    if found.Err? {
      return Err(found.error);
    }
    var campaign := found.value;
    if changes.subject.Some? {
      campaign := campaign.(subject := changes.subject.value);
    }
    if changes.content.Some? {
      campaign := campaign.(content := changes.content.value);
    }
    store.SaveCampaign(id, campaign);
    return Ok(campaign);
  }

  /** `send(id, organizationId)`: nothing is sent unless the recipients resolve; then every
      recipient gets one attempt, in the order the segment came back, and a refused attempt
      is counted and the loop goes on. The store is only read. `send` returns nothing on
      success; the counters it only writes to the log are the ghost `report`. */
  method Send(store: Store, mailer: Mailer, id: Id, org: OrgId)
    returns (r: Result<()>, ghost report: SendReport, ghost recipients: seq<Id>, ghost attempts: seq<Delivery>)
    modifies mailer
    ensures var target := Recipients(store.State(), id, org);
      && (target.Err? ==> r == Err(target.error) && mailer.outbox == old(mailer.outbox))
      && (target.Ok? ==>
            && Enumerates(recipients, target.value)
            && mailer.outbox == old(mailer.outbox) + attempts
            && Addressed(attempts, store.State(), recipients, store.campaigns[id])
            && r == Ok(())
            && report == Counts(attempts))
  {
    recipients, attempts, report := [], [], SendReport(0, 0);
    var found := FindOne(store, id, org);
    if found.Err? {
      return Err(found.error), report, recipients, attempts;
    }
    var campaign := found.value;
    if !ListsService.FoundInOrg(store, campaign.listId, org) {
      return Err(ListNotFound), report, recipients, attempts;
    }
    var segment := ListsService.GetSegmentedSubscribers(store, campaign.listId, org);
    if segment.Err? {
      return Err(segment.error), report, recipients, attempts;
    }
    var rows := segment.value;
    if |rows| == 0 {
      return Err(NoSubscribers), report, recipients, attempts;
    }
    recipients := rows;
    report, attempts := Deliver(store, mailer, rows, campaign);
    return Ok(()), report, recipients, attempts;
  }

  /** The loop of `send`: one email per recipient, in order, counting the accepted and the
      refused ones. */
  method Deliver(store: Store, mailer: Mailer, rows: seq<Id>, campaign: Campaign)
    returns (report: SendReport, ghost attempts: seq<Delivery>)
    requires forall id :: id in rows ==> id in store.subscribers
    modifies mailer
    ensures mailer.outbox == old(mailer.outbox) + attempts
    ensures Addressed(attempts, store.State(), rows, campaign)
    ensures report == Counts(attempts)
  {
    attempts := [];
    var successCount, failureCount := 0, 0;
    var i := 0;
    while i < |rows|
      invariant 0 <= i <= |rows|
      invariant mailer.outbox == old(mailer.outbox) + attempts
      invariant Addressed(attempts, store.State(), rows[..i], campaign)
      invariant SendReport(successCount, failureCount) == Counts(attempts)
    {
      assert rows[i] in rows;
      var ok := mailer.SendEmail(store.subscribers[rows[i]].email, campaign.subject, campaign.content);
      ghost var d := Delivery(store.subscribers[rows[i]].email, campaign.subject, campaign.content, ok);
      if ok {
        successCount := successCount + 1;
      } else {
        failureCount := failureCount + 1;
      }
      CountsSnoc(attempts, d);
      AddressedSnoc(attempts, store.State(), rows, campaign, i, d);
      attempts := attempts + [d];
      i := i + 1;
    }
    assert rows[..|rows|] == rows;
    report := SendReport(successCount, failureCount);
  }
}
