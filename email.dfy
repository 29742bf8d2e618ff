/** The e-mail capability `CampaignsService` sends through. Whether the provider accepts a
    message depends on the network and on the provider's state, which the model does not
    see, so each send may succeed or fail; every attempt is recorded in order. */
module Email {
  /** One send attempt: the recipient, the message, and whether the provider accepted it. */
  datatype Delivery = Delivery(to: string, subject: string, content: string, accepted: bool)

  class Mailer {
    /** Every attempt so far, oldest first. */
    var outbox: seq<Delivery>

    constructor ()
      ensures outbox == []
    {
      outbox := [];
    }

    /** `sendEmail(to, subject, content)`: resolves when `ok`, throws otherwise. */
    method SendEmail(to: string, subject: string, content: string) returns (ok: bool)
      modifies this
      ensures outbox == old(outbox) + [Delivery(to, subject, content, ok)]
    {
      ok :| true;
      outbox := outbox + [Delivery(to, subject, content, ok)];
    }
  }
}
