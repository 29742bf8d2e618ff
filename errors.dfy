/** Failure values of the audience engine.
    The services signal failure by throwing NestJS HTTP exceptions (NotFoundException,
    BadRequestException) or by letting a database error escape; here every failure is a
    value of `Error`, carried by `Result`. */
module Errors {

  datatype Option<+T> = None | Some(value: T)

  datatype Result<+T> = Ok(value: T) | Err(error: Error) {
    predicate IsFailure() { Err? }

    function PropagateFailure<U>(): Result<U>
      requires Err?
    {
      Err(error)
    }

    function Extract(): T
      requires Ok?
    {
      value
    }
  }

  /** A constraint of the database that rejected a statement. */
  datatype Fault =
    | UniqueEmail     // the unique index on subscribers.email
    | NullEmail       // the NOT NULL constraint on subscribers.email
    | InvalidNumeric  // a `::numeric` cast of text that is not a number

  datatype Error =
    // NotFoundException
    | ListNotFound
    | SubscriberNotFound
    | CampaignNotFound
    // BadRequestException raised by the services themselves
    | SubscriberExists
    | AlreadyInList
    | UnknownField(field: string)
    | EmailTaken
    | NoSubscribers
    // BadRequestException wrapping another failure ("Failed to create/update subscriber: ...")
    | CreateFailed(cause: Error)
    | UpdateFailed(cause: Error)
    // an error thrown by the database and passed on unchanged
    | Database(fault: Fault)

  predicate IsNotFound(e: Error) {
    e.ListNotFound? || e.SubscriberNotFound? || e.CampaignNotFound?
  }

  predicate IsBadRequest(e: Error) {
    e.SubscriberExists? || e.AlreadyInList? || e.UnknownField? || e.EmailTaken? || e.NoSubscribers?
    || e.CreateFailed? || e.UpdateFailed?
  }
}
