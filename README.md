# Newsletter audience engine, modelled in Dafny

This project models the audience core of a NestJS newsletter backend:

- **Lists and segments** (`src/lists/lists.service.ts`). A mailing list belongs to an organisation. Its members are subscribers linked to it through a junction table. Its segment rules are `(field, operator, value)` triples. The segment is the set of members of the list's organisation whose custom fields satisfy every rule.
- **The subscriber store** (`src/subscribers/subscribers.service.ts`). This covers create, which also links the new subscriber to a list, plus update, remove, bulk import and paginated search.
- **Campaign dispatch** (`src/campaigns/campaigns.service.ts`). A campaign is sent to the segment of its list, one e-mail per subscriber. A refused e-mail is counted and the loop goes on. `send` returns nothing: the counts of accepted and refused e-mails only go to the log, so the model keeps them as a ghost report.
- **The organisation guard** (`src/users/guards/organization.guard.ts`). It decides whether an authenticated user may act on the organisation a request names.

The database is a value `Entities.Db`. It holds three tables (subscribers, lists with their members and rules, campaigns) and a counter that stands for id generation. `Db.Valid` is the invariant the tables keep:

- ids are below the counter;
- list members are stored subscribers;
- e-mail addresses are unique across the whole table, which is the entity's unique column.

Each service operation has two parts:

- a pure function of the state before it, in `Lists`, `Subscribers`, `Campaigns` or `Segments`, returning the state after it and the result;
- a method on the mutable `Repository.Store`, in `ListsService`, `SubscribersService` or `CampaignsService`. The method performs the operation step by step, as the service does, and its `ensures` clause ties the new state and the result to that function.

The loops of the source stay loops:

- the CSV import saves batches of 100;
- the bulk import creates one row at a time;
- the send loop sends one e-mail per recipient;
- the repository's batch insert stores one row at a time.

The segment query's SQL semantics are stated directly:

- `ILIKE` is a real `LIKE` matcher with `%`, `_` and `\`, over case-folded text (`SqlLike`);
- `::numeric` is a decimal parser (`Text.ParseNumeric`);
- a numeric cast that fails on a candidate row aborts the whole query. The model fixes one evaluation order for this; see `## Left out`.

Where the service code and its written description differ, the model follows the code:

- the uniqueness of e-mail addresses is global (the column is unique), although the services check it only within the organisation. A create or update that passes the service's own check can therefore still fail in the database, and that failure is wrapped as the code wraps it;
- removing a subscriber removes it from every list, through the junction table's cascade;
- `create` saves the subscriber before linking it to the list. If the list lookup fails, the row stays stored and the call still reports an error (`Subscribers.BulkImportWithoutList`).

## Model

| member | source | states |
|---|---|---|
| Lists.AddSubscriber | src/lists/lists.service.ts:82-123 | Errors, in order: list not in the organisation, then subscriber not in the organisation, then already a member. Succeeds exactly when none of these hold. On success the subscriber joins the members and nothing else changes. On error the database is unchanged. Validity is preserved. |
| Lists.RemoveSubscriber | src/lists/lists.service.ts:125-151 | Same lookups and errors as adding. Succeeds exactly when both lookups succeed, including when the subscriber is not a member. The only change is that the subscriber leaves the members. Validity is preserved. |
| Lists.RemoveUndoesAdd | src/lists/lists.service.ts:82-151 | Removing a subscriber just added gives back the original database. |
| Lists.AddUndoesRemove | src/lists/lists.service.ts:82-151 | Re-adding a member just removed gives back the original database. |
| Lists.AddSubscribersToList | src/lists/lists.service.ts:318-340 | A missing list is an error. Otherwise the ids that name stored subscribers are added to the members, with no organisation check. Unknown ids are skipped. Validity is preserved. |
| Lists.AddSegmentRule | src/lists/lists.service.ts:292-316 | Errors: list not in the organisation; field not among the list's custom fields. Succeeds exactly when neither holds. The rule is appended after the existing rules, or becomes the first rule when the list has none. Validity is preserved. |
| Lists.AddSegmentRuleKeepsEarlier | src/lists/lists.service.ts:304-313 | After adding a rule, the earlier rules are a prefix of the new rules and the new rule is last. |
| Lists.AddSegmentRuleNarrows | src/lists/lists.service.ts:292-316 | Adding a rule never enlarges the segment. A subscriber in the new segment was in the old one and matches the new rule. |
| Lists.RowToDraft | src/lists/lists.service.ts:174-188 | A CSV record gives a subscriber with the record's `email` (absent when the column is absent) and the caller's organisation. Every other column becomes a custom field with the same value. |
| Lists.ImportFrom | src/lists/lists.service.ts:190-202 | Batches are saved in order. The import succeeds exactly when every row is committed. Every committed row has an email. The final database is the one where the committed rows are stored and linked to the list. |
| Lists.ImportFromFails | src/lists/lists.service.ts:190-202 | A failed import stops at a batch boundary (a multiple of 100). The next batch is the one whose save fails, and the error is that batch's fault. |
| Lists.ImportFromValid | src/lists/lists.service.ts:190-202 | A valid database stays valid through the import. |
| Lists.ImportCsv | src/lists/lists.service.ts:153-203 | A list outside the organisation is refused before anything is stored. Validity is preserved. |
| Lists.ImportCommitsInOrder | src/lists/lists.service.ts:153-203 | The i-th committed record is stored under the i-th fresh id, with its email and fields, and is a member of the list. Subscribers stored before are kept. |
| ListsService.AddSubscriber | src/lists/lists.service.ts:82-123 | The store ends in the state, and returns the result, that `Lists.AddSubscriber` gives. |
| ListsService.RemoveSubscriber | src/lists/lists.service.ts:125-151 | The store ends as `Lists.RemoveSubscriber` says. |
| ListsService.AddSubscribersToList | src/lists/lists.service.ts:318-340 | The store ends as `Lists.AddSubscribersToList` says. |
| ListsService.AddSegmentRule | src/lists/lists.service.ts:292-316 | The store ends as `Lists.AddSegmentRule` says. |
| ListsService.GetSegmentedSubscribers | src/lists/lists.service.ts:205-290 | Returns the error that `Segments.Resolve` gives, or the rows of the segment, each exactly once, in some order. |
| ListsService.ImportSubscribersFromCsv | src/lists/lists.service.ts:153-203 | The batch loop ends in the state, and returns the result, that `Lists.ImportCsv` gives. |
| Segments.Resolve | src/lists/lists.service.ts:205-290 | A list outside the organisation is ListNotFound. For a list in the organisation, the query fails exactly when a numeric rule's value is not a number, or some candidate row holds a non-number under a numeric rule. On success, the ids returned are exactly the list's members in the organisation that match every rule. With no rules, the segment is the list's members in the organisation. |
| Segments.MatchesAllEvery | src/lists/lists.service.ts:238-276 | The rules are joined with AND: a row matches all rules exactly when it matches each one. |
| Segments.MatchesAllAppend | src/lists/lists.service.ts:238-276 | Matching the rules plus one more is matching the rules and that one. |
| Segments.MatchesAllOrderFree | src/lists/lists.service.ts:238-276 | Whether a row matches depends only on which rules there are, not their order or repetition. |
| Segments.OperatorMeaning | src/lists/lists.service.ts:241-273 | What each operator means. A missing field never matches. `equals` is text equality. For a value without wildcards, `contains`/`startsWith`/`endsWith` are case-insensitive substring/prefix/suffix. `greaterThan`/`lessThan` compare the parsed numbers. |
| Segments.NonNumericFails | src/lists/lists.service.ts:264-273 | A candidate whose field does not parse as a number makes a numeric rule fail the whole query. |
| Segments.NumericSucceeds | src/lists/lists.service.ts:205-290 | The converse: when every numeric value involved is a number, the query succeeds and returns exactly the members in the organisation that match every rule. |
| Segments.ResolveExactly | src/lists/lists.service.ts:225-276 | A resolved segment contains a subscriber exactly when it is a member of the list, belongs to the organisation and matches every rule. |
| Segments.ResolveNarrows | src/lists/lists.service.ts:238-276 | Appending rules never enlarges the segment. |
| Segments.ResolveOrderFree | src/lists/lists.service.ts:238-276 | Reordering the rules leaves the segment unchanged. |
| SqlLike.PlainPrefix | src/lists/lists.service.ts:254-258 | A wildcard-free `v`: the pattern `v%` matches exactly the texts starting with `v`. |
| SqlLike.PlainSuffix | src/lists/lists.service.ts:259-263 | A wildcard-free `v`: `%v` matches exactly the texts ending with `v`. |
| SqlLike.PlainInfix | src/lists/lists.service.ts:249-253 | A wildcard-free `v`: `%v%` matches exactly the texts containing `v`. |
| Entities.BatchFaultMeaning | src/entities/subscriber.entity.ts:18-19 | A batch save faults exactly when some row lacks an email, or repeats an email stored before or earlier in the batch. |
| Entities.CommitValid | src/lists/lists.service.ts:194-201 | Storing a fault-free batch under fresh ids and linking it to a list keeps the database valid. |
| Repository.Store.InsertAll | src/lists/lists.service.ts:194 | A transactional save: either nothing is stored and the first fault is returned, or every row is stored in order under the next ids and those ids are returned. |
| Subscribers.Create | src/subscribers/subscribers.service.ts:24-72 | An email already held in the organisation is SubscriberExists and nothing changes. An email held in another organisation is refused by the unique index. Otherwise the row is stored with its fields, or none. Then it is linked to the list, or the list error is returned with the row kept. Every error is a BadRequest. |
| Subscribers.CreateLinks | src/subscribers/subscribers.service.ts:57-61 | Create's linking step is exactly `Lists.AddSubscriber` on the row just saved, with its error wrapped by create's catch. |
| Subscribers.CreateValid | src/subscribers/subscribers.service.ts:24-72 | Create preserves validity. |
| Subscribers.CreateTwiceRefused | src/subscribers/subscribers.service.ts:32-44 | Creating the same email again in the organisation is refused with SubscriberExists. |
| Subscribers.CreateRefusesEmailOfOtherOrganisation | src/subscribers/subscribers.service.ts:46-71 | An email held by another organisation's subscriber fails in the database, wrapped as a create failure, and nothing changes. |
| Subscribers.FindOne | src/subscribers/subscribers.service.ts:110-124 | Found exactly when the subscriber belongs to the organisation. Then the stored row is returned; otherwise SubscriberNotFound. |
| Subscribers.Update | src/subscribers/subscribers.service.ts:126-171 | The errors are not found, an email taken by another subscriber of the organisation, and the database's unique index. On error nothing changes. On success the row takes the new email and fields, nothing else changes, and the updated row is returned. Validity is preserved. |
| Subscribers.UpdateThenFind | src/subscribers/subscribers.service.ts:126-171 | After an update, `findOne` returns the row the update returned. |
| Subscribers.UpdateOwnEmail | src/subscribers/subscribers.service.ts:134-159 | Setting a subscriber's email to its current value is never refused. |
| Subscribers.UpdateNothing | src/subscribers/subscribers.service.ts:126-171 | An empty update returns the stored row and leaves the database unchanged. |
| Subscribers.Remove | src/subscribers/subscribers.service.ts:173-176 | Not found leaves the database unchanged. Otherwise the row is deleted and removed from every list. Validity is preserved. |
| Subscribers.RemoveThenFind | src/subscribers/subscribers.service.ts:173-176 | After a removal, `findOne` of that id is SubscriberNotFound and no list has it as a member. |
| Subscribers.Attempts | src/subscribers/subscribers.service.ts:193-204 | One create outcome per row, in order. |
| Subscribers.AttemptsValid | src/subscribers/subscribers.service.ts:193-204 | The bulk import's creates preserve validity. |
| Subscribers.Tally | src/subscribers/subscribers.service.ts:187-206 | Successes plus failures is the number of rows, and there is one error entry per failure. |
| Subscribers.Failures | src/subscribers/subscribers.service.ts:197-203 | The failed rows' indices: ascending, failed, and all of them. |
| Subscribers.TallyErrors | src/subscribers/subscribers.service.ts:197-203 | The k-th error entry carries the email and error of the k-th failed row. |
| Subscribers.BulkImport | src/subscribers/subscribers.service.ts:178-207 | Counts add up to the number of rows, there is one error per failure, and validity is preserved. |
| Subscribers.BulkImportWithoutList | src/subscribers/subscribers.service.ts:193-204 | When the list is not in the organisation, no row succeeds and no list changes. In a valid database, each row whose email was unused when its turn came fails with the wrapped ListNotFound error, yet its subscriber is stored under the id it was given and stays stored to the end. |
| Subscribers.AttemptsPrefix | src/subscribers/subscribers.service.ts:193-204 | The rows attempted first keep their outcomes, and the subscribers they stored stay unchanged through the later rows. |
| Subscribers.PageNumber | src/subscribers/dto/query-subscriber.dto.ts:20-24 | The page defaults to 1 and is at least 1. |
| Subscribers.PageSize | src/subscribers/dto/query-subscriber.dto.ts:26-30 | The limit defaults to 10 and is at least 1. |
| Subscribers.SearchMeaning | src/subscribers/subscribers.service.ts:83-87 | A wildcard-free search matches exactly the organisation's subscribers whose email contains it; `LIKE` is case-sensitive. |
| Subscribers.Page | src/subscribers/subscribers.service.ts:89-92 | The page holds the rows from `(page-1)*limit` onward, `min(limit, rows left)` of them, and is empty past the end. |
| Subscribers.TotalPages | src/subscribers/subscribers.service.ts:100 | `ceil(total/limit)`: enough pages for every row, and no page entirely empty. |
| Subscribers.FirstPagesPrefix | src/subscribers/subscribers.service.ts:89-92 | The first k pages, concatenated, are the first `k*limit` rows. |
| Subscribers.PagesCoverRows | src/subscribers/subscribers.service.ts:89-100 | The pages up to `totalPages` give back every row in order, and any later page is empty. |
| SubscribersService.Create | src/subscribers/subscribers.service.ts:24-72 | The store ends as `Subscribers.Create` says. |
| SubscribersService.FindOne | src/subscribers/subscribers.service.ts:110-124 | Returns `Subscribers.FindOne` of the current state. |
| SubscribersService.Update | src/subscribers/subscribers.service.ts:126-171 | The store ends as `Subscribers.Update` says. |
| SubscribersService.Remove | src/subscribers/subscribers.service.ts:173-176 | The store ends as `Subscribers.Remove` says. |
| SubscribersService.BulkImport | src/subscribers/subscribers.service.ts:178-207 | The row loop ends as `Subscribers.BulkImport` says. |
| SubscribersService.FindAll | src/subscribers/subscribers.service.ts:74-108 | Returns the requested page of the matching rows in some database order, the number of matches, and the page count for the limit. |
| Campaigns.Create | src/campaigns/campaigns.service.ts:29-62 | A list outside the organisation is refused and nothing changes. Otherwise the campaign is stored under a fresh id and nothing else changes. Validity is preserved. |
| Campaigns.FindOne | src/campaigns/campaigns.service.ts:71-85 | Found exactly when the campaign belongs to the organisation; otherwise CampaignNotFound. |
| Campaigns.CreateThenFind | src/campaigns/campaigns.service.ts:29-85 | A created campaign is found under its new id with the given subject, content and list. |
| Campaigns.Update | src/campaigns/campaigns.service.ts:87-96 | Not found leaves the database unchanged. Otherwise only the given subject and content replace the stored ones. Validity is preserved. |
| Campaigns.UpdateIdempotent | src/campaigns/campaigns.service.ts:87-96 | Applying the same update twice equals applying it once. |
| Campaigns.UpdateThenFind | src/campaigns/campaigns.service.ts:87-96 | After an update, `findOne` returns the updated campaign. |
| Campaigns.Recipients | src/campaigns/campaigns.service.ts:103-130 | Errors, in order: campaign not found, list not found, the segment query's error, empty segment (NoSubscribers). When the campaign and its list are found, a query error is passed on and a non-empty segment is always sent to. The recipients are then that segment. |
| Campaigns.RecipientsAreSegment | src/campaigns/campaigns.service.ts:109-130 | The recipients are exactly `getSegmentedSubscribers` of the campaign's list. |
| Campaigns.Counts | src/campaigns/campaigns.service.ts:136-154 | Successes plus failures is the number of attempts. |
| Campaigns.CountsFailures | src/campaigns/campaigns.service.ts:139-154 | No failure is counted exactly when every e-mail was accepted. |
| Campaigns.CountsConcat | src/campaigns/campaigns.service.ts:139-154 | The counts of two runs of the loop add up. |
| CampaignsService.Create | src/campaigns/campaigns.service.ts:29-62 | The store ends as `Campaigns.Create` says. |
| CampaignsService.FindOne | src/campaigns/campaigns.service.ts:71-85 | Returns `Campaigns.FindOne` of the current state. |
| CampaignsService.Update | src/campaigns/campaigns.service.ts:87-96 | The store ends as `Campaigns.Update` says. |
| CampaignsService.Send | src/campaigns/campaigns.service.ts:103-166 | The database is unchanged. On an error from `Campaigns.Recipients`, that error is returned and no e-mail is sent. Otherwise it returns nothing: each recipient gets exactly one e-mail, in the order the rows came back, and the ghost report counts the accepted and refused ones. |
| CampaignsService.Deliver | src/campaigns/campaigns.service.ts:139-154 | One e-mail per row, in row order, addressed to that subscriber's email with the campaign's subject and content. The report is the count of the outcomes. |
| Email.Mailer.SendEmail | src/email/email.service.ts:43-48 | Exactly one delivery is recorded. It has the given address, subject and content, and says whether it was accepted. |
| FieldValues.ConvertValueToType | src/lists/lists.service.ts:342-359 | `boolean`: true exactly for the text `true`, ignoring case. `array`: the JSON value when it parses, otherwise one item per comma-separated piece. Any unknown type keeps the text. |
| FieldValues.BooleanMeaning | src/lists/lists.service.ts:346-347 | A boolean field is true exactly when its value folds to `true`. |
| FieldValues.ArrayItems | src/lists/lists.service.ts:350-355 | Each array item is its comma-separated piece with the surrounding white space trimmed. It contains no comma and has no white space at either end. |
| OrganizationGuard.Requested | src/users/guards/organization.guard.ts:24-25 | The query's organisation when non-empty, otherwise the body's. Absent when there is no body to read. |
| OrganizationGuard.CanActivate | src/users/guards/organization.guard.ts:15-52 | No user gives Unauthorized, and only then. A missing body to fall back on gives InternalServerError. Forbidden exactly when a non-superadmin names another non-empty organisation. Allow exactly otherwise. |
| OrganizationGuard.QueryTakesPrecedence | src/users/guards/organization.guard.ts:24-25 | With a non-empty query organisation, the body does not affect the decision. |
| OrganizationGuard.EmptyQueryFallsBack | src/users/guards/organization.guard.ts:24-29 | An empty query organisation is treated as absent. |
| OrganizationGuard.SuperAdminAllowed | src/users/guards/organization.guard.ts:31-33 | A superadmin is never Forbidden, and is allowed for any named organisation. |
| OrganizationGuard.MemberAccess | src/users/guards/organization.guard.ts:35-41 | A regular user naming an organisation is allowed exactly when it is their own. |
| Text.Split | src/lists/lists.service.ts:354 | `split(',')`: at least one piece, no piece contains the separator, and joining the pieces gives back the text. |
| Text.Trim | src/lists/lists.service.ts:354 | The result is a contiguous piece of the text, with no white space at either end. |
| Text.ParseIntText | src/lists/lists.service.ts:264-273 | The decimal text of any integer parses back to that integer. |

## Left out

- The CSV parser (`csv.parse`) is not modelled. The import takes the parsed records, one column-to-text map per record.
- The number, date and JSON branches of `convertValueToType` are not modelled (`Number`, `new Date`, `JSON.parse`). Whether `JSON.parse` succeeds is an input. Custom field values are text.
- FieldValues.ConvertValueToType: `convertValueToType` has no callers in the service. The model states its boolean, array and default branches only.
- The SQL text and the query builder are not modelled. The segment query is stated by its meaning over the stored rows.
- Segments.Resolve: a lone trailing `\` in an `ILIKE` pattern is taken as a literal backslash, not as the error PostgreSQL raises.
- Segments.Resolve: case folding covers ASCII letters only.
- Segments.Resolve: `::numeric` accepts an optional sign, digits and an optional fraction. It does not model exponents, surrounding white space, `NaN` or `Infinity`.
- Segments.Resolve: other database errors the `catch` could report are not modelled.
- Segments.Resolve: the model fixes one evaluation order. It raises the cast error exactly when some candidate row (a member of the list in the organisation) holds a non-number under a numeric rule. PostgreSQL evaluates the conditions in an order its planner chooses and stops at the first false one. It may skip the cast for a row another condition already excludes, or attempt it on a subscriber of the organisation outside the list.
- E-mail delivery (`sendEmail`) is an oracle that accepts or refuses each e-mail. The transport, templates and the sender's configuration are not modelled.
- Generated UUIDs are not modelled. They are the store's counter, so ids are fresh and increasing.
- Creation timestamps are not modelled, nor the relations loaded by `findOne` (the organisation and list objects). `findOne` returns the stored row.
- Logging is not modelled, in the guard's catch block or anywhere else. Log lines are not part of any result.
- Exceptions are modelled by the `Error` values they carry. Messages and HTTP status texts are not.
- Subscribers.BulkImport: the source records `error.message` for a failed row. The model records the error value.
- OrganizationGuard.CanActivate: of the runtime errors its `catch` turns into InternalServerError, only the missing request body is modelled.
- Subscribers.Update: `gpgPublicKey` in the update body has no column in the subscriber entity. The model ignores it, as does the save.
- Subscribers.Update: a body with keys beyond those of the update body never reaches the service. Request validation rejects it, because it forbids properties that are not whitelisted. That rejection is not modelled.
- Campaigns.Update: a body with keys beyond subject and content is rejected by the same request validation, which is not modelled.
- Users, organisations and authentication are not modelled. The guard takes the authenticated user as given.
- Campaigns' `remove` and `findAll` are not modelled. Neither are lists' `create`, `findAll`, `update` and `remove`, which are plain repository calls outside this core. They enter the model only through the stored rows and the `findOne` lookups.
- SubscribersService.FindAll: the order in which the database returns rows is a ghost witness. Only the count and the page are real results.
- Concurrency between requests is not modelled: each operation runs alone. The model also does not cover what `async` interleaving could do.
