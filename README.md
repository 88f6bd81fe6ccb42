# Invitation platform backend: a verified model of the credit ledger and its helpers

This project models the core of an Express/Supabase/Stripe backend for digital event
invitations. Most of it is the **invitation-credit ledger**. Each (user, product type)
pair owns a balance row with `total_purchased` and `total_used`. Three things change it:

- a paid Stripe checkout credits it, once per checkout session;
- e-mail invitations debit the "email" balance;
- public RSVPs debit the "url" balance by the number of attending guests.

The balances endpoint and a maintenance script report availability with two different
formulas.

The rest is the pure logic around the ledger:

- the CSV guest export (RFC 4180 escaping, the record layout, the file name);
- the JSON deep merge and design validation of templates;
- the UUID check and the category rules;
- parsing public storage URLs back into (bucket, path);
- the template-image and carousel patches;
- the quality-stepping loop of image processing;
- bearer-token selection;
- the CORS policy and the error handler;
- the configuration loader;
- the cookie-consent record.

The database is one object, `Store.Db`. Its fields are maps and sets that the
handler methods update in place: processed sessions, balances, events, groups,
guests with their insertion order, questions and answers. Each handler runs as one
sequential transaction.

External calls are parameters of the model:

- the mail service's outcome;
- Stripe lookups and signature checks;
- the database's failures;
- JSON.parse, JSON.stringify and byte lengths;
- the image encoder;
- the hash function;
- the URL parser;
- fresh ids, clock and random name parts.

Modules follow the source files:

| module | source |
|---|---|
| `Stripe` | `src/controllers/stripeController.js` |
| `Invitations` | `src/controllers/invitationController.js` |
| `Rsvp` | `src/controllers/rsvpController.js` |
| `Balances` | `src/controllers/invitationBalancesController.js`, `verify_balance.js` |
| `Events`, `Csv`, `GuestExport` | `src/controllers/eventsController.js` |
| `Templates` | `src/controllers/templatesController.js` |
| `Categories` | `src/controllers/categoriesController.js` |
| `TemplateImages` | `src/controllers/templateImagesController.js` |
| `Storage` | `src/utils/storageUtils.js`, plus the carousel's copy of the URL parse |
| `Carousel` | `src/controllers/carouselController.js` |
| `Image` | `src/utils/imageUtils.js` |
| `Auth` | `src/middlewares/requireAuth.js` |
| `Server` | `src/index.js` |
| `Env` | `src/config/env.js` |
| `Consent` | `src/controllers/cookieConsentController.js` |

Two modules hold shared pieces:

- `Base`: Option/Result, JavaScript string operations (trim, split, join, toLowerCase, parseInt);
- `JsValue`: a JSON/JavaScript value with `undefined`, truthiness and `String()`.

## Model

| member | source | states |
|---|---|---|
| Stripe.CheckoutMetadata | src/controllers/stripeController.js:46-54 | The metadata has exactly the seven keys. Each is the String() text of its source value when that is truthy and its default otherwise: "" for userId, packName, eventId and targetMaxGuests, "standard" for productType, "0" for invitations. publishAfterPayment is "true" or "false" by truthiness. |
| Stripe.MarkPending | src/controllers/stripeController.js:70-84 | After a session is created, the named event moves to "pending" exactly when it was a draft; every other event and column is unchanged. |
| Stripe.MarkPendingUnless | src/controllers/stripeController.js:70-84 | A failed status read or a failed update leaves the events as they were; with neither, the events are MarkPending of the old ones. |
| Stripe.CreateCheckoutSession | src/controllers/stripeController.js:36-91 | 400 without a price id, and 500 for a failed price lookup or session creation, each changing no event. On success the reply is 200, the metadata sent is CheckoutMetadata, and the events are MarkPendingUnless of the old ones, so a failed status read or update is only logged. |
| Stripe.MarkEventPending | src/controllers/stripeController.js:71-83 | The status read and the draft-to-pending update leave the events as MarkPendingUnless says for the given faults. |
| Stripe.EventPatchOf | src/controllers/stripeController.js:170-178 | A patch exists only for a truthy eventId other than "null"; it sets max_guests only when targetMaxGuests parses, and publishes only when publishAfterPayment is "true". |
| Stripe.ApplyEventPatch | src/controllers/stripeController.js:169-184 | Only the event with that id owned by the paying user changes, and only in the patched columns; the owner never changes. |
| Stripe.Credit | src/controllers/stripeController.js:147-166 | The row of the key gains exactly the quantity in total_purchased with total_used kept; a missing row is created as (quantity, 0); other rows are unchanged. |
| Stripe.FinalizePurchase | src/controllers/stripeController.js:97-192 | A session missing its id, user or product type, or a failed purchase insert, throws with no change. A recorded session id returns alreadyProcessed and changes nothing. Otherwise the session is recorded, the balance credited (or a throw after the record) and the event patched, with an event failure only logged. |
| Stripe.FirstDelivery | src/controllers/stripeController.js:137-191 | For a new session id, the purchase row is written first, then Credit and ApplyEventPatch take effect unless their store calls fail. |
| Stripe.CreditBalance | src/controllers/stripeController.js:138-167 | The read-then-write of the balance row yields Credit of the old balances, or leaves them unchanged when either store call fails. |
| Stripe.PatchPaidEvent | src/controllers/stripeController.js:169-188 | The events become ApplyEventPatch of the old ones; another user's event is never touched. |
| Stripe.HandleWebhook | src/controllers/stripeController.js:218-242 | A bad signature gives 400 with no change; another event type is acknowledged with no change. For checkout.session.completed the reply is 500 exactly when FinalizePurchase throws, and then balances and events are unchanged. A recorded session gives 200 with no change. A 200 for a new session records it, credits the balance as Credit says, and patches the event as ApplyEventPatch says unless the event write failed. |
| Stripe.RedeliveryCreditsOnce | src/controllers/stripeController.js:109-135 | The same paid session delivered twice credits the balance once, and the second delivery reports alreadyProcessed. |
| Stripe.LostCreditOnBalanceFailure | src/controllers/stripeController.js:129-155 | When the balance write fails after the purchase row is stored, the redelivery finds the session recorded and the credit is never made. |
| Stripe.CheckoutQuantity | src/controllers/stripeController.js:49-101 | When the product's invitations metadata is the number n or its decimal text, finalisation credits exactly n. |
| Stripe.QuantityOf | src/controllers/stripeController.js:101 | Metadata whose invitations is the decimal text of n parses back to n. |
| Stripe.CheckoutEventPatch | src/controllers/stripeController.js:51-177 | The event named at checkout is the one finalisation patches, with the requested capacity, and it is published exactly when publication was requested. |
| Stripe.CheckoutIsComplete | src/controllers/stripeController.js:46-107 | A checkout by a signed-in user for a product with a non-empty type, or none, yields a session finalisation does not refuse as incomplete. |
| Invitations.ProductTypeEmail | src/controllers/invitationController.js:76-79 | The product type is "email" exactly when the lower-cased invitation_type is "email" or starts with "email:". |
| Invitations.AfterSend | src/controllers/invitationController.js:24-28 | After a resolved send the guest is "sent" with the message id and no error, or "failed" with the error and no message id; no other field changes. |
| Invitations.Recorded | src/controllers/invitationController.js:24-33 | A thrown send or a failed guest update leaves the guests unchanged; otherwise only that guest's row takes the outcome, as AfterSend says. |
| Invitations.ProcessEmailSend | src/controllers/invitationController.js:8-36 | The guests table becomes Recorded of the old one, including a failed guest update, and the outcome is handed back unchanged. |
| Invitations.ChargeNeedsCredit | src/controllers/invitationController.js:79-99 | A credit is taken only for a first send of an "email" product from an existing row with purchased minus used above 0. |
| Invitations.NoCreditRefused | src/controllers/invitationController.js:75-94 | A first send of an "email" product with no balance row, or none left, is refused with 403. |
| Invitations.ResendIgnoresBalance | src/controllers/invitationController.js:75-79 | Re-sending to a guest already "sent" gives the same outcome under any balances and takes no credit. |
| Invitations.Debit | src/controllers/invitationController.js:96-99 | total_used of the key's row grows by exactly 1; total_purchased and every other row are unchanged. |
| Invitations.SendGuestInvitation | src/controllers/invitationController.js:38-115 | Every refusal (event not owned, invitation_type not starting with "email", no guest, no e-mail, no credit) leaves the store unchanged. Otherwise the credit is taken before the send and kept whatever the send does. The guest records the outcome as Recorded says, and the status is 200 exactly for a delivered mail. |
| Invitations.Selection | src/controllers/invitationController.js:140-151 | An id is selected exactly when it is one of the listed guests of the event with a non-blank e-mail, and with pendingOnly only a "queued" one. The ids keep the order of the list, which is the order the database returned. There are no more ids than the list holds. |
| Invitations.BulkStepBounds | src/controllers/invitationController.js:181-205 | One loop iteration keeps BulkBounds with its guest appended to those handled: the credits taken stay exactly the count of delivered first sends (Charged) when charging a row, and 0 otherwise. |
| Invitations.BulkRunBounds | src/controllers/invitationController.js:161-211 | Over any run of the loop there is one detail per guest, in order. The local balance is the initial one minus the credits taken. With an "email" product and a balance row, the credits taken are exactly the delivered first sends; otherwise none. Credits never exceed max(initial, 0), and unselected guests are untouched. |
| Invitations.Charged | src/controllers/invitationController.js:196-203 | The number of delivered details whose guest had not been sent to before, which the bulk loop charges one credit each. |
| Invitations.CountOk | src/controllers/invitationController.js:227 | The sent count is at most the number of details. |
| Invitations.BulkLoop | src/controllers/invitationController.js:177-211 | The loop's guests, local balance, credits taken and details are those of BulkRun, so BulkRunBounds applies. |
| Invitations.Settle | src/controllers/invitationController.js:213-225 | total_used is rewritten as the freshly read total_used (0 when that read fails) plus the credits taken, only when credits were taken from an existing row and the write succeeds; otherwise nothing changes. |
| Invitations.WriteTotalUsed | src/controllers/invitationController.js:213-225 | The aggregated debit leaves the balances as Settle says. |
| Invitations.SendToSelection | src/controllers/invitationController.js:160-235 | The balance is read once, the loop runs as BulkLoop, one aggregated debit is written as Settle says, and sent plus failed equals the number of selected guests. |
| Invitations.SendAllGuestInvitations | src/controllers/invitationController.js:117-240 | Refusals (failed lookup 500, no such event 404, not an e-mail event or empty selection 400) change nothing; otherwise the selected guests are sent to as SendToSelection says. |
| Invitations.BulkDebitBounded | src/controllers/invitationController.js:161-234 | The bulk send takes exactly one credit per delivered first send when charging an existing row, and none otherwise. It never takes more credits than were left when it started, and it reports sent plus failed equal to the selection's size. |
| Rsvp.AssertEventOwner | src/controllers/rsvpController.js:7-19 | 500 for a failed lookup, 404 for a missing event, 403 for another owner's event, and the event otherwise. |
| Rsvp.GroupRow | src/controllers/rsvpController.js:171-176 | The row is under the given event, and each contact field is the String() text of its body value when truthy and NULL otherwise. |
| Rsvp.GuestRow | src/controllers/rsvpController.js:187-197 | An entry without a truthy full_name is an error; otherwise a row of that event and group, attending as the boolean coercion of the input, and no e-mail status. |
| Rsvp.GuestsPayload | src/controllers/rsvpController.js:187-198 | All rows in order, one per entry, or the error of the first entry without full_name. |
| Rsvp.AttendingCount | src/controllers/rsvpController.js:240 | The count of attending rows, which is at most the number of rows. |
| Rsvp.AnswerText | src/controllers/rsvpController.js:223 | A null or undefined answer is stored as "", anything else as its String() text. |
| Rsvp.GuestAnswerRows | src/controllers/rsvpController.js:212-225 | Every row kept is for that guest and an allowed question; GuestAnswerRowsAppend states which rows are kept and their order. |
| Rsvp.GuestAnswerRowsAppend | src/controllers/rsvpController.js:212-225 | The rows of two answer lists are those of the first followed by those of the second, and one answer gives its row exactly when its question id is truthy and allowed: the rows kept are exactly the accepted answers, in order. |
| Rsvp.AnswerRows | src/controllers/rsvpController.js:208-226 | Every row names a created guest and an allowed question. |
| Rsvp.CollectAnswerRows | src/controllers/rsvpController.js:208-226 | The answer-row loop yields AnswerRows of the created guests and their entries. |
| Rsvp.CollectGuestAnswers | src/controllers/rsvpController.js:214-225 | The inner loop yields GuestAnswerRows of that guest's answers. |
| Rsvp.Upsert | src/controllers/rsvpController.js:229-233 | The stored keys become the old ones plus the rows' keys, and stored answers no row names are untouched. UpsertLastWins and UpsertDistinct state the values written. |
| Rsvp.UpsertLastWins | src/controllers/rsvpController.js:229-233 | Every row that is the last with its (guest, question) key leaves its text under this event and group at that key. |
| Rsvp.UpsertDistinct | src/controllers/rsvpController.js:229-233 | When no two rows share a key, every row's text is stored at its key. |
| Rsvp.RsvpDebit | src/controllers/rsvpController.js:239-265 | total_used of the owner's row grows by exactly the attending count when that count is positive, the lower-cased type starts with "url" and the row is read; otherwise nothing changes. |
| Rsvp.RsvpDebitCanOverdraw | src/controllers/rsvpController.js:248-262 | With nothing purchased and two attending guests, total_used becomes 2, past total_purchased. |
| Rsvp.AllowedQuestions | src/controllers/rsvpController.js:162-168 | The allowed ids are exactly the questions of that event. |
| Rsvp.AddGuests | src/controllers/rsvpController.js:200-203 | The created rows are added under their new ids and existing guests are kept. |
| Rsvp.AddFirstGuest | src/controllers/rsvpController.js:200-203 | Adding the rows one by one gives AddGuests. |
| Rsvp.RsvpPrecheck | src/controllers/rsvpController.js:146-184 | A missing event id or a guests list that is not a non-empty array gives 400, and a failed or empty lookup 500 or 404, all before any write. |
| Rsvp.PostPublicRsvp | src/controllers/rsvpController.js:141-280 | A precheck failure changes nothing. Otherwise the group row is stored first, so a guest without full_name answers 400 with the group kept. Then come the guests, the accepted answers and the "url" debit, and the reply is 201. |
| Rsvp.StoreRsvp | src/controllers/rsvpController.js:178-273 | The group row is inserted, then the guests, answers and debit as StoreGuestsAndAnswers says. |
| Rsvp.StoreGuestsAndAnswers | src/controllers/rsvpController.js:186-273 | A bad payload (400) or failed guests insert (500) changes nothing more; otherwise the guests are added in order, then the answers and debit follow. |
| Rsvp.StoreAnswersAndDebit | src/controllers/rsvpController.js:207-265 | A failed upsert of a non-empty set of rows, or a batch naming one key twice, which the database refuses, gives 500 with nothing more written. Otherwise the rows are upserted and RsvpDebit applied. |
| Rsvp.InsertGuests | src/controllers/rsvpController.js:200-205 | The guests become AddGuests of the old ones, and the new ids are appended to the insertion order. |
| Rsvp.DebitAttending | src/controllers/rsvpController.js:248-263 | The balances become RsvpDebit of the old ones. |
| Rsvp.AnswersOf | src/controllers/rsvpController.js:82-93 | An answer is listed exactly when it belongs to that guest. |
| Rsvp.GuestsOf | src/controllers/rsvpController.js:96-104 | Every guest of the group is listed, each with exactly its own answers, and nothing else is. |
| Rsvp.Tree | src/controllers/rsvpController.js:106-110 | One node per group, in order, each listing GuestsOf that group. |
| Rsvp.OrphansDropped | src/controllers/rsvpController.js:96-110 | A guest whose group is absent appears in no node of the tree. |
| Rsvp.IndexAnswersStep | src/controllers/rsvpController.js:83-93 | One more answer row is appended to its guest's list in the index. |
| Rsvp.IndexGuestsStep | src/controllers/rsvpController.js:97-104 | One more guest is appended, with its answers, to its group's list. |
| Rsvp.OwnAnswers | src/controllers/rsvpController.js:102 | The answers index gives each guest AnswersOf that guest, and none for a guest it lacks. |
| Rsvp.IndexAnswers | src/controllers/rsvpController.js:82-93 | The answersByGuest loop builds the index of AnswersOf per guest. |
| Rsvp.IndexGuests | src/controllers/rsvpController.js:96-104 | The guestsByGroup loop builds the index of GuestsOf per group. |
| Rsvp.BuildTree | src/controllers/rsvpController.js:81-110 | The two index loops and the final map give Tree of the three row lists. |
| Rsvp.GetEventRsvpTree | src/controllers/rsvpController.js:27-119 | The owner check, then 500 for any failed query, then Tree of the rows. |
| Rsvp.BuildGroupPatch | src/controllers/rsvpController.js:294-299 | The patch holds exactly the fields the body defines, each its value when truthy and NULL otherwise. |
| Rsvp.ApplyGroupPatch | src/controllers/rsvpController.js:305-311 | Patched fields take the patch's value; the event and unpatched fields are kept. |
| Rsvp.PatchPrivateGroup | src/controllers/rsvpController.js:286-320 | Owner check; 400 for an empty patch; 500 for a failed update; 404 when the event has no such group. Otherwise only that group changes, as ApplyGroupPatch says. |
| Rsvp.GuestPatchOf | src/controllers/rsvpController.js:350-356 | full_name as given, email and phone as their value when truthy and NULL otherwise, attending as a boolean, absent fields left out. |
| Rsvp.BuildGuestPatch | src/controllers/rsvpController.js:350-356 | The field-by-field construction yields GuestPatchOf of the body. |
| Rsvp.ApplyGuestPatch | src/controllers/rsvpController.js:361-372 | Patched columns take the patch's values; the event, group and e-mail status are kept. |
| Rsvp.PatchAnswerRows | src/controllers/rsvpController.js:384-392 | Every row is for this guest and one of the event's questions. |
| Rsvp.UpdateGuest | src/controllers/rsvpController.js:359-408 | A non-empty patch updates only this guest, and a failed update gives 500 with no change. Then an array of answers is upserted under the guest's group, after the column update. |
| Rsvp.PatchPrivateGuest | src/controllers/rsvpController.js:332-412 | Owner check, then 500 or 404 for the guest lookup by id and event, then UpdateGuest; an empty body is a successful no-op. |
| Rsvp.GuestUpdateIsLocal | src/controllers/rsvpController.js:359-403 | A guest patch leaves every other guest, and the set of guests, as it was. |
| Balances.NumberOfText | src/controllers/invitationBalancesController.js:6-9 | Number() of blank text (whitespace only) is 0. |
| Balances.ToInt | src/controllers/invitationBalancesController.js:6-9 | toInt of an integer is itself; null and undefined give 0; true and false give 1 and 0; blank text gives 0. |
| Balances.ToIntOfNumeral | src/controllers/invitationBalancesController.js:6-9 | The decimal text of any integer converts back to that integer. |
| Balances.ToIntTruncates | src/controllers/invitationBalancesController.js:6-9 | A decimal fraction written as text is truncated toward zero. |
| Balances.ToIntOfWord | src/controllers/invitationBalancesController.js:6-9 | Text that is not a number converts to 0. |
| Balances.Enrich | src/controllers/invitationBalancesController.js:28-42 | available is max(0, purchased - reserved) and never negative; total_reserved is the reservation; the stored fields pass through unchanged. |
| Balances.AvailableIgnoresUsed | src/controllers/invitationBalancesController.js:28-36 | available is the same whatever total_used holds. |
| Balances.EnrichAll | src/controllers/invitationBalancesController.js:25-43 | One enriched row per stored row, in order, each with the reservation of its product type. |
| Balances.GetMyInvitationBalances | src/controllers/invitationBalancesController.js:11-49 | 401 without a user, before any read; 500 for a failed query; else EnrichAll of the rows. |
| Balances.ReservationAppend | verify_balance.js:23 | The reservation of a concatenation is the sum of the reservations, as the reduce accumulates. |
| Balances.ReservationNonNegative | verify_balance.js:16-23 | With no negative capacity stored the reservation is at least 0; null or non-numeric capacity counts as 0. |
| Balances.ReservationOfOthers | verify_balance.js:16-21 | Events that are not published events of the user with a type starting with the product type (ignoring case) add nothing: with none reserving, the reservation is 0. |
| Balances.ScriptAvailable | verify_balance.js:24-25 | Purchased (0 without a row) minus the reservation, not clamped. |
| Balances.ClampedIsScriptClamped | src/controllers/invitationBalancesController.js:36 | The endpoint's available is the script's figure clamped at 0, for the same purchase and reservation. |
| Balances.ScriptCanGoNegative | verify_balance.js:25 | With 10 purchased and a published event of capacity 15, the script reports -5. |
| Events.Pick | src/controllers/eventsController.js:4-10 | The result holds exactly the allowed keys the object owns, with their values. |
| Events.CreatePayload | src/controllers/eventsController.js:106-118 | The row has the owner, the allowed fields of the body, and status "draft". |
| Events.StatusNotAllowed | src/controllers/eventsController.js:13-22 | No body puts status into the picked fields. |
| Events.CreateEvent | src/controllers/eventsController.js:106-132 | A new event owned by the caller is stored as a draft, or nothing changes when the insert fails. |
| Events.IntColumn | src/controllers/eventsController.js:149-155 | null and undefined clear the column, a number is stored, and booleans, arrays and objects are refused. |
| Events.PatchedEvent | src/controllers/eventsController.js:149-155 | Only allowed columns change; owner and status never do. |
| Events.PatchEvent | src/controllers/eventsController.js:134-164 | 400 exactly when the body has no allowed field, with nothing written. 200 exactly when the update succeeds on the caller's event and PatchedEvent accepts the fields; then only that event changes, as PatchedEvent says, and its status and owner stay. 404 exactly when the caller owns no such event. |
| Events.NormalizeAttending | src/controllers/eventsController.js:196-200 | true gives "SI", false gives "NO", anything else "PENDIENTE". |
| Events.OptionLabel | src/controllers/eventsController.js:202-208 | A label exists exactly when some option carries that id and the id is truthy. |
| Events.ParseMultiIds | src/controllers/eventsController.js:210-221 | An array passes through; text holding a JSON array gives that array; anything else gives []. |
| Events.KnownLabels | src/controllers/eventsController.js:237 | Every label kept is truthy and there are never more than the ids; KnownLabelsAppend states which labels are kept and in what order. |
| Events.KnownLabelsAppend | src/controllers/eventsController.js:237 | The labels of two id lists are those of the first followed by those of the second, and one id gives its option's label exactly when that label is truthy: the known labels, in the order of the ids. |
| Events.KnownLabelsOfUnknown | src/controllers/eventsController.js:237 | Ids naming no option give no labels. |
| Events.KnownLabelsOfKnown | src/controllers/eventsController.js:237 | Ids that all name options with truthy labels give one label per id. |
| Events.HumanizeAnswer | src/controllers/eventsController.js:223-249 | single_choice gives the option's label or ""; multi_choice gives the known labels joined with ", "; number gives "" for null, undefined and "", else the number's text; any other type gives the raw text, "" for null and undefined. |
| Events.MultiChoiceOfUnknown | src/controllers/eventsController.js:233-238 | A multi_choice answer naming no known option shows as "". |
| Events.SingleChoiceOfUnknown | src/controllers/eventsController.js:226-231 | A single_choice answer no option has shows as "". |
| Events.DashSpaces | src/controllers/eventsController.js:358 | Text without whitespace is unchanged. |
| Events.KeepSlugChars | src/controllers/eventsController.js:359 | Only [a-z0-9-_.] remain, and text made of those is unchanged. |
| Events.Slug | src/controllers/eventsController.js:355-359 | The slug holds only [a-z0-9-_.]. |
| Events.ExportFileName | src/controllers/eventsController.js:355-360 | "invitados-" plus the slug, or the event id when the slug is empty, plus ".csv". |
| Events.SlugOfSlug | src/controllers/eventsController.js:355-359 | A non-empty title made of slug characters is its own slug. |
| Events.SlugIdempotent | src/controllers/eventsController.js:355-359 | Slugging a slug gives it back. |
| Csv.DoubleQuotes | src/controllers/eventsController.js:193 | Never shorter than its input; that the doubling is undone exactly is stated by Csv.ReadFieldOf. |
| Csv.EscapeText | src/controllers/eventsController.js:190-194 | Text with a quote, comma, CR or LF is quoted with inner quotes doubled; other text is unchanged. |
| Csv.EscCsv | src/controllers/eventsController.js:190-194 | null and undefined give ""; any other value is EscapeText of its String() text. |
| Csv.ReadFieldOf | src/controllers/eventsController.js:190-194 | One escaped field followed by the end or a comma reads back, under section 2 of RFC 4180, as its text. |
| Csv.ReadRecordOf | src/controllers/eventsController.js:327 | A record written from any texts reads back as exactly those texts, so it has that many fields. |
| Csv.RecordReadsBack | src/controllers/eventsController.js:352 | A record of cell values reads back as their cell texts. |
| GuestExport.AnswersByGuestKeys | src/controllers/eventsController.js:304-309 | A guest has an entry, never an empty one, exactly when some answer row with a truthy guest id names it. |
| GuestExport.AnswersByGuestLast | src/controllers/eventsController.js:304-309 | For any row with a truthy guest id that is the last row for its (guest, question) pair, the index holds that guest and question, with the row's answer, or "" when it is null or undefined. |
| GuestExport.IndexAnswers | src/controllers/eventsController.js:304-309 | The loop builds AnswersByGuest; every key is truthy with a non-empty map. |
| GuestExport.QuestionHeaders | src/controllers/eventsController.js:323 | One "Q: label-or-id" header per question, in order. |
| GuestExport.GuestCells | src/controllers/eventsController.js:329-352 | 8 fixed cells plus one per question; the seventh is the attendance text and the eighth the responded mark. |
| GuestExport.LinesAt | src/controllers/eventsController.js:326-353 | Line 0 is the header and line i + 1 is guest i's line. |
| GuestExport.GuestLineFields | src/controllers/eventsController.js:352 | Every guest line reads back as exactly 8 + the number of questions fields, the guest's cell texts. |
| GuestExport.HeaderFields | src/controllers/eventsController.js:312-327 | The header, after its byte-order mark, reads back as the 8 fixed names and one "Q: ..." per question. |
| GuestExport.RespondedColumn | src/controllers/eventsController.js:332-334 | The responded cell is "SI" exactly when attending is a boolean or some answer row names the guest. |
| GuestExport.BuildLines | src/controllers/eventsController.js:326-353 | The loop yields the header followed by one line per guest, in query order. |
| GuestExport.ExportGuests | src/controllers/eventsController.js:255-368 | 400 for a format other than csv; 500 for a failed read; 404 when the caller owns no such event. Otherwise the lines joined with CRLF, under ExportFileName. |
| Templates.DeepMerge | src/controllers/templatesController.js:9-20 | The patch itself unless both sides are plain objects, whose merge is a plain object. |
| Templates.MergeFields | src/controllers/templatesController.js:13-18 | Target keys the patch leaves out or sets undefined are kept; a defined patch value replaces the target's unless both are plain objects, which are merged. |
| Templates.DeepMergeIdempotent | src/controllers/templatesController.js:9-20 | Merging the same patch twice equals merging it once. |
| Templates.DeepMergeSelf | src/controllers/templatesController.js:9-20 | A plain object merged into itself is itself. |
| Templates.MergeEmptyPatch | src/controllers/templatesController.js:9-20 | An empty patch leaves a plain object unchanged. |
| Templates.ToBool | src/controllers/templatesController.js:63-70 | A boolean passes through; "true"/"false" in any letter case give true/false; anything else is undefined. |
| Templates.ToBoolIgnoresCase | src/controllers/templatesController.js:63-70 | "TRUE" is true and "False" is false. |
| Templates.SafeJsonParse | src/controllers/templatesController.js:22-34 | Blank text is an error; other text is trimmed and parsed, or an error; a non-null object or array passes through; anything else is an error. |
| Templates.NormalizeDesignJson | src/controllers/templatesController.js:36-61 | Accepted only when the root is an object or array, its serialization has at most maxBytes bytes, and any backgroundImageUrl is a string; the accepted value comes with its serialization. |
| Templates.CreateTemplate | src/controllers/templatesController.js:125-172 | 401 without a user. 400 exactly when name, slug or thumbnail_url is not a non-empty string or a given design_json is refused. 409 exactly when those pass and the trimmed slug is taken. Otherwise the row: the three texts trimmed, is_active defaulting to true, top to false, design_json the normalized text or null when none is given. |
| Templates.MergeBase | src/controllers/templatesController.js:213-217 | The stored design (`design_json`, or "{}" when falsy) as parsed, or {} when the parse fails. |
| Templates.MergeBaseOfStored | src/controllers/templatesController.js:213-217 | A design stored as an object or array is the base itself. |
| Templates.MergeBaseOfMissing | src/controllers/templatesController.js:213-217 | A row without a stored design merges onto the parse of "{}", or {} when that fails. |
| Templates.TextColumn | src/controllers/templatesController.js:199-204 | The trimmed text when the body gives a string, else nothing. |
| Templates.FlagColumn | src/controllers/templatesController.js:199-204 | The boolean when the body gives one, else nothing. |
| Templates.ScalarPatch | src/controllers/templatesController.js:199-204 | Each plain column is set exactly when the body gives it with the right type. |
| Templates.DesignPatch | src/controllers/templatesController.js:206-224 | Err(400) exactly when a given design_json is refused, or a given design_json_patch fails to parse or its merge onto MergeBase of the stored design is refused. A design_json alone writes its normalized text. A design_json_patch writes the merge onto the stored design, never onto the design_json of the same body. Nothing is written when neither is given. |
| Templates.PatchTemplate | src/controllers/templatesController.js:175-240 | 401; 404 without the row. 409 exactly when a new non-blank trimmed slug is taken. 400 exactly when, past those, DesignPatch refuses or the body gives no column. Otherwise the update, each column set exactly when the body gives it with the right type, and design_json as DesignPatch says. |
| Categories.UuidOfGroups | src/controllers/categoriesController.js:8-10 | Five hex groups of 8-4-4-4-12 digits, with version 1-5 and variant 8/9/a/b, joined by dashes, are a UUID. |
| Categories.GroupsOfUuid | src/controllers/categoriesController.js:8-10 | Every UUID is such a joining of its own groups. |
| Categories.UuidIgnoresCase | src/controllers/categoriesController.js:9 | The check accepts a text exactly when it accepts its lower-cased form. |
| Categories.UuidTrimmed | src/controllers/categoriesController.js:15-17 | A UUID is not blank and trimming leaves it unchanged. |
| Categories.NormalizeParentId | src/controllers/categoriesController.js:12-18 | undefined keeps the column; null or blank text gives root; a UUID gives itself; anything else is invalid. Each case holds in both directions. |
| Categories.ParentColumn | src/controllers/categoriesController.js:108 | The stored parent_id is null unless a parent is named, and then it is that id's canonical lower-case form. |
| Categories.CreateCategory | src/controllers/categoriesController.js:73-123 | 400 for a bad name, slug or parent_id. 409 exactly when those pass and the trimmed slug is taken. 400 for an unknown parent, looked up in any letter case. Otherwise the trimmed row, with parent_id null when none was named. |
| Categories.CreateKeepsTable | src/controllers/categoriesController.js:84-108 | Inserting an accepted row keeps slugs unique and every parent reference valid. |
| Categories.PatchCategory | src/controllers/categoriesController.js:129-209 | 404 exactly for an id no category has, in any letter case. 409 exactly when the name passes and a new trimmed slug is taken. Success exactly when the name, slug and parent_id the body gives pass (ParentStep) and the body gives one of them. Each field is then patched exactly when the body gives it. |
| Categories.ParentStepAsWritten | src/controllers/categoriesController.js:168-190 | As written: 400 for an invalid parent_id, for the same text as the route id, or for a parent not found in any letter case; otherwise the parent column. |
| Categories.SelfParentAsWritten | src/controllers/categoriesController.js:173-186 | A category's UUID written in other letters passes the check as written, and applying the patch makes the category its own parent. |
| Categories.UpperCaseId | src/controllers/categoriesController.js:9 | "AAAAAAAA-AAAA-1AAA-8AAA-AAAAAAAAAAAA" is a UUID whose canonical form is its lower-case text. |
| Categories.CanonOfUpperId | src/controllers/categoriesController.js:9 | The canonical form of that upper-case id is its lower-case text. |
| Categories.ParentStep | src/controllers/categoriesController.js:168-190 | Corrected: 400 exactly for an invalid parent_id, the category itself in any letter case, or an unknown parent; otherwise the canonical parent column. |
| Categories.ParentStepNeverSelf | src/controllers/categoriesController.js:173-175 | The corrected step never stores the category as its own parent, and refuses its id written in any letter case. |
| Categories.PatchKeepsTable | src/controllers/categoriesController.js:150-190 | A patch these rules let through keeps slugs unique, every parent reference naming an existing category, and no category its own parent. A cycle of two or more categories is not refused. |
| Categories.DeleteCategory | src/controllers/categoriesController.js:215-258 | 404 for an unknown id, matched in any letter case; 409 while it has children or template links; else the table without it. |
| Categories.DeleteKeepsTable | src/controllers/categoriesController.js:229-249 | A deletion never leaves a dangling parent reference or template link. |
| TemplateImages.SlotOf | src/controllers/templateImagesController.js:7-12 | Exactly the four image types have a slot: thumbnail is the thumbnail_url column and the others are design_json keys. |
| TemplateImages.SlotAsWritten | src/controllers/templateImagesController.js:30 | The slot lookup as written also accepts names inherited from Object.prototype, selecting the key "undefined". |
| TemplateImages.ConstructorTypeAccepted | src/controllers/templateImagesController.js:30 | The type "constructor" passes the check as written and is refused by SlotOf. |
| TemplateImages.SafeJson | src/controllers/templateImagesController.js:14-22 | A falsy value gives {}; an object passes through; text is parsed, or gives {} when parsing fails. |
| TemplateImages.SetKey | src/controllers/templateImagesController.js:76-77 | An object gains or replaces that key and keeps all its other keys; anything else is unchanged. |
| TemplateImages.OldImageUrl | src/controllers/templateImagesController.js:42-48 | The column's value, or the design's key; a read that throws gives none. |
| TemplateImages.UploadPathSegments | src/controllers/templateImagesController.js:57-58 | The path's segments are templates, the id, the type and the .webp name. |
| TemplateImages.UploadTemplateImage | src/controllers/templateImagesController.js:24-92 | 400 for an unknown type or no file before any read; 404 without the template. The old image is deleted exactly when one exists; 500 when the upload fails. Otherwise only the slot changes: thumbnail_url, or design_json with only its key set. |
| TemplateImages.ReplacementDeletesUpload | src/controllers/templateImagesController.js:50-70 | The public URL stored now parses back to the templates bucket and upload path that a later replacement deletes. |
| Storage.SplitSlash | src/utils/storageUtils.js:21-22 | The first segment has no "/", and with a "/" present the first segment, "/" and the rest rejoined give the whole path. |
| Storage.ObjectOf | src/utils/storageUtils.js:20-22 | The bucket has no "/"; when the full path has a "/", bucket + "/" + path equals it. |
| Storage.ParsePublicUrl | src/utils/storageUtils.js:14-22 | A URL without the public marker gives no removal. |
| Storage.StorageRemoval | src/utils/storageUtils.js:8-35 | A falsy url gives no removal; a removal comes only from the part before the first "?" holding the marker; its bucket has no "/". |
| Storage.CarouselRemoval | src/controllers/carouselController.js:7-22 | The same parse without removing the query string; a falsy url or one without the marker gives nothing. |
| Storage.ParsePublicUrlOf | src/utils/storageUtils.js:14-22 | The public URL of an object parses back to that bucket and path. |
| Storage.StorageIgnoresQuery | src/utils/storageUtils.js:13 | A URL parses the same with or without a query string. |
| Storage.RemovalOfPublicUrl | src/utils/storageUtils.js:13-22 | Both parsers give back the object of its public URL. With a query appended, the storage utilities still do; the carousel's copy keeps the query in the path. |
| Carousel.Extension | src/controllers/carouselController.js:49 | The extension has no "/". |
| Carousel.ExtensionOfMimeType | src/controllers/carouselController.js:49 | The extension of type/subtype is the subtype. |
| Carousel.UploadPathSegments | src/controllers/carouselController.js:49-51 | An upload lands directly in the carousel folder as one named file. |
| Carousel.CreateSlide | src/controllers/carouselController.js:38-86 | 500 exactly when an upload or the insert fails. Otherwise the texts as given and each image's URL or null. sort_order is 0 when the given one is falsy and kept otherwise. |
| Carousel.RawPatch | src/controllers/carouselController.js:102 | The patch lists exactly the five body fields. |
| Carousel.Defined | src/controllers/carouselController.js:105 | Exactly the entries that are not undefined, with their values. |
| Carousel.DeleteUndefined | src/controllers/carouselController.js:105 | The in-place cleaning loop yields Defined of the patch. |
| Carousel.ImagePatch | src/controllers/carouselController.js:118-132 | Only the two image columns can be set. |
| Carousel.ImageFields | src/controllers/carouselController.js:107-133 | An image column is set exactly when a new image came for it, to that image's public URL. |
| Carousel.CleanedFields | src/controllers/carouselController.js:102-105 | The cleaned patch holds exactly the body fields that are defined, as given. |
| Carousel.UpdatePatchFields | src/controllers/carouselController.js:102-133 | The update holds exactly the defined body fields, as given, and the new image columns. |
| Carousel.UpdateSlide | src/controllers/carouselController.js:88-147 | 404 without the slide. A failed upload gives 500 after the earlier slot's old file was already deleted. With the uploads done, the old images are deleted in order, desktop first, even when the row update then fails with 500. 200 exactly when the slide exists, the uploads and the update succeed, and the patch is the cleaned fields plus the new URLs. |
| Carousel.DeleteSlide | src/controllers/carouselController.js:149-175 | 404 without the slide; otherwise both images are deleted, desktop first, and 200 exactly when the row removal succeeds. |
| Image.Search | src/utils/imageUtils.js:39-46 | The final quality is between 70 and the start, a whole number of steps of 4 below it, and its encoding is the result. Either that fits the limit or one more step would pass 70. |
| Image.SearchStopsAtFirstFit | src/utils/imageUtils.js:43-46 | Every quality passed over produced output over the limit. |
| Image.Qualities | src/utils/imageUtils.js:39-46 | The encoded qualities are 94, 90, ... in order. |
| Image.AtMostSevenEncodes | src/utils/imageUtils.js:24-46 | At most seven encodings happen. |
| Image.Processed | src/utils/imageUtils.js:10-54 | A failed metadata read, a WebP within the limit, or a failed encode returns the original buffer. |
| Image.ProcessImage | src/utils/imageUtils.js:10-54 | The loop returns Processed and tries qualities 94 downward in steps of 4, never below 70, at most seven, the last being the search's result. |
| Auth.HeaderToken | src/middlewares/requireAuth.js:6-9 | A token exists exactly when the header starts with "Bearer ", and it is the rest of the header. |
| Auth.HeaderTokenOf | src/middlewares/requireAuth.js:6-9 | The header token of "Bearer " + t is t. |
| Auth.SelectToken | src/middlewares/requireAuth.js:4-11 | A non-empty cookie token wins; otherwise the non-empty header token; never an empty token. |
| Auth.RequireAuth | src/middlewares/requireAuth.js:3-28 | 401 "Missing auth token" without a token; 401 "Invalid or expired token" when verification yields no user; otherwise authenticated as the verified user. |
| Auth.BearerRequest | src/middlewares/requireAuth.js:6-27 | Without a cookie, "Bearer t" is authenticated as the verifier's user for t. |
| Server.CorsOrigin | src/index.js:20-53 | A request is allowed exactly when it has no origin, a listed origin, or an allowed preview: a hostname under .vercel.app starting with "inviteflow-" and containing "-invitapop". Any refusal's message starts with "CORS blocked". |
| Server.HandleError | src/index.js:81-90 | Sent headers delegate; a "CORS blocked" message gives 403 with that message; anything else gives 500 "Internal server error". |
| Server.BlockedOriginIsForbidden | src/index.js:46-90 | A refused origin reaches the client as a 403 carrying the refusal's message. |
| Env.Var | src/config/env.js:4 | A set variable's text, undefined when unset. |
| Env.Required | src/config/env.js:3-7 | Succeeds exactly for a set, non-empty variable, with its value; otherwise fails with "Missing env var: " and the name. |
| Env.CleanedEntries | src/config/env.js:14-17 | Every kept entry is non-empty and trimmed, and there are no more entries than pieces. |
| Env.CleanedOfClean | src/config/env.js:16-17 | Entries that are already clean pass through unchanged and in order. |
| Env.FrontendOrigins | src/config/env.js:14-17 | Every origin is non-empty and trimmed. |
| Env.DefaultFrontendOrigins | src/config/env.js:14-17 | An unset or empty variable gives exactly ["http://localhost:3000"]. |
| Env.FrontendOriginsOfList | src/config/env.js:14-17 | A list of clean origins without commas, written comma-separated, reads back as that list. |
| Env.TrailingCommaIgnored | src/config/env.js:14-17 | A trailing comma adds no entry. |
| Env.NodeEnv | src/config/env.js:10 | NODE_ENV, or "development" when unset or empty. |
| Env.Port | src/config/env.js:11 | PORT's text when set and non-empty, else the number 4000. |
| Env.FirstMissing | src/config/env.js:18-23 | None exactly when every required name is set; otherwise the position of an unset one. |
| Env.Optional | src/config/env.js:22-24 | An optional setting is present exactly when the variable is set. |
| Env.LoadEnv | src/config/env.js:9-25 | Fails exactly when a required setting is missing, naming the first one. Otherwise every required value is non-empty and the defaults and optional settings are as above. |
| Env.DefaultConfig | src/config/env.js:9-25 | With only the required settings given, the configuration loads with all its defaults. |
| Consent.UserAgent | src/controllers/cookieConsentController.js:17 | The header when non-empty, else "unknown". |
| Consent.FirstHop | src/controllers/cookieConsentController.js:20 | Empty exactly when the text before the first comma is blank. |
| Consent.ClientIp | src/controllers/cookieConsentController.js:20-23 | The forwarded first hop when non-blank, else X-Real-IP, else the socket address, else "0.0.0.0"; never empty. |
| Consent.ForwardedFirstHop | src/controllers/cookieConsentController.js:20 | Behind proxies the address is the first list entry, trimmed, whatever follows. |
| Consent.ConsentRow | src/controllers/cookieConsentController.js:34-41 | The row holds exactly the body's four consent fields, the IP hash and the user agent. |
| Consent.RegisterConsent | src/controllers/cookieConsentController.js:8-55 | 400 with no insert exactly when consent_id or consent_version is missing. The row's hash is of the client IP followed by the pepper. 200 exactly when the insert succeeds; 500 with the error otherwise. |

## Left out

- Floating point is not modelled: the product price (`unit_amount / 100`), the purchase price, and `Number` on fractional values. `Events.HumanizeAnswer` takes the "number" branch's text as an input.
- Balances.ToInt: models `toInt` on integers, integer-valued text and plain decimal text only. Exponent, hexadecimal and Infinity forms of `Number()` are not modelled.
- `toLowerCase` is modelled for ASCII letters only.
- Concurrency is not modelled. Each handler runs as one sequential transaction, so the read-then-write races on balance rows are outside the model.
- Supabase, Stripe, the mail service, sharp, SHA-256, the clock and the random name parts are inputs. So are JSON.parse, JSON.stringify and byte lengths. The outcome of each store call the ledger handlers, the carousel and the event handlers make is a parameter. The database errors of the category and template handlers are not modelled (next lines).
- Categories.CreateCategory: database errors (500) of the category handlers are not modelled, including the error a route id that is not a UUID raises in the id lookup.
- Categories.PatchCategory: the self-parent check compares canonical ids, as the corrected ParentStep does (see Findings).
- Templates.CreateTemplate: database errors (500) of the template handlers are not modelled.
- Categories.PatchCategory: the stored row after the update is not modelled; `Categories.PatchKeepsTable` states what applying the patch keeps.
- TemplateImages.UploadTemplateImage: the type check is the corrected SlotOf (see Findings). As written, a name inherited from Object.prototype such as "constructor" passes, and the URL is stored under design_json's key "undefined"; the handler here answers 400 for it.
- Events.HumanizeAnswer: the text of the "number" branch for values other than null, undefined and "" is an input, because `String(Number(raw))` is floating point.
- Events.OptionList: a truthy `options` that is not an array makes the source throw a TypeError (`.forEach` is not a function); the model treats it as no options.
- Templates.DeepMerge: a patch key "__proto__" sets the prototype of the copy in the source rather than adding a key; the model adds it as an ordinary key.
- Events.PatchedEvent: only owner, status, max_guests and invitation_type are kept as event columns. The other allowed fields are passed along but not stored.
- Events.IntColumn: how the database casts a text max_guests is modelled as a decimal read.
- `getEventUsageMetrics` is imported by the balances controller but not exported by the events controller. The reservation of each product type is therefore an input of `Balances.GetMyInvitationBalances`.
- verify_balance.js: the script hard-codes one user and product; the model takes both as parameters.
- Consent.RegisterConsent: the pepper is an input. The configuration in src/config/env.js does not define CONSENT_IP_HASH_PEPPER, so the source hashes the IP followed by "undefined".
- Consent.RegisterConsent: the message of the TypeError thrown for a missing body is an input.
- Env.Port: PORT is kept as text when set, as the source does; the number conversion Express applies is not modelled.
- Stored values are compared structurally. The order rows come back from an upsert is not modelled.
- Not modelled, as pass-through reads and deletes with no ledger effect:
  - the list and get handlers of events, categories, templates and the carousel;
  - deleteEvent, deleteTemplate, deletePrivateGroup and deletePrivateGuest;
  - getGuestPublic;
  - getEventPublic, including its filter on status "draft".
- The route files, the profile, payment, event-question and template-category controllers, requireAdmin and the Supabase client are outside this model. So are the rest of the auth controller and check_event.js. These are wiring or pass-through code.
- Fresh ids (events, groups, guests, categories) are inputs.

## Findings

| source | as written | input that shows it | evidently intended | confidence | as-written member | corrected member |
|---|---|---|---|---|---|---|
| src/controllers/templateImagesController.js:30 | `MAP[type]` is a plain property lookup, so names inherited from Object.prototype pass the type check; they have no `column`, so the URL is written under design_json's key "undefined" | type = "constructor" with a file and an existing template | only thumbnail, background, invitation and envelope are accepted; anything else is 400 | high, not executed | TemplateImages.SlotAsWritten, TemplateImages.ConstructorTypeAccepted | TemplateImages.SlotOf |
| src/controllers/categoriesController.js:173-186 | the self-parent check compares the parent_id text with the route id exactly, while the existence lookup compares the uuid column, which ignores letter case | PATCH of category aaaaaaaa-aaaa-1aaa-8aaa-aaaaaaaaaaaa with parent_id AAAAAAAA-AAAA-1AAA-8AAA-AAAAAAAAAAAA | a category can never be its own parent, in any letter case | medium, not executed | Categories.ParentStepAsWritten, Categories.SelfParentAsWritten | Categories.ParentStep, Categories.ParentStepNeverSelf |
