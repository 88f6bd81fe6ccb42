/** The payment side of the credit ledger: the metadata a checkout session carries,
    the draft -> pending step taken when a session is created, the idempotent
    finalisation of a paid session (record, credit, optional event patch) and the
    webhook dispatch in front of it. The payment processor's calls (price lookup,
    session creation, signature verification) are parameters. */
module Stripe {
  import opened Base
  import opened JsValue
  import opened Store

  /** Stripe metadata: a dictionary of strings; a missing key reads as undefined. */
  type Metadata = map<string, string>

  datatype Session = Session(id: Option<string>, metadata: Metadata)

  /** Which store calls of finalizePurchase fail. */
  datatype FinalizeFaults = FinalizeFaults(insertFails: bool, fetchFails: bool, writeFails: bool, eventFails: bool)

  /** The event update finalizePurchase issues: `max_guests` when the target parses,
      `status = "published"` when asked to publish. */
  datatype EventPatch = EventPatch(eventId: string, maxGuests: Option<int>, publish: bool)

  function Field(meta: Metadata, key: string): Value {
    if key in meta then Str(meta[key]) else Undef
  }

  // ---------------------------------------------------------------------------
  // createCheckoutSession
  // ---------------------------------------------------------------------------

  /** The metadata object built for a new checkout session from the user, the
      product of the chosen price and the request body. */
  function CheckoutMetadata(userId: Value, product: Value, eventId: Value, targetMaxGuests: Value, publishAfterPayment: Value): (m: Metadata)
    ensures m.Keys == {"userId", "productType", "invitations", "packName", "eventId", "targetMaxGuests", "publishAfterPayment"}
    ensures m["userId"] == (if Truthy(userId) then ToJsString(userId) else "")
    ensures Truthy(Get(Get(product, "metadata"), "type")) ==> m["productType"] == ToJsString(Get(Get(product, "metadata"), "type"))
    ensures !Truthy(Get(Get(product, "metadata"), "type")) ==> m["productType"] == "standard"
    ensures Truthy(Get(Get(product, "metadata"), "invitations")) ==> m["invitations"] == ToJsString(Get(Get(product, "metadata"), "invitations"))
    ensures !Truthy(Get(Get(product, "metadata"), "invitations")) ==> m["invitations"] == "0"
    ensures m["packName"] == (if Truthy(Get(product, "name")) then ToJsString(Get(product, "name")) else "")
    ensures Truthy(eventId) ==> m["eventId"] == ToJsString(eventId)
    ensures !Truthy(eventId) ==> m["eventId"] == ""
    ensures Truthy(targetMaxGuests) ==> m["targetMaxGuests"] == ToJsString(targetMaxGuests)
    ensures !Truthy(targetMaxGuests) ==> m["targetMaxGuests"] == ""
    ensures m["publishAfterPayment"] == (if Truthy(publishAfterPayment) then "true" else "false")
  {
    var meta := Get(product, "metadata");
    map[
      "userId" := ToJsString(Or(userId, Str(""))),
      "productType" := ToJsString(Or(Get(meta, "type"), Str("standard"))),
      "invitations" := ToJsString(Or(Get(meta, "invitations"), Str("0"))),
      "packName" := ToJsString(Or(Get(product, "name"), Str(""))),
      "eventId" := if Truthy(eventId) then ToJsString(eventId) else "",
      "targetMaxGuests" := if Truthy(targetMaxGuests) then ToJsString(targetMaxGuests) else "",
      "publishAfterPayment" := if Truthy(publishAfterPayment) then "true" else "false"
    ]
  }

  /** After the session is created, the event named in the body (any owner: the
      update filters on the id only) moves to "pending" if and only if it is a draft. */
  function MarkPending(events: map<string, Event>, eventId: Value): (r: map<string, Event>)
    ensures r.Keys == events.Keys
    ensures forall id :: id in events && r[id] != events[id] ==>
      Truthy(eventId) && id == ToJsString(eventId) && events[id].status == "draft" && r[id] == events[id].(status := "pending")
    ensures Truthy(eventId) && ToJsString(eventId) in events && events[ToJsString(eventId)].status == "draft" ==>
      r[ToJsString(eventId)].status == "pending"
  {
    var id := ToJsString(eventId);
    if Truthy(eventId) && id in events && events[id].status == "draft" then
      events[id := events[id].(status := "pending")]
    else events
  }

  /** Which store calls of the draft -> pending step fail. Their errors are not
      checked: a failed lookup reads as no event, and a failed update is ignored. */
  datatype PendingFaults = PendingFaults(lookupFails: bool, updateFails: bool)

  /** The events table after the draft -> pending step: MarkPending, unless one of
      its store calls failed, in which case nothing changed. */
  function MarkPendingUnless(events: map<string, Event>, eventId: Value, f: PendingFaults): (r: map<string, Event>)
    ensures f.lookupFails || f.updateFails ==> r == events
    ensures !f.lookupFails && !f.updateFails ==> r == MarkPending(events, eventId)
  {
    if f.lookupFails || f.updateFails then events else MarkPending(events, eventId)
  }

  /** createCheckoutSession. `product` is the price lookup's product (Err when the
      lookup throws) and `sessionUrl` the created session's URL (Err when creation
      throws). Returns the HTTP status and, on success, the metadata sent along.
      The draft -> pending step cannot turn a created session into an error. */
  method CreateCheckoutSession(
    db: Db, userId: Value, priceId: Value, eventId: Value, targetMaxGuests: Value, publishAfterPayment: Value,
    product: Result<Value, string>, sessionUrl: Result<string, string>, pf: PendingFaults)
    returns (status: int, sent: Option<Metadata>)
    modifies db`events
    ensures !Truthy(priceId) ==> status == 400 && sent.None? && db.events == old(db.events)
    ensures Truthy(priceId) && (product.Err? || sessionUrl.Err?) ==> status == 500 && sent.None? && db.events == old(db.events)
    ensures Truthy(priceId) && product.Ok? && sessionUrl.Ok? ==>
      && status == 200
      && sent == Some(CheckoutMetadata(userId, product.value, eventId, targetMaxGuests, publishAfterPayment))
      && db.events == MarkPendingUnless(old(db.events), eventId, pf)
  {
    if !Truthy(priceId) {
      return 400, None;
    }
    if product.Err? {
      return 500, None;
    }
    var metadata := CheckoutMetadata(userId, product.value, eventId, targetMaxGuests, publishAfterPayment);
    if sessionUrl.Err? {
      return 500, None;
    }
    MarkEventPending(db, eventId, pf);
    return 200, Some(metadata);
  }

  /** The draft-to-pending update that follows a created session: a status lookup,
      then an update, neither of whose errors is checked. */
  method MarkEventPending(db: Db, eventId: Value, f: PendingFaults)
    modifies db`events
    ensures db.events == MarkPendingUnless(old(db.events), eventId, f)
  {
    if Truthy(eventId) {
      var id := ToJsString(eventId);
      // a failed lookup yields no row, so the status test fails
      var status := if !f.lookupFails && id in db.events then Some(db.events[id].status) else None;
      if status == Some("draft") && !f.updateFails {
        db.events := db.events[id := db.events[id].(status := "pending")];
      }
    }
  }

  // ---------------------------------------------------------------------------
  // finalizePurchase
  // ---------------------------------------------------------------------------

  /** `!sessionId || !userId || !productType`. */
  predicate MissingCritical(s: Session) {
    || s.id.None? || s.id.value == ""
    || !Truthy(Field(s.metadata, "userId"))
    || !Truthy(Field(s.metadata, "productType"))
  }

  /** `parseInt(invitations, 10) || 0`; a missing field is parsed as "undefined". */
  function Quantity(meta: Metadata): int {
    match ParseInt10(ToJsString(Field(meta, "invitations")))
    case Some(n) => n
    case None => 0
  }

  /** `parseInt(targetMaxGuests, 10)` when it is a number. */
  function TargetMaxGuests(meta: Metadata): Option<int> {
    ParseInt10(ToJsString(Field(meta, "targetMaxGuests")))
  }

  /** The event update of step 3: only for a truthy eventId other than "null". */
  function EventPatchOf(meta: Metadata): (p: Option<EventPatch>)
    ensures p.Some? <==> "eventId" in meta && meta["eventId"] != "" && meta["eventId"] != "null"
    ensures p.Some? ==> p.value.eventId == meta["eventId"]
    ensures p.Some? ==> (p.value.publish <==> "publishAfterPayment" in meta && meta["publishAfterPayment"] == "true")
    ensures p.Some? ==> p.value.maxGuests == TargetMaxGuests(meta)
  {
    if "eventId" in meta && meta["eventId"] != "" && meta["eventId"] != "null" then
      Some(EventPatch(meta["eventId"], TargetMaxGuests(meta),
        "publishAfterPayment" in meta && meta["publishAfterPayment"] == "true"))
    else None
  }

  /** `update(patch).match({id, user_id})`: only an event with that id owned by the
      user changes, and only in the patched columns. */
  function ApplyEventPatch(events: map<string, Event>, userId: string, p: Option<EventPatch>): (r: map<string, Event>)
    ensures r.Keys == events.Keys
    ensures forall id :: id in events && r[id] != events[id] ==>
      p.Some? && id == p.value.eventId && events[id].userId == userId
    ensures p.Some? && p.value.eventId in events && events[p.value.eventId].userId == userId ==>
      var e, e' := events[p.value.eventId], r[p.value.eventId];
      && e'.userId == e.userId && e'.invitationType == e.invitationType
      && e'.status == (if p.value.publish then "published" else e.status)
      && e'.maxGuests == (if p.value.maxGuests.Some? then p.value.maxGuests else e.maxGuests)
  {
    if p.Some? && p.value.eventId in events && events[p.value.eventId].userId == userId then
      var e := events[p.value.eventId];
      var e1 := if p.value.maxGuests.Some? then e.(maxGuests := p.value.maxGuests) else e;
      var e2 := if p.value.publish then e1.(status := "published") else e1;
      events[p.value.eventId := e2]
    else events
  }

  /** Step 2: the balance row of `key` gains `q` purchased credits (a missing row is
      created as (q, 0)); total_used and every other row stay as they were. */
  function Credit(balances: map<BalanceKey, Balance>, key: BalanceKey, q: int): (r: map<BalanceKey, Balance>)
    ensures r.Keys == balances.Keys + {key}
    ensures key in balances ==> r[key] == Balance(balances[key].purchased + q, balances[key].used)
    ensures key !in balances ==> r[key] == Balance(q, 0)
    ensures forall k :: k in balances && k != key ==> r[k] == balances[k]
  {
    if key in balances then balances[key := balances[key].(purchased := balances[key].purchased + q)]
    else balances[key := Balance(q, 0)]
  }

  /** When finalizePurchase throws, given the session ids already recorded: missing
      metadata, a failed purchase insert, or a failed balance read or write on a
      first delivery. */
  predicate FinalizeThrows(processed: set<string>, s: Session, f: FinalizeFaults) {
    || MissingCritical(s)
    || f.insertFails
    || (s.id.value !in processed && (f.fetchFails || f.writeFails))
  }

  function KeyOf(s: Session): BalanceKey
    requires !MissingCritical(s)
  {
    (s.metadata["userId"], s.metadata["productType"])
  }

  /** finalizePurchase(session): returns Ok(alreadyProcessed) or Err(message) for a
      thrown error. The purchase row is the idempotency guard: a session id already
      recorded changes nothing. A balance failure throws after the purchase row is
      written; an event-update failure is only logged. */
  method FinalizePurchase(db: Db, session: Session, faults: FinalizeFaults) returns (r: Result<bool, string>)
    modifies db`processedSessions, db`balances, db`events
    ensures r.Err? <==> FinalizeThrows(old(db.processedSessions), session, faults)
    ensures MissingCritical(session) ==> r.Err? && unchanged(db)
    ensures !MissingCritical(session) && faults.insertFails ==> r.Err? && unchanged(db)
    ensures !MissingCritical(session) && !faults.insertFails && session.id.value in old(db.processedSessions) ==>
      r == Ok(true) && unchanged(db)
    ensures !MissingCritical(session) && !faults.insertFails && session.id.value !in old(db.processedSessions) ==>
      && db.processedSessions == old(db.processedSessions) + {session.id.value}
      && (faults.fetchFails || faults.writeFails ==>
            r.Err? && db.balances == old(db.balances) && db.events == old(db.events))
      && (!faults.fetchFails && !faults.writeFails ==>
            && r == Ok(false)
            && db.balances == Credit(old(db.balances), KeyOf(session), Quantity(session.metadata))
            && db.events == (if faults.eventFails then old(db.events)
                             else ApplyEventPatch(old(db.events), session.metadata["userId"], EventPatchOf(session.metadata))))
  {
    if MissingCritical(session) {
      return Err("Missing critical metadata in Stripe session");
    }
    // 1) record the purchase; a duplicate session id inserts nothing
    if faults.insertFails {
      return Err("purchase insert failed");
    }
    if session.id.value in db.processedSessions {
      return Ok(true);
    }
    r := FirstDelivery(db, session, faults);
  }

  /** finalizePurchase for a session id not yet recorded: the purchase row is
      written, then the balance is credited and the event patched. */
  method FirstDelivery(db: Db, session: Session, faults: FinalizeFaults) returns (r: Result<bool, string>)
    requires !MissingCritical(session)
    modifies db`processedSessions, db`balances, db`events
    ensures db.processedSessions == old(db.processedSessions) + {session.id.value}
    ensures faults.fetchFails || faults.writeFails ==>
      r.Err? && db.balances == old(db.balances) && db.events == old(db.events)
    ensures !faults.fetchFails && !faults.writeFails ==>
      && r == Ok(false)
      && db.balances == Credit(old(db.balances), KeyOf(session), Quantity(session.metadata))
      && db.events == (if faults.eventFails then old(db.events)
                       else ApplyEventPatch(old(db.events), session.metadata["userId"], EventPatchOf(session.metadata)))
  {
    var meta := session.metadata;
    db.processedSessions := db.processedSessions + {session.id.value};

    // 2) read-then-write of the balance row
    var credited := CreditBalance(db, KeyOf(session), Quantity(meta), faults.fetchFails, faults.writeFails);
    if !credited {
      return Err("balance update failed");
    }

    // 3) optional event patch, scoped to the owner; its failure is only logged
    if !faults.eventFails {
      PatchPaidEvent(db, meta["userId"], EventPatchOf(meta));
    }
    return Ok(false);
  }

  /** Step 2 of finalizePurchase: read the balance row, then update it or insert a
      new one. Either store call may fail, leaving the balances as they were. */
  method CreditBalance(db: Db, key: BalanceKey, quantity: int, fetchFails: bool, writeFails: bool) returns (ok: bool)
    modifies db`balances
    ensures ok <==> !fetchFails && !writeFails
    ensures ok ==> db.balances == Credit(old(db.balances), key, quantity)
    ensures !ok ==> db.balances == old(db.balances)
  {
    if fetchFails {
      return false;
    }
    var row := BalanceOf(db.balances, key);
    if writeFails {
      return false;
    }
    if row.Some? {
      db.balances := db.balances[key := Balance(row.value.purchased + quantity, row.value.used)];
    } else {
      db.balances := db.balances[key := Balance(quantity, 0)];
    }
    return true;
  }

  /** Step 3 of finalizePurchase: the update matches both the event id and the
      paying user, so another user's event is never touched. */
  method PatchPaidEvent(db: Db, userId: string, patch: Option<EventPatch>)
    modifies db`events
    ensures db.events == ApplyEventPatch(old(db.events), userId, patch)
  {
    if patch.Some? {
      var eventId := patch.value.eventId;
      if eventId in db.events && db.events[eventId].userId == userId {
        var e := db.events[eventId];
        if patch.value.maxGuests.Some? {
          e := e.(maxGuests := patch.value.maxGuests);
        }
        if patch.value.publish {
          e := e.(status := "published");
        }
        db.events := db.events[eventId := e];
      }
    }
  }

  /** webhookHandler: a bad signature is refused with 400 before anything changes;
      events other than checkout.session.completed are acknowledged without effect;
      a thrown finalisation error answers 500 so that the processor redelivers. */
  method HandleWebhook(db: Db, signatureValid: bool, eventType: string, session: Session, faults: FinalizeFaults)
    returns (status: int)
    modifies db`processedSessions, db`balances, db`events
    ensures !signatureValid ==> status == 400 && unchanged(db)
    ensures signatureValid && eventType != "checkout.session.completed" ==> status == 200 && unchanged(db)
    ensures signatureValid && eventType == "checkout.session.completed" ==>
      (status == 200 || status == 500) && db.balances.Keys >= old(db.balances.Keys)
    ensures signatureValid && eventType == "checkout.session.completed" ==>
      (status == 500 <==> FinalizeThrows(old(db.processedSessions), session, faults))
    ensures signatureValid && eventType == "checkout.session.completed" && status == 500 ==>
      db.balances == old(db.balances) && db.events == old(db.events)
    ensures (signatureValid && eventType == "checkout.session.completed" && !MissingCritical(session) && !faults.insertFails &&
             session.id.value in old(db.processedSessions)) ==> status == 200 && unchanged(db)
    ensures (signatureValid && eventType == "checkout.session.completed" && status == 200 &&
             session.id.value !in old(db.processedSessions)) ==>
      && db.processedSessions == old(db.processedSessions) + {session.id.value}
      && db.balances == Credit(old(db.balances), KeyOf(session), Quantity(session.metadata))
      && db.events == (if faults.eventFails then old(db.events)
                       else ApplyEventPatch(old(db.events), session.metadata["userId"], EventPatchOf(session.metadata)))
  {
    if !signatureValid {
      return 400;
    }
    if eventType == "checkout.session.completed" {
      var r := FinalizePurchase(db, session, faults);
      if r.Err? {
        return 500;
      }
    }
    return 200;
  }

  /** At-least-once delivery: the same paid session delivered twice credits the
      ledger once; the second delivery reports it was already processed. */
  method RedeliveryCreditsOnce(db: Db, session: Session) returns (first: Result<bool, string>, second: Result<bool, string>)
    requires !MissingCritical(session) && session.id.value !in db.processedSessions
    modifies db`processedSessions, db`balances, db`events
    ensures first == Ok(false) && second == Ok(true)
    ensures db.balances == Credit(old(db.balances), KeyOf(session), Quantity(session.metadata))
    ensures db.processedSessions == old(db.processedSessions) + {session.id.value}
  {
    var ok := FinalizeFaults(false, false, false, false);
    first := FinalizePurchase(db, session, ok);
    second := FinalizePurchase(db, session, ok);
  }

  /** A balance failure after the purchase row is written loses the credit for good:
      the redelivery finds the session recorded and credits nothing. */
  method LostCreditOnBalanceFailure(db: Db, session: Session) returns (first: Result<bool, string>, second: Result<bool, string>)
    requires !MissingCritical(session) && session.id.value !in db.processedSessions
    modifies db`processedSessions, db`balances, db`events
    ensures first.Err? && second == Ok(true)
    ensures db.balances == old(db.balances)
    ensures session.id.value in db.processedSessions
  {
    first := FinalizePurchase(db, session, FinalizeFaults(false, false, true, false));
    second := FinalizePurchase(db, session, FinalizeFaults(false, false, false, false));
  }

  // ---------------------------------------------------------------------------
  // Checkout and finalisation agree
  // ---------------------------------------------------------------------------

  /** The invitation count a checkout records is the count finalisation credits,
      whether the product's metadata holds it as text (as the payment processor
      stores metadata) or as a number. */
  lemma {:induction false} CheckoutQuantity(userId: Value, product: Value, n: int, eventId: Value, targetMaxGuests: Value, publishAfterPayment: Value)
    requires Get(Get(product, "metadata"), "invitations") in {Str(IntToString(n)), Num(n)}
    ensures Quantity(CheckoutMetadata(userId, product, eventId, targetMaxGuests, publishAfterPayment)) == n
  {
    var meta := CheckoutMetadata(userId, product, eventId, targetMaxGuests, publishAfterPayment);
    assert meta["invitations"] == IntToString(n) by {
      if n == 0 {
        assert meta["invitations"] == "0";
      }
    }
    QuantityOf(meta, n);
  }

  /** Metadata recording String(n) as its invitations is credited n. */
  lemma {:induction false} QuantityOf(meta: Metadata, n: int)
    requires "invitations" in meta && meta["invitations"] == IntToString(n)
    ensures Quantity(meta) == n
  {
    ParseIntOfString(n);
  }

  /** The event a checkout names is the event finalisation patches (unless its id
      is the text "null"), with the requested capacity, published exactly when
      publication was requested. */
  lemma {:induction false} CheckoutEventPatch(userId: Value, product: Value, eventId: Value, targetMaxGuests: Value, publishAfterPayment: Value)
    ensures var p := EventPatchOf(CheckoutMetadata(userId, product, eventId, targetMaxGuests, publishAfterPayment));
      && (p.Some? <==> Truthy(eventId) && ToJsString(eventId) != "" && ToJsString(eventId) != "null")
      && (p.Some? ==>
            && p.value.eventId == ToJsString(eventId)
            && p.value.publish == Truthy(publishAfterPayment)
            && p.value.maxGuests == (if Truthy(targetMaxGuests) then ParseInt10(ToJsString(targetMaxGuests)) else None))
  {
    var meta := CheckoutMetadata(userId, product, eventId, targetMaxGuests, publishAfterPayment);
    assert meta["eventId"] == (if Truthy(eventId) then ToJsString(eventId) else "");
    assert meta["publishAfterPayment"] == "true" <==> Truthy(publishAfterPayment);
    if !Truthy(targetMaxGuests) {
      assert meta["targetMaxGuests"] == "";
      assert ParseInt10("") == None by { assert TrimStart("") == ""; }
    }
  }

  /** A checkout made by a signed-in user for a product with a non-empty type (or
      none, which defaults to "standard") yields a session finalisation accepts. */
  lemma {:induction false} CheckoutIsComplete(sessionId: string, user: string, product: Value, eventId: Value, targetMaxGuests: Value, publishAfterPayment: Value)
    requires sessionId != "" && user != ""
    requires var t := Get(Get(product, "metadata"), "type"); !Truthy(t) || (t.Str? && t.s != "")
    ensures !MissingCritical(Session(Some(sessionId), CheckoutMetadata(Str(user), product, eventId, targetMaxGuests, publishAfterPayment)))
  {
  }
}
