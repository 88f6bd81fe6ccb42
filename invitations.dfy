/** Sending invitations by e-mail and debiting the "email" credit balance: the
    status a send leaves on the guest row, the single send (which debits before
    sending) and the bulk send (which counts a local balance down and writes one
    aggregated debit at the end). The mail service is an oracle. */
module Invitations {
  import opened Base
  import opened Store

  /** What one call of the mail service does: resolve with success and a message id,
      resolve with an error, or throw. */
  datatype EmailOutcome = Delivered(messageId: string) | Rejected(reason: string) | Threw(message: string)

  /** Which store calls of sendGuestInvitation fail; `recordFails` is the guest
      update after the send, whose error is not checked. */
  datatype SendFaults = SendFaults(eventFails: bool, guestFails: bool, balanceFails: bool, updateFails: bool, recordFails: bool)

  /** Which store calls of sendAllGuestInvitations fail; `recordFails` tells, per
      guest id, whether the unchecked guest update after its send fails. */
  datatype BulkFaults = BulkFaults(eventFails: bool, guestsFail: bool, balanceFails: bool, latestReadFails: bool, finalWriteFails: bool,
                                   recordFails: string -> bool)

  /** One entry of the bulk reply's `details`. */
  datatype Detail = Detail(guestId: string, ok: bool, err: Option<string>)

  datatype BulkReply = BulkReply(total: int, sent: int, failed: int, details: seq<Detail>)

  // ---------------------------------------------------------------------------
  // Event and guest facts shared by both sends
  // ---------------------------------------------------------------------------

  /** The event row matched by id and owner. */
  predicate OwnedBy(events: map<string, Event>, eventId: string, userId: string) {
    eventId in events && events[eventId].userId == userId
  }

  /** `event.invitation_type?.startsWith("email")`: case-sensitive on the raw column. */
  predicate EmailEnabled(e: Event) {
    e.invitationType.Some? && StartsWith(e.invitationType.value, "email")
  }

  /** `(invitation_type || "").toLowerCase().split(":")[0]`. */
  function ProductType(e: Event): string {
    var t := if e.invitationType.Some? then e.invitationType.value else "";
    Split(ToLower(t), ":")[0]
  }

  /** The product type is "email" exactly when the lower-cased type is "email" or
      starts with "email:"; a type such as "email_plus" passes the send gate
      but is never charged. */
  lemma {:induction false} ProductTypeEmail(l: string)
    ensures Split(l, ":")[0] == "email" <==> StartsWith(l, "email") && (|l| == 5 || l[5] == ':')
  {
    SplitHead(l, ":");
    var head := Split(l, ":")[0];
    if head == "email" {
      match IndexOf(l, ":")
      case None =>
        assert l == "email";
      case Some(i) =>
        assert l[..i] == "email";
        ColonAt(l, 5);
    }
    if StartsWith(l, "email") && (|l| == 5 || l[5] == ':') {
      NoColonInEmail(l);
      forall j | 0 <= j < 5
        ensures !OccursAt(l, ":", j)
      {
        ColonAt(l, j);
      }
      if |l| == 5 {
        assert !Contains(l, ":");
        assert l == "email";
      } else {
        ColonAt(l, 5);
        var i := IndexOf(l, ":").value;
        assert i == 5;
      }
    }
  }

  lemma {:induction false} NoColonInEmail(l: string)
    requires StartsWith(l, "email")
    ensures forall j :: 0 <= j < 5 ==> l[j] != ':'
  {
    assert l[..5] == "email";
    forall j | 0 <= j < 5
      ensures l[j] != ':'
    {
      assert l[j] == l[..5][j];
    }
  }

  lemma {:induction false} ColonAt(l: string, j: int)
    requires 0 <= j < |l|
    ensures OccursAt(l, ":", j) <==> l[j] == ':'
  {
    assert |l[j..j + 1]| == 1 && l[j..j + 1][0] == l[j];
    if l[j] == ':' {
      assert l[j..j + 1] == [':'];
    }
  }

  /** `guest.email` is truthy. */
  predicate HasEmail(g: Guest) {
    g.email.Some? && g.email.value != ""
  }

  /** `guest.email_status !== "sent"`. */
  predicate FirstSend(g: Guest) {
    g.emailStatus != Some("sent")
  }

  /** `(total_purchased || 0) - (total_used || 0)` of the row, 0 without a row. */
  function Remaining(row: Option<Balance>): int {
    if row.Some? then row.value.purchased - row.value.used else 0
  }

  // ---------------------------------------------------------------------------
  // processEmailSend
  // ---------------------------------------------------------------------------

  /** The guest row after a send that resolved: "sent" with the message id and no
      error, or "failed" with the error and no message id; nothing else changes. */
  function AfterSend(g: Guest, outcome: EmailOutcome): (r: Guest)
    requires !outcome.Threw?
    ensures r.emailStatus == Some(if outcome.Delivered? then "sent" else "failed")
    ensures outcome.Delivered? ==> r.emailMessageId == Some(outcome.messageId) && r.emailError == None
    ensures outcome.Rejected? ==> r.emailError == Some(outcome.reason) && r.emailMessageId == None
    ensures r.(emailStatus := g.emailStatus, emailError := g.emailError, emailMessageId := g.emailMessageId) == g
  {
    if outcome.Delivered? then
      g.(emailStatus := Some("sent"), emailError := None, emailMessageId := Some(outcome.messageId))
    else
      g.(emailStatus := Some("failed"), emailError := Some(outcome.reason), emailMessageId := None)
  }

  /** The guests table after processEmailSend: a thrown send, or a failed guest
      update (its error is not checked), leaves it untouched; otherwise the row with
      that id (if any) takes the outcome. */
  function Recorded(guests: map<string, Guest>, guestId: string, outcome: EmailOutcome, recordFails: bool): (r: map<string, Guest>)
    ensures r.Keys == guests.Keys
    ensures forall id :: id in guests && id != guestId ==> r[id] == guests[id]
    ensures guestId in guests && !outcome.Threw? && !recordFails ==> r[guestId] == AfterSend(guests[guestId], outcome)
    ensures outcome.Threw? || recordFails ==> r == guests
  {
    if !outcome.Threw? && !recordFails && guestId in guests then guests[guestId := AfterSend(guests[guestId], outcome)]
    else guests
  }

  /** processEmailSend: calls the mail service and stores its outcome on the guest
      row; the outcome is handed back to the caller whether or not that update
      succeeded. */
  method ProcessEmailSend(db: Db, guestId: string, outcome: EmailOutcome, recordFails: bool) returns (result: EmailOutcome)
    modifies db`guests
    ensures result == outcome
    ensures db.guests == Recorded(old(db.guests), guestId, outcome, recordFails)
  {
    result := outcome;
    if outcome.Threw? {
      return;
    }
    if !recordFails && guestId in db.guests {
      db.guests := db.guests[guestId := AfterSend(db.guests[guestId], outcome)];
    }
  }

  // ---------------------------------------------------------------------------
  // sendGuestInvitation
  // ---------------------------------------------------------------------------

  /** The checks of sendGuestInvitation before the mail is sent: Err(status) for a
      refusal, Ok(charged) when the send goes ahead, `charged` telling whether one
      credit was taken. */
  function SendGate(
    events: map<string, Event>, guests: map<string, Guest>, balances: map<BalanceKey, Balance>,
    eventId: string, guestId: string, userId: string, f: SendFaults): Result<bool, int>
  {
    if f.eventFails then Err(500)
    else if !OwnedBy(events, eventId, userId) then Err(404)
    else if !EmailEnabled(events[eventId]) then Err(400)
    else if f.guestFails then Err(500)
    else if !(guestId in guests && guests[guestId].eventId == eventId) then Err(404)
    else if !HasEmail(guests[guestId]) then Err(400)
    else if !(FirstSend(guests[guestId]) && ProductType(events[eventId]) == "email") then Ok(false)
    else if f.balanceFails then Err(500)
    else if Remaining(BalanceOf(balances, (userId, "email"))) <= 0 then Err(403)
    else if f.updateFails then Err(500)
    else Ok(true)
  }

  /** A credit is taken only for a first send of an "email" product, from an
      existing row with a positive remainder. */
  lemma {:induction false} ChargeNeedsCredit(
    events: map<string, Event>, guests: map<string, Guest>, balances: map<BalanceKey, Balance>,
    eventId: string, guestId: string, userId: string, f: SendFaults)
    requires SendGate(events, guests, balances, eventId, guestId, userId, f) == Ok(true)
    ensures OwnedBy(events, eventId, userId) && ProductType(events[eventId]) == "email"
    ensures guestId in guests && FirstSend(guests[guestId])
    ensures (userId, "email") in balances
    ensures balances[(userId, "email")].purchased - balances[(userId, "email")].used > 0
  {
  }

  /** A first send of an "email" product with no balance row, or with nothing
      left on it, is refused with 403. */
  lemma {:induction false} NoCreditRefused(
    events: map<string, Event>, guests: map<string, Guest>, balances: map<BalanceKey, Balance>,
    eventId: string, guestId: string, userId: string, f: SendFaults)
    requires !f.eventFails && !f.guestFails && !f.balanceFails
    requires OwnedBy(events, eventId, userId) && EmailEnabled(events[eventId]) && ProductType(events[eventId]) == "email"
    requires guestId in guests && guests[guestId].eventId == eventId && HasEmail(guests[guestId]) && FirstSend(guests[guestId])
    requires (userId, "email") in balances ==>
      balances[(userId, "email")].purchased - balances[(userId, "email")].used <= 0
    ensures SendGate(events, guests, balances, eventId, guestId, userId, f) == Err(403)
  {
  }

  /** Re-sending to a guest already marked "sent" never consults the balance: the
      outcome is the same whatever the balances are and no credit is taken. */
  lemma {:induction false} ResendIgnoresBalance(
    events: map<string, Event>, guests: map<string, Guest>, b1: map<BalanceKey, Balance>, b2: map<BalanceKey, Balance>,
    eventId: string, guestId: string, userId: string, f: SendFaults)
    requires guestId in guests && guests[guestId].emailStatus == Some("sent")
    ensures SendGate(events, guests, b1, eventId, guestId, userId, f) == SendGate(events, guests, b2, eventId, guestId, userId, f)
    ensures SendGate(events, guests, b1, eventId, guestId, userId, f) != Ok(true)
  {
  }

  /** One more credit used on the row of `key`; nothing else changes. */
  function Debit(balances: map<BalanceKey, Balance>, key: BalanceKey): (r: map<BalanceKey, Balance>)
    requires key in balances
    ensures r.Keys == balances.Keys
    ensures r[key].purchased == balances[key].purchased && r[key].used == balances[key].used + 1
    ensures forall k :: k in balances && k != key ==> r[k] == balances[k]
  {
    balances[key := balances[key].(used := balances[key].used + 1)]
  }

  /** sendGuestInvitation: every refusal leaves the store unchanged; otherwise the
      credit (if any) is taken BEFORE the mail is sent and is kept whatever the
      send does, the guest row records the outcome, and the status is 200 only for
      a delivered mail. */
  method SendGuestInvitation(db: Db, eventId: string, guestId: string, userId: string, f: SendFaults, outcome: EmailOutcome)
    returns (status: int)
    modifies db`guests, db`balances
    ensures var gate := SendGate(old(db.events), old(db.guests), old(db.balances), eventId, guestId, userId, f);
      && (gate.Err? ==> status == gate.error && db.balances == old(db.balances) && db.guests == old(db.guests))
      && (gate.Ok? ==>
            && db.balances == (if gate.value then Debit(old(db.balances), (userId, "email")) else old(db.balances))
            && db.guests == Recorded(old(db.guests), guestId, outcome, f.recordFails)
            && status == (if outcome.Delivered? then 200 else 500))
  {
    // 1. the event, matched by id and owner
    if f.eventFails {
      return 500;
    }
    if !(eventId in db.events && db.events[eventId].userId == userId) {
      return 404;
    }
    var event := db.events[eventId];
    if !EmailEnabled(event) {
      return 400;
    }
    // 2. the guest, matched by id and event
    if f.guestFails {
      return 500;
    }
    if !(guestId in db.guests && db.guests[guestId].eventId == eventId) {
      return 404;
    }
    var guest := db.guests[guestId];
    if !HasEmail(guest) {
      return 400;
    }
    // 4. one credit for a first send of an "email" product, taken before sending
    var isFirstSend := FirstSend(guest);
    var productType := ProductType(event);
    if isFirstSend && productType == "email" {
      if f.balanceFails {
        return 500;
      }
      var key := (userId, productType);
      var row := BalanceOf(db.balances, key);
      var purchased := if row.Some? then row.value.purchased else 0;
      var used := if row.Some? then row.value.used else 0;
      if purchased - used <= 0 {
        return 403;
      }
      if f.updateFails {
        return 500;
      }
      db.balances := db.balances[key := row.value.(used := used + 1)];
    }
    // 5. send, then record the outcome on the guest row
    var result := ProcessEmailSend(db, guestId, outcome, f.recordFails);
    if !result.Delivered? {
      return 500;
    }
    return 200;
  }

  // ---------------------------------------------------------------------------
  // sendAllGuestInvitations
  // ---------------------------------------------------------------------------

  /** A guest the bulk send selects: its event, a non-blank e-mail, and with
      pendingOnly a "queued" status. */
  predicate Selectable(g: Guest, eventId: string, pendingOnly: bool) {
    && g.eventId == eventId
    && g.email.Some? && !IsBlank(g.email.value)
    && (pendingOnly ==> g.emailStatus == Some("queued"))
  }

  /** The selected guests' ids, in table order. */
  function Selection(guests: map<string, Guest>, order: seq<string>, eventId: string, pendingOnly: bool): (sel: seq<string>)
    ensures |sel| <= |order|
    ensures forall k :: 0 <= k < |sel| ==> sel[k] in guests && Selectable(guests[sel[k]], eventId, pendingOnly)
    ensures forall id :: id in sel <==> id in order && id in guests && Selectable(guests[id], eventId, pendingOnly)
  {
    if |order| == 0 then []
    else
      var rest := Selection(guests, order[1..], eventId, pendingOnly);
      var id := order[0];
      if id in guests && Selectable(guests[id], eventId, pendingOnly) then [id] + rest else rest
  }

  /** The loop state of the bulk send: the local balance, the credits taken, the
      reply details, and the guests table as the sends left it. */
  datatype BulkState = BulkState(current: int, deducted: int, details: seq<Detail>, guests: map<string, Guest>)

  /** One iteration for guest `g` (the row as first read) under `charge`
      (product type "email") and `hasRow` (a balance row was read). */
  function BulkStep(s: BulkState, id: string, g: Guest, outcome: EmailOutcome, recordFails: bool, charge: bool, hasRow: bool): BulkState {
    var first := FirstSend(g);
    if charge && first && s.current <= 0 then
      s.(details := s.details + [Detail(id, false, Some("Saldo insuficiente"))])
    else if outcome.Threw? then
      s.(details := s.details + [Detail(id, false, Some(outcome.message))])
    else
      var guests' := Recorded(s.guests, id, outcome, recordFails);
      var detail := Detail(id, outcome.Delivered?, if outcome.Rejected? then Some(outcome.reason) else None);
      if outcome.Delivered? && first && charge && hasRow then
        BulkState(s.current - 1, s.deducted + 1, s.details + [detail], guests')
      else s.(details := s.details + [detail], guests := guests')
  }

  /** The loop run over a prefix of the selection. */
  function BulkRun(
    sel: seq<string>, snapshot: map<string, Guest>, outcome: string -> EmailOutcome, recordFails: string -> bool,
    charge: bool, hasRow: bool, init: BulkState): BulkState
    requires forall id :: id in sel ==> id in snapshot
  {
    if |sel| == 0 then init
    else
      var id := sel[|sel| - 1];
      BulkStep(BulkRun(sel[..|sel| - 1], snapshot, outcome, recordFails, charge, hasRow, init), id, snapshot[id], outcome(id),
               recordFails(id), charge, hasRow)
  }

  /** The number of handled guests whose send succeeded and was their first (by the
      row as first read): the sends the source charges for. */
  function Charged(sel: seq<string>, details: seq<Detail>, snapshot: map<string, Guest>): nat
    requires |details| == |sel|
  {
    if |sel| == 0 then 0
    else
      var n := |sel| - 1;
      Charged(sel[..n], details[..n], snapshot) + (if details[n].ok && sel[n] in snapshot && FirstSend(snapshot[sel[n]]) then 1 else 0)
  }

  /** Over any run: one detail per guest, the local balance is the initial one less
      the credits taken, credits are taken exactly for the delivered first sends
      when there is a row and an "email" product and never otherwise, never more
      than the initial balance allows, the local balance never goes below
      min(initial, 0), and guests outside the selection are untouched. */
  lemma {:induction false} BulkRunBounds(
    sel: seq<string>, snapshot: map<string, Guest>, outcome: string -> EmailOutcome, recordFails: string -> bool,
    charge: bool, hasRow: bool, initial: int, guests: map<string, Guest>)
    requires forall id :: id in sel ==> id in snapshot
    ensures BulkBounds(sel, BulkRun(sel, snapshot, outcome, recordFails, charge, hasRow, BulkState(initial, 0, [], guests)),
                       snapshot, charge, hasRow, initial, guests)
  {
    if |sel| > 0 {
      var pre := sel[..|sel| - 1];
      var id := sel[|sel| - 1];
      assert forall x :: x in pre ==> x in sel;
      BulkRunBounds(pre, snapshot, outcome, recordFails, charge, hasRow, initial, guests);
      assert sel == pre + [id];
      BulkStepBounds(pre, BulkRun(pre, snapshot, outcome, recordFails, charge, hasRow, BulkState(initial, 0, [], guests)),
                     id, snapshot, outcome(id), recordFails(id), charge, hasRow, initial, guests);
    }
  }

  /** What holds of the loop state after the guests `sel`: one detail per guest, in
      order, the local balance is the initial one less the credits taken, with a
      row and an "email" product the credits taken are exactly the delivered first
      sends and otherwise none, never more than a positive initial balance, the
      local balance never goes below min(initial, 0), and guests outside the
      selection are untouched. */
  predicate BulkBounds(sel: seq<string>, s: BulkState, snapshot: map<string, Guest>, charge: bool, hasRow: bool, initial: int,
                       guests: map<string, Guest>) {
    && |s.details| == |sel|
    && (forall k :: 0 <= k < |sel| ==> s.details[k].guestId == sel[k])
    && s.current == initial - s.deducted
    && 0 <= s.deducted <= (if initial > 0 then initial else 0)
    && s.current >= (if initial < 0 then initial else 0)
    && (charge && hasRow ==> s.deducted == Charged(sel, s.details, snapshot))
    && (!(charge && hasRow) ==> s.deducted == 0)
    && s.guests.Keys == guests.Keys
    && (forall id :: id in guests && id !in sel ==> s.guests[id] == guests[id])
  }

  /** One iteration, for a guest as first read, keeps the bounds, with its guest
      added to those handled. */
  lemma {:induction false} BulkStepBounds(
    sel: seq<string>, s: BulkState, id: string, snapshot: map<string, Guest>, outcome: EmailOutcome, recordFails: bool,
    charge: bool, hasRow: bool, initial: int, guests: map<string, Guest>)
    requires id in snapshot
    requires BulkBounds(sel, s, snapshot, charge, hasRow, initial, guests)
    ensures BulkBounds(sel + [id], BulkStep(s, id, snapshot[id], outcome, recordFails, charge, hasRow), snapshot, charge, hasRow,
                       initial, guests)
  {
    var t := BulkStep(s, id, snapshot[id], outcome, recordFails, charge, hasRow);
    var n := |sel|;
    assert t.details == s.details + [t.details[n]] && t.details[n].guestId == id;
    assert (sel + [id])[..n] == sel && t.details[..n] == s.details && (sel + [id])[n] == id;
    assert Charged(sel + [id], t.details, snapshot)
        == Charged(sel, s.details, snapshot) + (if t.details[n].ok && FirstSend(snapshot[id]) then 1 else 0);
    assert forall x :: x !in sel + [id] ==> x !in sel && x != id;
  }

  function CountOk(details: seq<Detail>): (n: nat)
    ensures n <= |details|
  {
    if |details| == 0 then 0 else CountOk(details[..|details| - 1]) + (if details[|details| - 1].ok then 1 else 0)
  }

  /** The loop of sendAllGuestInvitations over the selected guests. */
  method BulkLoop(db: Db, sel: seq<string>, outcome: string -> EmailOutcome, recordFails: string -> bool,
                  charge: bool, hasRow: bool, initial: int)
    returns (s: BulkState)
    requires forall id :: id in sel ==> id in db.guests
    modifies db`guests
    ensures s == BulkRun(sel, old(db.guests), outcome, recordFails, charge, hasRow, BulkState(initial, 0, [], old(db.guests)))
    ensures db.guests == s.guests
  {
    ghost var snapshot := db.guests;
    var rows := db.guests;
    var currentBalance := initial;
    var totalDeducted := 0;
    var results: seq<Detail> := [];
    var i := 0;
    while i < |sel|
      invariant 0 <= i <= |sel|
      invariant BulkRun(sel[..i], snapshot, outcome, recordFails, charge, hasRow, BulkState(initial, 0, [], snapshot))
        == BulkState(currentBalance, totalDeducted, results, db.guests)
      invariant rows == snapshot
    {
      var id := sel[i];
      var guest := rows[id];
      var isFirstTime := FirstSend(guest);
      assert sel[..i + 1][..i] == sel[..i];
      if charge && isFirstTime && currentBalance <= 0 {
        results := results + [Detail(id, false, Some("Saldo insuficiente"))];
      } else if outcome(id).Threw? {
        results := results + [Detail(id, false, Some(outcome(id).message))];
      } else {
        var resSend := ProcessEmailSend(db, id, outcome(id), recordFails(id));
        results := results + [Detail(id, resSend.Delivered?, if resSend.Rejected? then Some(resSend.reason) else None)];
        if resSend.Delivered? && isFirstTime && charge && hasRow {
          currentBalance := currentBalance - 1;
          totalDeducted := totalDeducted + 1;
        }
      }
      i := i + 1;
    }
    assert sel[..|sel|] == sel;
    s := BulkState(currentBalance, totalDeducted, results, db.guests);
  }

  /** The balances after step 5: total_used is rewritten as the freshly read
      total_used (0 when that read fails) plus the credits taken, only when some
      credit was taken from an existing row and the write succeeds. */
  function Settle(balances: map<BalanceKey, Balance>, key: BalanceKey, hasRow: bool, deducted: int, f: BulkFaults): (r: map<BalanceKey, Balance>)
    requires hasRow ==> key in balances
    ensures r.Keys == balances.Keys
    ensures forall k :: k in balances && k != key ==> r[k] == balances[k]
    ensures key in balances ==> r[key].purchased == balances[key].purchased
    ensures deducted > 0 && hasRow && !f.finalWriteFails && !f.latestReadFails ==>
      r[key].used == balances[key].used + deducted
    ensures deducted > 0 && hasRow && !f.finalWriteFails && f.latestReadFails ==> r[key].used == deducted
    ensures !(deducted > 0 && hasRow && !f.finalWriteFails) ==> r == balances
  {
    if deducted > 0 && hasRow && !f.finalWriteFails then
      var latestUsed := if f.latestReadFails then 0 else balances[key].used;
      balances[key := balances[key].(used := latestUsed + deducted)]
    else balances
  }

  /** sendAllGuestInvitations. Refusals (500/404/400) leave the store unchanged;
      otherwise the selected guests are sent to as SendToSelection says. */
  method SendAllGuestInvitations(db: Db, eventId: string, userId: string, pendingOnly: bool, f: BulkFaults, outcome: string -> EmailOutcome)
    returns (status: int, reply: Option<BulkReply>)
    modifies db`guests, db`balances
    ensures status != 200 ==> reply.None? && db.balances == old(db.balances) && db.guests == old(db.guests)
    ensures f.eventFails ==> status == 500
    ensures !f.eventFails && !OwnedBy(old(db.events), eventId, userId) ==> status == 404
    ensures !f.eventFails && OwnedBy(old(db.events), eventId, userId) && !EmailEnabled(old(db.events)[eventId]) ==> status == 400
    ensures !f.eventFails && OwnedBy(old(db.events), eventId, userId) && EmailEnabled(old(db.events)[eventId]) ==>
      var sel := Selection(old(db.guests), old(db.guestOrder), eventId, pendingOnly);
      && (f.guestsFail ==> status == 500)
      && (!f.guestsFail && |sel| == 0 ==> status == 400)
      && (!f.guestsFail && |sel| > 0 ==>
            status == 200 && reply.Some? &&
            var charge := ProductType(old(db.events)[eventId]) == "email";
            var key := (userId, "email");
            var hasRow := charge && !f.balanceFails && key in old(db.balances);
            var initial := if hasRow then Remaining(BalanceOf(old(db.balances), key)) else 0;
            var s := BulkRun(sel, old(db.guests), outcome, f.recordFails, charge, hasRow, BulkState(initial, 0, [], old(db.guests)));
            && reply.value == BulkReply(|sel|, CountOk(s.details), |sel| - CountOk(s.details), s.details)
            && db.guests == s.guests
            && db.balances == Settle(old(db.balances), key, hasRow, s.deducted, f))
  {
    // 1. the event, matched by id and owner
    if f.eventFails {
      return 500, None;
    }
    if !(eventId in db.events && db.events[eventId].userId == userId) {
      return 404, None;
    }
    var event := db.events[eventId];
    if !EmailEnabled(event) {
      return 400, None;
    }
    // 2. guests with a usable address
    if f.guestsFail {
      return 500, None;
    }
    var guests := Selection(db.guests, db.guestOrder, eventId, pendingOnly);
    if |guests| == 0 {
      return 400, None;
    }
    var r := SendToSelection(db, guests, userId, ProductType(event) == "email", f, outcome);
    return 200, Some(r);
  }

  /** Steps 3 to 5 of sendAllGuestInvitations: read the balance once, run the loop,
      write the aggregated debit, and build the reply. */
  method SendToSelection(db: Db, guests: seq<string>, userId: string, charge: bool, f: BulkFaults, outcome: string -> EmailOutcome)
    returns (reply: BulkReply)
    requires forall id :: id in guests ==> id in db.guests
    modifies db`guests, db`balances
    ensures
      var key := (userId, "email");
      var hasRow := charge && !f.balanceFails && key in old(db.balances);
      var initial := if hasRow then Remaining(BalanceOf(old(db.balances), key)) else 0;
      var s := BulkRun(guests, old(db.guests), outcome, f.recordFails, charge, hasRow, BulkState(initial, 0, [], old(db.guests)));
      && reply == BulkReply(|guests|, CountOk(s.details), |guests| - CountOk(s.details), s.details)
      && db.guests == s.guests
      && db.balances == Settle(old(db.balances), key, hasRow, s.deducted, f)
  {
    // 3. the balance, read once
    var currentBalance := 0;
    var hasRow := false;
    var key := (userId, "email");
    if charge {
      var row := if f.balanceFails then None else BalanceOf(db.balances, key);
      if row.Some? {
        currentBalance := row.value.purchased - row.value.used;
        hasRow := true;
      }
    }
    // 4. the sends
    assert hasRow == (charge && !f.balanceFails && key in old(db.balances));
    assert currentBalance == if hasRow then Remaining(BalanceOf(old(db.balances), key)) else 0;
    var s := BulkLoop(db, guests, outcome, f.recordFails, charge, hasRow, currentBalance);
    // 5. one aggregated write of total_used
    WriteTotalUsed(db, key, hasRow, s.deducted, f);
    var successes := CountOk(s.details);
    return BulkReply(|guests|, successes, |guests| - successes, s.details);
  }

  /** Step 5 of sendAllGuestInvitations: the single write of total_used. */
  method WriteTotalUsed(db: Db, key: BalanceKey, hasRow: bool, deducted: int, f: BulkFaults)
    requires hasRow ==> key in db.balances
    modifies db`balances
    ensures db.balances == Settle(old(db.balances), key, hasRow, deducted, f)
  {
    if deducted > 0 && hasRow && !f.finalWriteFails {
      var latestUsed := if f.latestReadFails then 0 else db.balances[key].used;
      db.balances := db.balances[key := db.balances[key].(used := latestUsed + deducted)];
    }
  }

  /** The bulk send takes one credit for each delivered first send of an "email"
      product with a balance row and for nothing else, never more credits than were
      left when it started, and the reported sent + failed is the number of
      selected guests. */
  lemma {:induction false} BulkDebitBounded(
    sel: seq<string>, snapshot: map<string, Guest>, outcome: string -> EmailOutcome, recordFails: string -> bool,
    charge: bool, hasRow: bool, initial: int)
    requires forall id :: id in sel ==> id in snapshot
    ensures var s := BulkRun(sel, snapshot, outcome, recordFails, charge, hasRow, BulkState(initial, 0, [], snapshot));
      && |s.details| == |sel|
      && s.deducted <= (if initial > 0 then initial else 0)
      && (charge && hasRow ==> s.deducted == Charged(sel, s.details, snapshot))
      && (!(charge && hasRow) ==> s.deducted == 0)
      && CountOk(s.details) + (|sel| - CountOk(s.details)) == |sel|
      && CountOk(s.details) <= |sel|
  {
    BulkRunBounds(sel, snapshot, outcome, recordFails, charge, hasRow, initial, snapshot);
  }
}
