/** The RSVP side of the ledger: the public RSVP (one group, its guests and their
    answers, and the "url" credit debit for attending guests), the owner's RSVP
    tree (groups -> guests -> answers) and the owner's group and guest patches. */
module Rsvp {
  import opened Base
  import opened JsValue
  import opened Store

  // ---------------------------------------------------------------------------
  // assertEventOwner
  // ---------------------------------------------------------------------------

  /** assertEventOwner: 500 when the lookup fails, 404 for a missing event, 403
      when it belongs to someone else, and the event otherwise. */
  function AssertEventOwner(events: map<string, Event>, eventId: string, userId: string, lookupFails: bool): (r: Result<Event, int>)
    ensures r.Ok? <==> !lookupFails && eventId in events && events[eventId].userId == userId
    ensures r.Ok? ==> r.value == events[eventId]
    ensures r == Err(500) <==> lookupFails
    ensures r == Err(404) <==> !lookupFails && eventId !in events
    ensures r == Err(403) <==> !lookupFails && eventId in events && events[eventId].userId != userId
  {
    if lookupFails then Err(500)
    else if eventId !in events then Err(404)
    else if events[eventId].userId != userId then Err(403)
    else Ok(events[eventId])
  }

  // ---------------------------------------------------------------------------
  // postPublicRsvp: payloads
  // ---------------------------------------------------------------------------

  /** The inserted groups row: each contact field is its body value when truthy, NULL otherwise. */
  function GroupRow(eventId: string, group: Value): (g: Group)
    ensures g.eventId == eventId
    ensures !Truthy(Get(group, "group_name")) ==> g.groupName.None?
    ensures !Truthy(Get(group, "contact_email")) ==> g.contactEmail.None?
    ensures !Truthy(Get(group, "contact_phone")) ==> g.contactPhone.None?
    ensures Truthy(Get(group, "group_name")) ==> g.groupName == Some(ToJsString(Get(group, "group_name")))
    ensures Truthy(Get(group, "contact_email")) ==> g.contactEmail == Some(ToJsString(Get(group, "contact_email")))
    ensures Truthy(Get(group, "contact_phone")) ==> g.contactPhone == Some(ToJsString(Get(group, "contact_phone")))
  {
    Group(eventId, TextOrNull(Get(group, "group_name")), TextOrNull(Get(group, "contact_email")), TextOrNull(Get(group, "contact_phone")))
  }

  /** The guests row built from one body entry; an entry without a truthy full_name
      makes the whole payload throw. New rows carry no e-mail status. */
  function GuestRow(eventId: string, groupId: string, g: Value): (r: Result<Guest, string>)
    ensures r.Err? <==> !Truthy(Get(g, "full_name"))
    ensures r.Ok? ==> r.value.eventId == eventId && r.value.groupId == groupId
    ensures r.Ok? ==> r.value.attending == Some(Truthy(Get(g, "attending")))
    ensures r.Ok? ==> r.value.fullName.Some? && r.value.emailStatus.None?
    ensures r.Ok? && !Truthy(Get(g, "email")) ==> r.value.email.None?
  {
    var name := Get(g, "full_name");
    if !Truthy(name) then Err("Each guest must include full_name")
    else Ok(Guest(eventId, groupId, Some(ToJsString(name)), TextOrNull(Get(g, "email")), TextOrNull(Get(g, "phone")),
                  Some(Truthy(Get(g, "attending"))), None, None, None))
  }

  /** `guests.map(...)`: all rows, or the error of the first entry without full_name. */
  function GuestsPayload(eventId: string, groupId: string, items: seq<Value>): (r: Result<seq<Guest>, string>)
    ensures r.Ok? <==> forall i :: 0 <= i < |items| ==> Truthy(Get(items[i], "full_name"))
    ensures r.Ok? ==> |r.value| == |items|
    ensures r.Ok? ==> forall i :: 0 <= i < |items| ==> GuestRow(eventId, groupId, items[i]) == Ok(r.value[i])
  {
    if |items| == 0 then Ok([])
    else
      match GuestRow(eventId, groupId, items[0])
      case Err(e) => Err(e)
      case Ok(row) =>
        match GuestsPayload(eventId, groupId, items[1..])
        case Err(e) => Err(e)
        case Ok(rows) => Ok([row] + rows)
  }

  /** `createdGuests.filter(g => g.attending).length`. */
  function AttendingCount(rows: seq<Guest>): (n: nat)
    ensures n <= |rows|
  {
    if |rows| == 0 then 0
    else AttendingCount(rows[..|rows| - 1]) + (if rows[|rows| - 1].attending == Some(true) then 1 else 0)
  }

  /** One answer_questions row to upsert. */
  datatype AnswerRow = AnswerRow(guestId: string, questionId: string, answer: string)

  /** An incoming answer is kept when its question_id is truthy and is one of the event's questions. */
  predicate Accepted(a: Value, allowed: set<string>) {
    var q := Get(a, "question_id");
    Truthy(q) && q.Str? && q.s in allowed
  }

  /** `a.answer == null ? "" : String(a.answer)`. */
  function AnswerText(a: Value): (t: string)
    ensures IsNullish(Get(a, "answer")) ==> t == ""
    ensures Get(a, "answer").Str? ==> t == Get(a, "answer").s
  {
    var v := Get(a, "answer");
    if IsNullish(v) then "" else ToJsString(v)
  }

  /** `Array.isArray(g.answers) ? g.answers : []`. */
  function IncomingAnswers(g: Value): seq<Value> {
    var a := Get(g, "answers");
    if a.Arr? then a.items else []
  }

  /** The rows kept from one guest's answers, in order. */
  function GuestAnswerRows(guestId: string, ans: seq<Value>, allowed: set<string>): (rows: seq<AnswerRow>)
    ensures |rows| <= |ans|
    ensures forall r :: r in rows ==> r.guestId == guestId && r.questionId in allowed
    ensures forall k :: 0 <= k < |ans| && Accepted(ans[k], allowed) ==>
      AnswerRow(guestId, Get(ans[k], "question_id").s, AnswerText(ans[k])) in rows
  {
    if |ans| == 0 then []
    else
      var a := ans[|ans| - 1];
      var pre := GuestAnswerRows(guestId, ans[..|ans| - 1], allowed);
      assert forall k :: 0 <= k < |ans| - 1 ==> ans[k] == ans[..|ans| - 1][k];
      if Accepted(a, allowed) then pre + [AnswerRow(guestId, Get(a, "question_id").s, AnswerText(a))] else pre
  }

  /** The rows for the first |ids| created guests, guest by guest. */
  function AnswerRows(ids: seq<string>, items: seq<Value>, allowed: set<string>): (rows: seq<AnswerRow>)
    requires |ids| <= |items|
    ensures forall r :: r in rows ==> r.guestId in ids && r.questionId in allowed
  {
    if |ids| == 0 then []
    else
      var n := |ids| - 1;
      var pre := AnswerRows(ids[..n], items, allowed);
      assert forall r :: r in pre ==> r.guestId in ids by {
        forall r | r in pre ensures r.guestId in ids {
          var k :| 0 <= k < n && ids[..n][k] == r.guestId;
          assert ids[k] == r.guestId;
        }
      }
      pre + GuestAnswerRows(ids[n], IncomingAnswers(items[n]), allowed)
  }

  /** The rows of one guest's answers are taken answer by answer, in order: over a
      concatenation they are the rows of the first part followed by those of the
      second, and a single answer gives its row exactly when it is accepted. */
  lemma {:induction false} GuestAnswerRowsAppend(guestId: string, a1: seq<Value>, a2: seq<Value>, allowed: set<string>)
    ensures GuestAnswerRows(guestId, a1 + a2, allowed) == GuestAnswerRows(guestId, a1, allowed) + GuestAnswerRows(guestId, a2, allowed)
    ensures |a2| == 1 ==>
      (GuestAnswerRows(guestId, a2, allowed) ==
       if Accepted(a2[0], allowed) then [AnswerRow(guestId, Get(a2[0], "question_id").s, AnswerText(a2[0]))] else [])
    decreases |a2|
  {
    if |a2| == 1 {
      GuestAnswerRowsOne(guestId, a2, allowed);
    }
    GuestAnswerRowsConcat(guestId, a1, a2, allowed);
  }

  lemma {:induction false} GuestAnswerRowsOne(guestId: string, a: seq<Value>, allowed: set<string>)
    requires |a| == 1
    ensures GuestAnswerRows(guestId, a, allowed) ==
      if Accepted(a[0], allowed) then [AnswerRow(guestId, Get(a[0], "question_id").s, AnswerText(a[0]))] else []
  {
    assert a[..0] == [];
  }

  lemma {:induction false} GuestAnswerRowsConcat(guestId: string, a1: seq<Value>, a2: seq<Value>, allowed: set<string>)
    ensures GuestAnswerRows(guestId, a1 + a2, allowed) == GuestAnswerRows(guestId, a1, allowed) + GuestAnswerRows(guestId, a2, allowed)
    decreases |a2|
  {
    if |a2| == 0 {
      assert a1 + a2 == a1;
    } else {
      var n := |a2| - 1;
      var whole := a1 + a2;
      assert whole[..|whole| - 1] == a1 + a2[..n];
      assert whole[|whole| - 1] == a2[n];
      GuestAnswerRowsConcat(guestId, a1, a2[..n], allowed);
      GuestAnswerRowsLast(guestId, whole, allowed);
      GuestAnswerRowsLast(guestId, a2, allowed);
    }
  }

  /** One unfolding: the rows of a non-empty list are those before its last answer
      followed by the last answer's row, if it has one. */
  lemma {:induction false} GuestAnswerRowsLast(guestId: string, a: seq<Value>, allowed: set<string>)
    requires |a| > 0
    ensures GuestAnswerRows(guestId, a, allowed) == GuestAnswerRows(guestId, a[..|a| - 1], allowed) +
      (if Accepted(a[|a| - 1], allowed) then [AnswerRow(guestId, Get(a[|a| - 1], "question_id").s, AnswerText(a[|a| - 1]))] else [])
  {
  }

  /** The answer-row loop of postPublicRsvp over the created guests. */
  method CollectAnswerRows(ids: seq<string>, items: seq<Value>, allowed: set<string>) returns (answerRows: seq<AnswerRow>)
    requires |ids| == |items|
    ensures answerRows == AnswerRows(ids, items, allowed)
  {
    answerRows := [];
    var i := 0;
    while i < |ids|
      invariant 0 <= i <= |ids|
      invariant answerRows == AnswerRows(ids[..i], items, allowed)
    {
      var own := CollectGuestAnswers(ids[i], IncomingAnswers(items[i]), allowed);
      assert ids[..i + 1][..i] == ids[..i] && ids[..i + 1][i] == ids[i];
      answerRows := answerRows + own;
      i := i + 1;
    }
    assert ids[..|ids|] == ids;
  }

  /** The inner loop over one guest's incoming answers. */
  method CollectGuestAnswers(guestId: string, ans: seq<Value>, allowed: set<string>) returns (rows: seq<AnswerRow>)
    ensures rows == GuestAnswerRows(guestId, ans, allowed)
  {
    rows := [];
    var j := 0;
    while j < |ans|
      invariant 0 <= j <= |ans|
      invariant rows == GuestAnswerRows(guestId, ans[..j], allowed)
    {
      var a := ans[j];
      assert ans[..j + 1][..j] == ans[..j] && ans[..j + 1][j] == a;
      if Accepted(a, allowed) {
        rows := rows + [AnswerRow(guestId, Get(a, "question_id").s, AnswerText(a))];
      }
      j := j + 1;
    }
    assert ans[..|ans|] == ans;
  }

  /** The conflict key of an answer row: (guest_id, question_id). */
  function AnswerKey(row: AnswerRow): (string, string) {
    (row.guestId, row.questionId)
  }

  /** Row `i` is the last of the batch with its key. */
  predicate LastOfKey(rows: seq<AnswerRow>, i: int)
    requires 0 <= i < |rows|
  {
    forall j :: i < j < |rows| ==> AnswerKey(rows[j]) != AnswerKey(rows[i])
  }

  /** No two rows of the batch share a key. The database refuses an upsert batch
      that would update one row twice, so only such a batch is written. */
  predicate DistinctKeys(rows: seq<AnswerRow>) {
    forall i, j :: 0 <= i < j < |rows| ==> AnswerKey(rows[i]) != AnswerKey(rows[j])
  }

  /** The upsert on (guest_id, question_id): rows apply in order, a later row for
      the same key replacing an earlier one; other stored answers are untouched. */
  function Upsert(answers: map<(string, string), Answer>, eventId: string, groupId: string, rows: seq<AnswerRow>): (r: map<(string, string), Answer>)
    ensures r.Keys == answers.Keys + set k | k in rows :: AnswerKey(k)
    ensures forall key :: key in answers && (forall k :: k in rows ==> AnswerKey(k) != key) ==> r[key] == answers[key]
  {
    if |rows| == 0 then answers
    else
      var last := rows[|rows| - 1];
      var pre := Upsert(answers, eventId, groupId, rows[..|rows| - 1]);
      assert forall k :: k in rows <==> k in rows[..|rows| - 1] || k == last;
      pre[AnswerKey(last) := Answer(eventId, groupId, last.answer)]
  }

  /** Each key takes the answer of the last row with that key. */
  lemma {:induction false} UpsertLastWins(answers: map<(string, string), Answer>, eventId: string, groupId: string, rows: seq<AnswerRow>)
    ensures forall i :: 0 <= i < |rows| && LastOfKey(rows, i) ==>
      Upsert(answers, eventId, groupId, rows)[AnswerKey(rows[i])] == Answer(eventId, groupId, rows[i].answer)
    decreases |rows|
  {
    if |rows| > 0 {
      var n := |rows| - 1;
      var pre := Upsert(answers, eventId, groupId, rows[..n]);
      var r := Upsert(answers, eventId, groupId, rows);
      assert r == pre[AnswerKey(rows[n]) := Answer(eventId, groupId, rows[n].answer)];
      UpsertLastWins(answers, eventId, groupId, rows[..n]);
      forall i | 0 <= i < |rows| && LastOfKey(rows, i)
        ensures r[AnswerKey(rows[i])] == Answer(eventId, groupId, rows[i].answer)
      {
        if i < n {
          assert rows[..n][i] == rows[i];
          assert LastOfKey(rows[..n], i);
          assert AnswerKey(rows[n]) != AnswerKey(rows[i]);
        }
      }
    }
  }

  /** For a batch of distinct keys, the one the database accepts, every row's
      answer is stored under its key. */
  lemma {:induction false} UpsertDistinct(answers: map<(string, string), Answer>, eventId: string, groupId: string, rows: seq<AnswerRow>)
    requires DistinctKeys(rows)
    ensures forall i :: 0 <= i < |rows| ==>
      Upsert(answers, eventId, groupId, rows)[AnswerKey(rows[i])] == Answer(eventId, groupId, rows[i].answer)
  {
    UpsertLastWins(answers, eventId, groupId, rows);
    assert forall i :: 0 <= i < |rows| ==> LastOfKey(rows, i);
  }

  // ---------------------------------------------------------------------------
  // postPublicRsvp: the "url" debit
  // ---------------------------------------------------------------------------

  /** The lower-cased invitation type, "" when there is none. */
  function LowerType(e: Event): string {
    ToLower(if e.invitationType.Some? then e.invitationType.value else "")
  }

  /** The balance row an RSVP debits: the event owner's, for the product type
      before the first ":". */
  function RsvpKey(e: Event): BalanceKey {
    (e.userId, Split(LowerType(e), ":")[0])
  }

  /** total_used grows by exactly the attending count when that count is positive, the
      lower-cased type starts with "url", and the row is read; otherwise nothing
      changes. total_purchased is never consulted. */
  function RsvpDebit(balances: map<BalanceKey, Balance>, e: Event, count: nat, balanceFails: bool): (r: map<BalanceKey, Balance>)
    ensures r.Keys == balances.Keys
    ensures forall k :: k in balances && k != RsvpKey(e) ==> r[k] == balances[k]
    ensures count > 0 && StartsWith(LowerType(e), "url") && !balanceFails && RsvpKey(e) in balances ==>
      r[RsvpKey(e)] == Balance(balances[RsvpKey(e)].purchased, balances[RsvpKey(e)].used + count)
    ensures !(count > 0 && StartsWith(LowerType(e), "url") && !balanceFails) ==> r == balances
  {
    var key := RsvpKey(e);
    if count > 0 && StartsWith(LowerType(e), "url") && !balanceFails && key in balances then
      balances[key := balances[key].(used := balances[key].used + count)]
    else balances
  }

  lemma {:induction false} ToLowerOfLower(s: string)
    requires forall i :: 0 <= i < |s| ==> !('A' <= s[i] <= 'Z')
    ensures ToLower(s) == s
  {
  }

  /** The RSVP debit can push total_used past total_purchased: with nothing bought
      and two attending guests, two credits are used. */
  lemma {:induction false} RsvpDebitCanOverdraw()
    ensures var e := Event("u", "published", None, Some("url:basic"));
      var r := RsvpDebit(map[("u", "url") := Balance(0, 0)], e, 2, false);
      r[("u", "url")].used > r[("u", "url")].purchased
  {
    var e := Event("u", "published", None, Some("url:basic"));
    var l := LowerType(e);
    ToLowerOfLower("url:basic");
    assert l == "url:basic";
    assert StartsWith(l, "url");
    assert IndexOf(l, ":") == Some(3) by {
      assert OccursAt(l, ":", 3);
      assert !OccursAt(l, ":", 0) && !OccursAt(l, ":", 1) && !OccursAt(l, ":", 2);
    }
    SplitHead(l, ":");
    assert RsvpKey(e) == ("u", "url");
  }

  // ---------------------------------------------------------------------------
  // postPublicRsvp
  // ---------------------------------------------------------------------------

  datatype RsvpFaults = RsvpFaults(eventFails: bool, questionsFail: bool, groupFails: bool, guestsFail: bool, answersFail: bool, balanceFails: bool)

  /** The ids of the event's questions. */
  function AllowedQuestions(questions: map<string, string>, eventId: string): (s: set<string>)
    ensures forall q :: q in s <==> q in questions && questions[q] == eventId
  {
    set q | q in questions && questions[q] == eventId
  }

  /** `guests` of the body is a non-empty array. */
  predicate HasGuests(body: Value) {
    Get(body, "guests").Arr? && |Get(body, "guests").items| > 0
  }

  /** Adds the created guest rows under their new ids. */
  function AddGuests(guests: map<string, Guest>, ids: seq<string>, rows: seq<Guest>): (r: map<string, Guest>)
    requires |ids| == |rows|
    requires forall i, j :: 0 <= i < j < |ids| ==> ids[i] != ids[j]
    ensures forall id :: id in r <==> id in guests || id in ids
    ensures forall i :: 0 <= i < |ids| ==> ids[i] in r && r[ids[i]] == rows[i]
    ensures forall id :: id in guests && id !in ids ==> r[id] == guests[id]
    decreases |ids|
  {
    if |ids| == 0 then guests
    else
      var r := AddGuests(guests[ids[0] := rows[0]], ids[1..], rows[1..]);
      AddFirstGuest(guests, ids, rows, r);
      r
  }

  /** The step of AddGuests: the rest of the rows added after the first. */
  lemma {:induction false} AddFirstGuest(guests: map<string, Guest>, ids: seq<string>, rows: seq<Guest>, r: map<string, Guest>)
    requires |ids| == |rows| > 0
    requires forall i, j :: 0 <= i < j < |ids| ==> ids[i] != ids[j]
    requires forall id :: id in r <==> id in guests[ids[0] := rows[0]] || id in ids[1..]
    requires forall i :: 0 <= i < |ids| - 1 ==> ids[1..][i] in r && r[ids[1..][i]] == rows[1..][i]
    requires forall id :: id in guests[ids[0] := rows[0]] && id !in ids[1..] ==> r[id] == guests[ids[0] := rows[0]][id]
    ensures forall id :: id in r <==> id in guests || id in ids
    ensures forall i :: 0 <= i < |ids| ==> ids[i] in r && r[ids[i]] == rows[i]
    ensures forall id :: id in guests && id !in ids ==> r[id] == guests[id]
  {
    assert forall id :: id in ids <==> id == ids[0] || id in ids[1..];
    assert ids[0] !in ids[1..] by {
      forall i | 0 <= i < |ids| - 1
        ensures ids[1..][i] != ids[0]
      {
        assert ids[1..][i] == ids[i + 1];
      }
    }
    forall i | 0 <= i < |ids|
      ensures ids[i] in r && r[ids[i]] == rows[i]
    {
      if i > 0 {
        assert ids[1..][i - 1] == ids[i] && rows[1..][i - 1] == rows[i];
      }
    }
  }

  /** The tables an RSVP writes after its group row. */
  datatype RsvpTables = RsvpTables(
    guests: map<string, Guest>, guestOrder: seq<string>,
    answers: map<(string, string), Answer>, balances: map<BalanceKey, Balance>)

  function TablesOf(db: Db): RsvpTables
    reads db
  {
    RsvpTables(db.guests, db.guestOrder, db.answers, db.balances)
  }

  /** The outcome of storing an RSVP's guests, answers and debit, from the tables
      `t0` to `t1`: a bad payload (400) or a failed guests insert (500) changes
      nothing; otherwise the guests are added in order, and then either the answers
      upsert fails (500) or the answers are upserted and the "url" balance debited
      (201). */
  ghost predicate GuestsAndAnswersStored(t0: RsvpTables, t1: RsvpTables, status: int, eventId: string, event: Event,
                                         items: seq<Value>, groupId: string, ids: seq<string>, allowed: set<string>,
                                         f: RsvpFaults)
    requires |ids| == |items|
    requires forall i, j :: 0 <= i < j < |ids| ==> ids[i] != ids[j]
  {
    var payload := GuestsPayload(eventId, groupId, items);
    && (payload.Err? ==> status == 400 && t1 == t0)
    && (payload.Ok? && f.guestsFail ==> status == 500 && t1 == t0)
    && (payload.Ok? && !f.guestsFail ==>
          && t1.guests == AddGuests(t0.guests, ids, payload.value)
          && t1.guestOrder == t0.guestOrder + ids
          && AnswersAndDebitStored(t0.answers, t0.balances, t1.answers, t1.balances, status, eventId, event, items,
                                   groupId, ids, allowed, AttendingCount(payload.value), f))
  }

  /** The answers upsert and the debit, from (answers0, balances0) to (answers1,
      balances1): a failed upsert of a non-empty set of rows (500), which includes
      a batch naming one (guest, question) twice, changes nothing; otherwise the
      rows are upserted and the "url" balance debited (201). */
  ghost predicate AnswersAndDebitStored(
    answers0: map<(string, string), Answer>, balances0: map<BalanceKey, Balance>,
    answers1: map<(string, string), Answer>, balances1: map<BalanceKey, Balance>,
    status: int, eventId: string, event: Event, items: seq<Value>, groupId: string, ids: seq<string>,
    allowed: set<string>, attendingCount: nat, f: RsvpFaults)
    requires |ids| == |items|
  {
    var rows := AnswerRows(ids, items, allowed);
    && (|rows| > 0 && (f.answersFail || !DistinctKeys(rows)) ==> status == 500 && answers1 == answers0 && balances1 == balances0)
    && (!(|rows| > 0 && (f.answersFail || !DistinctKeys(rows))) ==>
          && status == 201
          && answers1 == Upsert(answers0, eventId, groupId, rows)
          && balances1 == RsvpDebit(balances0, event, attendingCount, f.balanceFails))
  }

  /** The checks postPublicRsvp makes before it writes anything: the status it
      answers with, or None when it goes on to store the RSVP. */
  function RsvpPrecheck(events: map<string, Event>, eventId: string, body: Value, f: RsvpFaults): (r: Option<int>)
    ensures eventId == "" || !HasGuests(body) ==> r == Some(400)
    ensures r.None? <==> eventId != "" && HasGuests(body) && !f.eventFails && eventId in events && !f.questionsFail && !f.groupFails
    ensures eventId != "" && HasGuests(body) && !f.eventFails && eventId !in events ==> r == Some(404)
    ensures r.Some? ==> r.value in {400, 404, 500}
  {
    if eventId == "" || !HasGuests(body) then Some(400)
    else if f.eventFails then Some(500)
    else if eventId !in events then Some(404)
    else if f.questionsFail || f.groupFails then Some(500)
    else None
  }

  /** postPublicRsvp. Before anything is written, a missing event id or a guests list
      that is not a non-empty array gives 400, and a failed or empty event lookup
      500/404. The group row is inserted next, so an entry without full_name answers
      400 with the group already stored. Then the guests are inserted, the accepted
      answers upserted, and for a "url" event the owner's balance debited by the
      attending count; the reply is 201. */
  method PostPublicRsvp(db: Db, eventId: string, body: Value, newGroupId: string, newGuestIds: seq<string>, f: RsvpFaults)
    returns (status: int)
    requires db.Valid()
    requires forall i, j :: 0 <= i < j < |newGuestIds| ==> newGuestIds[i] != newGuestIds[j]
    requires forall id :: id in newGuestIds ==> id !in db.guests
    requires Get(body, "guests").Arr? ==> |newGuestIds| == |Get(body, "guests").items|
    modifies db`groups, db`guests, db`guestOrder, db`answers, db`balances
    ensures db.Valid()
    ensures RsvpPrecheck(db.events, eventId, body, f).Some? ==>
      status == RsvpPrecheck(db.events, eventId, body, f).value
      && db.groups == old(db.groups) && TablesOf(db) == old(TablesOf(db))
    ensures RsvpPrecheck(db.events, eventId, body, f).None? ==>
      && db.groups == old(db.groups)[newGroupId := GroupRow(eventId, Get(body, "group"))]
      && GuestsAndAnswersStored(old(TablesOf(db)), TablesOf(db), status, eventId, old(db.events)[eventId],
                                Get(body, "guests").items, newGroupId, newGuestIds,
                                AllowedQuestions(old(db.questions), eventId), f)
  {
    var pre := RsvpPrecheck(db.events, eventId, body, f);
    if pre.Some? {
      return pre.value;
    }
    status := StoreRsvp(db, eventId, db.events[eventId], body, newGroupId, newGuestIds,
                        AllowedQuestions(db.questions, eventId), f);
  }

  /** postPublicRsvp once its checks have passed: the group row, then the guests,
      answers and debit. */
  method StoreRsvp(db: Db, eventId: string, event: Event, body: Value, newGroupId: string, newGuestIds: seq<string>,
                   allowed: set<string>, f: RsvpFaults)
    returns (status: int)
    requires db.Valid() && HasGuests(body)
    requires forall i, j :: 0 <= i < j < |newGuestIds| ==> newGuestIds[i] != newGuestIds[j]
    requires forall id :: id in newGuestIds ==> id !in db.guests
    requires |newGuestIds| == |Get(body, "guests").items|
    modifies db`groups, db`guests, db`guestOrder, db`answers, db`balances
    ensures db.Valid()
    ensures db.groups == old(db.groups)[newGroupId := GroupRow(eventId, Get(body, "group"))]
    ensures GuestsAndAnswersStored(old(TablesOf(db)), TablesOf(db), status, eventId, event, Get(body, "guests").items,
                                   newGroupId, newGuestIds, allowed, f)
  {
    db.groups := db.groups[newGroupId := GroupRow(eventId, Get(body, "group"))];
    status := StoreGuestsAndAnswers(db, eventId, event, Get(body, "guests").items, newGroupId, newGuestIds, allowed, f);
  }

  /** postPublicRsvp after the group row is stored: the guests batch, the answers
      upsert and the "url" debit. */
  method StoreGuestsAndAnswers(
    db: Db, eventId: string, event: Event, items: seq<Value>, groupId: string, newGuestIds: seq<string>,
    allowed: set<string>, f: RsvpFaults)
    returns (status: int)
    requires db.Valid()
    requires forall i, j :: 0 <= i < j < |newGuestIds| ==> newGuestIds[i] != newGuestIds[j]
    requires forall id :: id in newGuestIds ==> id !in db.guests
    requires |newGuestIds| == |items|
    modifies db`guests, db`guestOrder, db`answers, db`balances
    ensures db.Valid()
    ensures GuestsAndAnswersStored(old(TablesOf(db)), TablesOf(db), status, eventId, event, items, groupId,
                                   newGuestIds, allowed, f)
  {
    var guestsPayload := GuestsPayload(eventId, groupId, items);
    if guestsPayload.Err? {
      return 400;
    }
    if f.guestsFail {
      return 500;
    }
    InsertGuests(db, newGuestIds, guestsPayload.value);
    status := StoreAnswersAndDebit(db, eventId, event, items, groupId, newGuestIds, allowed,
                                   AttendingCount(guestsPayload.value), f);
  }

  /** postPublicRsvp after the guests are stored: the answers upsert (skipped when
      there is no row) and then the "url" debit. */
  method StoreAnswersAndDebit(
    db: Db, eventId: string, event: Event, items: seq<Value>, groupId: string, ids: seq<string>,
    allowed: set<string>, attendingCount: nat, f: RsvpFaults)
    returns (status: int)
    requires |ids| == |items|
    modifies db`answers, db`balances
    ensures AnswersAndDebitStored(old(db.answers), old(db.balances), db.answers, db.balances, status, eventId, event,
                                  items, groupId, ids, allowed, attendingCount, f)
  {
    var answerRows := CollectAnswerRows(ids, items, allowed);
    if |answerRows| > 0 {
      // the database refuses a batch that updates one row twice
      if f.answersFail || !DistinctKeys(answerRows) {
        return 500;
      }
      db.answers := Upsert(db.answers, eventId, groupId, answerRows);
    }
    DebitAttending(db, event, attendingCount, f.balanceFails);
    return 201;
  }

  /** The batch insert of the guest rows under fresh ids. */
  method InsertGuests(db: Db, ids: seq<string>, rows: seq<Guest>)
    requires db.Valid()
    requires |ids| == |rows|
    requires forall i, j :: 0 <= i < j < |ids| ==> ids[i] != ids[j]
    requires forall id :: id in ids ==> id !in db.guests
    modifies db`guests, db`guestOrder
    ensures db.Valid()
    ensures db.guests == AddGuests(old(db.guests), ids, rows)
    ensures db.guestOrder == old(db.guestOrder) + ids
  {
    db.guests := AddGuests(db.guests, ids, rows);
    db.guestOrder := db.guestOrder + ids;
    assert forall id :: id in db.guestOrder <==> id in old(db.guestOrder) || id in ids;
  }

  /** The read-then-write of the owner's "url" balance row after an RSVP. */
  method DebitAttending(db: Db, event: Event, attendingCount: nat, balanceFails: bool)
    modifies db`balances
    ensures db.balances == RsvpDebit(old(db.balances), event, attendingCount, balanceFails)
  {
    if attendingCount > 0 {
      var invitationType := LowerType(event);
      if StartsWith(invitationType, "url") {
        var productType := Split(invitationType, ":")[0];
        var key := (event.userId, productType);
        if !balanceFails && key in db.balances {
          var balance := db.balances[key];
          db.balances := db.balances[key := balance.(used := balance.used + attendingCount)];
        }
      }
    }
  }

  // ---------------------------------------------------------------------------
  // getEventRsvpTree
  // ---------------------------------------------------------------------------

  /** The rows the tree is built from, as the three queries return them (each in
      created_at order). */
  datatype GroupRec = GroupRec(id: string, name: Option<string>)
  datatype GuestRec = GuestRec(id: string, groupId: string, fullName: Option<string>)
  datatype AnswerRec = AnswerRec(id: string, guestId: string, questionId: string, answer: string)

  datatype GuestNode = GuestNode(guest: GuestRec, answers: seq<AnswerRec>)
  datatype GroupNode = GroupNode(group: GroupRec, guests: seq<GuestNode>)

  /** The answers of one guest, in input order. */
  function AnswersOf(answers: seq<AnswerRec>, guestId: string): (r: seq<AnswerRec>)
    ensures |r| <= |answers|
    ensures forall a :: a in r <==> a in answers && a.guestId == guestId
  {
    if |answers| == 0 then []
    else
      var pre := AnswersOf(answers[..|answers| - 1], guestId);
      var a := answers[|answers| - 1];
      assert forall x :: x in answers <==> x in answers[..|answers| - 1] || x == a;
      if a.guestId == guestId then pre + [a] else pre
  }

  /** The guests of one group, in input order, each with its own answers. */
  function GuestsOf(guests: seq<GuestRec>, answers: seq<AnswerRec>, groupId: string): (r: seq<GuestNode>)
    ensures |r| <= |guests|
    ensures forall n :: n in r ==> n.guest in guests && n.guest.groupId == groupId && n.answers == AnswersOf(answers, n.guest.id)
    ensures forall g :: g in guests && g.groupId == groupId ==> GuestNode(g, AnswersOf(answers, g.id)) in r
  {
    if |guests| == 0 then []
    else
      var pre := GuestsOf(guests[..|guests| - 1], answers, groupId);
      var g := guests[|guests| - 1];
      assert forall x :: x in guests <==> x in guests[..|guests| - 1] || x == g;
      if g.groupId == groupId then pre + [GuestNode(g, AnswersOf(answers, g.id))] else pre
  }

  /** The tree: one node per group, in order, each listing exactly its guests. */
  function Tree(groups: seq<GroupRec>, guests: seq<GuestRec>, answers: seq<AnswerRec>): (t: seq<GroupNode>)
    ensures |t| == |groups|
    ensures forall i :: 0 <= i < |groups| ==> t[i].group == groups[i] && t[i].guests == GuestsOf(guests, answers, groups[i].id)
  {
    seq(|groups|, i requires 0 <= i < |groups| => GroupNode(groups[i], GuestsOf(guests, answers, groups[i].id)))
  }

  /** A guest whose group is not among the groups appears nowhere in the tree. */
  lemma {:induction false} OrphansDropped(groups: seq<GroupRec>, guests: seq<GuestRec>, answers: seq<AnswerRec>, g: GuestRec)
    requires forall i :: 0 <= i < |groups| ==> groups[i].id != g.groupId
    ensures forall i, n :: 0 <= i < |groups| && n in Tree(groups, guests, answers)[i].guests ==> n.guest != g
  {
  }

  /** The answers of each guest, as getEventRsvpTree's first loop indexes them. */
  ghost predicate IndexesAnswers(byGuest: map<string, seq<AnswerRec>>, answers: seq<AnswerRec>) {
    && (forall gid :: gid in byGuest ==> byGuest[gid] == AnswersOf(answers, gid))
    && (forall gid :: gid !in byGuest ==> AnswersOf(answers, gid) == [])
  }

  /** The guests of each group, as getEventRsvpTree's second loop indexes them. */
  ghost predicate IndexesGuests(byGroup: map<string, seq<GuestNode>>, guests: seq<GuestRec>, answers: seq<AnswerRec>) {
    && (forall grp :: grp in byGroup ==> byGroup[grp] == GuestsOf(guests, answers, grp))
    && (forall grp :: grp !in byGroup ==> GuestsOf(guests, answers, grp) == [])
  }

  /** The index after one more answer row: the row appended to its guest's list. */
  lemma {:induction false} IndexAnswersStep(byGuest: map<string, seq<AnswerRec>>, answers: seq<AnswerRec>, i: nat)
    requires i < |answers| && IndexesAnswers(byGuest, answers[..i])
    ensures var gid := answers[i].guestId;
      IndexesAnswers(byGuest[gid := (if gid in byGuest then byGuest[gid] else []) + [answers[i]]], answers[..i + 1])
  {
    assert answers[..i + 1][..i] == answers[..i];
  }

  /** The index after one more guest row: the guest and its answers appended to its
      group's list. */
  lemma {:induction false} IndexGuestsStep(byGroup: map<string, seq<GuestNode>>, guests: seq<GuestRec>,
                                           answers: seq<AnswerRec>, k: nat, own: seq<AnswerRec>)
    requires k < |guests| && IndexesGuests(byGroup, guests[..k], answers)
    requires own == AnswersOf(answers, guests[k].id)
    ensures var g := guests[k];
      IndexesGuests(byGroup[g.groupId := (if g.groupId in byGroup then byGroup[g.groupId] else []) + [GuestNode(g, own)]],
                    guests[..k + 1], answers)
  {
    assert guests[..k + 1][..k] == guests[..k];
  }

  /** The answers index gives each guest's answers, none for a guest it lacks. */
  lemma {:induction false} OwnAnswers(byGuest: map<string, seq<AnswerRec>>, answers: seq<AnswerRec>, id: string)
    requires IndexesAnswers(byGuest, answers)
    ensures (if id in byGuest then byGuest[id] else []) == AnswersOf(answers, id)
  {
  }

  /** getEventRsvpTree's answersByGuest loop. */
  method IndexAnswers(answers: seq<AnswerRec>) returns (byGuest: map<string, seq<AnswerRec>>)
    ensures IndexesAnswers(byGuest, answers)
  {
    byGuest := map[];
    var i := 0;
    while i < |answers|
      invariant 0 <= i <= |answers|
      invariant IndexesAnswers(byGuest, answers[..i])
    {
      var row := answers[i];
      IndexAnswersStep(byGuest, answers, i);
      var list := if row.guestId in byGuest then byGuest[row.guestId] else [];
      byGuest := byGuest[row.guestId := list + [row]];
      i := i + 1;
    }
    assert answers[..|answers|] == answers;
  }

  /** getEventRsvpTree's guestsByGroup loop, given the answers index. */
  method IndexGuests(guests: seq<GuestRec>, answers: seq<AnswerRec>, byGuest: map<string, seq<AnswerRec>>)
    returns (byGroup: map<string, seq<GuestNode>>)
    requires IndexesAnswers(byGuest, answers)
    ensures IndexesGuests(byGroup, guests, answers)
  {
    byGroup := map[];
    var k := 0;
    while k < |guests|
      invariant 0 <= k <= |guests|
      invariant IndexesGuests(byGroup, guests[..k], answers)
    {
      var guest := guests[k];
      var own := if guest.id in byGuest then byGuest[guest.id] else [];
      OwnAnswers(byGuest, answers, guest.id);
      IndexGuestsStep(byGroup, guests, answers, k, own);
      var list := if guest.groupId in byGroup then byGroup[guest.groupId] else [];
      byGroup := byGroup[guest.groupId := list + [GuestNode(guest, own)]];
      k := k + 1;
    }
    assert guests[..|guests|] == guests;
  }

  /** The two index loops of getEventRsvpTree (answersByGuest, guestsByGroup) and
      the final map over the groups. */
  method BuildTree(groups: seq<GroupRec>, guests: seq<GuestRec>, answers: seq<AnswerRec>) returns (tree: seq<GroupNode>)
    ensures tree == Tree(groups, guests, answers)
  {
    var answersByGuest := IndexAnswers(answers);
    var guestsByGroup := IndexGuests(guests, answers, answersByGuest);
    tree := [];
    var j := 0;
    while j < |groups|
      invariant 0 <= j <= |groups|
      invariant tree == Tree(groups[..j], guests, answers)
    {
      var grp := groups[j];
      var members := if grp.id in guestsByGroup then guestsByGroup[grp.id] else [];
      tree := tree + [GroupNode(grp, members)];
      j := j + 1;
    }
    assert groups[..|groups|] == groups;
  }

  /** getEventRsvpTree: the owner check, then a 500 for any failed query, then the tree. */
  method GetEventRsvpTree(
    events: map<string, Event>, eventId: string, userId: string, lookupFails: bool,
    groups: Result<seq<GroupRec>, string>, guests: Result<seq<GuestRec>, string>, answers: Result<seq<AnswerRec>, string>)
    returns (status: int, tree: Option<seq<GroupNode>>)
    ensures AssertEventOwner(events, eventId, userId, lookupFails).Err? ==>
      status == AssertEventOwner(events, eventId, userId, lookupFails).error && tree.None?
    ensures AssertEventOwner(events, eventId, userId, lookupFails).Ok? && (groups.Err? || guests.Err? || answers.Err?) ==>
      status == 500 && tree.None?
    ensures status == 200 <==> AssertEventOwner(events, eventId, userId, lookupFails).Ok? && groups.Ok? && guests.Ok? && answers.Ok?
    ensures status == 200 ==> tree == Some(Tree(groups.value, guests.value, answers.value))
  {
    var own := AssertEventOwner(events, eventId, userId, lookupFails);
    if own.Err? {
      return own.error, None;
    }
    if groups.Err? || guests.Err? || answers.Err? {
      return 500, None;
    }
    var t := BuildTree(groups.value, guests.value, answers.value);
    return 200, Some(t);
  }

  // ---------------------------------------------------------------------------
  // patchPrivateGroup / patchPrivateGuest
  // ---------------------------------------------------------------------------

  const GroupFields: seq<string> := ["group_name", "contact_email", "contact_phone"]

  /** The group patch: each of the three fields present in the body (not undefined),
      as its value when truthy and NULL otherwise. */
  method BuildGroupPatch(body: Value) returns (patch: map<string, Option<string>>)
    ensures forall k :: k in patch <==> k in GroupFields && !Get(body, k).Undef?
    ensures forall k :: k in patch ==> patch[k] == TextOrNull(Get(body, k))
  {
    patch := map[];
    var groupName := Get(body, "group_name");
    var contactEmail := Get(body, "contact_email");
    var contactPhone := Get(body, "contact_phone");
    if !groupName.Undef? {
      patch := patch["group_name" := TextOrNull(groupName)];
    }
    if !contactEmail.Undef? {
      patch := patch["contact_email" := TextOrNull(contactEmail)];
    }
    if !contactPhone.Undef? {
      patch := patch["contact_phone" := TextOrNull(contactPhone)];
    }
  }

  function ApplyGroupPatch(g: Group, patch: map<string, Option<string>>): (r: Group)
    ensures r.eventId == g.eventId
    ensures r.groupName == (if "group_name" in patch then patch["group_name"] else g.groupName)
    ensures r.contactEmail == (if "contact_email" in patch then patch["contact_email"] else g.contactEmail)
    ensures r.contactPhone == (if "contact_phone" in patch then patch["contact_phone"] else g.contactPhone)
  {
    var g1 := if "group_name" in patch then g.(groupName := patch["group_name"]) else g;
    var g2 := if "contact_email" in patch then g1.(contactEmail := patch["contact_email"]) else g1;
    if "contact_phone" in patch then g2.(contactPhone := patch["contact_phone"]) else g2
  }

  /** patchPrivateGroup: owner check, 400 for a body with none of the three fields,
      500 for a failed update, 404 when no group of that event has the id. */
  method PatchPrivateGroup(db: Db, eventId: string, groupId: string, userId: string, body: Value, lookupFails: bool, updateFails: bool)
    returns (status: int)
    modifies db`groups
    ensures var own := AssertEventOwner(old(db.events), eventId, userId, lookupFails);
      && (own.Err? ==> status == own.error && db.groups == old(db.groups))
      && (own.Ok? && (forall k :: k in GroupFields ==> Get(body, k).Undef?) ==> status == 400 && db.groups == old(db.groups))
      && (status == 200 <==> own.Ok? && (exists k :: k in GroupFields && !Get(body, k).Undef?) && !updateFails
                              && groupId in old(db.groups) && old(db.groups)[groupId].eventId == eventId)
      && (status != 200 ==> db.groups == old(db.groups))
      && (status == 200 ==> db.groups.Keys == old(db.groups).Keys && forall id :: id in db.groups && id != groupId ==> db.groups[id] == old(db.groups)[id])
      && (status == 200 ==>
            var was, g := old(db.groups)[groupId], db.groups[groupId];
            && g.eventId == was.eventId
            && g.groupName == (if Get(body, "group_name").Undef? then was.groupName else TextOrNull(Get(body, "group_name")))
            && g.contactEmail == (if Get(body, "contact_email").Undef? then was.contactEmail else TextOrNull(Get(body, "contact_email")))
            && g.contactPhone == (if Get(body, "contact_phone").Undef? then was.contactPhone else TextOrNull(Get(body, "contact_phone"))))
  {
    var own := AssertEventOwner(db.events, eventId, userId, lookupFails);
    if own.Err? {
      return own.error;
    }
    var patch := BuildGroupPatch(body);
    if |patch| == 0 {
      assert forall k :: k in GroupFields ==> Get(body, k).Undef?;
      return 400;
    }
    assert "group_name" in patch || "contact_email" in patch || "contact_phone" in patch;
    if updateFails {
      return 500;
    }
    if !(groupId in db.groups && db.groups[groupId].eventId == eventId) {
      return 404;
    }
    db.groups := db.groups[groupId := ApplyGroupPatch(db.groups[groupId], patch)];
    return 200;
  }

  /** The guest patch: full_name as given, email and phone as their value when
      truthy and NULL otherwise, attending as a boolean; absent fields stay out. */
  datatype GuestPatch = GuestPatch(fullName: Option<Option<string>>, email: Option<Option<string>>, phone: Option<Option<string>>, attending: Option<bool>)

  predicate EmptyPatch(p: GuestPatch) {
    p.fullName.None? && p.email.None? && p.phone.None? && p.attending.None?
  }

  /** The guest patch of a request body. */
  function GuestPatchOf(body: Value): (patch: GuestPatch)
    ensures patch.fullName.Some? <==> !Get(body, "full_name").Undef?
    ensures patch.fullName.Some? ==> patch.fullName.value == ColumnText(Get(body, "full_name"))
    ensures patch.email.Some? <==> !Get(body, "email").Undef?
    ensures patch.email.Some? ==> patch.email.value == TextOrNull(Get(body, "email"))
    ensures patch.phone.Some? <==> !Get(body, "phone").Undef?
    ensures patch.phone.Some? ==> patch.phone.value == TextOrNull(Get(body, "phone"))
    ensures patch.attending.Some? <==> !Get(body, "attending").Undef?
    ensures patch.attending.Some? ==> patch.attending.value == Truthy(Get(body, "attending"))
  {
    GuestPatch(
      if Get(body, "full_name").Undef? then None else Some(ColumnText(Get(body, "full_name"))),
      if Get(body, "email").Undef? then None else Some(TextOrNull(Get(body, "email"))),
      if Get(body, "phone").Undef? then None else Some(TextOrNull(Get(body, "phone"))),
      if Get(body, "attending").Undef? then None else Some(Truthy(Get(body, "attending"))))
  }

  /** The handler's field-by-field construction of the patch. */
  method BuildGuestPatch(body: Value) returns (patch: GuestPatch)
    ensures patch == GuestPatchOf(body)
  {
    patch := GuestPatch(None, None, None, None);
    var fullName := Get(body, "full_name");
    var email := Get(body, "email");
    var phone := Get(body, "phone");
    var attending := Get(body, "attending");
    if !fullName.Undef? {
      patch := patch.(fullName := Some(ColumnText(fullName)));
    }
    if !email.Undef? {
      patch := patch.(email := Some(TextOrNull(email)));
    }
    if !phone.Undef? {
      patch := patch.(phone := Some(TextOrNull(phone)));
    }
    if !attending.Undef? {
      patch := patch.(attending := Some(Truthy(attending)));
    }
  }

  function ApplyGuestPatch(g: Guest, p: GuestPatch): (r: Guest)
    ensures r.eventId == g.eventId && r.groupId == g.groupId && r.emailStatus == g.emailStatus
    ensures r.fullName == (if p.fullName.Some? then p.fullName.value else g.fullName)
    ensures r.email == (if p.email.Some? then p.email.value else g.email)
    ensures r.phone == (if p.phone.Some? then p.phone.value else g.phone)
    ensures r.attending == (if p.attending.Some? then Some(p.attending.value) else g.attending)
  {
    g.(fullName := if p.fullName.Some? then p.fullName.value else g.fullName,
       email := if p.email.Some? then p.email.value else g.email,
       phone := if p.phone.Some? then p.phone.value else g.phone,
       attending := if p.attending.Some? then Some(p.attending.value) else g.attending)
  }

  /** The rows of the guest patch's answers: accepted answers of this guest, in order. */
  function PatchAnswerRows(guestId: string, answers: Value, allowed: set<string>): (rows: seq<AnswerRow>)
    requires answers.Arr?
    ensures forall r :: r in rows ==> r.guestId == guestId && r.questionId in allowed
  {
    GuestAnswerRows(guestId, answers.items, allowed)
  }

  datatype GuestFaults = GuestFaults(lookupFails: bool, guestFails: bool, updateFails: bool, questionsFail: bool, upsertFails: bool)

  /** The update patchPrivateGuest makes to a found guest, from (guests0, answers0)
      to (guests1, answers1): the column update when the patch is non-empty (a failed
      one answers 500 and changes nothing); then, for an array of answers, the upsert
      of the accepted ones under the guest's group (skipped when there is none; a
      failed question lookup or upsert, including a batch naming one question
      twice, answers 500 after the column update). */
  ghost predicate GuestUpdated(
    guests0: map<string, Guest>, answers0: map<(string, string), Answer>,
    guests1: map<string, Guest>, answers1: map<(string, string), Answer>,
    status: int, eventId: string, guestId: string, body: Value, allowed: set<string>, f: GuestFaults)
    requires guestId in guests0
  {
    var patch := GuestPatchOf(body);
    var updated := if EmptyPatch(patch) then guests0[guestId] else ApplyGuestPatch(guests0[guestId], patch);
    var answers := Get(body, "answers");
    && (!EmptyPatch(patch) && f.updateFails ==> status == 500 && guests1 == guests0 && answers1 == answers0)
    && (!(!EmptyPatch(patch) && f.updateFails) ==>
          && guests1 == guests0[guestId := updated]
          && (!answers.Arr? ==> status == 200 && answers1 == answers0)
          && (answers.Arr? && f.questionsFail ==> status == 500 && answers1 == answers0)
          && (answers.Arr? && !f.questionsFail ==>
                var rows := PatchAnswerRows(guestId, answers, allowed);
                && (|rows| == 0 ==> status == 200 && answers1 == answers0)
                && (|rows| > 0 && (f.upsertFails || !DistinctKeys(rows)) ==> status == 500 && answers1 == answers0)
                && (|rows| > 0 && !f.upsertFails && DistinctKeys(rows) ==>
                      status == 200 && answers1 == Upsert(answers0, eventId, updated.groupId, rows))))
  }

  /** patchPrivateGuest: owner check, 500/404 for the guest lookup (by id and event),
      then the update of the found guest. An empty body is a successful no-op. */
  method PatchPrivateGuest(db: Db, eventId: string, guestId: string, userId: string, body: Value, f: GuestFaults)
    returns (status: int)
    modifies db`guests, db`answers
    ensures var own := AssertEventOwner(db.events, eventId, userId, f.lookupFails);
      && (own.Err? ==> status == own.error && db.guests == old(db.guests) && db.answers == old(db.answers))
      && (own.Ok? && f.guestFails ==> status == 500 && db.guests == old(db.guests) && db.answers == old(db.answers))
      && (own.Ok? && !f.guestFails && !(guestId in old(db.guests) && old(db.guests)[guestId].eventId == eventId) ==>
            status == 404 && db.guests == old(db.guests) && db.answers == old(db.answers))
      && (own.Ok? && !f.guestFails && guestId in old(db.guests) && old(db.guests)[guestId].eventId == eventId ==>
            GuestUpdated(old(db.guests), old(db.answers), db.guests, db.answers, status, eventId, guestId, body,
                         AllowedQuestions(db.questions, eventId), f))
  {
    var own := AssertEventOwner(db.events, eventId, userId, f.lookupFails);
    if own.Err? {
      return own.error;
    }
    if f.guestFails {
      return 500;
    }
    if !(guestId in db.guests && db.guests[guestId].eventId == eventId) {
      return 404;
    }
    status := UpdateGuest(db, eventId, guestId, body, f);
  }

  /** patchPrivateGuest once the guest is found. */
  method UpdateGuest(db: Db, eventId: string, guestId: string, body: Value, f: GuestFaults)
    returns (status: int)
    requires guestId in db.guests
    modifies db`guests, db`answers
    ensures GuestUpdated(old(db.guests), old(db.answers), db.guests, db.answers, status, eventId, guestId, body,
                         AllowedQuestions(db.questions, eventId), f)
  {
    var patch := BuildGuestPatch(body);
    var updatedGuest := db.guests[guestId];
    if !EmptyPatch(patch) {
      if f.updateFails {
        return 500;
      }
      updatedGuest := ApplyGuestPatch(updatedGuest, patch);
    }
    db.guests := db.guests[guestId := updatedGuest];
    var answers := Get(body, "answers");
    if answers.Arr? {
      if f.questionsFail {
        return 500;
      }
      var allowed := AllowedQuestions(db.questions, eventId);
      var rows := PatchAnswerRows(guestId, answers, allowed);
      if |rows| > 0 {
        // the database refuses a batch that updates one row twice
        if f.upsertFails || !DistinctKeys(rows) {
          return 500;
        }
        db.answers := Upsert(db.answers, eventId, updatedGuest.groupId, rows);
      }
    }
    return 200;
  }

  /** A guest patch leaves every other guest, and the set of guests, as it was. */
  lemma {:induction false} GuestUpdateIsLocal(
    guests0: map<string, Guest>, answers0: map<(string, string), Answer>,
    guests1: map<string, Guest>, answers1: map<(string, string), Answer>,
    status: int, eventId: string, guestId: string, body: Value, allowed: set<string>, f: GuestFaults)
    requires guestId in guests0
    requires GuestUpdated(guests0, answers0, guests1, answers1, status, eventId, guestId, body, allowed, f)
    ensures guests1.Keys == guests0.Keys
    ensures forall id :: id in guests0 && id != guestId ==> guests1[id] == guests0[id]
    ensures guests1[guestId].eventId == guests0[guestId].eventId && guests1[guestId].groupId == guests0[guestId].groupId
    ensures answers1 != answers0 ==> status == 200 && Get(body, "answers").Arr?
  {
  }
}
