/** The tables the credit ledger reads and writes, held in one object whose fields
    the handlers update in place: processed checkout sessions (the purchase table's
    unique key), balances per (user, product type), events, groups, guests (with
    their insertion order), questions and stored answers. */
module Store {
  import opened Base

  /** One invitation_balances row: total_purchased and total_used. */
  datatype Balance = Balance(purchased: int, used: int)

  /** The columns of an events row that the ledger handlers read or write. */
  datatype Event = Event(userId: string, status: string, maxGuests: Option<int>, invitationType: Option<string>)

  datatype Group = Group(eventId: string, groupName: Option<string>, contactEmail: Option<string>, contactPhone: Option<string>)

  datatype Guest = Guest(
    eventId: string,
    groupId: string,
    fullName: Option<string>,
    email: Option<string>,
    phone: Option<string>,
    attending: Option<bool>,
    emailStatus: Option<string>,
    emailError: Option<string>,
    emailMessageId: Option<string>)

  /** One answer_questions row, stored under its unique key (guest_id, question_id). */
  datatype Answer = Answer(eventId: string, groupId: string, text: string)

  type BalanceKey = (string, string)

  class Db {
    var processedSessions: set<string>
    var balances: map<BalanceKey, Balance>
    var events: map<string, Event>
    var groups: map<string, Group>
    var guests: map<string, Guest>
    /** The guests table in insertion order, which is also created_at order. */
    var guestOrder: seq<string>
    /** question id -> id of the event the question belongs to. */
    var questions: map<string, string>
    var answers: map<(string, string), Answer>

    /** guestOrder lists every guest row exactly once. */
    ghost predicate Valid()
      reads this
    {
      && (forall i, j :: 0 <= i < j < |guestOrder| ==> guestOrder[i] != guestOrder[j])
      && (forall id :: id in guests <==> id in guestOrder)
    }

    constructor ()
      ensures Valid()
      ensures processedSessions == {} && balances == map[] && events == map[] && groups == map[]
      ensures guests == map[] && guestOrder == [] && questions == map[] && answers == map[]
    {
      processedSessions := {};
      balances := map[];
      events := map[];
      groups := map[];
      guests := map[];
      guestOrder := [];
      questions := map[];
      answers := map[];
    }
  }

  /** The balance row of a key as `select ... maybeSingle()` returns it. */
  function BalanceOf(balances: map<BalanceKey, Balance>, key: BalanceKey): (r: Option<Balance>)
    ensures key in balances <==> r.Some?
    ensures key in balances ==> r.value == balances[key]
  {
    if key in balances then Some(balances[key]) else None
  }
}
