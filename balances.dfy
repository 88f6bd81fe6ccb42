/** The two views of a credit balance: the per-row enrichment of the balances
    endpoint (available = max(0, purchased - reserved)) and the reservation check
    script (available = purchased - sum of max_guests of the published events of
    that product, not clamped). */
module Balances {
  import opened Base
  import opened JsValue
  import opened Store

  // ---------------------------------------------------------------------------
  // toInt: Math.trunc(Number(n)) when finite, else 0
  // ---------------------------------------------------------------------------

  predicate AllDigits(s: string) {
    forall i :: 0 <= i < |s| ==> IsDigit(s[i])
  }

  /** Number(t) for a non-blank trimmed string, truncated toward zero: an optional
      sign, then UnsignedTrunc; None for anything else (NaN). */
  function DecimalTrunc(t: string): (r: Option<int>)
    requires t != ""
  {
    var neg := t[0] == '-';
    var body := if t[0] == '-' || t[0] == '+' then t[1..] else t;
    match UnsignedTrunc(body)
    case Some(m) => Some(if neg then -(m as int) else m)
    case None => None
  }

  /** Digits with an optional fraction, at least one digit in all: the integral part. */
  function UnsignedTrunc(body: string): Option<nat> {
    var ip := DigitPrefix(body);
    var rest := body[|ip|..];
    if (rest == "" && |ip| > 0) || (|rest| > 0 && rest[0] == '.' && AllDigits(rest[1..]) && (|ip| > 0 || |rest| > 1)) then
      Some(DigitsValue(ip))
    else None
  }

  /** Number(s) truncated: whitespace around it is ignored and blank text is 0. */
  function NumberOfText(s: string): (r: Option<int>)
    ensures IsBlank(s) ==> r == Some(0)
  {
    var t := Trim(s);
    if t == "" then Some(0) else DecimalTrunc(t)
  }

  /** toInt of the balances controller on integral inputs. */
  function ToInt(v: Value): (r: int)
    ensures v.Num? ==> r == v.n
    ensures IsNullish(v) ==> r == 0
    ensures v.Bool? ==> r == (if v.b then 1 else 0)
    ensures v.Str? && IsBlank(v.s) ==> r == 0
  {
    match v
    case Num(n) => n
    case Null => 0
    case Undef => 0
    case Bool(b) => if b then 1 else 0
    case _ =>
      match NumberOfText(ToJsString(v))
      case Some(n) => n
      case None => 0
  }

  /** The conversion of a string goes through its trimmed text. */
  lemma {:induction false} ToIntOfText(s: string)
    requires |s| > 0 && !IsJsSpace(s[0]) && !IsJsSpace(s[|s| - 1])
    ensures ToInt(Str(s)) == match DecimalTrunc(s) case Some(n) => n case None => 0
  {
    TrimNoSpace(s);
  }

  /** A signed run of digits followed by text that leaves its unsigned value `v`. */
  lemma {:induction false} SignedDigitsTrunc(neg: bool, ds: string, tail: string, v: nat)
    requires |ds| > 0 && AllDigits(ds)
    requires UnsignedTrunc(ds + tail) == Some(v)
    ensures DecimalTrunc(SignText(neg) + (ds + tail)) == Some(if neg then -(v as int) else v)
  {
    var body := ds + tail;
    assert body[0] == ds[0];
    SignedTrunc(neg, body);
  }

  lemma {:induction false} SignedTrunc(neg: bool, body: string)
    requires |body| > 0 && IsDigit(body[0])
    ensures DecimalTrunc(SignText(neg) + body) == match UnsignedTrunc(body) case Some(m) => Some(if neg then -(m as int) else m) case None => None
  {
    if neg { NegativeTrunc(body); } else { PositiveTrunc(body); }
  }

  /** The sign a negative number is written with. */
  function SignText(neg: bool): string {
    if neg then "-" else ""
  }

  lemma {:induction false} NegativeTrunc(body: string)
    requires |body| > 0
    ensures DecimalTrunc(SignText(true) + body) == match UnsignedTrunc(body) case Some(m) => Some(-(m as int)) case None => None
  {
    assert (SignText(true) + body)[1..] == body;
  }

  lemma {:induction false} PositiveTrunc(body: string)
    requires |body| > 0 && IsDigit(body[0])
    ensures DecimalTrunc(SignText(false) + body) == match UnsignedTrunc(body) case Some(m) => Some(m as int) case None => None
  {
    assert SignText(false) + body == body;
  }

  lemma {:induction false} UnsignedTruncOf(ds: string, tail: string)
    requires |ds| > 0 && AllDigits(ds)
    requires tail == "" || (tail[0] == '.' && AllDigits(tail[1..]))
    ensures UnsignedTrunc(ds + tail) == Some(DigitsValue(ds))
  {
    var body := ds + tail;
    if tail == "" {
      assert body == ds;
      DigitPrefixOfDigits(ds);
      assert body[|ds|..] == "";
    } else {
      DigitPrefixOfDigitsThen(ds, tail);
      assert body[|ds|..] == tail;
    }
  }

  /** A signed numeral whose unsigned part `ds + tail` has the value `v` converts to
      plus or minus `v`. */
  lemma {:induction false} ToIntOfSigned(neg: bool, ds: string, tail: string, v: nat)
    requires |ds| > 0 && AllDigits(ds)
    requires UnsignedTrunc(ds + tail) == Some(v)
    requires !IsJsSpace((ds + tail)[|ds + tail| - 1])
    ensures ToInt(Str(SignText(neg) + (ds + tail))) == if neg then -(v as int) else v
  {
    SignedDigitsTrunc(neg, ds, tail, v);
    var s := SignText(neg) + (ds + tail);
    EdgesNotSpace(neg, ds + tail);
    ToIntOfText(s);
  }

  lemma {:induction false} EdgesNotSpace(neg: bool, body: string)
    requires |body| > 0 && IsDigit(body[0]) && !IsJsSpace(body[|body| - 1])
    ensures var s := SignText(neg) + body; |s| > 0 && !IsJsSpace(s[0]) && !IsJsSpace(s[|s| - 1])
  {
    var s := SignText(neg) + body;
    assert s[|s| - 1] == body[|body| - 1];
    assert s[0] == '-' || s[0] == body[0];
  }

  /** A number written out as text converts back to itself. */
  lemma {:induction false} ToIntOfNumeral(n: int)
    ensures ToInt(Str(IntToString(n))) == n
  {
    var m: nat := if n < 0 then -n else n;
    var ds := NatToString(m);
    NumeralShape(n, m);
    DigitsOfNat(m);
    UnsignedTruncOf(ds, "");
    ToIntOfSigned(n < 0, ds, "", m);
  }

  lemma {:induction false} NumeralShape(n: int, m: nat)
    requires m == if n < 0 then -n else n
    ensures IntToString(n) == SignText(n < 0) + (NatToString(m) + "")
    ensures !IsJsSpace((NatToString(m) + "")[|NatToString(m)| - 1])
  {
    var ds := NatToString(m);
    assert ds + "" == ds;
    assert IsDigit(ds[|ds| - 1]);
  }

  /** A decimal fraction is truncated toward zero: "-12.7" is -12, "3.99" is 3. */
  lemma {:induction false} ToIntTruncates(ds: string, fs: string, neg: bool)
    requires |ds| > 0 && AllDigits(ds) && AllDigits(fs)
    ensures ToInt(Str(SignText(neg) + (ds + ("." + fs)))) == (if neg then -(DigitsValue(ds) as int) else DigitsValue(ds))
  {
    var tail := "." + fs;
    assert tail[1..] == fs;
    UnsignedTruncOf(ds, tail);
    var body := ds + tail;
    assert !IsJsSpace(body[|body| - 1]) by {
      if |fs| > 0 { assert body[|body| - 1] == fs[|fs| - 1]; } else { assert body[|body| - 1] == '.'; }
    }
    ToIntOfSigned(neg, ds, tail, DigitsValue(ds));
  }

  lemma {:induction false} DigitPrefixOfDigitsThen(ds: string, rest: string)
    requires AllDigits(ds)
    requires |rest| > 0 && !IsDigit(rest[0])
    ensures DigitPrefix(ds + rest) == ds
  {
    if |ds| > 0 {
      assert (ds + rest)[1..] == ds[1..] + rest;
      DigitPrefixOfDigitsThen(ds[1..], rest);
    } else {
      assert ds + rest == rest;
    }
  }

  /** Text that is not a number, such as "abc", converts to 0. */
  lemma {:induction false} ToIntOfWord()
    ensures ToInt(Str("abc")) == 0
  {
    var s := "abc";
    assert DigitPrefix(s) == "";
    assert UnsignedTrunc(s) == None;
    assert DecimalTrunc(s) == None;
    ToIntOfText(s);
  }

  // ---------------------------------------------------------------------------
  // getMyInvitationBalances
  // ---------------------------------------------------------------------------

  /** A selected invitation_balances row, its fields as stored. */
  datatype BalanceRow = BalanceRow(productType: string, totalPurchased: Value, totalUsed: Value, updatedAt: Value)

  /** The row as returned: the stored fields plus total_reserved and available. */
  datatype Enriched = Enriched(row: BalanceRow, totalReserved: int, available: int)

  /** The enrichment of one row given the reservation of its product type. */
  function Enrich(row: BalanceRow, reserved: int): (e: Enriched)
    ensures e.row == row && e.totalReserved == reserved
    ensures e.available >= 0
    ensures e.available >= ToInt(row.totalPurchased) - reserved
    ensures e.available == 0 || e.available == ToInt(row.totalPurchased) - reserved
  {
    var purchased := ToInt(row.totalPurchased);
    var available := if purchased - reserved > 0 then purchased - reserved else 0;
    Enriched(row, reserved, available)
  }

  /** `available` does not depend on total_used. */
  lemma {:induction false} AvailableIgnoresUsed(row: BalanceRow, used: Value, reserved: int)
    ensures Enrich(row.(totalUsed := used), reserved).available == Enrich(row, reserved).available
  {
  }

  function EnrichAll(rows: seq<BalanceRow>, reservedFor: string -> int): (r: seq<Enriched>)
    ensures |r| == |rows|
    ensures forall i :: 0 <= i < |rows| ==> r[i] == Enrich(rows[i], reservedFor(rows[i].productType))
  {
    seq(|rows|, i requires 0 <= i < |rows| => Enrich(rows[i], reservedFor(rows[i].productType)))
  }

  /** getMyInvitationBalances: 401 without a signed-in user (before any read), 500
      when the query fails, else every row enriched with the reservation of its
      product type (an input here). */
  function GetMyInvitationBalances(userId: Value, rows: Result<seq<BalanceRow>, string>, reservedFor: string -> int): (r: Result<seq<Enriched>, int>)
    ensures !Truthy(userId) ==> r == Err(401)
    ensures Truthy(userId) && rows.Err? ==> r == Err(500)
    ensures Truthy(userId) && rows.Ok? ==> r.Ok? && |r.value| == |rows.value|
    ensures r.Ok? ==> forall i :: 0 <= i < |r.value| ==> r.value[i].row == rows.value[i] && r.value[i].available >= 0
    ensures Truthy(userId) && rows.Ok? ==> r == Ok(EnrichAll(rows.value, reservedFor))
  {
    if !Truthy(userId) then Err(401)
    else if rows.Err? then Err(500)
    else Ok(EnrichAll(rows.value, reservedFor))
  }

  // ---------------------------------------------------------------------------
  // verify_balance.js
  // ---------------------------------------------------------------------------

  /** The events the script sums: the user's published events whose invitation_type
      starts with the product type, ignoring case (`ilike 'url%'`). */
  predicate Reserving(e: Event, userId: string, productType: string) {
    && e.userId == userId
    && e.status == "published"
    && e.invitationType.Some?
    && StartsWith(ToLower(e.invitationType.value), ToLower(productType))
  }

  /** `Number(ev.max_guests) || 0`. */
  function MaxGuests(e: Event): int {
    if e.maxGuests.Some? then e.maxGuests.value else 0
  }

  /** The reservation: the sum of max_guests over the reserving events. */
  function Reservation(events: seq<Event>, userId: string, productType: string): int {
    if |events| == 0 then 0
    else
      var e := events[|events| - 1];
      Reservation(events[..|events| - 1], userId, productType) + (if Reserving(e, userId, productType) then MaxGuests(e) else 0)
  }

  /** The reservation adds up over a concatenation of event lists, as `reduce` does. */
  lemma {:induction false} ReservationAppend(a: seq<Event>, b: seq<Event>, userId: string, productType: string)
    ensures Reservation(a + b, userId, productType) == Reservation(a, userId, productType) + Reservation(b, userId, productType)
    decreases |b|
  {
    if |b| > 0 {
      assert (a + b)[..|a + b| - 1] == a + b[..|b| - 1];
      ReservationAppend(a, b[..|b| - 1], userId, productType);
    } else {
      assert a + b == a;
    }
  }

  /** With no negative capacity stored, the reservation is never negative; an event
      that is not reserving contributes nothing. */
  lemma {:induction false} ReservationNonNegative(events: seq<Event>, userId: string, productType: string)
    requires forall i :: 0 <= i < |events| ==> events[i].maxGuests.Some? ==> events[i].maxGuests.value >= 0
    ensures Reservation(events, userId, productType) >= 0
  {
    if |events| > 0 {
      var pre := events[..|events| - 1];
      assert forall i :: 0 <= i < |pre| ==> pre[i] == events[i];
      ReservationNonNegative(pre, userId, productType);
    }
  }

  /** Only reserving events count: dropping the others leaves the sum unchanged. */
  lemma {:induction false} ReservationOfOthers(events: seq<Event>, userId: string, productType: string)
    requires forall i :: 0 <= i < |events| ==> !Reserving(events[i], userId, productType)
    ensures Reservation(events, userId, productType) == 0
  {
    if |events| > 0 {
      var pre := events[..|events| - 1];
      assert forall i :: 0 <= i < |pre| ==> pre[i] == events[i];
      ReservationOfOthers(pre, userId, productType);
    }
  }

  /** The script's availability: `(total_purchased || 0) - reserved`, not clamped. */
  function ScriptAvailable(balance: Option<Balance>, reserved: int): (a: int)
    ensures balance.None? ==> a == -reserved
    ensures balance.Some? ==> a == balance.value.purchased - reserved
  {
    var purchased := if balance.Some? then balance.value.purchased else 0;
    purchased - reserved
  }

  /** The endpoint's figure is the script's figure clamped at 0, for the same
      purchased count and reservation. */
  lemma {:induction false} ClampedIsScriptClamped(row: BalanceRow, b: Balance, reserved: int)
    requires ToInt(row.totalPurchased) == b.purchased
    ensures Enrich(row, reserved).available == (if ScriptAvailable(Some(b), reserved) > 0 then ScriptAvailable(Some(b), reserved) else 0)
  {
  }

  /** The script's figure goes negative once published capacity exceeds the purchase. */
  lemma {:induction false} ScriptCanGoNegative()
    ensures ScriptAvailable(Some(Balance(10, 0)), Reservation([Event("u", "published", Some(15), Some("url"))], "u", "url")) == -5
  {
    var e := Event("u", "published", Some(15), Some("url"));
    assert ToLower("url") == "url";
    assert Reserving(e, "u", "url");
    assert [e][..0] == [];
  }
}
