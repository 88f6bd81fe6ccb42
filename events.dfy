/** The event handlers that decide what is written: `pick` over the allow-list, the
    payload of createEvent (always a draft), the guard of patchEvent, and the pure
    helpers the guest export uses to turn raw answers into text. */
module Events {
  import opened Base
  import opened JsValue
  import opened Store

  // ---------------------------------------------------------------------------
  // pick and the allow-list
  // ---------------------------------------------------------------------------

  /** The fields an owner may set on create and patch; `status` is not among them. */
  const AllowedFields: seq<string> :=
    ["title_text", "event_date", "event_time", "location", "notes", "design_json", "max_guests", "invitation_type"]

  /** The own properties of a request body (none for anything but an object). */
  function OwnFields(obj: Value): map<string, Value> {
    if obj.Obj? then obj.fields else map[]
  }

  /** What `pick(obj, allowed)` returns. */
  function Picked(obj: Value, allowed: seq<string>): map<string, Value> {
    map k | k in OwnFields(obj) && k in allowed :: OwnFields(obj)[k]
  }

  /** pick: copy each allowed key the object owns, with its value. */
  method Pick(obj: Value, allowed: seq<string>) returns (out: map<string, Value>)
    ensures forall k :: k in out <==> k in allowed && k in OwnFields(obj)
    ensures forall k :: k in out ==> out[k] == OwnFields(obj)[k]
    ensures out == Picked(obj, allowed)
  {
    out := map[];
    var i := 0;
    while i < |allowed|
      invariant 0 <= i <= |allowed|
      invariant out == Picked(obj, allowed[..i])
    {
      var key := allowed[i];
      if key in OwnFields(obj) {
        out := out[key := OwnFields(obj)[key]];
      }
      assert allowed[..i + 1] == allowed[..i] + [key];
      i := i + 1;
    }
    assert allowed[..i] == allowed;
  }

  // ---------------------------------------------------------------------------
  // createEvent and patchEvent
  // ---------------------------------------------------------------------------

  /** The row createEvent inserts: the owner, the allowed fields of the body
      (`req.body || {}`), and status "draft" whenever the payload has none. */
  function CreatePayload(userId: string, body: Value): (p: map<string, Value>)
    ensures "user_id" in p && p["user_id"] == Str(userId)
    ensures "status" in p && p["status"] == Str("draft")
    ensures forall k :: k in p <==> k == "user_id" || k == "status" || k in Picked(Or(body, Obj(map[])), AllowedFields)
    ensures forall k :: k in Picked(Or(body, Obj(map[])), AllowedFields) ==> p[k] == Picked(Or(body, Obj(map[])), AllowedFields)[k]
  {
    var payload := map["user_id" := Str(userId)] + Picked(Or(body, Obj(map[])), AllowedFields);
    if "status" in payload then payload else payload["status" := Str("draft")]
  }

  /** How an integer column takes a JSON value: null clears it, an integer is stored,
      a string is read as a decimal integer, anything else is refused. */
  function IntColumn(v: Value): (r: Option<Option<int>>)
    ensures v.Num? ==> r == Some(Some(v.n))
    ensures IsNullish(v) ==> r == Some(None)
    ensures v.Bool? || v.Arr? || v.Obj? ==> r.None?
  {
    match v
    case Undef => Some(None)
    case Null => Some(None)
    case Num(n) => Some(Some(n))
    case Str(s) =>
      (match ParseInt10(s)
       case Some(n) => if IntToString(n) == s then Some(Some(n)) else None
       case None => None)
    case _ => None
  }

  /** An event row with the allowed fields of a patch applied to the columns this
      model keeps; None when the database refuses the max_guests value. */
  function PatchedEvent(e: Event, patch: map<string, Value>): (r: Option<Event>)
    ensures r.Some? ==> r.value.userId == e.userId && r.value.status == e.status
    ensures "max_guests" !in patch ==> r.Some? && r.value.maxGuests == e.maxGuests
    ensures "invitation_type" !in patch ==> r.Some? ==> r.value.invitationType == e.invitationType
  {
    var mg := if "max_guests" in patch then IntColumn(patch["max_guests"]) else Some(e.maxGuests);
    var it := if "invitation_type" in patch then ColumnText(patch["invitation_type"]) else e.invitationType;
    if mg.None? then None else Some(e.(maxGuests := mg.value, invitationType := it))
  }

  /** createEvent: a new event row, always a draft, owned by the caller. */
  method CreateEvent(db: Db, userId: string, body: Value, newId: string, insertFails: bool) returns (status: int)
    requires newId !in db.events
    modifies db`events
    ensures status == 201 || status == 500
    ensures status == 500 ==> db.events == old(db.events)
    ensures status == 201 ==> newId in db.events && db.events == old(db.events)[newId := db.events[newId]]
    ensures status == 201 ==> db.events[newId].userId == userId && db.events[newId].status == "draft"
    ensures status == 201 <==> !insertFails && PatchedEvent(Event(userId, "draft", None, None), CreatePayload(userId, body)).Some?
  {
    var payload := CreatePayload(userId, body);
    var row := PatchedEvent(Event(userId, "draft", None, None), payload);
    if insertFails || row.None? {
      return 500;
    }
    db.events := db.events[newId := row.value];
    status := 201;
  }

  /** patchEvent: 400 with no allowed field (nothing written), else an owner-scoped
      update of the allowed fields; status and owner never change. */
  method PatchEvent(db: Db, userId: string, id: string, body: Value, updateFails: bool) returns (status: int)
    modifies db`events
    ensures status == 400 <==> Picked(Or(body, Obj(map[])), AllowedFields) == map[]
    ensures status == 200 <==> (Picked(Or(body, Obj(map[])), AllowedFields) != map[] && !updateFails
      && id in old(db.events) && old(db.events)[id].userId == userId
      && PatchedEvent(old(db.events)[id], Picked(Or(body, Obj(map[])), AllowedFields)).Some?)
    ensures status != 200 ==> db.events == old(db.events)
    ensures status == 404 <==> (Picked(Or(body, Obj(map[])), AllowedFields) != map[] && !updateFails
      && (id !in old(db.events) || old(db.events)[id].userId != userId))
    ensures status == 200 ==> (id in old(db.events) && id in db.events && old(db.events)[id].userId == userId
      && PatchedEvent(old(db.events)[id], Picked(Or(body, Obj(map[])), AllowedFields)) == Some(db.events[id])
      && db.events == old(db.events)[id := db.events[id]])
    ensures status == 200 ==> db.events[id].status == old(db.events)[id].status
  {
    var patch := Pick(Or(body, Obj(map[])), AllowedFields);
    if patch == map[] {
      return 400;
    }
    if updateFails {
      return 500;
    }
    if id !in db.events || db.events[id].userId != userId {
      return 404;
    }
    var row := PatchedEvent(db.events[id], patch);
    if row.None? {
      return 500;
    }
    db.events := db.events[id := row.value];
    status := 200;
  }

  /** No body can move an event out of draft through patchEvent: the allow-list
      has no `status`. */
  lemma {:induction false} StatusNotAllowed(body: Value)
    ensures "status" !in Picked(Or(body, Obj(map[])), AllowedFields)
    ensures "user_id" !in Picked(Or(body, Obj(map[])), AllowedFields)
  {
  }

  // ---------------------------------------------------------------------------
  // Helpers of the guest export
  // ---------------------------------------------------------------------------

  /** normalizeAttending. */
  function NormalizeAttending(attending: Value): (r: string)
    ensures r == "SI" <==> attending == Bool(true)
    ensures r == "NO" <==> attending == Bool(false)
    ensures r == "PENDIENTE" <==> !attending.Bool?
  {
    if attending == Bool(true) then "SI"
    else if attending == Bool(false) then "NO"
    else "PENDIENTE"
  }

  /** `toOptionsMap(options).get(id)`: options with a truthy id are entered in order,
      each `label ?? id`, so the last option with that id wins. */
  function OptionLabel(options: seq<Value>, id: Value): (r: Option<Value>)
    ensures r.Some? <==> exists i :: 0 <= i < |options| && Truthy(Get(options[i], "id")) && Get(options[i], "id") == id
  {
    if |options| == 0 then None
    else
      var o := options[|options| - 1];
      if Truthy(Get(o, "id")) && Get(o, "id") == id then Some(Coalesce(Get(o, "label"), Get(o, "id")))
      else
        var r := OptionLabel(options[..|options| - 1], id);
        assert forall i :: 0 <= i < |options| - 1 ==> options[..|options| - 1][i] == options[i];
        r
  }

  /** `(options || [])` as a list of options. */
  function OptionList(options: Value): seq<Value> {
    if options.Arr? then options.items else []
  }

  /** parseMultiIds: an array as it is; a string holding a JSON array, that array;
      anything else (other types, blank text, bad JSON, JSON that is not an array)
      the empty list. `parseJson` is JSON.parse, None when it throws. */
  function ParseMultiIds(raw: Value, parseJson: string -> Option<Value>): (r: seq<Value>)
    ensures raw.Arr? ==> r == raw.items
    ensures !raw.Arr? && !raw.Str? ==> r == []
    ensures raw.Str? && IsBlank(raw.s) ==> r == []
    ensures raw.Str? && !IsBlank(raw.s) ==>
      r == (match parseJson(Trim(raw.s)) case Some(Arr(items)) => items case _ => [])
  {
    if raw.Arr? then raw.items
    else if !raw.Str? then []
    else
      var s := Trim(raw.s);
      if s == "" then []
      else
        match parseJson(s)
        case Some(Arr(items)) => items
        case _ => []
  }

  /** The labels of the ids that name a known option with a truthy label, in order:
      `ids.map(id => map.get(id)).filter(Boolean)`. */
  function KnownLabels(ids: seq<Value>, options: seq<Value>): (r: seq<Value>)
    ensures |r| <= |ids|
    ensures forall j :: 0 <= j < |r| ==> Truthy(r[j])
  {
    if |ids| == 0 then []
    else
      var rest := KnownLabels(ids[1..], options);
      match OptionLabel(options, ids[0])
      case Some(l) => if Truthy(l) then [l] + rest else rest
      case None => rest
  }

  /** The labels of one id: its option's label when that is truthy, else none. */
  function LabelOf(id: Value, options: seq<Value>): seq<Value> {
    match OptionLabel(options, id)
    case Some(l) => if Truthy(l) then [l] else []
    case None => []
  }

  /** The labels of a concatenation are those of each part in turn, and one id
      contributes LabelOf: every known truthy label is kept, in the order of the ids. */
  lemma {:induction false} KnownLabelsAppend(a: seq<Value>, b: seq<Value>, id: Value, options: seq<Value>)
    ensures KnownLabels(a + b, options) == KnownLabels(a, options) + KnownLabels(b, options)
    ensures KnownLabels([id], options) == LabelOf(id, options)
    decreases |a|
  {
    assert KnownLabels([id], options) == LabelOf(id, options) by {
      assert [id][1..] == [];
    }
    if |a| > 0 {
      assert (a + b)[0] == a[0];
      assert (a + b)[1..] == a[1..] + b;
      KnownLabelsAppend(a[1..], b, id, options);
    } else {
      assert a + b == b;
    }
  }

  lemma {:induction false} KnownLabelsOfUnknown(ids: seq<Value>, options: seq<Value>)
    requires forall i :: 0 <= i < |ids| ==> OptionLabel(options, ids[i]).None?
    ensures KnownLabels(ids, options) == []
  {
    if |ids| > 0 {
      assert forall i :: 0 <= i < |ids[1..]| ==> ids[1..][i] == ids[i + 1];
      KnownLabelsOfUnknown(ids[1..], options);
    }
  }

  lemma {:induction false} KnownLabelsOfKnown(ids: seq<Value>, options: seq<Value>)
    requires forall i :: 0 <= i < |ids| ==> OptionLabel(options, ids[i]).Some? && Truthy(OptionLabel(options, ids[i]).value)
    ensures |KnownLabels(ids, options)| == |ids|
    ensures forall i :: 0 <= i < |ids| ==> KnownLabels(ids, options)[i] == OptionLabel(options, ids[i]).value
  {
    if |ids| > 0 {
      assert forall i :: 0 <= i < |ids[1..]| ==> ids[1..][i] == ids[i + 1];
      KnownLabelsOfKnown(ids[1..], options);
    }
  }

  /** The text of an array of labels joined with ", " (labels are truthy, so each
      prints as String(label)). */
  function LabelText(labels: seq<Value>): string {
    Join(ElementStrings(Arr(labels)), ", ")
  }

  /** humanizeAnswer: single_choice gives the option's label or "", multi_choice the
      known labels joined with ", ", any other type but number the raw text ("" for
      null and undefined). `numberText` is the number branch, which formats floats. */
  function HumanizeAnswer(raw: Value, q: Value, parseJson: string -> Option<Value>, numberText: Value -> string): (r: Value)
    ensures Or(Get(q, "type"), Str("text")) == Str("single_choice") ==>
      r == (var optId := ToJsString(Or(raw, Str("")));
            if optId == "" then Str("")
            else match OptionLabel(OptionList(Get(q, "options")), Str(optId))
              case Some(l) => Or(l, Str(""))
              case None => Str(""))
    ensures Or(Get(q, "type"), Str("text")) == Str("multi_choice") ==>
      r == (var ids := ParseMultiIds(raw, parseJson);
            if |ids| == 0 then Str("") else Str(LabelText(KnownLabels(ids, OptionList(Get(q, "options"))))))
    ensures !(Or(Get(q, "type"), Str("text")) in {Str("single_choice"), Str("multi_choice"), Str("number")}) ==>
      r == Str(if IsNullish(raw) then "" else ToJsString(raw))
    ensures Or(Get(q, "type"), Str("text")) == Str("number") ==>
      r == Str(if raw == Null || raw == Undef || raw == Str("") then "" else numberText(raw))
  {
    var t := Or(Get(q, "type"), Str("text"));
    if t == Str("single_choice") then
      var optId := ToJsString(Or(raw, Str("")));
      if optId == "" then Str("")
      else
        match OptionLabel(OptionList(Get(q, "options")), Str(optId))
        case Some(l) => Or(l, Str(""))
        case None => Str("")
    else if t == Str("multi_choice") then
      var ids := ParseMultiIds(raw, parseJson);
      if |ids| == 0 then Str("")
      else Str(LabelText(KnownLabels(ids, OptionList(Get(q, "options")))))
    else if t == Str("number") then
      if raw == Null || raw == Undef || raw == Str("") then Str("") else Str(numberText(raw))
    else Str(if IsNullish(raw) then "" else ToJsString(raw))
  }

  /** A multi_choice answer naming no known option is shown as empty text. */
  lemma {:induction false} MultiChoiceOfUnknown(raw: Value, q: Value, parseJson: string -> Option<Value>, numberText: Value -> string)
    requires Get(q, "type") == Str("multi_choice")
    requires forall i :: 0 <= i < |ParseMultiIds(raw, parseJson)| ==>
      OptionLabel(OptionList(Get(q, "options")), ParseMultiIds(raw, parseJson)[i]).None?
    ensures HumanizeAnswer(raw, q, parseJson, numberText) == Str("")
  {
    KnownLabelsOfUnknown(ParseMultiIds(raw, parseJson), OptionList(Get(q, "options")));
  }

  /** A single_choice answer whose id no option has is shown as empty text; a text
      question shows the answer as it is. */
  lemma {:induction false} SingleChoiceOfUnknown(raw: string, q: Value, parseJson: string -> Option<Value>, numberText: Value -> string)
    requires Get(q, "type") == Str("single_choice")
    requires OptionLabel(OptionList(Get(q, "options")), Str(raw)).None?
    ensures HumanizeAnswer(Str(raw), q, parseJson, numberText) == Str("")
  {
  }

  // ---------------------------------------------------------------------------
  // The export file name
  // ---------------------------------------------------------------------------

  /** The characters a file-name slug keeps: [a-z0-9-_.]. */
  predicate IsSlugChar(c: char) {
    ('a' <= c <= 'z') || ('0' <= c <= '9') || c == '-' || c == '_' || c == '.'
  }

  /** `s.replace(/\s+/g, "-")`: each run of whitespace becomes one "-". */
  function DashSpaces(s: string): (r: string)
    ensures (forall i :: 0 <= i < |s| ==> !IsJsSpace(s[i])) ==> r == s
    decreases |s|
  {
    if s == "" then ""
    else if IsJsSpace(s[0]) then "-" + DashSpaces(SkipSpaces(s[1..]))
    else [s[0]] + DashSpaces(s[1..])
  }

  function SkipSpaces(s: string): (r: string)
    ensures |r| <= |s|
  {
    if s != "" && IsJsSpace(s[0]) then SkipSpaces(s[1..]) else s
  }

  /** `s.replace(/[^a-z0-9\-_.]/g, "")`. */
  function KeepSlugChars(s: string): (r: string)
    ensures forall i :: 0 <= i < |r| ==> IsSlugChar(r[i])
    ensures |r| <= |s|
    ensures (forall i :: 0 <= i < |s| ==> IsSlugChar(s[i])) ==> r == s
  {
    if s == "" then ""
    else (if IsSlugChar(s[0]) then [s[0]] else "") + KeepSlugChars(s[1..])
  }

  /** The slug of `event.title_text || "evento"`: trimmed, lower-cased, whitespace
      runs turned into "-", every other character outside [a-z0-9-_.] dropped. */
  function Slug(title: Value): (r: string)
    ensures forall i :: 0 <= i < |r| ==> IsSlugChar(r[i])
  {
    KeepSlugChars(DashSpaces(ToLower(Trim(ToJsString(Or(title, Str("evento")))))))
  }

  /** The download name: the slug, or the event id when the slug is empty. */
  function ExportFileName(title: Value, eventId: string): (r: string)
    ensures Slug(title) != "" ==> r == "invitados-" + Slug(title) + ".csv"
    ensures Slug(title) == "" ==> r == "invitados-" + eventId + ".csv"
  {
    var slug := Slug(title);
    "invitados-" + (if slug == "" then eventId else slug) + ".csv"
  }

  /** A title that is already a slug is its own slug, so the slug is idempotent. */
  lemma {:induction false} SlugOfSlug(s: string)
    requires s != "" && forall i :: 0 <= i < |s| ==> IsSlugChar(s[i])
    ensures Slug(Str(s)) == s
  {
    assert ToJsString(Or(Str(s), Str("evento"))) == s;
    SlugTextUnchanged(s);
    DashKeepOfSlug(s);
  }

  lemma {:induction false} DashKeepOfSlug(s: string)
    requires forall i :: 0 <= i < |s| ==> IsSlugChar(s[i])
    ensures KeepSlugChars(DashSpaces(s)) == s
  {
    SlugCharsNotSpace(s);
  }

  lemma {:induction false} SlugTextUnchanged(s: string)
    requires s != "" && forall i :: 0 <= i < |s| ==> IsSlugChar(s[i])
    ensures ToLower(Trim(s)) == s
  {
    SlugCharsNotSpace(s);
    TrimNoSpace(s);
    SlugCharsLower(s);
  }

  lemma {:induction false} SlugCharsNotSpace(s: string)
    requires forall i :: 0 <= i < |s| ==> IsSlugChar(s[i])
    ensures forall i :: 0 <= i < |s| ==> !IsJsSpace(s[i])
  {
    forall i | 0 <= i < |s| ensures !IsJsSpace(s[i]) {
      assert IsSlugChar(s[i]);
    }
  }

  lemma {:induction false} SlugCharsLower(s: string)
    requires forall i :: 0 <= i < |s| ==> IsSlugChar(s[i])
    ensures ToLower(s) == s
  {
    forall i | 0 <= i < |s| ensures ToLower(s)[i] == s[i] {
      assert IsSlugChar(s[i]);
    }
  }

  lemma {:induction false} SlugIdempotent(title: Value)
    requires Slug(title) != ""
    ensures Slug(Str(Slug(title))) == Slug(title)
  {
    SlugOfSlug(Slug(title));
  }
}
