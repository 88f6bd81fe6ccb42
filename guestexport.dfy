/** exportGuests: the CSV download of an event's guests. Raw answers are grouped by
    guest, each guest becomes one record of 8 fixed fields plus one per question, the
    header carries a byte-order mark, and records are joined with CRLF. The four
    owner-scoped reads are inputs (their rows, or the error they fail with). */
module GuestExport {
  import opened Base
  import opened JsValue
  import opened Csv
  import opened Events

  /** guest_id -> (question_id -> raw answer), keyed by the JSON values themselves. */
  type AnswerIndex = map<Value, map<Value, Value>>

  /** answersByGuest after the first rows: rows without a truthy guest_id are skipped,
      a later answer to the same question replaces an earlier one, and a missing
      answer is stored as "". */
  function AnswersByGuest(answers: seq<Value>): AnswerIndex {
    if |answers| == 0 then map[]
    else
      var m := AnswersByGuest(answers[..|answers| - 1]);
      var a := answers[|answers| - 1];
      var gid := Get(a, "guest_id");
      if !Truthy(gid) then m
      else
        var inner := if gid in m then m[gid] else map[];
        m[gid := inner[Get(a, "question_id") := Coalesce(Get(a, "answer"), Str(""))]]
  }

  /** A guest has an entry, never an empty one, exactly when some answer row names it. */
  lemma {:induction false} AnswersByGuestKeys(answers: seq<Value>, gid: Value)
    ensures gid in AnswersByGuest(answers) <==>
      exists i :: 0 <= i < |answers| && Truthy(Get(answers[i], "guest_id")) && Get(answers[i], "guest_id") == gid
    ensures gid in AnswersByGuest(answers) ==> |AnswersByGuest(answers)[gid]| > 0
  {
    if |answers| > 0 {
      var pre := answers[..|answers| - 1];
      AnswersByGuestKeys(pre, gid);
      assert forall i :: 0 <= i < |pre| ==> pre[i] == answers[i];
    }
  }

  /** Row `i` is the last row with a truthy guest_id that names its guest and question. */
  predicate LastOfPair(answers: seq<Value>, i: int)
    requires 0 <= i < |answers|
  {
    forall j :: i < j < |answers| && Truthy(Get(answers[j], "guest_id")) ==>
      Get(answers[j], "guest_id") != Get(answers[i], "guest_id") || Get(answers[j], "question_id") != Get(answers[i], "question_id")
  }

  /** The stored answer of a guest to a question is that of the last row for that
      pair, wherever it stands in the list. */
  lemma {:induction false} AnswersByGuestLast(answers: seq<Value>, i: int)
    requires 0 <= i < |answers| && Truthy(Get(answers[i], "guest_id")) && LastOfPair(answers, i)
    ensures Get(answers[i], "guest_id") in AnswersByGuest(answers)
    ensures Get(answers[i], "question_id") in AnswersByGuest(answers)[Get(answers[i], "guest_id")]
    ensures AnswersByGuest(answers)[Get(answers[i], "guest_id")][Get(answers[i], "question_id")]
      == Coalesce(Get(answers[i], "answer"), Str(""))
    decreases |answers|
  {
    if i < |answers| - 1 {
      var pre := answers[..|answers| - 1];
      assert pre[i] == answers[i];
      assert LastOfPair(pre, i) by {
        forall j | i < j < |pre| && Truthy(Get(pre[j], "guest_id"))
          ensures Get(pre[j], "guest_id") != Get(pre[i], "guest_id") || Get(pre[j], "question_id") != Get(pre[i], "question_id")
        {
          assert pre[j] == answers[j];
        }
      }
      AnswersByGuestLast(pre, i);
      var a := answers[|answers| - 1];
      assert !Truthy(Get(a, "guest_id")) || Get(a, "guest_id") != Get(answers[i], "guest_id") || Get(a, "question_id") != Get(answers[i], "question_id");
    }
  }

  /** The loop that fills answersByGuest. */
  method IndexAnswers(answers: seq<Value>) returns (byGuest: AnswerIndex)
    ensures byGuest == AnswersByGuest(answers)
    ensures forall g :: g in byGuest ==> Truthy(g) && |byGuest[g]| > 0
  {
    byGuest := map[];
    var i := 0;
    while i < |answers|
      invariant 0 <= i <= |answers|
      invariant byGuest == AnswersByGuest(answers[..i])
      invariant forall g :: g in byGuest ==> Truthy(g) && |byGuest[g]| > 0
    {
      var a := answers[i];
      assert answers[..i + 1][..i] == answers[..i];
      var gid := Get(a, "guest_id");
      if Truthy(gid) {
        var inner := if gid in byGuest then byGuest[gid] else map[];
        byGuest := byGuest[gid := inner[Get(a, "question_id") := Coalesce(Get(a, "answer"), Str(""))]];
      }
      i := i + 1;
    }
    assert answers[..i] == answers;
  }

  const BaseHeaders: seq<Value> :=
    [Str("full_name"), Str("email"), Str("phone"), Str("group_name"), Str("contact_email"),
     Str("contact_phone"), Str("attending"), Str("responded")]

  /** `Q: ${q.label || q.id}` for each question. */
  function QuestionHeaders(questions: seq<Value>): (r: seq<Value>)
    ensures |r| == |questions|
  {
    seq(|questions|, i requires 0 <= i < |questions| =>
      Str("Q: " + ToJsString(Or(Get(questions[i], "label"), Get(questions[i], "id")))))
  }

  /** The header line: a byte-order mark, then the escaped header fields. */
  function HeaderLine(questions: seq<Value>): string {
    "\U{FEFF}" + Record(BaseHeaders + QuestionHeaders(questions))
  }

  /** The answers of one guest (an empty index when the guest answered nothing). */
  function GuestAnswers(g: Value, byGuest: AnswerIndex): map<Value, Value> {
    if Get(g, "id") in byGuest then byGuest[Get(g, "id")] else map[]
  }

  /** A guest has responded when attending is a boolean or any answer exists. */
  predicate Responded(g: Value, byGuest: AnswerIndex) {
    Get(g, "attending") == Bool(true) || Get(g, "attending") == Bool(false) || |GuestAnswers(g, byGuest)| > 0
  }

  /** The cells of one guest: name, email, phone, the group's name and contacts (the
      embedded `groups` row, or nothing), attending, responded, then one humanized
      answer per question. */
  function GuestCells(g: Value, questions: seq<Value>, byGuest: AnswerIndex,
                      parseJson: string -> Option<Value>, numberText: Value -> string): (r: seq<Value>)
    ensures |r| == 8 + |questions|
    ensures r[6] == Str(NormalizeAttending(Get(g, "attending")))
    ensures r[7] == Str(if Responded(g, byGuest) then "SI" else "NO")
  {
    var group := Or(Get(g, "groups"), Null);
    var ga := GuestAnswers(g, byGuest);
    [ Or(Get(g, "full_name"), Str("")),
      Or(Get(g, "email"), Str("")),
      Or(Get(g, "phone"), Str("")),
      Or(Get(group, "group_name"), Str("")),
      Or(Get(group, "contact_email"), Str("")),
      Or(Get(group, "contact_phone"), Str("")),
      Str(NormalizeAttending(Get(g, "attending"))),
      Str(if Responded(g, byGuest) then "SI" else "NO") ]
    + seq(|questions|, i requires 0 <= i < |questions| =>
        var qid := Get(questions[i], "id");
        HumanizeAnswer(if qid in ga then ga[qid] else Undef, questions[i], parseJson, numberText))
  }

  /** The record of one guest. */
  function GuestLine(g: Value, questions: seq<Value>, byGuest: AnswerIndex,
                     parseJson: string -> Option<Value>, numberText: Value -> string): string {
    Record(GuestCells(g, questions, byGuest, parseJson, numberText))
  }

  /** A header followed by one line per guest, in order. */
  function Lines(header: string, guests: seq<Value>, line: Value -> string): (r: seq<string>)
    ensures |r| == 1 + |guests|
  {
    if |guests| == 0 then [header]
    else Lines(header, guests[..|guests| - 1], line) + [line(guests[|guests| - 1])]
  }

  /** Line 0 is the header and line i + 1 is the line of guest i. */
  lemma {:induction false} LinesAt(header: string, guests: seq<Value>, line: Value -> string)
    ensures Lines(header, guests, line)[0] == header
    ensures forall i :: 0 <= i < |guests| ==> Lines(header, guests, line)[i + 1] == line(guests[i])
  {
    if |guests| > 0 {
      var pre := guests[..|guests| - 1];
      LinesAt(header, pre, line);
      assert forall i :: 0 <= i < |pre| ==> pre[i] == guests[i];
    }
  }

  /** The export as lines: the header, then the record of each guest in query order. */
  function ExportLines(questions: seq<Value>, guests: seq<Value>, byGuest: AnswerIndex,
                       parseJson: string -> Option<Value>, numberText: Value -> string): seq<string> {
    Lines(HeaderLine(questions), guests, g => GuestLine(g, questions, byGuest, parseJson, numberText))
  }

  /** Every guest line reads back, per section 2 of RFC 4180, as exactly 8 + |questions|
      fields, the guest's cell texts. */
  lemma {:induction false} GuestLineFields(g: Value, questions: seq<Value>, byGuest: AnswerIndex,
                        parseJson: string -> Option<Value>, numberText: Value -> string)
    ensures var cells := GuestCells(g, questions, byGuest, parseJson, numberText);
      ReadRecord(Record(cells)) == Some(CellTexts(cells)) && |CellTexts(cells)| == 8 + |questions|
  {
    RecordReadsBack(GuestCells(g, questions, byGuest, parseJson, numberText));
  }

  /** The header reads back as the 8 fixed names and one "Q: ..." per question. */
  lemma {:induction false} HeaderFields(questions: seq<Value>)
    ensures var h := HeaderLine(questions);
      |h| > 0 && h[0] == '\U{FEFF}' && ReadRecord(h[1..]) == Some(CellTexts(BaseHeaders + QuestionHeaders(questions)))
  {
    var h := HeaderLine(questions);
    assert h[1..] == Record(BaseHeaders + QuestionHeaders(questions));
    RecordReadsBack(BaseHeaders + QuestionHeaders(questions));
  }

  /** The responded column says SI exactly when attending is a boolean or some answer
      row names the guest. */
  lemma {:induction false} RespondedColumn(g: Value, questions: seq<Value>, answers: seq<Value>,
                        parseJson: string -> Option<Value>, numberText: Value -> string)
    requires Truthy(Get(g, "id"))
    ensures GuestCells(g, questions, AnswersByGuest(answers), parseJson, numberText)[7] == Str("SI") <==>
      (Get(g, "attending").Bool?
       || exists i :: 0 <= i < |answers| && Truthy(Get(answers[i], "guest_id")) && Get(answers[i], "guest_id") == Get(g, "id"))
  {
    AnswersByGuestKeys(answers, Get(g, "id"));
  }

  /** The loop that pushes one line per guest after the header. */
  method BuildLines(questions: seq<Value>, guests: seq<Value>, byGuest: AnswerIndex,
                    parseJson: string -> Option<Value>, numberText: Value -> string) returns (lines: seq<string>)
    ensures lines == ExportLines(questions, guests, byGuest, parseJson, numberText)
  {
    var line := g => GuestLine(g, questions, byGuest, parseJson, numberText);
    lines := [HeaderLine(questions)];
    var i := 0;
    while i < |guests|
      invariant 0 <= i <= |guests|
      invariant lines == Lines(HeaderLine(questions), guests[..i], line)
    {
      assert guests[..i + 1][..i] == guests[..i];
      lines := lines + [line(guests[i])];
      i := i + 1;
    }
    assert guests[..i] == guests;
  }

  datatype ExportFile = ExportFile(fileName: string, body: string)

  /** exportGuests: 400 for a format other than csv (`String(format || "csv")`,
      lower-cased), 500 when a read fails, 404 when the caller owns no such event,
      else the file. A read that returns no rows (`data` null) counts as none. */
  method ExportGuests(format: Value, eventId: string,
                      event: Result<Option<Value>, string>, questions: Result<seq<Value>, string>,
                      guests: Result<seq<Value>, string>, answers: Result<seq<Value>, string>,
                      parseJson: string -> Option<Value>, numberText: Value -> string)
    returns (r: Result<ExportFile, int>)
    ensures ToLower(ToJsString(Or(format, Str("csv")))) != "csv" ==> r == Err(400)
    ensures ToLower(ToJsString(Or(format, Str("csv")))) == "csv" ==>
      (event.Err? ==> r == Err(500))
      && (event == Ok(None) ==> r == Err(404))
      && (event.Ok? && event.value.Some? && (questions.Err? || guests.Err? || answers.Err?) ==> r == Err(500))
    ensures r.Ok? <==> (ToLower(ToJsString(Or(format, Str("csv")))) == "csv" && event.Ok? && event.value.Some?
      && questions.Ok? && guests.Ok? && answers.Ok?)
    ensures r.Ok? ==>
      r.value.body == Join(ExportLines(questions.value, guests.value, AnswersByGuest(answers.value), parseJson, numberText), "\r\n")
      && r.value.fileName == ExportFileName(Get(event.value.value, "title_text"), eventId)
  {
    if ToLower(ToJsString(Or(format, Str("csv")))) != "csv" {
      return Err(400);
    }
    if event.Err? {
      return Err(500);
    }
    if event.value.None? {
      return Err(404);
    }
    if questions.Err? || guests.Err? || answers.Err? {
      return Err(500);
    }
    var byGuest := IndexAnswers(answers.value);
    var lines := BuildLines(questions.value, guests.value, byGuest, parseJson, numberText);
    var name := ExportFileName(Get(event.value.value, "title_text"), eventId);
    r := Ok(ExportFile(name, Join(lines, "\r\n")));
  }
}
