/** The CSV writing of the guest export: escCsv quotes a field the way section 2 of
    RFC 4180 asks, and a record is the escaped fields joined with ",". A reader of one
    record, written from the same section of the RFC, gives the fields back. */
module Csv {
  import opened Base
  import opened JsValue

  /** The characters that force a field into quotes: `"`, ",", LF and CR. */
  predicate IsSpecial(c: char) {
    c == '"' || c == ',' || c == '\n' || c == '\r'
  }

  predicate NeedsQuotes(s: string) {
    exists i :: 0 <= i < |s| && IsSpecial(s[i])
  }

  /** Every `"` written twice. */
  function DoubleQuotes(s: string): (r: string)
    ensures |r| >= |s|
  {
    if s == "" then ""
    else (if s[0] == '"' then "\"\"" else [s[0]]) + DoubleQuotes(s[1..])
  }

  /** The text a cell holds: nothing for null and undefined, else String(value). */
  function CellText(v: Value): string {
    if IsNullish(v) then "" else ToJsString(v)
  }

  /** A text written as one field: in quotes with inner quotes doubled when it holds a
      special character, as it is otherwise. */
  function EscapeText(s: string): (r: string)
    ensures NeedsQuotes(s) ==> |r| >= 2 && r[0] == '"' && r[|r| - 1] == '"'
    ensures !NeedsQuotes(s) ==> r == s
  {
    if NeedsQuotes(s) then "\"" + DoubleQuotes(s) + "\"" else s
  }

  /** escCsv. */
  function EscCsv(v: Value): (r: string)
    ensures IsNullish(v) ==> r == ""
    ensures r == EscapeText(CellText(v))
  {
    if IsNullish(v) then "" else EscapeText(ToJsString(v))
  }

  /** `values.map(escCsv).join(",")`. */
  function Record(values: seq<Value>): string {
    Join(EscapeAll(CellTexts(values)), ",")
  }

  function CellTexts(values: seq<Value>): (r: seq<string>)
    ensures |r| == |values|
    ensures forall i :: 0 <= i < |values| ==> r[i] == CellText(values[i])
  {
    seq(|values|, i requires 0 <= i < |values| => CellText(values[i]))
  }

  function EscapeAll(texts: seq<string>): (r: seq<string>)
    ensures |r| == |texts|
    ensures forall i :: 0 <= i < |texts| ==> r[i] == EscapeText(texts[i])
  {
    seq(|texts|, i requires 0 <= i < |texts| => EscapeText(texts[i]))
  }

  // ---------------------------------------------------------------------------
  // Reading one record back (section 2 of RFC 4180)
  // ---------------------------------------------------------------------------

  /** The inside of a quoted field, read after its opening quote: `""` stands for one
      quote, a lone `"` closes the field. Yields the text and what follows the close. */
  function QuotedBody(s: string): (r: Option<(string, string)>)
    ensures r.Some? ==> |r.value.1| < |s|
    decreases |s|
  {
    if s == "" then None
    else if s[0] == '"' then
      if |s| >= 2 && s[1] == '"' then
        match QuotedBody(s[2..])
        case Some(p) => Some(("\"" + p.0, p.1))
        case None => None
      else Some(("", s[1..]))
    else
      match QuotedBody(s[1..])
      case Some(p) => Some(([s[0]] + p.0, p.1))
      case None => None
  }

  /** An unquoted field runs up to the next comma. */
  function TakeField(s: string): (r: (string, string))
    ensures r.0 + r.1 == s
    ensures forall i :: 0 <= i < |r.0| ==> r.0[i] != ','
    ensures r.1 == "" || r.1[0] == ','
  {
    if s == "" || s[0] == ',' then ("", s)
    else
      var p := TakeField(s[1..]);
      ([s[0]] + p.0, p.1)
  }

  function ReadField(s: string): (r: Option<(string, string)>)
    ensures r.Some? ==> |r.value.1| <= |s|
  {
    if |s| > 0 && s[0] == '"' then QuotedBody(s[1..])
    else Some(TakeField(s))
  }

  /** The fields of one record, None when it is not well formed. */
  function ReadRecord(s: string): Option<seq<string>>
    decreases |s|
  {
    match ReadField(s)
    case None => None
    case Some(p) =>
      if p.1 == "" then Some([p.0])
      else if p.1[0] == ',' then
        match ReadRecord(p.1[1..])
        case Some(rest) => Some([p.0] + rest)
        case None => None
      else None
  }

  lemma {:induction false} QuotedBodyOf(s: string, rest: string)
    requires rest == "" || rest[0] == ','
    ensures QuotedBody(DoubleQuotes(s) + "\"" + rest) == Some((s, rest))
    decreases |s|
  {
    var t := DoubleQuotes(s) + "\"" + rest;
    if s == "" {
      assert DoubleQuotes(s) == "";
      assert t == "\"" + rest;
      assert t[1..] == rest;
      assert |t| >= 2 ==> t[1] == ',';
    } else if s[0] == '"' {
      QuotedBodyOf(s[1..], rest);
      assert t == "\"\"" + (DoubleQuotes(s[1..]) + "\"" + rest);
      assert t[2..] == DoubleQuotes(s[1..]) + "\"" + rest;
      assert "\"" + s[1..] == s;
    } else {
      QuotedBodyOf(s[1..], rest);
      assert t == [s[0]] + (DoubleQuotes(s[1..]) + "\"" + rest);
      assert t[1..] == DoubleQuotes(s[1..]) + "\"" + rest;
      assert [s[0]] + s[1..] == s;
    }
  }

  lemma {:induction false} TakeFieldOf(s: string, rest: string)
    requires forall i :: 0 <= i < |s| ==> s[i] != ','
    requires rest == "" || rest[0] == ','
    ensures TakeField(s + rest) == (s, rest)
    decreases |s|
  {
    if s != "" {
      assert (s + rest)[1..] == s[1..] + rest;
      TakeFieldOf(s[1..], rest);
      assert [s[0]] + s[1..] == s;
    } else {
      assert s + rest == rest;
    }
  }

  /** One escaped field, followed by the end of the record or a comma, reads back as
      its text. */
  lemma {:induction false} ReadFieldOf(s: string, rest: string)
    requires rest == "" || rest[0] == ','
    ensures ReadField(EscapeText(s) + rest) == Some((s, rest))
  {
    if NeedsQuotes(s) {
      QuotedFieldOf(s, rest);
    } else {
      PlainFieldOf(s, rest);
    }
  }

  lemma {:induction false} QuotedFieldOf(s: string, rest: string)
    requires NeedsQuotes(s) && (rest == "" || rest[0] == ',')
    ensures ReadField("\"" + DoubleQuotes(s) + "\"" + rest) == Some((s, rest))
  {
    var t := "\"" + DoubleQuotes(s) + "\"" + rest;
    assert t == "\"" + (DoubleQuotes(s) + "\"" + rest);
    assert t[1..] == DoubleQuotes(s) + "\"" + rest;
    QuotedBodyOf(s, rest);
  }

  lemma {:induction false} PlainFieldOf(s: string, rest: string)
    requires !NeedsQuotes(s) && (rest == "" || rest[0] == ',')
    ensures ReadField(s + rest) == Some((s, rest))
  {
    assert forall i :: 0 <= i < |s| ==> s[i] != ',' by {
      assert forall i :: 0 <= i < |s| ==> !IsSpecial(s[i]);
    }
    if s != "" {
      assert (s + rest)[0] == s[0] && s[0] != '"' by {
        assert !IsSpecial(s[0]);
      }
    } else {
      assert s + rest == rest;
    }
    TakeFieldOf(s, rest);
  }

  /** The round trip of section 2 of RFC 4180: the record written from any texts
      reads back as exactly those texts, so it has exactly that many fields. */
  lemma {:induction false} ReadRecordOf(texts: seq<string>)
    requires |texts| >= 1
    ensures ReadRecord(Join(EscapeAll(texts), ",")) == Some(texts)
    decreases |texts|
  {
    var e := EscapeAll(texts);
    if |texts| == 1 {
      assert Join(e, ",") == EscapeText(texts[0]) + "";
      ReadFieldOf(texts[0], "");
      assert [texts[0]] == texts;
    } else {
      var tail := texts[1..];
      assert e == [e[0]] + EscapeAll(tail);
      JoinCons(e[0], EscapeAll(tail), ",");
      var after := "," + Join(EscapeAll(tail), ",");
      assert Join(e, ",") == EscapeText(texts[0]) + after;
      ReadFieldOf(texts[0], after);
      assert after[1..] == Join(EscapeAll(tail), ",");
      ReadRecordOf(tail);
      assert [texts[0]] + tail == texts;
    }
  }

  /** A record of cell values reads back as their cell texts. */
  lemma {:induction false} RecordReadsBack(values: seq<Value>)
    requires |values| >= 1
    ensures ReadRecord(Record(values)) == Some(CellTexts(values))
  {
    ReadRecordOf(CellTexts(values));
  }
}
