/** Shared vocabulary: optional and fallible results, and the JavaScript string
    operations the controllers rely on (trim, toLowerCase, startsWith, split, join,
    String(n) and parseInt(s, 10)), written over `string` = `seq<char>`. */
module Base {

  datatype Option<+T> = None | Some(value: T)

  datatype Result<+T, +E> = Ok(value: T) | Err(error: E)

  // ---------------------------------------------------------------------------
  // Whitespace and trimming
  // ---------------------------------------------------------------------------

  /** The WhiteSpace and LineTerminator code points of ECMAScript: what
      String.prototype.trim strips and what the regular-expression class \s matches. */
  predicate IsJsSpace(c: char) {
    || c == '\t' || c == '\n' || c == '\U{000B}' || c == '\U{000C}' || c == '\r' || c == ' '
    || c == '\U{00A0}' || c == '\U{1680}' || ('\U{2000}' <= c <= '\U{200A}')
    || c == '\U{2028}' || c == '\U{2029}' || c == '\U{202F}' || c == '\U{205F}'
    || c == '\U{3000}' || c == '\U{FEFF}'
  }

  /** A string made of whitespace only (the empty string included): what `!s.trim()` tests. */
  predicate IsBlank(s: string) {
    forall i :: 0 <= i < |s| ==> IsJsSpace(s[i])
  }

  function TrimStart(s: string): (r: string)
    ensures |r| <= |s| && r == s[|s| - |r|..]
    ensures IsBlank(s[..|s| - |r|])
    ensures |r| > 0 ==> !IsJsSpace(r[0])
  {
    if |s| > 0 && IsJsSpace(s[0]) then
      var r := TrimStart(s[1..]);
      assert s[1..][..|s| - 1 - |r|] == s[1..|s| - |r|];
      r
    else s
  }

  function TrimEnd(s: string): (r: string)
    ensures |r| <= |s| && r == s[..|r|]
    ensures IsBlank(s[|r|..])
    ensures |r| > 0 ==> !IsJsSpace(r[|r| - 1])
  {
    if |s| > 0 && IsJsSpace(s[|s| - 1]) then
      var r := TrimEnd(s[..|s| - 1]);
      r
    else s
  }

  /** The number of leading whitespace characters that trim removes. */
  function TrimOffset(s: string): (n: nat)
    ensures n <= |s| && IsBlank(s[..n])
    ensures n < |s| ==> !IsJsSpace(s[n])
  {
    |s| - |TrimStart(s)|
  }

  /** String.prototype.trim: the result starts what follows the leading whitespace,
      only whitespace comes after it there, and it neither starts nor ends with
      whitespace. */
  function Trim(s: string): (r: string)
    ensures |r| <= |s| - TrimOffset(s) && r == s[TrimOffset(s)..][..|r|]
    ensures IsBlank(s[TrimOffset(s)..][|r|..])
    ensures |r| > 0 ==> !IsJsSpace(r[0]) && !IsJsSpace(r[|r| - 1])
    ensures r == "" <==> IsBlank(s)
  {
    TrimEmpty(s);
    TrimEnd(TrimStart(s))
  }

  lemma {:induction false} TrimEmpty(s: string)
    ensures TrimEnd(TrimStart(s)) == "" <==> IsBlank(s)
  {
    var t := TrimStart(s);
    if TrimEnd(t) == "" {
      assert IsBlank(t) by { assert t[0..] == t; }
      assert t == "";
      assert s[..|s|] == s;
    }
  }

  /** A string with no whitespace at either end is its own trim. */
  lemma {:induction false} TrimNoSpace(s: string)
    requires |s| > 0 && !IsJsSpace(s[0]) && !IsJsSpace(s[|s| - 1])
    ensures Trim(s) == s
  {
    assert TrimStart(s) == s;
    assert TrimEnd(s) == s;
  }

  // ---------------------------------------------------------------------------
  // Case and searching
  // ---------------------------------------------------------------------------

  function LowerChar(c: char): (r: char)
    ensures 'A' <= c <= 'Z' ==> r as int == c as int + 32
    ensures !('A' <= c <= 'Z') ==> r == c
  {
    if 'A' <= c <= 'Z' then (c as int + 32) as char else c
  }

  /** String.prototype.toLowerCase restricted to ASCII letters. */
  function ToLower(s: string): (r: string)
    ensures |r| == |s|
    ensures forall i :: 0 <= i < |s| ==> r[i] == LowerChar(s[i])
  {
    seq(|s|, i requires 0 <= i < |s| => LowerChar(s[i]))
  }

  predicate StartsWith(s: string, p: string) {
    |p| <= |s| && s[..|p|] == p
  }

  predicate EndsWith(s: string, p: string) {
    |p| <= |s| && s[|s| - |p|..] == p
  }

  /** `p` occurs in `s` at position `i`. */
  predicate OccursAt(s: string, p: string, i: int) {
    0 <= i && i + |p| <= |s| && s[i..i + |p|] == p
  }

  /** String.prototype.includes. */
  predicate Contains(s: string, p: string) {
    exists i | 0 <= i <= |s| - |p| :: OccursAt(s, p, i)
  }

  /** The first position at or after `k` where `p` occurs in `s`. */
  function FindFrom(s: string, p: string, k: nat): (r: Option<nat>)
    requires k <= |s|
    decreases |s| - k
    ensures r.Some? ==> k <= r.value && OccursAt(s, p, r.value)
    ensures r.Some? ==> forall j :: k <= j < r.value ==> !OccursAt(s, p, j)
    ensures r.None? ==> forall j :: k <= j ==> !OccursAt(s, p, j)
  {
    if k + |p| > |s| then None
    else if OccursAt(s, p, k) then Some(k)
    else FindFrom(s, p, k + 1)
  }

  /** String.prototype.indexOf, with None for -1. */
  function IndexOf(s: string, p: string): (r: Option<nat>)
    ensures r.Some? ==> OccursAt(s, p, r.value) && forall j :: 0 <= j < r.value ==> !OccursAt(s, p, j)
    ensures r.None? <==> !Contains(s, p)
  {
    FindFrom(s, p, 0)
  }

  // ---------------------------------------------------------------------------
  // split / join
  // ---------------------------------------------------------------------------

  /** String.prototype.split with a non-empty string separator: the pieces between
      successive non-overlapping occurrences, scanning from the left. */
  function Split(s: string, sep: string): (parts: seq<string>)
    requires |sep| > 0
    ensures |parts| >= 1
    decreases |s|
  {
    match IndexOf(s, sep)
    case None => [s]
    case Some(i) => [s[..i]] + Split(s[i + |sep|..], sep)
  }

  /** Array.prototype.join. */
  function Join(parts: seq<string>, sep: string): string {
    if |parts| == 0 then ""
    else if |parts| == 1 then parts[0]
    else parts[0] + sep + Join(parts[1..], sep)
  }

  lemma {:induction false} JoinCons(a: string, rest: seq<string>, sep: string)
    requires |rest| >= 1
    ensures Join([a] + rest, sep) == a + sep + Join(rest, sep)
  {
    assert ([a] + rest)[1..] == rest;
  }

  /** Splitting and joining back with the same separator gives the original string. */
  lemma {:induction false} JoinSplit(s: string, sep: string)
    requires |sep| > 0
    ensures Join(Split(s, sep), sep) == s
    decreases |s|
  {
    match IndexOf(s, sep)
    case None =>
    case Some(i) =>
      var rest := s[i + |sep|..];
      var tail := Split(rest, sep);
      JoinSplit(rest, sep);
      JoinCons(s[..i], tail, sep);
      assert s == s[..i] + sep + rest by {
        assert OccursAt(s, sep, i);
      }
  }

  /** No piece produced by Split contains the separator. */
  lemma {:induction false} SplitPiecesAvoidSeparator(s: string, sep: string)
    requires |sep| > 0
    ensures forall k :: 0 <= k < |Split(s, sep)| ==> !Contains(Split(s, sep)[k], sep)
    decreases |s|
  {
    match IndexOf(s, sep)
    case None =>
    case Some(i) =>
      var rest := s[i + |sep|..];
      SplitPiecesAvoidSeparator(rest, sep);
      BeforeFirstOccurrence(s, sep, i);
      assert Split(s, sep) == [s[..i]] + Split(rest, sep);
  }

  /** The text before the first occurrence of `p` does not contain `p`. */
  lemma {:induction false} BeforeFirstOccurrence(s: string, p: string, i: nat)
    requires |p| > 0 && i <= |s| && forall j :: 0 <= j < i ==> !OccursAt(s, p, j)
    ensures !Contains(s[..i], p)
  {
    forall j | 0 <= j <= i - |p|
      ensures !OccursAt(s[..i], p, j)
    {
      assert !OccursAt(s, p, j);
      if j + |p| <= i {
        assert s[..i][j..j + |p|] == s[j..j + |p|];
      }
    }
  }

  /** The first piece is the text before the first occurrence of the separator
      (the whole string when there is none). */
  lemma {:induction false} SplitHead(s: string, sep: string)
    requires |sep| > 0
    ensures IndexOf(s, sep).None? ==> Split(s, sep) == [s]
    ensures IndexOf(s, sep).Some? ==> |Split(s, sep)| >= 2 && Split(s, sep)[0] == s[..IndexOf(s, sep).value]
  {
  }

  // ---------------------------------------------------------------------------
  // Splitting at a known first occurrence
  // ---------------------------------------------------------------------------

  /** `s` has no character `c`. */
  predicate Lacks(s: string, c: char) {
    forall i :: 0 <= i < |s| ==> s[i] != c
  }

  /** indexOf finds `k` when `p` occurs at `k` and nowhere before. */
  lemma {:induction false} IndexOfIs(s: string, p: string, k: nat)
    requires OccursAt(s, p, k)
    requires forall j :: 0 <= j < k ==> !OccursAt(s, p, j)
    ensures IndexOf(s, p) == Some(k)
  {
  }

  /** When the first occurrence of `sep` in `a + sep` is the appended one, splitting
      `a + sep + rest` gives `a` and then the pieces of `rest`. */
  lemma {:induction false} SplitAt(a: string, sep: string, rest: string)
    requires |sep| > 0 && IndexOf(a + sep, sep) == Some(|a|)
    ensures Split(a + sep + rest, sep) == [a] + Split(rest, sep)
  {
    var s := a + sep + rest;
    var t := a + sep;
    assert s[..|t|] == t;
    forall j | 0 <= j < |a|
      ensures !OccursAt(s, sep, j)
    {
      assert !OccursAt(t, sep, j);
      assert s[j..j + |sep|] == t[j..j + |sep|];
    }
    assert s[|a|..|a| + |sep|] == sep;
    IndexOfIs(s, sep, |a|);
    assert s[..|a|] == a;
    assert s[|a| + |sep|..] == rest;
  }

  /** A string without `c` has its first `c` where one is appended. */
  lemma {:induction false} LacksIndex(a: string, c: char)
    requires Lacks(a, c)
    ensures IndexOf(a + [c], [c]) == Some(|a|)
  {
    var s := a + [c];
    forall j | 0 <= j < |a|
      ensures !OccursAt(s, [c], j)
    {
      assert s[j..j + 1] == [a[j]];
    }
    assert s[|a|..|a| + 1] == [c];
    IndexOfIs(s, [c], |a|);
  }

  /** A first segment without "/" splits off. */
  lemma {:induction false} SplitSlashCons(a: string, rest: string)
    requires Lacks(a, '/')
    ensures Split(a + "/" + rest, "/") == [a] + Split(rest, "/")
  {
    LacksIndex(a, '/');
    SplitAt(a, "/", rest);
  }

  /** A string without `c` is one piece when split at `c`. */
  lemma {:induction false} LacksSplit(s: string, c: char)
    requires Lacks(s, c)
    ensures Split(s, [c]) == [s]
  {
    assert !Contains(s, [c]) by {
      forall i | 0 <= i <= |s| - 1
        ensures !OccursAt(s, [c], i)
      {
        assert s[i..i + 1] == [s[i]];
      }
    }
  }

  /** Strings without `c`, joined with `c`, split back into themselves. */
  lemma {:induction false} SplitJoin(parts: seq<string>, c: char)
    requires |parts| >= 1 && forall i :: 0 <= i < |parts| ==> Lacks(parts[i], c)
    ensures Split(Join(parts, [c]), [c]) == parts
    decreases |parts|
  {
    if |parts| == 1 {
      LacksSplit(parts[0], c);
    } else {
      var rest := parts[1..];
      SplitJoin(rest, c);
      LacksIndex(parts[0], c);
      SplitAt(parts[0], [c], Join(rest, [c]));
      assert parts == [parts[0]] + rest;
    }
  }

  /** A string without the separator is one piece. */
  lemma {:induction false} NoSeparatorSplit(s: string, sep: string)
    requires |sep| > 0 && !Contains(s, sep)
    ensures Split(s, sep) == [s]
  {
  }

  /** Joining two strings without `c` gives a string without `c`. */
  lemma {:induction false} LacksConcat(a: string, b: string, c: char)
    requires Lacks(a, c) && Lacks(b, c)
    ensures Lacks(a + b, c)
  {
  }

  /** A prefix of a string without `p` has no `p` either. */
  lemma {:induction false} PrefixLacks(x: string, y: string, p: string)
    requires !Contains(x + y, p)
    ensures !Contains(x, p)
  {
    if Contains(x, p) {
      var i :| 0 <= i <= |x| - |p| && OccursAt(x, p, i);
      assert (x + y)[i..i + |p|] == x[i..i + |p|];
      assert OccursAt(x + y, p, i);
    }
  }

  // ---------------------------------------------------------------------------
  // Decimal numbers: String(n) and parseInt(s, 10)
  // ---------------------------------------------------------------------------

  predicate IsDigit(c: char) { '0' <= c <= '9' }

  function DigitChar(d: nat): (c: char)
    requires d < 10
    ensures IsDigit(c) && c as int - '0' as int == d
  {
    ('0' as int + d) as char
  }

  /** The decimal digits of `n`, most significant first, without leading zeros. */
  function NatToString(n: nat): (r: string)
    ensures |r| > 0 && forall i :: 0 <= i < |r| ==> IsDigit(r[i])
    decreases n
  {
    if n < 10 then [DigitChar(n)] else NatToString(n / 10) + [DigitChar(n % 10)]
  }

  /** String(n) for an integral number. */
  function IntToString(n: int): string {
    if n < 0 then "-" + NatToString(-n) else NatToString(n)
  }

  /** The longest prefix of `s` made of decimal digits. */
  function DigitPrefix(s: string): (r: string)
    ensures r <= s && forall i :: 0 <= i < |r| ==> IsDigit(r[i])
    ensures |r| < |s| ==> !IsDigit(s[|r|])
  {
    if |s| > 0 && IsDigit(s[0]) then [s[0]] + DigitPrefix(s[1..]) else ""
  }

  /** The value of a string of decimal digits. */
  function DigitsValue(ds: string): nat
    requires forall i :: 0 <= i < |ds| ==> IsDigit(ds[i])
  {
    if |ds| == 0 then 0
    else
      var last := ds[|ds| - 1];
      assert IsDigit(last);
      DigitsValue(ds[..|ds| - 1]) * 10 + (last as int - '0' as int)
  }

  /** parseInt(s, 10): skip leading whitespace, an optional sign, then the longest run
      of digits; None stands for NaN (no digit at all). */
  function ParseInt10(s: string): Option<int> {
    ParseSigned(TrimStart(s))
  }

  /** parseInt on text with no leading whitespace: an optional sign, then digits. */
  function ParseSigned(t: string): Option<int> {
    var neg := |t| > 0 && t[0] == '-';
    var body := if |t| > 0 && (t[0] == '-' || t[0] == '+') then t[1..] else t;
    match LeadingDigits(body)
    case None => None
    case Some(m) => Some(if neg then -(m as int) else m)
  }

  /** The value of the digits `s` starts with; None when it starts with none. */
  function LeadingDigits(s: string): Option<nat> {
    var ds := DigitPrefix(s);
    if |ds| == 0 then None else Some(DigitsValue(ds))
  }

  /** Text that does not start with whitespace is its own TrimStart. */
  lemma {:induction false} TrimStartKeeps(s: string)
    requires |s| > 0 && !IsJsSpace(s[0])
    ensures TrimStart(s) == s
  {
  }

  lemma {:induction false} DigitsOfNat(n: nat)
    ensures DigitsValue(NatToString(n)) == n
    decreases n
  {
    if n >= 10 {
      DigitsOfNat(n / 10);
      var r := NatToString(n);
      assert r[..|r| - 1] == NatToString(n / 10);
    }
  }

  lemma {:induction false} DigitPrefixOfDigits(ds: string)
    requires forall i :: 0 <= i < |ds| ==> IsDigit(ds[i])
    ensures DigitPrefix(ds) == ds
  {
    if |ds| > 0 {
      DigitPrefixOfDigits(ds[1..]);
    }
  }

  lemma {:induction false} ParseIntOfDigits(ds: string, neg: bool)
    requires |ds| > 0 && forall i :: 0 <= i < |ds| ==> IsDigit(ds[i])
    ensures ParseInt10(if neg then "-" + ds else ds) == Some(if neg then -(DigitsValue(ds) as int) else DigitsValue(ds))
  {
    LeadingDigitsOf(ds);
    SignThenDigits(neg, ds);
  }

  /** An optional minus sign followed by a digit: parseInt reads the sign and the
      digits that follow it. */
  lemma {:induction false} SignThenDigits(neg: bool, ds: string)
    requires |ds| > 0 && IsDigit(ds[0])
    ensures ParseInt10(if neg then "-" + ds else ds)
         == match LeadingDigits(ds) case None => None case Some(m) => Some(if neg then -(m as int) else m)
  {
    TrimStartKeeps(if neg then "-" + ds else ds);
    SignedDigits(neg, ds);
  }

  lemma {:induction false} SignedDigits(neg: bool, ds: string)
    requires |ds| > 0 && IsDigit(ds[0])
    ensures ParseSigned(if neg then "-" + ds else ds)
         == match LeadingDigits(ds) case None => None case Some(m) => Some(if neg then -(m as int) else m)
  {
    if neg {
      assert ("-" + ds)[1..] == ds;
    } else {
      assert ds[0] != '-' && ds[0] != '+';
    }
  }

  /** A string of digits is read whole. */
  lemma {:induction false} LeadingDigitsOf(ds: string)
    requires |ds| > 0 && forall i :: 0 <= i < |ds| ==> IsDigit(ds[i])
    ensures LeadingDigits(ds) == Some(DigitsValue(ds))
  {
    DigitPrefixOfDigits(ds);
  }

  /** parseInt(String(n), 10) gives back n. */
  lemma {:induction false} ParseIntOfString(n: int)
    ensures ParseInt10(IntToString(n)) == Some(n)
  {
    var m: nat := if n < 0 then -n else n;
    DigitsOfNat(m);
    ParseIntOfDigits(NatToString(m), n < 0);
  }
}
