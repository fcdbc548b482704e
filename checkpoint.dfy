/** The checkpoint file: the last polled block number written as decimal
    text, and read back the way `readLastPolledBlock` does it: a missing or
    unreadable file, blank content or text `parseInt` rejects mean "none". */
module Checkpoint {
  import opened Types

  /** White space as `String.prototype.trim` and `parseInt` skip it: the
      ASCII controls, the byte-order mark, the line and paragraph
      separators, and the space separators of Unicode category Zs. */
  predicate IsSpace(c: char) {
    c == ' ' || c == '\t' || c == '\n' || c == '\r' || c == '\U{B}' || c == '\U{C}'
    || c == '\U{A0}' || c == '\U{FEFF}' || c == '\U{2028}' || c == '\U{2029}'
    || c == '\U{1680}' || ('\U{2000}' <= c <= '\U{200A}') || c == '\U{202F}' || c == '\U{205F}' || c == '\U{3000}'
  }

  predicate IsDigit(c: char) {
    '0' <= c <= '9'
  }

  predicate AllDigits(s: string) {
    forall i :: 0 <= i < |s| ==> IsDigit(s[i])
  }

  /** `data.trim()` is the empty string. */
  predicate Blank(s: string) {
    forall i :: 0 <= i < |s| ==> IsSpace(s[i])
  }

  function DigitChar(d: nat): (c: char)
    requires d < 10
    ensures IsDigit(c)
  {
    ('0' as int + d) as char
  }

  function DigitValue(c: char): (d: nat)
    requires IsDigit(c)
    ensures d < 10
  {
    c as int - '0' as int
  }

  /** Value of a run of decimal digits, most significant first. */
  function DigitsValue(s: string): nat
    requires AllDigits(s)
  {
    if s == [] then 0 else DigitsValue(s[..|s| - 1]) * 10 + DigitValue(s[|s| - 1])
  }

  /** The suffix left after the leading white space. */
  function SkipSpace(s: string): (t: string)
    ensures |t| <= |s| && t == s[|s| - |t|..]
    ensures t == [] || !IsSpace(t[0])
  {
    if |s| > 0 && IsSpace(s[0]) then SkipSpace(s[1..]) else s
  }

  /** The longest prefix made of decimal digits. */
  function LeadingDigits(s: string): (d: string)
    ensures |d| <= |s| && d == s[..|d|] && AllDigits(d)
    ensures |d| == |s| || !IsDigit(s[|d|])
  {
    if |s| > 0 && IsDigit(s[0]) then [s[0]] + LeadingDigits(s[1..]) else []
  }

  /** `parseInt(s, 10)`: leading white space, an optional sign, then the
      longest run of decimal digits; NaN (here None) when that run is empty.
      Precision loss above 2^53 is not modelled. */
  function ParseInt(s: string): Option<int> {
    ParseSigned(SkipSpace(s))
  }

  /** `parseInt` after the white space: an optional sign, then digits. */
  function ParseSigned(t: string): Option<int> {
    var signed := |t| > 0 && (t[0] == '-' || t[0] == '+');
    var u := if signed then t[1..] else t;
    var d := LeadingDigits(u);
    var v: int := if d == [] then 0 else DigitsValue(d);
    if d == [] then None
    else if signed && t[0] == '-' then Some(-v)
    else Some(v)
  }

  /** Decimal digits of a natural number, without leading zeros. */
  function NatDigits(n: nat): (s: string)
    ensures |s| > 0 && AllDigits(s)
    ensures DigitsValue(s) == n
    ensures s[0] != '0' || n == 0
  {
    if n < 10 then [DigitChar(n)]
    else
      var s := NatDigits(n / 10) + [DigitChar(n % 10)];
      assert s[..|s| - 1] == NatDigits(n / 10);
      s
  }

  /** `blockNumber.toString()` for an integer (block numbers are far below
      the 10^21 where JavaScript switches to exponent notation). */
  function FormatBlock(n: int): string {
    if n < 0 then "-" + NatDigits(-n) else NatDigits(n)
  }

  /** What `readLastPolledBlock` returns for the file's state (None stands
      for both a missing file and one that cannot be read). */
  function ReadCheckpoint(file: Option<string>): (r: Option<int>)
    ensures file.None? ==> r.None?
    ensures file.Some? && Blank(file.value) ==> r.None?
  {
    match file
    case None => None
    case Some(data) => if Blank(data) then None else ParseInt(data)
  }

  lemma {:induction false} LeadingDigitsOfDigits(s: string)
    requires AllDigits(s)
    ensures LeadingDigits(s) == s
  {
    if |s| > 0 {
      LeadingDigitsOfDigits(s[1..]);
    }
  }

  /** Saving block n and reading the file back gives n. */
  lemma {:induction false} WriteThenRead(n: int)
    ensures ReadCheckpoint(Some(FormatBlock(n))) == Some(n)
  {
    var m: nat := if n < 0 then -n else n;
    var digits := NatDigits(m);
    LeadingDigitsOfDigits(digits);
    var text := FormatBlock(n);
    assert !IsSpace(text[0]);
    assert !Blank(text);
    assert SkipSpace(text) == text;
    if n < 0 {
      assert text[1..] == digits;
    } else {
      assert text[0] != '-' && text[0] != '+';
    }
  }

  /** Text that has something other than white space, but no digit right
      after the white space and an optional sign, reads as "none". */
  lemma NonNumericReadsNone(data: string)
    requires !Blank(data)
    requires var t := SkipSpace(data);
             var u := if |t| > 0 && (t[0] == '-' || t[0] == '+') then t[1..] else t;
             u == [] || !IsDigit(u[0])
    ensures ReadCheckpoint(Some(data)) == None
  {
  }

  lemma {:induction false} SkipSpaceOver(ws: string, x: string)
    requires Blank(ws)
    requires x == [] || !IsSpace(x[0])
    ensures SkipSpace(ws + x) == x
  {
    if ws == [] {
      assert ws + x == x;
    } else {
      assert (ws + x)[1..] == ws[1..] + x;
      SkipSpaceOver(ws[1..], x);
    }
  }

  lemma {:induction false} LeadingDigitsOver(d: string, rest: string)
    requires AllDigits(d)
    requires rest == [] || !IsDigit(rest[0])
    ensures LeadingDigits(d + rest) == d
  {
    if d == [] {
      assert d + rest == rest;
    } else {
      assert (d + rest)[1..] == d[1..] + rest;
      LeadingDigitsOver(d[1..], rest);
    }
  }

  /** `parseInt` skips leading white space. */
  lemma ParseIntSkipsSpace(ws: string, t: string)
    requires Blank(ws)
    requires t == [] || !IsSpace(t[0])
    ensures ParseInt(ws + t) == ParseSigned(t)
  {
    SkipSpaceOver(ws, t);
  }

  /** A run of digits followed by text that does not start with a digit
      parses as the value of the digits. */
  lemma ParseSignedDigits(d: string, rest: string)
    requires d != [] && AllDigits(d)
    requires rest == [] || !IsDigit(rest[0])
    ensures ParseSigned(d + rest) == Some(DigitsValue(d))
  {
    var t := d + rest;
    assert t[0] == d[0];
    LeadingDigitsOver(d, rest);
  }

  /** White space, a run of digits, then text that does not start with a
      digit: the file reads as the value of the digits, whatever follows
      them, as `parseInt` does. */
  lemma TrailingTextIgnored(ws: string, d: string, rest: string)
    requires Blank(ws) && d != [] && AllDigits(d)
    requires rest == [] || !IsDigit(rest[0])
    ensures ReadCheckpoint(Some(ws + d + rest)) == Some(DigitsValue(d))
  {
    var t := d + rest;
    var s := ws + t;
    assert ws + d + rest == s;
    assert t[0] == d[0] && IsDigit(t[0]);
    ParseIntSkipsSpace(ws, t);
    ParseSignedDigits(d, rest);
    assert s[|ws|] == t[0];
  }

  /** An instance: " 42abc" reads as 42. */
  lemma TrailingTextExample()
    ensures ReadCheckpoint(Some(" 42abc")) == Some(42)
  {
    assert " 42abc" == " " + "42" + "abc";
    assert "42"[..1] == "4" && "4"[..0] == [];
    assert DigitsValue("42") == 42;
    TrailingTextIgnored(" ", "42", "abc");
  }

  /** Text that does not start with a number reads as "none". */
  lemma WordReadsNone()
    ensures ReadCheckpoint(Some("abc")) == None
  {
    assert !IsSpace("abc"[0]) && !Blank("abc");
    assert SkipSpace("abc") == "abc";
  }
}
