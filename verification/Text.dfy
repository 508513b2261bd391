/** Python string operations the chat clients and the demo compiler rely on. */
module Text {
  /** The characters str.strip() and str.isspace() treat as white space. */
  predicate IsSpace(c: char) {
    || '\t' <= c <= '\r'
    || '\U{1C}' <= c <= ' '
    || c == '\U{85}' || c == '\U{A0}' || c == '\U{1680}'
    || '\U{2000}' <= c <= '\U{200A}'
    || c == '\U{2028}' || c == '\U{2029}' || c == '\U{202F}' || c == '\U{205F}' || c == '\U{3000}'
  }

  function LStrip(s: string): string {
    if s == "" || !IsSpace(s[0]) then s else LStrip(s[1..])
  }

  function RStrip(s: string): string {
    if s == "" || !IsSpace(s[|s| - 1]) then s else RStrip(s[..|s| - 1])
  }

  function Strip(s: string): string {
    RStrip(LStrip(s))
  }

  predicate Blank(s: string) {
    forall i :: 0 <= i < |s| ==> IsSpace(s[i])
  }

  lemma {:induction false} LStripBlank(s: string)
    ensures LStrip(s) == "" <==> Blank(s)
    ensures LStrip(s) == "" || !IsSpace(LStrip(s)[0])
  {
    if s != "" && IsSpace(s[0]) {
      LStripBlank(s[1..]);
      assert Blank(s[1..]) ==> Blank(s) by {
        if Blank(s[1..]) {
          forall i | 0 <= i < |s| ensures IsSpace(s[i]) { if i > 0 { assert s[i] == s[1..][i - 1]; } }
        }
      }
    }
  }

  lemma {:induction false} RStripKeepsHead(s: string)
    requires s != "" && !IsSpace(s[0])
    ensures RStrip(s) != "" && RStrip(s)[0] == s[0]
  {
    if IsSpace(s[|s| - 1]) { RStripKeepsHead(s[..|s| - 1]); }
  }

  /** Stripping leaves nothing exactly when everything is white space. */
  lemma StripBlank(s: string)
    ensures Strip(s) == "" <==> Blank(s)
  {
    LStripBlank(s);
    if LStrip(s) != "" { RStripKeepsHead(LStrip(s)); }
  }

  lemma {:induction false} LStripMeaning(s: string) returns (before: string)
    ensures s == before + LStrip(s) && Blank(before)
  {
    if s == "" || !IsSpace(s[0]) {
      before := "";
    } else {
      before := LStripMeaning(s[1..]);
      before := [s[0]] + before;
    }
  }

  lemma {:induction false} RStripMeaning(s: string) returns (after: string)
    ensures s == RStrip(s) + after && Blank(after)
    ensures RStrip(s) != "" ==> !IsSpace(RStrip(s)[|RStrip(s)| - 1]) && RStrip(s)[0] == s[0]
  {
    if s == "" || !IsSpace(s[|s| - 1]) {
      after := "";
    } else {
      after := RStripMeaning(s[..|s| - 1]);
      after := after + [s[|s| - 1]];
    }
  }

  /** Stripping takes white space off both ends, all of it and nothing else. */
  lemma StripMeaning(s: string) returns (before: string, after: string)
    ensures s == before + Strip(s) + after && Blank(before) && Blank(after)
    ensures Strip(s) != "" ==> !IsSpace(Strip(s)[0]) && !IsSpace(Strip(s)[|Strip(s)| - 1])
  {
    before := LStripMeaning(s);
    after := RStripMeaning(LStrip(s));
    LStripBlank(s);
    assert before + Strip(s) + after == before + (Strip(s) + after);
  }

  /** "".join(parts) */
  function Concat(parts: seq<string>): string {
    if parts == [] then "" else parts[0] + Concat(parts[1..])
  }

  lemma {:induction false} ConcatAppend(a: seq<string>, b: seq<string>)
    ensures Concat(a + b) == Concat(a) + Concat(b)
  {
    if a == [] {
      assert a + b == b;
    } else {
      assert (a + b)[1..] == a[1..] + b;
      ConcatAppend(a[1..], b);
    }
  }

  lemma ConcatOne(part: string)
    ensures Concat([part]) == part
  {
    assert [part][1..] == [];
  }

  /** "\n".join(parts) */
  function JoinLines(parts: seq<string>): string {
    if parts == [] then ""
    else if |parts| == 1 then parts[0]
    else parts[0] + "\n" + JoinLines(parts[1..])
  }

  /** Every part is there, with a newline between neighbours and nowhere else. */
  lemma {:induction false} JoinLinesAppend(a: seq<string>, part: string)
    ensures JoinLines(a + [part]) == if a == [] then part else JoinLines(a) + "\n" + part
  {
    if a == [] {
      assert a + [part] == [part];
    } else {
      assert (a + [part])[1..] == a[1..] + [part];
      JoinLinesAppend(a[1..], part);
      if |a| > 1 {
        assert JoinLines(a + [part]) == a[0] + "\n" + (JoinLines(a[1..]) + "\n" + part);
      }
    }
  }

  /** Terminal-control, zero-width and bidirectional formatting characters; tab
      and newline are kept. */
  predicate Forbidden(c: char) {
    || '\0' <= c <= '\U{08}'
    || '\U{0B}' <= c <= '\U{1F}'
    || '\U{7F}' <= c <= '\U{9F}'
    || c == '\U{061C}'
    || '\U{200B}' <= c <= '\U{200F}'
    || '\U{2028}' <= c <= '\U{202E}'
    || c == '\U{2060}'
    || '\U{2066}' <= c <= '\U{2069}'
    || c == '\U{FEFF}'
  }

  function Sanitize(s: string): (r: string)
    ensures forall i :: 0 <= i < |r| ==> !Forbidden(r[i])
    ensures (forall i :: 0 <= i < |s| ==> !Forbidden(s[i])) ==> r == s
  {
    if s == "" then ""
    else if Forbidden(s[0]) then Sanitize(s[1..])
    else [s[0]] + Sanitize(s[1..])
  }

  /** Sanitising works character by character: the forbidden ones go, the others stay, in
      order. */
  lemma {:induction false} SanitizeConcat(a: string, b: string)
    ensures Sanitize(a + b) == Sanitize(a) + Sanitize(b)
  {
    if a == "" {
      assert a + b == b;
    } else {
      assert (a + b)[0] == a[0] && (a + b)[1..] == a[1..] + b;
      SanitizeConcat(a[1..], b);
    }
  }

  lemma SanitizeOne(c: char)
    ensures Sanitize([c]) == if Forbidden(c) then "" else [c]
  {
    assert [c][1..] == "";
  }

  function Digit(d: nat): char
    requires d < 10
  {
    "0123456789"[d]
  }

  /** str(n) */
  function Decimal(n: int): string
    decreases n < 0, if n < 0 then -n else n
  {
    if n < 0 then "-" + Decimal(-n)
    else if n < 10 then [Digit(n)]
    else Decimal(n / 10) + [Digit(n % 10)]
  }

  predicate IsDigit(c: char) {
    '0' <= c <= '9'
  }

  predicate AllDigits(s: string) {
    forall i :: 0 <= i < |s| ==> IsDigit(s[i])
  }

  /** The number that a string of digits denotes in base ten. */
  function Value(s: string): nat
    requires AllDigits(s)
  {
    if s == "" then 0 else 10 * Value(s[..|s| - 1]) + (s[|s| - 1] as int - '0' as int)
  }

  lemma DigitValue(d: nat)
    requires d < 10
    ensures IsDigit(Digit(d)) && Digit(d) as int - '0' as int == d
  {
  }

  /** The numeral denotes the number, and has no leading zero. */
  lemma {:induction false} DecimalReads(n: nat)
    ensures Decimal(n) != "" && AllDigits(Decimal(n)) && Value(Decimal(n)) == n
    ensures n > 0 ==> Decimal(n)[0] != '0'
    ensures n == 0 ==> Decimal(n) == "0"
  {
    if n < 10 {
      DigitValue(n);
      assert Decimal(n)[..0] == "";
    } else {
      DecimalReads(n / 10);
      DigitValue(n % 10);
      var d := Decimal(n);
      assert d[..|d| - 1] == Decimal(n / 10);
    }
  }

  lemma DecimalNegative(n: int)
    requires n < 0
    ensures Decimal(n) == "-" + Decimal(-n)
  {
  }
}
