/** Digits, decimal numbers and whitespace in text, as Python reads and writes them. */
module Text {
  predicate StartsWith(s: string, prefix: string) {
    |s| >= |prefix| && s[..|prefix|] == prefix
  }

  /** `s.lower()` on ASCII text. */
  function Lower(s: string): (r: string)
    ensures |r| == |s|
  {
    seq(|s|, i requires 0 <= i < |s| => LowerAscii(s[i]))
  }

  function LowerAscii(c: char): char {
    if 'A' <= c <= 'Z' then (c as int + 32) as char else c
  }

  // ----- numbers -----

  predicate IsDigit(c: char) {
    '0' <= c <= '9'
  }

  predicate AllDigits(d: string) {
    forall i | 0 <= i < |d| :: IsDigit(d[i])
  }

  /** The longest run of digits at the front. */
  function Digits(s: string): (d: string)
    ensures d <= s && AllDigits(d)
  {
    if s == "" || !IsDigit(s[0]) then "" else [s[0]] + Digits(s[1..])
  }

  lemma {:induction false} DigitsOfAppend(d: string, rest: string)
    requires AllDigits(d) && (rest == "" || !IsDigit(rest[0]))
    ensures Digits(d + rest) == d
  {
    if d == "" {
      assert d + rest == rest;
    } else {
      assert (d + rest)[1..] == d[1..] + rest;
      DigitsOfAppend(d[1..], rest);
    }
  }

  /** The number a digit string denotes. */
  function Value(d: string): nat
    requires AllDigits(d)
  {
    if d == "" then 0
    else
      var last := d[|d| - 1];
      assert IsDigit(last);
      10 * Value(d[..|d| - 1]) + (last as int - '0' as int)
  }

  /** `str(n)` for a number that is not negative. */
  function Decimal(n: nat): (d: string)
    ensures d != "" && AllDigits(d)
  {
    if n < 10 then [('0' as int + n) as char] else Decimal(n / 10) + [('0' as int + n % 10) as char]
  }

  lemma {:induction false} ValueOfDecimal(n: nat)
    ensures Value(Decimal(n)) == n
  {
    if n >= 10 {
      ValueOfDecimal(n / 10);
      var d := Decimal(n);
      assert d[..|d| - 1] == Decimal(n / 10);
    } else {
      assert Decimal(n)[..0] == "";
    }
  }

  /** `str(n)` */
  function IntText(n: int): (d: string)
    ensures forall i | 0 <= i < |d| :: d[i] == '-' || IsDigit(d[i])
  {
    if n < 0 then "-" + Decimal(-n) else Decimal(n)
  }

  // ----- whitespace -----

  /** The characters `\s` matches and `strip` removes. */
  predicate IsSpace(c: char) {
    || '\U{0009}' <= c <= '\U{000D}' || '\U{001C}' <= c <= '\U{0020}' || c == '\U{0085}' || c == '\U{00A0}'
    || c == '\U{1680}' || '\U{2000}' <= c <= '\U{200A}' || c == '\U{2028}' || c == '\U{2029}' || c == '\U{202F}'
    || c == '\U{205F}' || c == '\U{3000}'
  }

  predicate AllSpace(s: string) {
    forall i | 0 <= i < |s| :: IsSpace(s[i])
  }

  function SkipSpace(s: string): (r: string)
    ensures |r| <= |s| && (r == "" || !IsSpace(r[0]))
    ensures forall c | c in r :: c in s
  {
    if s != "" && IsSpace(s[0]) then SkipSpace(s[1..]) else s
  }

  function LeadingSpace(s: string): (space: string)
    ensures AllSpace(space) && s == space + SkipSpace(s)
  {
    if s != "" && IsSpace(s[0]) then [s[0]] + LeadingSpace(s[1..]) else ""
  }

  lemma {:induction false} SkipSpaceOfAppend(space: string, rest: string)
    requires AllSpace(space) && (rest == "" || !IsSpace(rest[0]))
    ensures SkipSpace(space + rest) == rest
  {
    if space == "" {
      assert space + rest == rest;
    } else {
      assert (space + rest)[1..] == space[1..] + rest;
      SkipSpaceOfAppend(space[1..], rest);
    }
  }

  predicate Trimmed(s: string) {
    s == "" || (!IsSpace(s[0]) && !IsSpace(s[|s| - 1]))
  }

  function DropTrailing(s: string): (r: string)
    ensures r <= s && (r == "" || !IsSpace(r[|r| - 1]))
  {
    if s != "" && IsSpace(s[|s| - 1]) then DropTrailing(s[..|s| - 1]) else s
  }

  /** `s.strip()` */
  function Strip(s: string): (r: string)
    ensures Trimmed(r) && (Trimmed(s) ==> r == s)
    ensures forall c | c in r :: c in s
  {
    DropTrailing(SkipSpace(s))
  }

  lemma {:induction false} DropTrailingSplits(s: string) returns (post: string)
    ensures s == DropTrailing(s) + post && AllSpace(post)
  {
    if s != "" && IsSpace(s[|s| - 1]) {
      var rest := DropTrailingSplits(s[..|s| - 1]);
      post := rest + [s[|s| - 1]];
      assert s == s[..|s| - 1] + [s[|s| - 1]];
    } else {
      post := "";
    }
  }

  /** Stripping takes whitespace off both ends and nothing else. */
  lemma StripTakesOnlySpace(s: string) returns (pre: string, post: string)
    ensures s == pre + (Strip(s) + post) && AllSpace(pre) && AllSpace(post) && Trimmed(Strip(s))
  {
    pre := LeadingSpace(s);
    post := DropTrailingSplits(SkipSpace(s));
  }
}
