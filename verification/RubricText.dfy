/** The rubric stage's text: how the configured categories are rendered into the contract and how
    the planner's validators read them back out. */
module RubricText {
  import opened Ids
  import opened Text

  // ----- rendering -----

  function Line(category: string): string {
    "- " + ("**" + (category + "**"))
  }

  function Lines(categories: seq<string>): string {
    if categories == [] then ""
    else if |categories| == 1 then Line(categories[0])
    else Line(categories[0]) + ("\n" + Lines(categories[1..]))
  }

  predicate OneLine(s: string) {
    forall i {:trigger s[i]} | 0 <= i < |s| :: s[i] != '\n'
  }

  /** A line that cannot be taken for a list item. */
  predicate Ordinary(line: string) {
    OneLine(line) && line != "" && !IsSpace(line[0]) && line[0] != '-'
  }

  const HEADER_OPENING := "Rubric categories (each scored 1-10; "

  const HEADER_MIDDLE := "gate passes when every category clears "

  function Header(minScore: int): string {
    HEADER_OPENING + (HEADER_MIDDLE + ("the threshold of " + (IntText(minScore) + "):")))
  }

  const PLACEHOLDER_OPENING := "(no rubric categories configured for "

  const PLACEHOLDER_MIDDLE := "this workspace; the planner cannot "

  const PLACEHOLDER_ENDING := "advance any rubric category and the "

  const PLACEHOLDER :=
    PLACEHOLDER_OPENING + (PLACEHOLDER_MIDDLE + (PLACEHOLDER_ENDING + "validators will fail accordingly)"))

  function SourceText(categories: seq<string>, minScore: int): string {
    if categories == [] then PLACEHOLDER else Header(minScore) + ("\n" + ("\n" + Lines(categories)))
  }

  // ----- reading back -----

  /** `\s*-\s+\*\*(?P<cat>[^*]+)\*\*` read as a description: `text` starts with such a match. */
  ghost predicate Matches(text: string, cat: string, rest: string) {
    cat != "" && '*' !in cat && exists indent, gap :: MatchesWith(text, indent, gap, cat, rest)
  }

  ghost predicate MatchesWith(text: string, indent: string, gap: string, cat: string, rest: string) {
    AllSpace(indent) && gap != "" && AllSpace(gap) && text == indent + ("-" + (gap + ("**" + (cat + ("**" + rest)))))
  }

  /** The longest stretch without a `*`. */
  function UpToStar(s: string): (r: string)
    ensures r <= s && '*' !in r
  {
    if s == "" || s[0] == '*' then "" else [s[0]] + UpToStar(s[1..])
  }

  lemma {:induction false} UpToStarOfAppend(cat: string, rest: string)
    requires '*' !in cat && rest != "" && rest[0] == '*'
    ensures UpToStar(cat + rest) == cat
  {
    if cat == "" {
      assert cat + rest == rest;
    } else {
      assert (cat + rest)[1..] == cat[1..] + rest;
      UpToStarOfAppend(cat[1..], rest);
    }
  }

  /** What follows `\s*-\s+` at the front of `s`. */
  function Bullet(s: string): (b: Option<string>)
    ensures b.Some? ==> |b.value| + 2 <= |s|
  {
    var a := SkipSpace(s);
    if a == "" || a[0] != '-' then None
    else
      var b := SkipSpace(a[1..]);
      if b == a[1..] then None else Some(b)
  }

  /** What follows `**` at the front of `s`. */
  function Stars(s: string): (b: Option<string>)
    ensures b.Some? <==> |s| >= 2 && s[0] == '*' && s[1] == '*'
    ensures b.Some? ==> s == "**" + b.value
  {
    if |s| >= 2 && s[0] == '*' && s[1] == '*' then Some(s[2..]) else None
  }

  /** A bold name at the front of `s`, with the text after it. */
  function Bold(s: string): (m: Option<(string, string)>)
    ensures m.Some? ==> |m.value.1| < |s|
  {
    var inside := Stars(s);
    if inside.None? then None
    else
      var cat := UpToStar(inside.value);
      var after := Stars(inside.value[|cat|..]);
      if cat == "" || after.None? then None else Some((cat, after.value))
  }

  /** The match at the front of `s`, with the text after it. */
  function MatchLine(s: string): (m: Option<(string, string)>)
    ensures m.Some? ==> |m.value.1| < |s|
  {
    var b := Bullet(s);
    if b.None? then None else Bold(b.value)
  }

  lemma BulletShape(s: string, indent: string, gap: string, b: string)
    requires AllSpace(indent) && gap != "" && AllSpace(gap) && (b == "" || !IsSpace(b[0]))
    requires s == indent + ("-" + (gap + b))
    ensures Bullet(s) == Some(b)
  {
    var a := "-" + (gap + b);
    SkipSpaceOfAppend(indent, a);
    assert a[1..] == gap + b;
    SkipSpaceOfAppend(gap, b);
  }

  lemma BulletSplit(s: string) returns (indent: string, gap: string)
    requires Bullet(s).Some?
    ensures AllSpace(indent) && gap != "" && AllSpace(gap) && s == indent + ("-" + (gap + Bullet(s).value))
  {
    var a := SkipSpace(s);
    indent, gap := LeadingSpace(s), LeadingSpace(a[1..]);
    DashFirst(a);
  }

  lemma DashFirst(a: string)
    requires a != "" && a[0] == '-'
    ensures a == "-" + a[1..]
  {
  }

  lemma BoldShape(b: string, cat: string, rest: string)
    ensures Bold(b) == Some((cat, rest)) <==> cat != "" && '*' !in cat && b == "**" + (cat + ("**" + rest))
  {
    if Bold(b) == Some((cat, rest)) {
      var inside := Stars(b).value;
      assert inside == cat + inside[|cat|..];
    }
    if cat != "" && '*' !in cat && b == "**" + (cat + ("**" + rest)) {
      var end := "**" + rest;
      var inside := cat + end;
      assert b[2..] == inside;
      UpToStarOfAppend(cat, end);
      assert inside[|cat|..] == end;
      assert end[2..] == rest;
    }
  }

  /** No backtracking can find another match: the scanner finds exactly what the pattern
      describes. */
  lemma MatchLineIsThePattern(s: string, cat: string, rest: string)
    ensures MatchLine(s) == Some((cat, rest)) <==> Matches(s, cat, rest)
  {
    if MatchLine(s) == Some((cat, rest)) {
      var indent, gap := BulletSplit(s);
      BoldShape(Bullet(s).value, cat, rest);
      assert MatchesWith(s, indent, gap, cat, rest);
    }
    if Matches(s, cat, rest) {
      var indent, gap :| MatchesWith(s, indent, gap, cat, rest);
      var b := "**" + (cat + ("**" + rest));
      BulletShape(s, indent, gap, b);
      BoldShape(b, cat, rest);
    }
  }

  /** `[m.group("cat").strip() for m in finditer(s)]`; `atLineStart` says whether `^` matches at
      the front of what is left. */
  function Categories(s: string, atLineStart: bool): (cats: seq<string>)
    decreases |s|
  {
    if s == "" then []
    else
      var m := if atLineStart then MatchLine(s) else None;
      if m.Some? then [Strip(m.value.0)] + Categories(m.value.1, false)
      else Categories(s[1..], s[0] == '\n')
  }

  function CategoriesFromContract(sourceText: string): seq<string> {
    Categories(sourceText, true)
  }

  // ----- they agree -----

  predicate Plain(category: string) {
    Trimmed(category) && '*' !in category
  }

  predicate AllPlain(categories: seq<string>) {
    forall i | 0 <= i < |categories| :: Plain(categories[i])
  }

  function NonEmpty(categories: seq<string>): (r: seq<string>)
    ensures forall c :: c in r <==> c in categories && c != ""
    ensures |r| <= |categories| && ("" in categories ==> |r| < |categories|)
    ensures "" !in categories ==> r == categories
  {
    if categories == [] then []
    else
      assert categories == [categories[0]] + categories[1..];
      (if categories[0] != "" then [categories[0]] else []) + NonEmpty(categories[1..])
  }

  /** Only plain names can ever be read out of a text. */
  lemma {:induction false} OnlyPlainNames(s: string, atLineStart: bool)
    ensures AllPlain(Categories(s, atLineStart))
    decreases |s|
  {
    if s != "" {
      var m := if atLineStart then MatchLine(s) else None;
      if m.Some? {
        OnlyPlainNames(m.value.1, false);
        BoldShape(Bullet(s).value, m.value.0, m.value.1);
        PlainWhenStripped(m.value.0);
        AllPlainCons(Strip(m.value.0), Categories(m.value.1, false));
      } else {
        OnlyPlainNames(s[1..], s[0] == '\n');
      }
    }
  }

  lemma AllPlainCons(c: string, others: seq<string>)
    requires Plain(c) && AllPlain(others)
    ensures AllPlain([c] + others)
  {
  }

  lemma PlainWhenStripped(c: string)
    requires '*' !in c
    ensures Plain(Strip(c))
  {
  }

  lemma {:induction false} SkipRestOfLine(line: string, rest: string)
    requires OneLine(line)
    ensures Categories(line + rest, false) == Categories(rest, false)
  {
    if line == "" {
      assert line + rest == rest;
    } else {
      assert (line + rest)[1..] == line[1..] + rest;
      SkipRestOfLine(line[1..], rest);
    }
  }

  lemma NewlineStartsLine(rest: string)
    ensures Categories("\n" + rest, false) == Categories(rest, true)
  {
    assert ("\n" + rest)[1..] == rest;
  }

  lemma BlankLineIsSkipped(rest: string)
    ensures Categories("\n" + rest, true) == Categories(rest, true)
  {
    var s := "\n" + rest;
    assert s[1..] == rest;
    assert SkipSpace(s) == SkipSpace(rest);
  }

  lemma LineMatches(c: string, rest: string)
    requires Plain(c)
    ensures Categories(Line(c) + rest, true) == (if c != "" then [c] else []) + Categories(rest, false)
  {
    var b := "**" + (c + ("**" + rest));
    LineIsBullet(c, rest, b);
    if c != "" {
      BoldShape(b, c, rest);
      MatchIsTaken(Line(c) + rest, c, rest);
    } else {
      EmptyNameIsNoMatch(b, rest);
      EmptyLineTail(rest);
      NoMatchIsStepped(Line("") + rest, " ****" + rest);
      SkipRestOfLine(" ****", rest);
    }
  }

  lemma MatchIsTaken(s: string, c: string, rest: string)
    requires MatchLine(s) == Some((c, rest)) && Trimmed(c)
    ensures Categories(s, true) == [c] + Categories(rest, false)
  {
  }

  lemma NoMatchIsStepped(s: string, tail: string)
    requires MatchLine(s).None? && s != "" && s[0] != '\n' && s[1..] == tail
    ensures Categories(s, true) == Categories(tail, false)
  {
  }

  lemma LineIsBullet(c: string, rest: string, b: string)
    requires b == "**" + (c + ("**" + rest))
    ensures Bullet(Line(c) + rest) == Some(b)
  {
    assert Line(c) + rest == "" + ("-" + (" " + b));
    BulletShape(Line(c) + rest, "", " ", b);
  }

  lemma EmptyLineTail(rest: string)
    ensures (Line("") + rest)[1..] == " ****" + rest && (Line("") + rest)[0] == '-'
  {
    assert Line("") == "-" + " ****";
  }

  lemma EmptyNameIsNoMatch(b: string, rest: string)
    requires b == "**" + ("" + ("**" + rest))
    ensures Bold(b).None?
  {
    assert b[2..] == "**" + rest;
    assert b[2..][0] == '*';
  }

  lemma {:induction false} LinesMatch(categories: seq<string>)
    requires categories != [] && AllPlain(categories)
    ensures Categories(Lines(categories), true) == NonEmpty(categories)
  {
    var c, others := categories[0], categories[1..];
    if others == [] {
      LineMatches(c, "");
      assert Line(c) + "" == Line(c);
      assert categories == [c];
    } else {
      LineMatches(c, "\n" + Lines(others));
      NewlineStartsLine(Lines(others));
      LinesMatch(others);
    }
  }

  /** An ordinary line is passed over. */
  lemma OrdinaryLineIsSkipped(line: string, rest: string)
    requires Ordinary(line)
    ensures Categories(line + rest, true) == Categories(rest, false)
  {
    var s := line + rest;
    assert s[0] == line[0];
    assert s[1..] == line[1..] + rest;
    SkipRestOfLine(line[1..], rest);
  }

  lemma OneLineConcat(a: string, b: string)
    requires OneLine(b)
    ensures OneLine(a) ==> OneLine(a + b)
    ensures Ordinary(a) ==> Ordinary(a + b)
  {
  }

  lemma HeaderPieces()
    ensures Ordinary(HEADER_OPENING) && OneLine(HEADER_MIDDLE)
  {
  }

  lemma HeaderIsOrdinary(minScore: int)
    ensures Ordinary(Header(minScore))
  {
    HeaderPieces();
    OneLineConcat(IntText(minScore), "):");
    var end := IntText(minScore) + "):";
    OneLineConcat("the threshold of ", end);
    OneLineConcat(HEADER_MIDDLE, "the threshold of " + end);
    OneLineConcat(HEADER_OPENING, HEADER_MIDDLE + ("the threshold of " + end));
  }

  lemma PlaceholderPieces()
    ensures Ordinary(PLACEHOLDER_OPENING) && OneLine(PLACEHOLDER_MIDDLE)
  {
  }

  lemma PlaceholderIsOrdinary()
    ensures Ordinary(PLACEHOLDER)
  {
    PlaceholderPieces();
    var end := PLACEHOLDER_ENDING + "validators will fail accordingly)";
    OneLineConcat(PLACEHOLDER_ENDING, "validators will fail accordingly)");
    OneLineConcat(PLACEHOLDER_MIDDLE, end);
    OneLineConcat(PLACEHOLDER_OPENING, PLACEHOLDER_MIDDLE + end);
  }

  lemma LinesBelowHeader(header: string, categories: seq<string>)
    requires Ordinary(header) && categories != [] && AllPlain(categories)
    ensures Categories(header + ("\n" + ("\n" + Lines(categories))), true) == NonEmpty(categories)
  {
    var lines := Lines(categories);
    OrdinaryLineIsSkipped(header, "\n" + ("\n" + lines));
    NewlineStartsLine("\n" + lines);
    BlankLineIsSkipped(lines);
    LinesMatch(categories);
  }

  lemma NothingOnOrdinaryLine(line: string)
    requires Ordinary(line)
    ensures Categories(line, true) == []
  {
    OrdinaryLineIsSkipped(line, "");
    assert line + "" == line;
  }

  /** Plain names come back in order, the empty ones excepted. */
  lemma PlainNamesComeBack(categories: seq<string>, minScore: int)
    requires AllPlain(categories)
    ensures CategoriesFromContract(SourceText(categories, minScore)) == NonEmpty(categories)
  {
    if categories == [] {
      PlaceholderIsOrdinary();
      NothingOnOrdinaryLine(PLACEHOLDER);
    } else {
      HeaderIsOrdinary(minScore);
      LinesBelowHeader(Header(minScore), categories);
    }
  }

  /** A category the round trip keeps: not empty, no surrounding whitespace, no `*`. */
  predicate Readable(categories: seq<string>) {
    AllPlain(categories) && "" !in categories
  }

  /** Reading the rendered text gives the configured list back, whatever the score, exactly when
      every category is readable. Newlines inside a category do no harm. */
  lemma RubricRoundTrip(categories: seq<string>, minScore: int)
    ensures CategoriesFromContract(SourceText(categories, minScore)) == categories <==> Readable(categories)
  {
    OnlyPlainNames(SourceText(categories, minScore), true);
    if AllPlain(categories) { PlainNamesComeBack(categories, minScore); }
  }
}
