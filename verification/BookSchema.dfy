/** Parsing what clients say about books: trimming, blank names, ISBN patterns, and the merge
    with what the metadata gateway knows. */
module BookSchema {
  import opened Domain

  /** unicode.IsSpace */
  predicate IsSpace(c: char) {
    || '\t' <= c <= '\r' || c == ' ' || c == '\U{85}' || c == '\U{A0}' || c == '\U{1680}'
    || '\U{2000}' <= c <= '\U{200A}' || c == '\U{2028}' || c == '\U{2029}' || c == '\U{202F}'
    || c == '\U{205F}' || c == '\U{3000}'
  }

  function TrimLeft(s: string): string {
    if s != "" && IsSpace(s[0]) then TrimLeft(s[1..]) else s
  }

  function TrimRight(s: string): string {
    if s != "" && IsSpace(s[|s| - 1]) then TrimRight(s[..|s| - 1]) else s
  }

  /** strings.TrimSpace */
  function Trim(s: string): string {
    TrimRight(TrimLeft(s))
  }

  ghost predicate Tight(s: string) {
    s != "" ==> !IsSpace(s[0]) && !IsSpace(s[|s| - 1])
  }

  lemma {:induction false} TrimRightKeepsStart(s: string)
    ensures TrimRight(s) <= s
    ensures TrimRight(s) != "" ==> !IsSpace(TrimRight(s)[|TrimRight(s)| - 1])
  {
    if s != "" && IsSpace(s[|s| - 1]) { TrimRightKeepsStart(s[..|s| - 1]); }
  }

  lemma {:induction false} TrimLeftStarts(s: string)
    ensures TrimLeft(s) != "" ==> !IsSpace(TrimLeft(s)[0])
  {
    if s != "" && IsSpace(s[0]) { TrimLeftStarts(s[1..]); }
  }

  /** A trimmed string has no space at either end, and trimming it again changes nothing. */
  lemma TrimIsTight(s: string)
    ensures Tight(Trim(s)) && Trim(Trim(s)) == Trim(s)
  {
    TrimLeftStarts(s);
    TrimRightKeepsStart(TrimLeft(s));
  }

  ghost predicate AllSpaces(s: string) {
    forall i | 0 <= i < |s| :: IsSpace(s[i])
  }

  lemma {:induction false} TrimLeftDrops(s: string) returns (lead: string)
    ensures s == lead + TrimLeft(s) && AllSpaces(lead)
  {
    lead := "";
    if s != "" && IsSpace(s[0]) {
      var rest := TrimLeftDrops(s[1..]);
      lead := [s[0]] + rest;
    }
  }

  lemma {:induction false} TrimRightDrops(s: string) returns (trail: string)
    ensures s == TrimRight(s) + trail && AllSpaces(trail)
  {
    trail := "";
    if s != "" && IsSpace(s[|s| - 1]) {
      var rest := TrimRightDrops(s[..|s| - 1]);
      trail := rest + [s[|s| - 1]];
    }
  }

  /** Trimming drops spaces at both ends and nothing else. */
  lemma TrimDropsSpaces(s: string) returns (lead: string, trail: string)
    ensures s == lead + Trim(s) + trail && AllSpaces(lead) && AllSpaces(trail) && Tight(Trim(s))
  {
    lead := TrimLeftDrops(s);
    trail := TrimRightDrops(TrimLeft(s));
    TrimIsTight(s);
  }

  /** The spaces among the ASCII characters. */
  lemma AsciiSpaces(c: char)
    requires c as int < 128
    ensures IsSpace(c) <==> c in {' ', '\t', '\n', '\U{0B}', '\U{0C}', '\r'}
  {
  }

  /** trimAndFilterAuthors */
  function TrimmedNames(authors: seq<string>): seq<string> {
    if authors == [] then []
    else
      var rest, last := TrimmedNames(authors[..|authors| - 1]), Trim(authors[|authors| - 1]);
      if last == "" then rest else rest + [last]
  }

  /** One name stays, trimmed, unless it is blank; names are judged one by one and keep their
      order. */
  lemma {:induction false} NamesOneByOne(a: seq<string>, b: seq<string>)
    ensures TrimmedNames(a + b) == TrimmedNames(a) + TrimmedNames(b)
    ensures |b| == 1 ==> TrimmedNames(b) == if Trim(b[0]) == "" then [] else [Trim(b[0])]
  {
    if b == [] {
      assert a + b == a;
    } else {
      var init := b[..|b| - 1];
      NamesOneByOne(a, init);
      assert (a + b)[..|a + b| - 1] == a + init;
    }
  }

  // ---------------------------------------------------------------- ISBNs

  predicate IsDigit(c: char) { '0' <= c <= '9' }

  /** Hyphens and spaces do not count. */
  function Stripped(s: string): string {
    if s == "" then ""
    else if s[0] == '-' || s[0] == ' ' then Stripped(s[1..])
    else [s[0]] + Stripped(s[1..])
  }

  predicate LooksLikeIsbn(s: string) {
    || (|s| == 10 && (forall i | 0 <= i < 9 :: IsDigit(s[i])) && (IsDigit(s[9]) || s[9] == 'X'))
    || (|s| == 13 && (forall i | 0 <= i < 13 :: IsDigit(s[i])))
  }

  function ParseIsbn(raw: string): Option<string> {
    var trimmed := Trim(raw);
    if trimmed != "" && LooksLikeIsbn(Stripped(trimmed)) then Some(trimmed) else None
  }

  ghost predicate IsDigits(s: string) {
    forall i | 0 <= i < |s| :: s[i] in "0123456789"
  }

  /** A hyphen or space goes, any other character stays. */
  lemma StrippedFirst(c: char, s: string)
    ensures Stripped([c] + s) == (if c == '-' || c == ' ' then "" else [c]) + Stripped(s)
  {
    assert ([c] + s)[1..] == s;
  }

  /** Hyphens and spaces go, everything else stays in order. */
  lemma {:induction false} StrippedOneByOne(a: string, b: string)
    ensures Stripped(a + b) == Stripped(a) + Stripped(b)
  {
    if a == "" {
      assert a + b == b;
    } else {
      var rest := a[1..];
      StrippedOneByOne(rest, b);
      StrippedFirst(a[0], rest + b);
      StrippedFirst(a[0], rest);
      assert a + b == [a[0]] + (rest + b) && a == [a[0]] + rest;
    }
  }

  /** What parses is the trimmed input, and it parses if and only if without hyphens and spaces it is
      thirteen digits, or nine digits followed by a digit or X. */
  lemma IsbnParses(raw: string)
    ensures var bare := Stripped(Trim(raw));
      && (ParseIsbn(raw).Some? ==> ParseIsbn(raw).value == Trim(raw))
      && (ParseIsbn(raw).Some? <==>
            || (|bare| == 13 && IsDigits(bare))
            || (|bare| == 10 && IsDigits(bare[..9]) && bare[9] in "0123456789X"))
  {
    var bare := Stripped(Trim(raw));
    assert forall c: char :: IsDigit(c) <==> c in "0123456789";
    assert |bare| == 10 ==> forall i | 0 <= i < 9 :: bare[..9][i] == bare[i];
  }

  /** A parsed ISBN parses to itself: parsing it again with the rest of the book changes
      nothing. */
  lemma ParsedIsbnParses(raw: string)
    requires ParseIsbn(raw).Some?
    ensures ParseIsbn(ParseIsbn(raw).value) == ParseIsbn(raw)
  {
    TrimIsTight(raw);
  }

  // ---------------------------------------------------------------- enrichment

  /** What the metadata gateway says about an ISBN. */
  datatype Gateway = Unreachable | Unknown | Known(title: string, authors: seq<string>)

  /** The client wins on a title that is not empty; a title of spaces is not empty. */
  function MergedTitle(title: string, gateway: Gateway): string {
    if gateway.Known? && title == "" then gateway.title else title
  }

  function MergedAuthors(authors: seq<string>, gateway: Gateway): seq<string> {
    if gateway.Known? && authors == [] then gateway.authors else authors
  }
}
