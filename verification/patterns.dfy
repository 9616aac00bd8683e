/** The regular expressions the validators pass to `String.matches`, written out
    as predicates over characters. `matches` must consume the whole string, so
    each predicate constrains the string from its first to its last character.
    Character classes are the ASCII ones of java.util.regex without flags. */
module Patterns {

  predicate IsAsciiLetter(c: char) { 'a' <= c <= 'z' || 'A' <= c <= 'Z' }

  predicate IsAsciiDigit(c: char) { '0' <= c <= '9' }

  /** The characters an unescaped `.` does not match (no DOTALL flag). */
  predicate IsLineTerminator(c: char)
  {
    c == '\n' || c == '\r' || c == '\U{85}' || c == '\U{2028}' || c == '\U{2029}'
  }

  /** One position of a fixed-length pattern: `[a-zA-Z]`, `[0-9]`, a literal
      character, or an unescaped `.`. */
  datatype CharClass = Letter | Digit | Exactly(c: char) | AnyChar

  predicate Admits(k: CharClass, c: char)
  {
    match k
    case Letter => IsAsciiLetter(c)
    case Digit => IsAsciiDigit(c)
    case Exactly(x) => c == x
    case AnyChar => !IsLineTerminator(c)
  }

  /** `s` matches the anchored pattern whose positions are `shape`. */
  predicate MatchesShape(s: string, shape: seq<CharClass>)
  {
    |s| == |shape| && forall i :: 0 <= i < |s| ==> Admits(shape[i], s[i])
  }

  /** ^[0-9]{3}-[0-9]{2}-[0-9]{4}$ */
  const SsnShape: seq<CharClass> :=
    [Digit, Digit, Digit, Exactly('-'), Digit, Digit, Exactly('-'), Digit, Digit, Digit, Digit]

  /** ^[a-zA-Z]{2}$ */
  const StateCodeShape: seq<CharClass> := [Letter, Letter]

  /** ^[0-9]{5}$ */
  const ZipShape: seq<CharClass> := [Digit, Digit, Digit, Digit, Digit]

  /** ^[0-9]{5}-[0-9]{4}$ */
  const ZipPlusFourShape: seq<CharClass> :=
    [Digit, Digit, Digit, Digit, Digit, Exactly('-'), Digit, Digit, Digit, Digit]

  /** ^[a-zA-Z][0-9][a-zA-Z] [0-9][a-zA-Z][0-9]$ */
  const VisitCodeShape: seq<CharClass> :=
    [Letter, Digit, Letter, Exactly(' '), Digit, Letter, Digit]

  /** ^[0-9]{3}.[0-9]{3}.[0-9]{3}-[0-9]{2}$ -- the dots are not escaped, so
      they stand for any character but a line terminator. */
  const BillingCodeShape: seq<CharClass> :=
    [Digit, Digit, Digit, AnyChar, Digit, Digit, Digit, AnyChar,
     Digit, Digit, Digit, Exactly('-'), Digit, Digit]

  /** ^[a-zA-Z][0-9]{2}$ */
  const Icd10Shape: seq<CharClass> := [Letter, Digit, Digit]

  predicate SsnPattern(s: string) { MatchesShape(s, SsnShape) }

  predicate StateCodePattern(s: string) { MatchesShape(s, StateCodeShape) }

  predicate VisitCodePattern(s: string) { MatchesShape(s, VisitCodeShape) }

  predicate BillingCodePattern(s: string) { MatchesShape(s, BillingCodeShape) }

  predicate Icd10Pattern(s: string) { MatchesShape(s, Icd10Shape) }

  /** ^[a-zA-Z'-]+$ */
  predicate NamePattern(s: string)
  {
    |s| > 0 && forall i :: 0 <= i < |s| ==> IsAsciiLetter(s[i]) || s[i] == '\'' || s[i] == '-'
  }

  predicate AllAlphanumeric(s: string)
  {
    forall i :: 0 <= i < |s| ==> IsAsciiLetter(s[i]) || IsAsciiDigit(s[i])
  }

  predicate AllLetters(s: string)
  {
    forall i :: 0 <= i < |s| ==> IsAsciiLetter(s[i])
  }

  /** The position of the first `c` in `s`, or `|s|` when there is none. */
  function IndexOf(s: string, c: char): (i: nat)
    ensures i <= |s|
    ensures i < |s| ==> s[i] == c
    ensures forall j :: 0 <= j < i ==> s[j] != c
  {
    if |s| == 0 then 0
    else if s[0] == c then 0
    else 1 + IndexOf(s[1..], c)
  }

  /** ^[a-zA-Z0-9]+@[a-zA-Z]+\.[a-zA-Z]+$, decided by locating the first '@'
      and, after it, the first '.'. */
  predicate EmailPattern(s: string)
  {
    var at := IndexOf(s, '@');
    0 < at < |s| && AllAlphanumeric(s[..at]) &&
    var domain := s[at + 1..];
    var dot := IndexOf(domain, '.');
    0 < dot && dot + 1 < |domain| && AllLetters(domain[..dot]) && AllLetters(domain[dot + 1..])
  }

  /** The same regular expression read as a decomposition: a non-empty
      alphanumeric run, '@', a non-empty run of letters, '.', and a non-empty
      run of letters. */
  ghost predicate EmailShape(s: string)
  {
    exists at, dot ::
      0 < at && at + 1 < dot && dot + 1 < |s| && s[at] == '@' && s[dot] == '.' &&
      AllAlphanumeric(s[..at]) && AllLetters(s[at + 1..dot]) && AllLetters(s[dot + 1..])
  }

  /** `IndexOf` finds the first occurrence: a `c` at `a` with none before it is the one. */
  lemma IndexOfFirst(s: string, c: char, a: nat)
    requires a < |s| && s[a] == c
    requires forall j :: 0 <= j < a ==> s[j] != c
    ensures IndexOf(s, c) == a
  {
  }

  lemma EmailPatternToShape(s: string)
    requires EmailPattern(s)
    ensures EmailShape(s)
  {
    var at := IndexOf(s, '@');
    var domain := s[at + 1..];
    var dot := IndexOf(domain, '.');
    var d := at + 1 + dot;
    assert s[d] == '.';
    assert s[at + 1..d] == domain[..dot];
    assert s[d + 1..] == domain[dot + 1..];
  }

  lemma EmailShapeToPattern(s: string, a: nat, d: nat)
    requires 0 < a && a + 1 < d && d + 1 < |s| && s[a] == '@' && s[d] == '.'
    requires AllAlphanumeric(s[..a]) && AllLetters(s[a + 1..d]) && AllLetters(s[d + 1..])
    ensures EmailPattern(s)
  {
    // No '@' before position a: those characters are alphanumeric.
    assert forall j :: 0 <= j < a ==> s[..a][j] == s[j];
    IndexOfFirst(s, '@', a);
    var domain := s[a + 1..];
    var dot := d - a - 1;
    // No '.' before position d: those characters are letters.
    assert forall j :: 0 <= j < dot ==> domain[j] == s[a + 1..d][j];
    IndexOfFirst(domain, '.', dot);
    assert domain[..dot] == s[a + 1..d];
    assert domain[dot + 1..] == s[d + 1..];
  }

  /** The scanning matcher accepts exactly the strings of the regular expression. */
  lemma EmailPatternIsShape(s: string)
    ensures EmailPattern(s) <==> EmailShape(s)
  {
    if EmailPattern(s) {
      EmailPatternToShape(s);
    }
    if EmailShape(s) {
      var a, d :| 0 < a && a + 1 < d && d + 1 < |s| && s[a] == '@' && s[d] == '.' &&
        AllAlphanumeric(s[..a]) && AllLetters(s[a + 1..d]) && AllLetters(s[d + 1..]);
      EmailShapeToPattern(s, a, d);
    }
  }

  /** The unescaped dots of the billing-code pattern accept any character but
      a line terminator, not only '.': "123x456y789-10" passes, a newline in
      either place fails, and a '.' in place of the '-' fails. */
  lemma BillingCodeSeparators()
    ensures BillingCodePattern("123.456.789-10")
    ensures BillingCodePattern("123x456y789-10")
    ensures !BillingCodePattern("123\n456.789-10")
    ensures !BillingCodePattern("123.456.789.10")
    ensures !BillingCodePattern("123.456.789-1")
  {
    assert !Admits(BillingCodeShape[3], "123\n456.789-10"[3]);
    assert !Admits(BillingCodeShape[11], "123.456.789.10"[11]);
  }

  /** ICD-10 codes are exactly one letter and two digits. */
  lemma Icd10Examples()
    ensures Icd10Pattern("A12")
    ensures !Icd10Pattern("AZ45")
    ensures !Icd10Pattern("1A2")
  {
    assert !Admits(Icd10Shape[0], "1A2"[0]);
  }

  /** A visit code is letter, digit, letter, space, digit, letter, digit. */
  lemma VisitCodeExamples()
    ensures VisitCodePattern("A1B 2C3")
    ensures !VisitCodePattern("A1B2C3")
    ensures !VisitCodePattern("visitCode")
  {
  }
}
