/**
 * The e-mail check of the web service: `re.match` with the pattern
 * `^[a-zA-Z0-9._%+-]+@[a-zA-Z0-9.-]+\.[a-zA-Z]{2,}$`, written out as a
 * matcher over three character classes and proved equal to the pattern's
 * meaning. Python's `$` also matches just before one final newline.
 */
module Email {
  import Text

  predicate IsLetter(c: char) {
    'a' <= c <= 'z' || 'A' <= c <= 'Z'
  }

  predicate IsAlnum(c: char) {
    IsLetter(c) || '0' <= c <= '9'
  }

  /** `[a-zA-Z0-9._%+-]` */
  predicate IsLocalChar(c: char) {
    IsAlnum(c) || c == '.' || c == '_' || c == '%' || c == '+' || c == '-'
  }

  /** `[a-zA-Z0-9.-]` */
  predicate IsDomainChar(c: char) {
    IsAlnum(c) || c == '.' || c == '-'
  }

  predicate AllLocal(t: string) {
    forall i :: 0 <= i < |t| ==> IsLocalChar(t[i])
  }

  predicate AllDomain(t: string) {
    forall i :: 0 <= i < |t| ==> IsDomainChar(t[i])
  }

  predicate AllLetters(t: string) {
    forall i :: 0 <= i < |t| ==> IsLetter(t[i])
  }

  /** `s` reads local `@` domain `.` tld, with the `@` at `at` and the `.` at `dot`. */
  ghost predicate IsSplit(s: string, at: int, dot: int) {
    && 0 < at < dot - 1 && dot + 2 < |s|
    && s[at] == '@' && s[dot] == '.'
    && AllLocal(s[..at]) && AllDomain(s[at + 1..dot]) && AllLetters(s[dot + 1..])
  }

  /** The whole of `s` matches the pattern. */
  ghost predicate FullMatch(s: string) {
    exists at, dot :: IsSplit(s, at, dot)
  }

  /** What `re.match(pattern, s) is not None` means, `$` included. */
  ghost predicate PatternMatches(s: string) {
    FullMatch(s) || (|s| > 0 && s[|s| - 1] == '\n' && FullMatch(s[..|s| - 1]))
  }

  /** Index of the first `c` in `s`, or `|s|` when there is none. */
  function FindFirst(s: string, c: char): (i: nat)
    ensures i <= |s| && (i < |s| ==> s[i] == c)
    ensures forall k :: 0 <= k < i ==> s[k] != c
  {
    if |s| == 0 || s[0] == c then 0 else 1 + FindFirst(s[1..], c)
  }

  /** Index of the last `c` in `s`, or -1 when there is none. */
  function FindLast(s: string, c: char): (i: int)
    ensures -1 <= i < |s| && (0 <= i ==> s[i] == c)
    ensures forall k :: i < k < |s| ==> s[k] != c
  {
    if |s| == 0 then -1
    else if s[|s| - 1] == c then |s| - 1
    else FindLast(s[..|s| - 1], c)
  }

  /**
   * The matcher: the local part runs up to the first `@` (no class admits
   * `@`), and the top-level domain starts after the last `.` (letters admit
   * no `.`).
   */
  function Matches(s: string): bool {
    var at := FindFirst(s, '@');
    var dot := FindLast(s, '.');
    && 0 < at < dot - 1 && dot + 2 < |s|
    && AllLocal(s[..at]) && AllDomain(s[at + 1..dot]) && AllLetters(s[dot + 1..])
  }

  /** `validate_email`. */
  function ValidateEmail(s: string): bool {
    Matches(s) || (|s| > 0 && s[|s| - 1] == '\n' && Matches(s[..|s| - 1]))
  }

  lemma MatchesIsFullMatch(s: string)
    ensures Matches(s) <==> FullMatch(s)
  {
    var at := FindFirst(s, '@');
    var dot := FindLast(s, '.');
    if Matches(s) {
      assert IsSplit(s, at, dot);
    }
    if FullMatch(s) {
      var at', dot' :| IsSplit(s, at', dot');
      assert at == at';
      assert dot == dot';
    }
  }

  /** The matcher accepts exactly what the regular expression accepts. */
  lemma ValidateEmailIsPattern(s: string)
    ensures ValidateEmail(s) <==> PatternMatches(s)
  {
    MatchesIsFullMatch(s);
    if |s| > 0 {
      MatchesIsFullMatch(s[..|s| - 1]);
    }
  }

  /** After `.strip()` the trailing-newline allowance of `$` never applies. */
  lemma ValidateStripped(s: string)
    requires s == [] || !Text.IsSpace(s[|s| - 1])
    ensures ValidateEmail(s) <==> FullMatch(s)
  {
    MatchesIsFullMatch(s);
  }

  /** A text without `@`, such as "not-an-email", is rejected. */
  lemma NoAtRejected(s: string)
    requires forall i :: 0 <= i < |s| ==> s[i] != '@'
    ensures !ValidateEmail(s)
  {
    assert FindFirst(s, '@') == |s|;
    if |s| > 0 {
      var t := s[..|s| - 1];
      assert forall i :: 0 <= i < |t| ==> t[i] == s[i];
      assert FindFirst(t, '@') == |t|;
    }
  }

  lemma NotAnEmailRejected()
    ensures !ValidateEmail("not-an-email")
  {
    NoAtRejected("not-an-email");
  }
}
