/** The regular expressions the dashboard and the shared script test input
    against. Every one of them is anchored at both ends (`^...$`, no `m` flag),
    so a test decides whether the WHOLE string belongs to the pattern's
    language. All but the email pattern have the shape `^C{min,max}$`: a run of
    characters from one class, of bounded length. */
module Patterns {
  import opened JsSemantics

  /** The character classes those patterns use. */
  datatype CharClass =
    | Digit            // [0-9]
    | LetterOrSpace    // [a-zA-Z\s]
    | AnyButNewline    // .  (every character but a line terminator)
    | AddressChar      // [^\s@]

  predicate InClass(c: char, k: CharClass)
  {
    match k
    case Digit => IsAsciiDigit(c)
    case LetterOrSpace => IsAsciiLetter(c) || IsWhiteSpace(c)
    case AnyButNewline => !IsLineTerminator(c)
    case AddressChar => !IsWhiteSpace(c) && c != '@'
  }

  predicate AllInClass(s: string, k: CharClass)
  {
    forall i | 0 <= i < |s| :: InClass(s[i], k)
  }

  /** `/^C{min,max}$/.test(s)`, decided the way a matcher consumes its input:
      one character of the class per step, the bounds counting down as it goes. */
  function MatchesRun(s: string, k: CharClass, min: nat, max: nat): (r: bool)
    ensures r <==> min <= |s| <= max && AllInClass(s, k)
  {
    if s == [] then min == 0
    else max > 0 && InClass(s[0], k) && MatchesRun(s[1..], k, if min > 0 then min - 1 else 0, max - 1)
  }

  // ---------------------------------------------------------------------------
  // /^[^\s@]+@[^\s@]+\.[^\s@]+$/

  /** A non-empty run of `[^\s@]`. */
  predicate IsAddressWord(w: string)
  {
    w != [] && AllInClass(w, AddressChar)
  }

  function Address(local: string, host: string, suffix: string): string
  {
    local + "@" + host + "." + suffix
  }

  /** The language of the email pattern: a word, `@`, a word, `.`, a word. */
  ghost predicate EmailMatches(s: string)
  {
    exists local, host, suffix ::
      IsAddressWord(local) && IsAddressWord(host) && IsAddressWord(suffix) && s == Address(local, host, suffix)
  }

  /** Position of the first `c` in `s`, or `|s|` when there is none. */
  function FirstIndex(s: string, c: char): (i: nat)
    ensures i <= |s|
    ensures i < |s| ==> s[i] == c
    ensures forall j | 0 <= j < i :: s[j] != c
  {
    if s == [] || s[0] == c then 0 else 1 + FirstIndex(s[1..], c)
  }

  /** The email test decided directly: a non-empty part before the first `@`,
      and after it a domain with a `.` that is neither its first nor its last
      character, with no white space and no second `@` anywhere. */
  function EmailCheck(s: string): bool
  {
    var at := FirstIndex(s, '@');
    if at == 0 || at == |s| then false
    else
      var domain := s[at + 1..];
      AllInClass(s[..at], AddressChar) && AllInClass(domain, AddressChar)
      && exists k | 0 < k < |domain| - 1 :: domain[k] == '.'
  }

  lemma AllInClassAppend(a: string, b: string, k: CharClass)
    ensures AllInClass(a + b, k) <==> AllInClass(a, k) && AllInClass(b, k)
  {
    if AllInClass(a, k) && AllInClass(b, k) {
      forall i | 0 <= i < |a + b| ensures InClass((a + b)[i], k) {
        if i >= |a| { assert (a + b)[i] == b[i - |a|]; }
      }
    }
    if AllInClass(a + b, k) {
      forall i | 0 <= i < |a| ensures InClass(a[i], k) {
        assert (a + b)[i] == a[i];
      }
      forall i | 0 <= i < |b| ensures InClass(b[i], k) {
        assert (a + b)[|a| + i] == b[i];
      }
    }
  }

  /** What the direct test accepts, the pattern matches. */
  lemma EmailCheckSound(s: string)
    requires EmailCheck(s)
    ensures EmailMatches(s)
  {
    var at := FirstIndex(s, '@');
    var domain := s[at + 1..];
    var k :| 0 < k < |domain| - 1 && domain[k] == '.';
    var local, host, suffix := s[..at], domain[..k], domain[k + 1..];
    assert domain == host + "." + suffix;
    assert s == local + "@" + domain;
    AllInClassAppend(host, "." + suffix, AddressChar);
    AllInClassAppend(".", suffix, AddressChar);
    assert IsAddressWord(local) && IsAddressWord(host) && IsAddressWord(suffix);
    assert s == Address(local, host, suffix);
  }

  /** What the pattern matches, the direct test accepts. */
  lemma EmailCheckComplete(local: string, host: string, suffix: string)
    requires IsAddressWord(local) && IsAddressWord(host) && IsAddressWord(suffix)
    ensures EmailCheck(Address(local, host, suffix))
  {
    var s := Address(local, host, suffix);
    var domain := host + "." + suffix;
    assert s == local + "@" + domain;
    var at := |local|;
    assert s[at] == '@';
    assert forall j | 0 <= j < at :: s[j] == local[j];
    assert FirstIndex(s, '@') == at;
    assert s[at + 1..] == domain && s[..at] == local;
    assert domain[|host|] == '.';
    assert InClass('.', AddressChar);
    AllInClassAppend(".", suffix, AddressChar);
    AllInClassAppend(host, "." + suffix, AddressChar);
  }

  /** The direct test accepts exactly the language of the pattern. */
  lemma EmailCheckMatchesPattern(s: string)
    ensures EmailCheck(s) <==> EmailMatches(s)
  {
    if EmailCheck(s) {
      EmailCheckSound(s);
    }
    if EmailMatches(s) {
      var local, host, suffix :|
        IsAddressWord(local) && IsAddressWord(host) && IsAddressWord(suffix) && s == Address(local, host, suffix);
      EmailCheckComplete(local, host, suffix);
    }
  }
}
