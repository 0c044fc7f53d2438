/**
 The email shape the relay demands of a `register` message: the regular
 expression `^[^\s@]+@[^\s@]+\.[^\s@]+$`, matched against the whole string.

 `EmailRegex` states what the expression matches, piece by piece; `IsEmail` is
 the check the relay runs, written as a scan (first `@`, no second one, no
 white space, a dot strictly inside the domain). `IsEmailIsRegex` proves the two
 agree on every string.
 */
module Email {

  /** The characters of JavaScript's `\s` class (ECMAScript WhiteSpace and LineTerminator). */
  predicate IsSpace(c: char) {
    || c == '\t' || c == '\n' || c == '\U{000B}' || c == '\U{000C}' || c == '\r' || c == ' '
    || c == '\U{00A0}' || c == '\U{1680}' || ('\U{2000}' <= c <= '\U{200A}')
    || c == '\U{2028}' || c == '\U{2029}' || c == '\U{202F}' || c == '\U{205F}'
    || c == '\U{3000}' || c == '\U{FEFF}'
  }

  /** The character class `[^\s@]`. */
  predicate InClass(c: char) {
    !IsSpace(c) && c != '@'
  }

  /** `t` is matched in full by `[^\s@]+`. */
  predicate Plus(t: string) {
    |t| > 0 && forall k :: 0 <= k < |t| ==> InClass(t[k])
  }

  /**
   `s` is matched by `^[^\s@]+@[^\s@]+\.[^\s@]+$`: it splits at an `@` (index i)
   and a later `.` (index j) into three non-empty runs of the class.
   */
  ghost predicate EmailRegex(s: string) {
    exists i, j :: 0 <= i < j < |s| && s[i] == '@' && s[j] == '.'
      && Plus(s[..i]) && Plus(s[i + 1..j]) && Plus(s[j + 1..])
  }

  /** Index of the first `c` in `s`, or `|s|` when there is none. */
  function FirstIndex(s: string, c: char): (k: nat)
    ensures k <= |s|
    ensures k < |s| ==> s[k] == c
    ensures forall j :: 0 <= j < k ==> s[j] != c
  {
    if s == [] then 0
    else if s[0] == c then 0
    else 1 + FirstIndex(s[1..], c)
  }

  predicate NoSpace(s: string) {
    forall k :: 0 <= k < |s| ==> !IsSpace(s[k])
  }

  /** The domain has a dot that is neither its first nor its last character. */
  predicate HasInnerDot(d: string) {
    exists k :: 0 < k < |d| - 1 && d[k] == '.'
  }

  /** The email check of the `register` case. */
  predicate IsEmail(s: string) {
    var at := FirstIndex(s, '@');
    0 < at < |s| && NoSpace(s) && '@' !in s[at + 1..] && HasInnerDot(s[at + 1..])
  }

  lemma IsEmailIsRegex(s: string)
    ensures IsEmail(s) <==> EmailRegex(s)
  {
    if IsEmail(s) {
      IsEmailMatches(s);
    }
    if EmailRegex(s) {
      var i, j :| 0 <= i < j < |s| && s[i] == '@' && s[j] == '.'
        && Plus(s[..i]) && Plus(s[i + 1..j]) && Plus(s[j + 1..]);
      MatchPassesCheck(s, i, j);
    }
  }

  lemma IsEmailMatches(s: string)
    requires IsEmail(s)
    ensures EmailRegex(s)
  {
    var at := FirstIndex(s, '@');
    var d := s[at + 1..];
    var k :| 0 < k < |d| - 1 && d[k] == '.';
    var j := at + 1 + k;
    var local, host, top := s[..at], s[at + 1..j], s[j + 1..];
    assert s[j] == d[k];
    assert forall m :: 0 <= m < |local| ==> local[m] == s[m];
    assert forall m :: 0 <= m < |host| ==> host[m] == d[m];
    assert forall m :: 0 <= m < |top| ==> top[m] == d[k + 1 + m];
    assert Plus(local) && Plus(host) && Plus(top);
  }

  lemma MatchPassesCheck(s: string, i: nat, j: nat)
    requires i < j < |s| && s[i] == '@' && s[j] == '.'
    requires Plus(s[..i]) && Plus(s[i + 1..j]) && Plus(s[j + 1..])
    ensures IsEmail(s)
  {
    var local, host, top := s[..i], s[i + 1..j], s[j + 1..];
    assert forall m :: 0 <= m < i ==> s[m] == local[m];
    assert forall m :: i < m < j ==> s[m] == host[m - i - 1];
    assert forall m :: j < m < |s| ==> s[m] == top[m - j - 1];
    assert FirstIndex(s, '@') == i;
    assert NoSpace(s);
    var d := s[i + 1..];
    assert forall m :: 0 <= m < |d| ==> d[m] == s[i + 1 + m];
    assert d[j - i - 1] == '.';
  }

  /** A string without `@` is refused. */
  lemma NotAnEmailRefused()
    ensures !IsEmail("not-an-email")
  {
    var bad := "not-an-email";
    assert forall m :: 0 <= m < |bad| ==> bad[m] != '@';
    assert FirstIndex(bad, '@') == |bad|;
  }

  /** The shortest kind of address the check admits. */
  lemma ShortAddressAccepted()
    ensures IsEmail("a@b.co")
  {
    var good := "a@b.co";
    assert good[..1] == "a" && good[2..3] == "b" && good[4..] == "co";
    assert Plus("a") && Plus("b") && Plus("co");
    MatchPassesCheck(good, 1, 3);
  }
}
