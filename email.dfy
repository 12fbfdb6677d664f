/**
 * The e-mail rule shared by the sign-up and sign-in forms
 * (src/pages/Auth/Register.tsx, src/pages/Auth/Login.tsx): a required field
 * that must contain a match of the unanchored regular expression
 * `\S+@\S+\.\S+`.
 */
module Email {
  import Text
  import opened Optional

  predicate NoSpace(s: string) {
    forall i :: 0 <= i < |s| ==> !Text.IsSpace(s[i])
  }

  /** `s[i..e]` is a match of `\S+@\S+\.\S+` with the `@` at `at` and the
      escaped dot at `dot`: three non-empty runs of non-whitespace around
      them. `@` and `.` are not whitespace, so the whole match is. */
  ghost predicate MatchAt(s: string, i: int, at: int, dot: int, e: int) {
    0 <= i < at && at + 1 < dot && dot + 1 < e <= |s| &&
    s[at] == '@' && s[dot] == '.' && NoSpace(s[i..e])
  }

  /** `/\S+@\S+\.\S+/.test(s)`: some substring matches (the pattern has no anchors). */
  ghost predicate RegexMatches(s: string) {
    exists i, at, dot, e :: MatchAt(s, i, at, dot, e)
  }

  /** The shortest match around an `@` and a dot: one character before the
      `@`, one after the dot. */
  ghost predicate ShortMatchAt(s: string, at: int, dot: int) {
    1 <= at && at + 1 < dot && dot + 2 <= |s| &&
    s[at] == '@' && s[dot] == '.' && NoSpace(s[at - 1..dot + 2])
  }

  lemma NoSpaceInner(s: string, i: int, e: int, i': int, e': int)
    requires 0 <= i <= i' <= e' <= e <= |s| && NoSpace(s[i..e])
    ensures NoSpace(s[i'..e'])
  {
    assert forall k :: 0 <= k < e' - i' ==> s[i'..e'][k] == s[i..e][k + i' - i];
  }

  /** A match exists exactly when a shortest match does. */
  lemma ShortMatchIff(s: string)
    ensures RegexMatches(s) <==> exists at, dot :: ShortMatchAt(s, at, dot)
  {
    if RegexMatches(s) {
      var i, at, dot, e :| MatchAt(s, i, at, dot, e);
      NoSpaceInner(s, i, e, at - 1, dot + 2);
      assert ShortMatchAt(s, at, dot);
    }
    if exists at, dot :: ShortMatchAt(s, at, dot) {
      var at, dot :| ShortMatchAt(s, at, dot);
      assert MatchAt(s, at - 1, at, dot, dot + 2);
    }
  }

  /** Looks for a dot at `d` or later that closes a match whose `@` is at `at`. */
  function DotFrom(s: string, at: int, d: int): (r: bool)
    requires 1 <= at
    ensures r <==> exists dot :: d <= dot && ShortMatchAt(s, at, dot)
    decreases |s| - d
  {
    if d + 2 > |s| then
      assert forall dot :: d <= dot ==> !ShortMatchAt(s, at, dot);
      false
    else if at + 1 < d && s[at] == '@' && s[d] == '.' && NoSpace(s[at - 1..d + 2]) then
      assert ShortMatchAt(s, at, d);
      true
    else
      var r := DotFrom(s, at, d + 1);
      assert !ShortMatchAt(s, at, d);
      r
  }

  /** Looks for an `@` at `at` or later that starts a match. */
  function AtFrom(s: string, at: int): (r: bool)
    requires 1 <= at
    ensures r <==> exists a, dot :: at <= a && ShortMatchAt(s, a, dot)
    decreases |s| - at
  {
    if at + 3 > |s| then
      assert forall a, dot :: at <= a ==> !ShortMatchAt(s, a, dot);
      false
    else if DotFrom(s, at, at + 2) then
      true
    else
      var r := AtFrom(s, at + 1);
      assert forall dot :: !ShortMatchAt(s, at, dot);
      r
  }

  /** The regular expression test, computed. */
  function RegexTest(s: string): (r: bool)
    ensures r <==> RegexMatches(s)
  {
    ShortMatchIff(s);
    AtFrom(s, 1)
  }

  lemma RegexExamples()
    ensures RegexTest("a@b.c")
    ensures RegexTest("name x@y.z tail")
    ensures !RegexTest("a@b")
    ensures !RegexTest("@b.c")
  {
    assert ShortMatchAt("a@b.c", 1, 3);
    assert ShortMatchAt("name x@y.z tail", 6, 8);
  }

  /** What is wrong with an e-mail field, if anything. */
  datatype EmailProblem = Missing | Invalid

  /** `if (!email) required; else if (!regex.test(email)) invalid`. */
  function CheckEmail(email: string): (r: Option<EmailProblem>)
    ensures r == Some(Missing) <==> email == ""
    ensures r == Some(Invalid) <==> email != "" && !RegexMatches(email)
    ensures r == None <==> RegexMatches(email)
  {
    if email == "" then
      assert !RegexMatches(email);
      Some(Missing)
    else if !RegexTest(email) then Some(Invalid)
    else None
  }
}
