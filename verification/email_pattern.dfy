/** The unanchored email test `/\S+@\S+\.\S+/.test(s)` shared by the login
    and registration forms, its meaning as a search for a matching
    substring, and a scanner that decides it. */
module EmailPattern {
  import opened Wrappers
  import opened JsText

  /** Every character of `s[i..j]` is a non-white-space character. */
  predicate NonSpaceRun(s: string, i: int, j: int)
    requires 0 <= i <= j <= |s|
  {
    forall k :: i <= k < j ==> !IsSpace(s[k])
  }

  /** The regex matches the substring `s[i..j]`, split as
      `s[i..at] + "@" + s[at+1..dot] + "." + s[dot+1..j]` with three
      non-empty runs of non-white-space characters. */
  ghost predicate MatchesAt(s: string, i: int, at: int, dot: int, j: int) {
    && 0 <= i < at && at + 1 < dot && dot + 1 < j <= |s|
    && NonSpaceRun(s, i, at) && s[at] == '@'
    && NonSpaceRun(s, at + 1, dot) && s[dot] == '.'
    && NonSpaceRun(s, dot + 1, j)
  }

  /** The regex test: some substring matches. */
  ghost predicate RegexTest(s: string) {
    exists i, at, dot, j :: MatchesAt(s, i, at, dot, j)
  }

  /** An `@` at `at` with a non-white-space character before it, followed
      by a non-empty run of non-white-space characters, a `.` at `dot`, and
      one non-white-space character. */
  predicate Anchors(s: string, at: int, dot: int) {
    && 0 < at && at + 1 < dot && dot + 1 < |s|
    && !IsSpace(s[at - 1]) && s[at] == '@'
    && NonSpaceRun(s, at + 1, dot) && s[dot] == '.'
    && !IsSpace(s[dot + 1])
  }

  /** The same test by its two anchoring positions: since `@` and `.` are
      themselves non-white-space, the outer runs can always be shrunk to
      one character. */
  predicate LooksLikeEmail(s: string) {
    exists at, dot | 0 <= at < |s| && 0 <= dot < |s| :: Anchors(s, at, dot)
  }

  lemma AnchorsIffRegex(s: string)
    ensures LooksLikeEmail(s) <==> RegexTest(s)
  {
    if LooksLikeEmail(s) {
      var at, dot :| 0 <= at < |s| && 0 <= dot < |s| && Anchors(s, at, dot);
      assert MatchesAt(s, at - 1, at, dot, dot + 2);
    }
    if RegexTest(s) {
      var i, at, dot, j :| MatchesAt(s, i, at, dot, j);
      assert !IsSpace(s[at - 1]);
      assert !IsSpace(s[dot + 1]);
      assert Anchors(s, at, dot);
    }
  }

  /** Decides the test in one pass per `@`: from each `@` that follows a
      non-white-space character, scan the run of non-white-space characters
      after it for a `.` that is not its first character and is followed by
      a non-white-space character. */
  method TestEmail(s: string) returns (b: bool)
    ensures b <==> LooksLikeEmail(s)
  {
    var at := 1;
    while at < |s|
      invariant 1 <= at
      invariant forall a, d :: 0 <= a < at && a < |s| && 0 <= d < |s| ==> !Anchors(s, a, d)
    {
      if s[at] == '@' && !IsSpace(s[at - 1]) {
        var k := at + 1;
        while k < |s| && !IsSpace(s[k])
          invariant at + 1 <= k <= |s|
          invariant NonSpaceRun(s, at + 1, k)
          invariant forall d :: 0 <= d < k && d < |s| ==> !Anchors(s, at, d)
        {
          if s[k] == '.' && at + 1 < k && k + 1 < |s| && !IsSpace(s[k + 1]) {
            assert Anchors(s, at, k);
            return true;
          }
          k := k + 1;
        }
        forall d | 0 <= d < |s| ensures !Anchors(s, at, d) {
          if k <= d {
            assert IsSpace(s[k]);
          }
        }
      }
      at := at + 1;
    }
    return false;
  }

  /** A string that passes the test holds a non-white-space character. */
  lemma EmailIsNotBlank(s: string)
    ensures LooksLikeEmail(s) ==> !AllSpace(s)
  {
    if LooksLikeEmail(s) {
      var at, dot :| 0 <= at < |s| && 0 <= dot < |s| && Anchors(s, at, dot);
      assert !IsSpace(s[at]);
    }
  }

  /** The email field's rule in both forms: required once trimmed, then the
      pattern; a field never carries both messages. */
  function EmailFieldError(email: string): (r: Option<string>)
    ensures r == Some("Email is required") <==> AllSpace(email)
    ensures r == Some("Email is invalid") <==> !AllSpace(email) && !LooksLikeEmail(email)
    ensures r == None <==> LooksLikeEmail(email)
  {
    BlankIffAllSpace(email);
    EmailIsNotBlank(email);
    if IsBlank(email) then Some("Email is required")
    else if !LooksLikeEmail(email) then Some("Email is invalid")
    else None
  }
}
