/** The e-mail shape both sign-in forms test, `^[^\s@]+@[^\s@]+\.[^\s@]+$`,
    and the e-mail rule built on it. */
module EmailPattern {
  import opened Js
  import opened Wrappers

  /** A run the pattern's `[^\s@]+` could match, without the length bound. */
  predicate Plain(t: string)
  {
    forall j :: 0 <= j < |t| ==> !IsWhitespace(t[j]) && t[j] != '@'
  }

  /** The language of the pattern: a non-empty local part, '@', a
      non-empty run, '.', and a non-empty run, none of the three holding
      white space or '@'. */
  ghost predicate MatchesPattern(s: string)
    ensures MatchesPattern(s) ==> |s| >= 5 && '@' in s && '.' in s
  {
    exists at, dot :: MatchAt(s, at, dot)
  }

  /** The pattern matches with its '@' at `at` and its '.' at `dot`. */
  predicate MatchAt(s: string, at: int, dot: int)
  {
    && 0 < at && at + 1 < dot < |s| - 1 && s[at] == '@' && s[dot] == '.'
    && Plain(s[..at]) && Plain(s[at + 1..dot]) && Plain(s[dot + 1..])
  }

  /** The first index of `c` in `s`, or -1. */
  function IndexOf(s: string, c: char): (r: int)
    ensures -1 <= r < |s|
    ensures r == -1 <==> c !in s
    ensures r >= 0 ==> s[r] == c && c !in s[..r]
  {
    if |s| == 0 then -1
    else if s[0] == c then 0
    else
      var r := IndexOf(s[1..], c);
      assert s[1..][..if r < 0 then 0 else r] == s[1..1 + if r < 0 then 0 else r];
      if r < 0 then -1 else r + 1
  }

  /** The test the pattern performs, as a scan: no white space anywhere,
      one '@' only, not at the start, and a '.' after it with at least one
      character on either side. */
  predicate IsEmail(s: string)
    ensures IsEmail(s) ==> multiset(s)['@'] == 1
  {
    var at := IndexOf(s, '@');
    OnlyAt(s, at);
    && (forall j :: 0 <= j < |s| ==> !IsWhitespace(s[j]))
    && at > 0 && '@' !in s[at + 1..]
    && at + 2 <= |s| - 1 && '.' in s[at + 2..|s| - 1]
  }

  /** An '@' with none before it and none after it is the only one. */
  lemma OnlyAt(s: string, at: int)
    ensures 0 <= at < |s| && s[at] == '@' && '@' !in s[..at] && '@' !in s[at + 1..] ==>
      multiset(s)['@'] == 1
  {
    if 0 <= at < |s| {
      assert s == s[..at] + [s[at]] + s[at + 1..];
    }
  }

  /** Every character of a slice of a string without white space or '@'
      is free of both. */
  lemma PlainSlice(s: string, lo: int, hi: int)
    requires 0 <= lo <= hi <= |s|
    requires forall j :: lo <= j < hi ==> !IsWhitespace(s[j]) && s[j] != '@'
    ensures Plain(s[lo..hi])
  {
    assert forall j :: 0 <= j < hi - lo ==> s[lo..hi][j] == s[lo + j];
  }

  /** What the scan accepts, the pattern matches. */
  lemma IsEmailSound(s: string)
    requires IsEmail(s)
    ensures MatchesPattern(s)
  {
    var at := IndexOf(s, '@');
    var mid := s[at + 2..|s| - 1];
    var k :| 0 <= k < |mid| && mid[k] == '.';
    var dot := at + 2 + k;
    assert s[dot] == '.';
    assert forall j :: at + 1 <= j < |s| ==> s[j] == s[at + 1..][j - at - 1];
    assert forall j :: 0 <= j < at ==> s[j] == s[..at][j];
    PlainSlice(s, 0, at);
    PlainSlice(s, at + 1, dot);
    PlainSlice(s, dot + 1, |s|);
    assert s[..at] == s[0..at];
    assert s[dot + 1..] == s[dot + 1..|s|];
    assert MatchAt(s, at, dot);
  }

  /** The converse of PlainSlice. */
  lemma FromPlain(s: string, lo: int, hi: int)
    requires 0 <= lo <= hi <= |s| && Plain(s[lo..hi])
    ensures forall j :: lo <= j < hi ==> !IsWhitespace(s[j]) && s[j] != '@'
  {
    assert forall j :: lo <= j < hi ==> s[j] == s[lo..hi][j - lo];
  }

  /** A position holding `c` with no earlier `c` is the one IndexOf finds. */
  lemma IndexOfFirst(s: string, c: char, k: int)
    requires 0 <= k < |s| && s[k] == c && c !in s[..k]
    ensures IndexOf(s, c) == k
  {
    var r := IndexOf(s, c);
    assert c in s;
    assert forall i :: 0 <= i < k ==> s[i] == s[..k][i];
    assert forall i :: 0 <= i < r ==> s[i] == s[..r][i];
  }

  /** Around a match of the pattern, no character is white space and the
      only '@' is the separator. */
  lemma MatchCharacters(s: string, at: int, dot: int)
    requires 0 < at && at + 1 < dot < |s| - 1 && s[at] == '@' && s[dot] == '.'
    requires Plain(s[..at]) && Plain(s[at + 1..dot]) && Plain(s[dot + 1..])
    ensures forall j :: 0 <= j < |s| ==> !IsWhitespace(s[j])
    ensures forall j :: 0 <= j < |s| && j != at ==> s[j] != '@'
  {
    assert s[..at] == s[0..at] && s[dot + 1..] == s[dot + 1..|s|];
    FromPlain(s, 0, at);
    FromPlain(s, at + 1, dot);
    FromPlain(s, dot + 1, |s|);
  }

  /** What the pattern matches, the scan accepts. */
  lemma IsEmailComplete(s: string)
    requires MatchesPattern(s)
    ensures IsEmail(s)
  {
    var at, dot :| MatchAt(s, at, dot);
    MatchCharacters(s, at, dot);
    assert '@' !in s[..at] by {
      forall j | 0 <= j < at ensures s[..at][j] != '@' {
        assert s[..at][j] == s[j];
      }
    }
    IndexOfFirst(s, '@', at);
    var rest := s[at + 1..];
    assert '@' !in rest by {
      forall j | 0 <= j < |rest| ensures rest[j] != '@' {
        assert rest[j] == s[at + 1 + j];
      }
    }
    assert s[at + 2..|s| - 1][dot - at - 2] == '.';
  }

  /** The scan accepts exactly the strings the pattern matches. */
  lemma IsEmailMatches(s: string)
    ensures IsEmail(s) <==> MatchesPattern(s)
  {
    if IsEmail(s) { IsEmailSound(s); }
    if MatchesPattern(s) { IsEmailComplete(s); }
  }

  /** The e-mail rule of both forms: an empty address is required, one the
      pattern rejects is invalid, and one it accepts has no error. */
  function EmailError(email: string): (e: Option<string>)
    ensures email == "" ==> e == Some("Email is required")
    ensures email != "" && !MatchesPattern(email) ==> e == Some("Please enter a valid email address")
    ensures e == None <==> MatchesPattern(email)
  {
    IsEmailMatches(email);
    if email == "" then Some("Email is required")
    else if !IsEmail(email) then Some("Please enter a valid email address")
    else None
  }
}
