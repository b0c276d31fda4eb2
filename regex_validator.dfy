/**
 * utility/RegexValidator.ts: isEmailValid, the test of the lower-cased
 * input against `^[^\s@]+@[^\s@]+\.[^\s@]+$`.
 */
module RegexValidator {

  /** The characters JavaScript's `\s` class matches. */
  predicate IsSpace(c: char)
  {
    c == '\t' || c == '\n' || c == '\U{000B}' || c == '\U{000C}' || c == '\r' || c == ' '
    || c == '\U{00A0}' || c == '\U{1680}' || ('\U{2000}' <= c <= '\U{200A}')
    || c == '\U{2028}' || c == '\U{2029}' || c == '\U{202F}' || c == '\U{205F}'
    || c == '\U{3000}' || c == '\U{FEFF}'
  }

  /** `[^\s@]`: neither whitespace nor '@' (a '.' is allowed). */
  predicate SegmentChar(c: char)
  {
    !IsSpace(c) && c != '@'
  }

  predicate AllSegmentChars(s: string)
  {
    forall i :: 0 <= i < |s| ==> SegmentChar(s[i])
  }

  /** `[^\s@]+` */
  predicate Segment(s: string)
  {
    |s| > 0 && AllSegmentChars(s)
  }

  /**
   * The regular expression read as a pattern: the whole string is a
   * segment, '@', a segment, '.', a segment.
   */
  ghost predicate EmailPattern(s: string)
  {
    exists k, p :: 0 <= k < p < |s| && s[k] == '@' && s[p] == '.'
      && Segment(s[..k]) && Segment(s[k + 1..p]) && Segment(s[p + 1..])
  }

  /** The position of the first `c` in `s`, or |s| when there is none. */
  function FirstIndexOf(s: string, c: char): (k: nat)
    ensures k <= |s|
    ensures k < |s| ==> s[k] == c
    ensures forall i :: 0 <= i < k ==> s[i] != c
  {
    if s == [] then 0
    else if s[0] == c then 0
    else 1 + FirstIndexOf(s[1..], c)
  }

  lemma {:induction false} FirstIndexOfIs(s: string, c: char, k: nat)
    requires k < |s| && s[k] == c
    requires forall i :: 0 <= i < k ==> s[i] != c
    ensures FirstIndexOf(s, c) == k
  {
    if k > 0 {
      FirstIndexOfIs(s[1..], c, k - 1);
    }
  }

  /** A '.' with at least one character on each side. */
  predicate HasInnerDot(d: string)
  {
    exists p | 1 <= p < |d| - 1 :: d[p] == '.'
  }

  /**
   * How the match is decided: cut at the first '@'; the part before it
   * must be a non-empty run of segment characters, the part after it a run
   * of segment characters with an inner '.'.
   */
  predicate MatchesEmail(s: string)
  {
    var k := FirstIndexOf(s, '@');
    0 < k < |s| && AllSegmentChars(s[..k]) && AllSegmentChars(s[k + 1..]) && HasInnerDot(s[k + 1..])
  }

  lemma PatternIsMatched(s: string)
    requires EmailPattern(s)
    ensures MatchesEmail(s)
  {
    var k, p :| 0 <= k < p < |s| && s[k] == '@' && s[p] == '.'
      && Segment(s[..k]) && Segment(s[k + 1..p]) && Segment(s[p + 1..]);
    forall i | 0 <= i < k
      ensures s[i] != '@'
    {
      assert SegmentChar(s[..k][i]);
    }
    FirstIndexOfIs(s, '@', k);
    var d := s[k + 1..];
    Pieces(s, k, p);
    SegmentConcat(s[k + 1..p], [s[p]], s[p + 1..]);
    assert d[p - k - 1] == '.';
  }

  /** The cuts at an '@' position `k` and a '.' position `p`. */
  lemma Pieces(s: string, k: int, p: int)
    requires 0 <= k < p < |s|
    ensures s[k + 1..] == s[k + 1..p] + [s[p]] + s[p + 1..]
    ensures s == s[..k] + ([s[k]] + (s[k + 1..p] + ([s[p]] + s[p + 1..])))
  {
  }

  lemma SegmentCharAt(s: string, i: int)
    requires AllSegmentChars(s) && 0 <= i < |s|
    ensures !IsSpace(s[i]) && s[i] != '@'
  {
  }

  lemma SegmentConcat(a: string, b: string, c: string)
    requires AllSegmentChars(a) && AllSegmentChars(c) && |b| == 1 && b[0] == '.'
    ensures AllSegmentChars(a + b + c)
  {
    var d := a + b + c;
    forall i | 0 <= i < |d|
      ensures SegmentChar(d[i])
    {
      if i < |a| {
        assert d[i] == a[i];
      } else if i > |a| {
        assert d[i] == c[i - |a| - 1];
      } else {
        assert d[i] == '.';
      }
    }
  }

  lemma MatchedIsPattern(s: string)
    requires MatchesEmail(s)
    ensures EmailPattern(s)
  {
    var k := FirstIndexOf(s, '@');
    var d := s[k + 1..];
    var q :| 1 <= q < |d| - 1 && d[q] == '.';
    var p := k + 1 + q;
    assert s[k + 1..p] == d[..q];
    assert s[p + 1..] == d[q + 1..];
    assert Segment(s[k + 1..p]);
    assert Segment(s[p + 1..]);
  }

  /** The decision procedure accepts exactly the strings the pattern matches. */
  lemma MatchesEmailIsPattern(s: string)
    ensures MatchesEmail(s) <==> EmailPattern(s)
  {
    if EmailPattern(s) { PatternIsMatched(s); }
    if MatchesEmail(s) { MatchedIsPattern(s); }
  }

  // ---------------------------------------------------------------------
  // Lower-casing
  // ---------------------------------------------------------------------

  function LowerChar(c: char): char
  {
    if 'A' <= c <= 'Z' then (c as int + 32) as char else c
  }

  function UpperChar(c: char): char
  {
    if 'a' <= c <= 'z' then (c as int - 32) as char else c
  }

  /** `String(email).toLowerCase()`, on the ASCII letters. */
  function ToLower(s: string): (r: string)
    ensures |r| == |s|
    ensures forall i :: 0 <= i < |s| ==> r[i] == LowerChar(s[i])
  {
    if s == [] then [] else [LowerChar(s[0])] + ToLower(s[1..])
  }

  function ToUpper(s: string): (r: string)
    ensures |r| == |s|
    ensures forall i :: 0 <= i < |s| ==> r[i] == UpperChar(s[i])
  {
    if s == [] then [] else [UpperChar(s[0])] + ToUpper(s[1..])
  }

  /** What the pattern can tell apart: '@', '.', whitespace, anything else. */
  function Class(c: char): int
  {
    if c == '@' then 0 else if c == '.' then 1 else if IsSpace(c) then 2 else 3
  }

  predicate SameClasses(s: string, t: string)
  {
    |s| == |t| && forall i :: 0 <= i < |s| ==> Class(s[i]) == Class(t[i])
  }

  lemma SegmentRespectsClasses(s: string, t: string)
    requires SameClasses(s, t)
    ensures Segment(s) <==> Segment(t)
  {
    if Segment(s) {
      forall i | 0 <= i < |t| ensures SegmentChar(t[i]) {
        assert SegmentChar(s[i]);
      }
    }
    if Segment(t) {
      forall i | 0 <= i < |s| ensures SegmentChar(s[i]) {
        assert SegmentChar(t[i]);
      }
    }
  }

  lemma SameClassesSlice(s: string, t: string, i: int, j: int)
    requires SameClasses(s, t) && 0 <= i <= j <= |s|
    ensures SameClasses(s[i..j], t[i..j])
  {
    assert forall m :: 0 <= m < j - i ==> s[i..j][m] == s[i + m] && t[i..j][m] == t[i + m];
  }

  lemma PatternOneWay(s: string, t: string)
    requires SameClasses(s, t) && EmailPattern(s)
    ensures EmailPattern(t)
  {
    var k, p :| 0 <= k < p < |s| && s[k] == '@' && s[p] == '.'
      && Segment(s[..k]) && Segment(s[k + 1..p]) && Segment(s[p + 1..]);
    assert Class(t[k]) == Class(s[k]) && Class(t[p]) == Class(s[p]);
    SameClassesSlice(s, t, 0, k);
    SameClassesSlice(s, t, k + 1, p);
    SameClassesSlice(s, t, p + 1, |s|);
    SegmentRespectsClasses(s[..k], t[..k]);
    SegmentRespectsClasses(s[k + 1..p], t[k + 1..p]);
    SegmentRespectsClasses(s[p + 1..|s|], t[p + 1..|t|]);
    assert s[p + 1..|s|] == s[p + 1..] && t[p + 1..|t|] == t[p + 1..];
    assert t[k] == '@' && t[p] == '.';
  }

  /** The pattern sees only the class of each character. */
  lemma PatternRespectsClasses(s: string, t: string)
    requires SameClasses(s, t)
    ensures EmailPattern(s) <==> EmailPattern(t)
  {
    if EmailPattern(s) { PatternOneWay(s, t); }
    if EmailPattern(t) { PatternOneWay(t, s); }
  }

  /**
   * isEmailValid: lower-case the input, then test it against the
   * expression.
   */
  predicate IsEmailValid(email: string)
  {
    MatchesEmail(ToLower(email))
  }

  /** Changing a letter's case never turns it into '@', '.' or whitespace, nor the reverse. */
  lemma CaseKeepsClasses(s: string)
    ensures SameClasses(ToLower(s), s)
    ensures SameClasses(ToUpper(s), s)
  {
    forall i | 0 <= i < |s|
      ensures Class(ToLower(s)[i]) == Class(s[i]) && Class(ToUpper(s)[i]) == Class(s[i])
    {
      var c := s[i];
      if 'A' <= c <= 'Z' {
        assert 'a' <= LowerChar(c) <= 'z';
      }
      if 'a' <= c <= 'z' {
        assert 'A' <= UpperChar(c) <= 'Z';
      }
    }
  }

  /** Lower-casing keeps every character's class, so validity is the pattern on the input itself. */
  lemma IsEmailValidMeansPattern(email: string)
    ensures IsEmailValid(email) <==> EmailPattern(email)
  {
    MatchesEmailIsPattern(ToLower(email));
    CaseKeepsClasses(email);
    PatternRespectsClasses(ToLower(email), email);
  }

  /** Changing the case of letters never changes the verdict. */
  lemma CaseInsensitive(email: string)
    ensures IsEmailValid(ToUpper(email)) == IsEmailValid(email)
    ensures IsEmailValid(ToLower(email)) == IsEmailValid(email)
  {
    IsEmailValidMeansPattern(email);
    IsEmailValidMeansPattern(ToUpper(email));
    IsEmailValidMeansPattern(ToLower(email));
    CaseKeepsClasses(email);
    PatternRespectsClasses(ToUpper(email), email);
    PatternRespectsClasses(ToLower(email), email);
  }

  /** The number of '@' in a string. */
  function AtCount(s: string): nat
  {
    if s == [] then 0 else (if s[0] == '@' then 1 else 0) + AtCount(s[1..])
  }

  lemma {:induction false} AtCountConcat(a: string, b: string)
    ensures AtCount(a + b) == AtCount(a) + AtCount(b)
  {
    if a == [] {
      assert a + b == b;
    } else {
      assert (a + b)[1..] == a[1..] + b;
      AtCountConcat(a[1..], b);
    }
  }

  lemma {:induction false} NoAtInSegment(s: string)
    requires AllSegmentChars(s)
    ensures AtCount(s) == 0
  {
    if s != [] {
      assert SegmentChar(s[0]);
      NoAtInSegment(s[1..]);
    }
  }

  /**
   * A valid address: exactly one '@', no whitespace anywhere, a non-empty
   * part before the '@', and after it a '.' with a character on each side.
   */
  lemma ValidEmailShape(email: string)
    requires IsEmailValid(email)
    ensures AtCount(email) == 1
    ensures NoSpace(email)
    ensures exists k :: 0 < k < |email| && email[k] == '@' && '@' !in email[..k]
    ensures exists k, p :: 0 < k && k + 1 < p < |email| - 1 && email[k] == '@' && email[p] == '.'
  {
    IsEmailValidMeansPattern(email);
    var k, p :| 0 <= k < p < |email| && email[k] == '@' && email[p] == '.'
      && Segment(email[..k]) && Segment(email[k + 1..p]) && Segment(email[p + 1..]);
    Pieces(email, k, p);
    assert [email[k]] == "@" && [email[p]] == ".";
    PiecesShape(email[..k], email[k + 1..p], email[p + 1..]);
    assert '@' !in email[..k] by {
      NoAtInSegment(email[..k]);
      AtCountZero(email[..k]);
    }
  }

  predicate NoSpace(s: string)
  {
    forall i :: 0 <= i < |s| ==> !IsSpace(s[i])
  }

  lemma NoSpaceConcat(a: string, b: string)
    requires NoSpace(a) && NoSpace(b)
    ensures NoSpace(a + b)
  {
    forall i | 0 <= i < |a + b| ensures !IsSpace((a + b)[i]) {
      if i < |a| {
        assert (a + b)[i] == a[i];
      } else {
        assert (a + b)[i] == b[i - |a|];
      }
    }
  }

  lemma {:induction false} AtCountZero(s: string)
    requires AtCount(s) == 0
    ensures '@' !in s
  {
    if s != [] {
      AtCountZero(s[1..]);
      assert s == [s[0]] + s[1..];
    }
  }

  /** Segment, '@', segment, '.', segment: one '@' and no whitespace. */
  lemma PiecesShape(a: string, b: string, c: string)
    requires Segment(a) && Segment(b) && Segment(c)
    ensures AtCount(a + ("@" + (b + ("." + c)))) == 1
    ensures NoSpace(a + ("@" + (b + ("." + c))))
  {
    AtCountConcat(a, "@" + (b + ("." + c)));
    AtCountConcat("@", b + ("." + c));
    AtCountConcat(b, "." + c);
    AtCountConcat(".", c);
    NoAtInSegment(a);
    NoAtInSegment(b);
    NoAtInSegment(c);
    assert AtCount(".") == 0 && AtCount("@") == 1;
    NoSpaceConcat(".", c);
    NoSpaceConcat(b, "." + c);
    NoSpaceConcat("@", b + ("." + c));
    NoSpaceConcat(a, "@" + (b + ("." + c)));
  }

  /** The empty string is never valid. */
  lemma EmptyEmailRejected()
    ensures !IsEmailValid("")
  {
    IsEmailValidMeansPattern("");
  }

  /** The empty string, and a string with whitespace, are never valid. */
  lemma RejectedInputs(email: string)
    requires !NoSpace(email)
    ensures !IsEmailValid("")
    ensures !IsEmailValid(email)
  {
    EmptyEmailRejected();
    if IsEmailValid(email) {
      ValidEmailShape(email);
    }
  }
}
