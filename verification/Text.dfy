/** String helpers shared by every component: white-space trimming, the byte
    order that Go's `sort.Strings` uses, and the small option/result types. */
module Text {

  datatype Option<+T> = None | Some(value: T)

  datatype Result<+T> = Ok(value: T) | Err(reason: string)

  /** The code points that `strings.TrimSpace` removes (Unicode White_Space), as
      inclusive ranges. */
  const WHITE_SPACE: seq<(char, char)> := [
    ('\t', '\r'), (' ', ' '), ('\U{85}', '\U{85}'), ('\U{A0}', '\U{A0}'), ('\U{1680}', '\U{1680}'),
    ('\U{2000}', '\U{200A}'), ('\U{2028}', '\U{2029}'), ('\U{202F}', '\U{202F}'), ('\U{205F}', '\U{205F}'),
    ('\U{3000}', '\U{3000}')]

  predicate InRanges(c: char, ranges: seq<(char, char)>) {
    ranges != [] && (ranges[0].0 <= c <= ranges[0].1 || InRanges(c, ranges[1..]))
  }

  predicate IsSpace(c: char) {
    InRanges(c, WHITE_SPACE)
  }

  lemma {:induction false} OutsideRanges(c: char, ranges: seq<(char, char)>)
    requires forall i :: 0 <= i < |ranges| ==> c < ranges[i].0 || ranges[i].1 < c
    ensures !InRanges(c, ranges)
  {
    if ranges != [] { OutsideRanges(c, ranges[1..]); }
  }

  /** Visible ASCII is not white space. */
  lemma VisibleAscii(c: char)
    requires '!' <= c <= '~'
    ensures !IsSpace(c)
  {
    OutsideRanges(c, WHITE_SPACE);
  }

  /** `strings.TrimSpace`. */
  function Trim(s: string): string {
    if s != "" && IsSpace(s[0]) then Trim(s[1..])
    else if s != "" && IsSpace(s[|s| - 1]) then Trim(s[..|s| - 1])
    else s
  }

  /** `TrimSpace` has nothing to remove. */
  predicate Trimmed(s: string) {
    Trim(s) == s
  }

  lemma {:induction false} TrimTrims(s: string)
    ensures Trimmed(Trim(s))
  {
    if s != "" && IsSpace(s[0]) {
      TrimTrims(s[1..]);
    } else if s != "" && IsSpace(s[|s| - 1]) {
      TrimTrims(s[..|s| - 1]);
    }
  }

  lemma {:induction false} TrimShortens(s: string)
    ensures |Trim(s)| <= |s|
  {
    if s != "" && IsSpace(s[0]) {
      TrimShortens(s[1..]);
    } else if s != "" && IsSpace(s[|s| - 1]) {
      TrimShortens(s[..|s| - 1]);
    }
  }

  lemma {:induction false} TrimWithin(s: string)
    ensures forall c <- Trim(s) :: c in s
  {
    if s != "" && IsSpace(s[0]) {
      TrimWithin(s[1..]);
    } else if s != "" && IsSpace(s[|s| - 1]) {
      TrimWithin(s[..|s| - 1]);
    }
  }

  /** A string is trimmed exactly when neither end is white space. */
  lemma TrimmedEnds(s: string)
    ensures Trimmed(s) <==> (s != "" ==> !IsSpace(s[0]) && !IsSpace(s[|s| - 1]))
  {
    if s != "" && IsSpace(s[0]) {
      TrimShortens(s[1..]);
    } else if s != "" && IsSpace(s[|s| - 1]) {
      TrimShortens(s[..|s| - 1]);
    }
  }

  /** What is removed is white space, at either end. */
  lemma {:induction false} TrimIs(s: string) returns (i: nat, j: nat)
    ensures i <= j <= |s| && Trim(s) == s[i..j]
    ensures forall k :: 0 <= k < i || j <= k < |s| ==> IsSpace(s[k])
  {
    i, j := 0, |s|;
    if s != "" && IsSpace(s[0]) {
      i, j := TrimIs(s[1..]);
      assert forall k :: 0 <= k < |s| - 1 ==> s[1..][k] == s[k + 1];
      i, j := i + 1, j + 1;
    } else if s != "" && IsSpace(s[|s| - 1]) {
      i, j := TrimIs(s[..|s| - 1]);
    }
  }

  predicate Blank(s: string) {
    Trim(s) == ""
  }

  lemma EmptyIsBlank()
    ensures Blank("")
  {
  }

  predicate HasPrefix(s: string, prefix: string) {
    prefix <= s
  }

  /** Strict lexicographic order by code point, which is the byte order of the
      UTF-8 encodings that Go compares. */
  predicate Less(a: string, b: string) {
    b != "" && (a == "" || a[0] < b[0] || (a[0] == b[0] && Less(a[1..], b[1..])))
  }

  /** `k` is the first place where they differ, and `a` has the smaller code point. */
  ghost predicate SmallerAt(a: string, b: string, k: nat) {
    k < |a| && k < |b| && a[k] < b[k] && forall m :: 0 <= m < k ==> a[m] == b[m]
  }

  /** The first place where they differ decides; failing that the shorter is less. */
  lemma {:induction false} LessIs(a: string, b: string)
    ensures Less(a, b) <==> a < b || exists k: nat :: SmallerAt(a, b, k)
  {
    if a != "" && b != "" {
      var c, d := a[1..], b[1..];
      assert a == [a[0]] + c && b == [b[0]] + d;
      if a[0] == b[0] {
        LessIs(c, d);
        forall k: nat ensures SmallerAt(c, d, k) <==> SmallerAt(a, b, k + 1) { ShiftedAt(a, b, k); }
        if k: nat :| SmallerAt(a, b, k) { assert SmallerAt(c, d, k - 1); }
        if k: nat :| SmallerAt(c, d, k) { assert SmallerAt(a, b, k + 1); }
      } else if a[0] < b[0] {
        assert SmallerAt(a, b, 0);
      } else {
        assert forall k: nat :: SmallerAt(a, b, k) ==> k == 0;
      }
    }
  }

  lemma ShiftedAt(a: string, b: string, k: nat)
    requires a != "" && b != "" && a[0] == b[0]
    ensures SmallerAt(a[1..], b[1..], k) <==> SmallerAt(a, b, k + 1)
  {
    if SmallerAt(a[1..], b[1..], k) {
      forall m | 0 <= m < k + 1 ensures a[m] == b[m] {
        if m > 0 { assert a[1..][m - 1] == b[1..][m - 1]; }
      }
    }
  }

  lemma {:induction false} LessIrreflexive(a: string)
    ensures !Less(a, a)
  {
    if a != "" {
      LessIrreflexive(a[1..]);
    }
  }

  lemma {:induction false} LessTransitive(a: string, b: string, c: string)
    requires Less(a, b) && Less(b, c)
    ensures Less(a, c)
  {
    if a != "" && a[0] == b[0] && b[0] == c[0] {
      LessTransitive(a[1..], b[1..], c[1..]);
    }
  }

  lemma {:induction false} LessTotal(a: string, b: string)
    ensures Less(a, b) || a == b || Less(b, a)
  {
    if a != "" && b != "" && a[0] == b[0] {
      LessTotal(a[1..], b[1..]);
      assert a == [a[0]] + a[1..] && b == [b[0]] + b[1..];
    }
  }

  lemma HasMember<T>(s: seq<T>)
    ensures s == [] || exists x :: x in s
  {
    if s != [] {
      assert s[0] in s;
    }
  }
}
