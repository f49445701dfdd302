/** `text.split(pattern).join(replacement)`: JavaScript's literal
    replace-all, which cuts the text at the leftmost non-overlapping
    occurrences of the pattern and glues the pieces back with the
    replacement, never interpreting either string. */
module Splice {
  import opened Text

  /** `s.split(sep)` for a non-empty separator: the pieces between the
      leftmost non-overlapping occurrences of `sep`, in order. */
  function Split(s: string, sep: string): (parts: seq<string>)
    requires sep != []
    ensures |parts| >= 1
    ensures parts[0] <= s
    decreases |s|
  {
    if sep <= s then [[]] + Split(s[|sep|..], sep)
    else if s == [] then [[]]
    else
      var rest := Split(s[1..], sep);
      [[s[0]] + rest[0]] + rest[1..]
  }

  /** `parts.join(sep)`. */
  function Join(parts: seq<string>, sep: string): string
    requires |parts| >= 1
    decreases |parts|
  {
    if |parts| == 1 then parts[0] else parts[0] + sep + Join(parts[1..], sep)
  }

  /** `s.split(pattern).join(replacement)`. */
  function ReplaceAll(s: string, pattern: string, replacement: string): string
    requires pattern != []
  {
    Join(Split(s, pattern), replacement)
  }

  /** Joining glued lists: the separator appears once between them. */
  lemma {:induction false} JoinAppend(x: seq<string>, y: seq<string>, sep: string)
    requires |x| >= 1 && |y| >= 1
    ensures Join(x + y, sep) == Join(x, sep) + sep + Join(y, sep)
    decreases |x|
  {
    if |x| == 1 {
      assert (x + y)[1..] == y;
    } else {
      assert (x + y)[1..] == x[1..] + y;
      JoinAppend(x[1..], y, sep);
    }
  }

  lemma JoinExtendFirst(c: string, parts: seq<string>, sep: string)
    requires |parts| >= 1
    ensures Join([c + parts[0]] + parts[1..], sep) == c + Join(parts, sep)
  {
    var glued := [c + parts[0]] + parts[1..];
    if |parts| > 1 {
      assert glued[1..] == parts[1..];
    }
  }

  /** The pattern at the front is replaced and skipped. */
  lemma ReplaceAllAtPattern(s: string, pattern: string, replacement: string)
    requires pattern != [] && pattern <= s
    ensures ReplaceAll(s, pattern, replacement)
         == replacement + ReplaceAll(s[|pattern|..], pattern, replacement)
  {
    var rest := Split(s[|pattern|..], pattern);
    assert Split(s, pattern) == [[]] + rest;
    assert ([[]] + rest)[1..] == rest;
  }

  /** Without the pattern at the front, the first character is copied. */
  lemma ReplaceAllPastChar(s: string, pattern: string, replacement: string)
    requires pattern != [] && !(pattern <= s) && s != []
    ensures ReplaceAll(s, pattern, replacement) == [s[0]] + ReplaceAll(s[1..], pattern, replacement)
  {
    var rest := Split(s[1..], pattern);
    assert Split(s, pattern) == [[s[0]] + rest[0]] + rest[1..];
    JoinExtendFirst([s[0]], rest, replacement);
  }

  /** The replace-all read as a left-to-right scan: at each position either
      the pattern starts there, and is replaced and skipped, or one
      character is copied. */
  lemma ReplaceAllStep(s: string, pattern: string, replacement: string)
    requires pattern != []
    ensures ReplaceAll(s, pattern, replacement) ==
              if pattern <= s then replacement + ReplaceAll(s[|pattern|..], pattern, replacement)
              else if s == [] then []
              else [s[0]] + ReplaceAll(s[1..], pattern, replacement)
  {
    if pattern <= s {
      ReplaceAllAtPattern(s, pattern, replacement);
    } else if s != [] {
      ReplaceAllPastChar(s, pattern, replacement);
    }
  }

  /** Splitting on a separator and joining with the same separator gives
      the text back. */
  lemma {:induction false} SplitJoinRoundTrip(s: string, sep: string)
    requires sep != []
    ensures Join(Split(s, sep), sep) == s
    decreases |s|
  {
    ReplaceAllStep(s, sep, sep);
    if sep <= s {
      SplitJoinRoundTrip(s[|sep|..], sep);
      assert s == sep + s[|sep|..];
    } else if s != [] {
      SplitJoinRoundTrip(s[1..], sep);
      assert s == [s[0]] + s[1..];
    }
  }

  /** A prefix of `s` that extends a separator-free string by one character
      at the front is separator-free when `s` does not start with it. */
  lemma ExtendedPieceAvoidsSeparator(s: string, sep: string, c: char, piece: string)
    requires sep != [] && !(sep <= s)
    requires [c] + piece <= s && !Contains(piece, sep)
    ensures !Contains([c] + piece, sep)
  {
    var first := [c] + piece;
    forall i: nat | i <= |first| ensures !OccursAt(first, sep, i) {
      if i > 0 && OccursAt(first, sep, i) {
        assert first[i..i + |sep|] == piece[i - 1..i - 1 + |sep|];
        assert OccursAt(piece, sep, i - 1);
      }
    }
  }

  /** No piece of a split contains the separator. */
  lemma {:induction false} SplitPartsAvoidSeparator(s: string, sep: string)
    requires sep != []
    ensures forall k :: 0 <= k < |Split(s, sep)| ==> !Contains(Split(s, sep)[k], sep)
    decreases |s|
  {
    var parts := Split(s, sep);
    if sep <= s {
      var rest := Split(s[|sep|..], sep);
      SplitPartsAvoidSeparator(s[|sep|..], sep);
      assert parts == [[]] + rest;
      assert !OccursAt(parts[0], sep, 0);
      forall k | 1 <= k < |parts| ensures !Contains(parts[k], sep) {
        assert parts[k] == rest[k - 1];
      }
    } else if s != [] {
      var rest := Split(s[1..], sep);
      SplitPartsAvoidSeparator(s[1..], sep);
      assert parts == [[s[0]] + rest[0]] + rest[1..];
      ExtendedPieceAvoidsSeparator(s, sep, s[0], rest[0]);
      forall k | 1 <= k < |parts| ensures !Contains(parts[k], sep) {
        assert parts[k] == rest[k];
      }
    }
  }

  /** A text in which the pattern does not occur is returned unchanged. */
  lemma {:induction false} ReplaceAllAbsent(s: string, pattern: string, replacement: string)
    requires pattern != [] && !Contains(s, pattern)
    ensures ReplaceAll(s, pattern, replacement) == s
    decreases |s|
  {
    ReplaceAllStep(s, pattern, replacement);
    if pattern <= s {
      assert OccursAt(s, pattern, 0);
    } else if s != [] {
      forall i: nat | i <= |s[1..]| ensures !OccursAt(s[1..], pattern, i) {
        if OccursAt(s[1..], pattern, i) {
          assert s[i + 1..i + 1 + |pattern|] == s[1..][i..i + |pattern|];
          assert OccursAt(s, pattern, i + 1);
        }
      }
      ReplaceAllAbsent(s[1..], pattern, replacement);
      assert s == [s[0]] + s[1..];
    }
  }

  /** A stretch of text none of whose characters can begin the pattern is
      copied through unchanged. */
  lemma {:induction false} ReplaceAllSkips(a: string, t: string, pattern: string, replacement: string)
    requires pattern != []
    requires forall i :: 0 <= i < |a| ==> a[i] != pattern[0]
    ensures ReplaceAll(a + t, pattern, replacement) == a + ReplaceAll(t, pattern, replacement)
    decreases |a|
  {
    if a != [] {
      ReplaceAllStep(a + t, pattern, replacement);
      assert (a + t)[0] == a[0];
      assert !(pattern <= a + t);
      assert (a + t)[1..] == a[1..] + t;
      ReplaceAllSkips(a[1..], t, pattern, replacement);
      calc {
        ReplaceAll(a + t, pattern, replacement);
        [a[0]] + ReplaceAll(a[1..] + t, pattern, replacement);
        [a[0]] + (a[1..] + ReplaceAll(t, pattern, replacement));
        { assert a == [a[0]] + a[1..]; }
        a + ReplaceAll(t, pattern, replacement);
      }
    } else {
      assert a + t == t;
    }
  }

  /** The first piece of `s.split(c)` is the text before the first `c`. */
  lemma {:induction false} SplitHeadIsBeforeFirst(s: string, c: char)
    ensures Split(s, [c])[0] == BeforeFirst(s, c)
    decreases |s|
  {
    if s != [] && s[0] != c {
      assert !([c] <= s);
      SplitHeadIsBeforeFirst(s[1..], c);
    }
  }
}
