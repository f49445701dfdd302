/** Replacing a quoted token `"K"` by `"V"` seen through the quote marks.
    A text is its quote-free segments joined by `"`; the segments between
    two quote marks are the enclosed ones. When K and V contain no quote
    mark, the replace-all of `"K"` by `"V"` changes exactly the enclosed
    segments equal to K, except that a segment whose opening quote was the
    closing quote of the previous replacement is skipped: the scan has
    already consumed that quote. */
module QuotedTokens {
  import opened Text
  import opened Splice

  const QuoteMark: string := "\""

  /** `"${k}"`: a token between double quotes. */
  function Quoted(k: string): string {
    QuoteMark + k + QuoteMark
  }

  predicate QuoteFree(s: string) {
    forall i :: 0 <= i < |s| ==> s[i] != '"'
  }

  predicate AllQuoteFree(segs: seq<string>) {
    forall j :: 0 <= j < |segs| ==> QuoteFree(segs[j])
  }

  /** The quote-free segments of a text: `s.split('"')`. */
  function Segments(s: string): seq<string> {
    Split(s, QuoteMark)
  }

  /** Every text is its segments joined by quote marks. */
  lemma SegmentsRoundTrip(s: string)
    ensures |Segments(s)| >= 1 && AllQuoteFree(Segments(s))
    ensures Join(Segments(s), QuoteMark) == s
  {
    SplitJoinRoundTrip(s, QuoteMark);
    SplitPartsAvoidSeparator(s, QuoteMark);
    var segs := Segments(s);
    forall j, i | 0 <= j < |segs| && 0 <= i < |segs[j]| ensures segs[j][i] != '"' {
      if segs[j][i] == '"' {
        assert OccursAt(segs[j], QuoteMark, i);
      }
    }
  }

  /** Segment `i` has a quote mark on each side. */
  predicate Enclosed(segs: seq<string>, i: int) {
    1 <= i < |segs| - 1
  }

  /** Whether the scan for `"k"` replaces enclosed segment `i`: it does
      unless segment `i - 1` was replaced, whose closing quote the scan has
      consumed. */
  function Replaced(segs: seq<string>, k: string, i: nat): bool
    requires i < |segs|
    decreases i
  {
    Enclosed(segs, i) && segs[i] == k && !Replaced(segs, k, i - 1)
  }

  /** The segments after replacing `"k"` by `"v"`. */
  function ReplaceSegments(segs: seq<string>, k: string, v: string): seq<string> {
    seq(|segs|, i requires 0 <= i < |segs| => if Replaced(segs, k, i) then v else segs[i])
  }

  /** Dropping a leading block of segments that ends in a segment left
      alone does not change which of the later segments are replaced. */
  lemma {:induction false} ReplacedShift(segs: seq<string>, k: string, d: nat, i: nat)
    requires d <= i < |segs| && !Replaced(segs, k, d)
    ensures Replaced(segs, k, i) == Replaced(segs[d..], k, i - d)
    decreases i
  {
    if i > d {
      ReplacedShift(segs, k, d, i - 1);
      assert segs[d..][i - d] == segs[i];
    }
  }

  /** Where a quoted token can start in `"a` followed by a quote mark or by
      nothing: only at `"a"` itself. */
  lemma QuotedTokenAt(k: string, a: string, rest: string)
    requires QuoteFree(k) && QuoteFree(a)
    requires rest == [] || rest[0] == '"'
    requires Quoted(k) <= QuoteMark + a + rest
    ensures a == k && rest != []
  {
    var x := QuoteMark + a + rest;
    var q := Quoted(k);
    assert x[..|q|] == q;
    assert |x| >= |q|;
    assert forall i :: 0 <= i < |q| ==> x[i] == q[i];
    assert forall i :: 1 <= i <= |k| ==> q[i] == k[i - 1];
    assert forall i :: 1 <= i <= |a| ==> x[i] == a[i - 1];
    assert |x| > 1 + |a| ==> x[1 + |a|] == '"';
    assert q[1 + |k|] == '"';
    assert |a| == |k|;
    assert a == x[1..1 + |a|];
    assert k == q[1..1 + |k|];
  }

  /** The scan arriving at `"k"`: the token is replaced. */
  lemma ScanAtToken(k: string, rest: string, v: string)
    requires rest != [] && rest[0] == '"'
    ensures ReplaceAll(QuoteMark + k + rest, Quoted(k), Quoted(v))
         == Quoted(v) + ReplaceAll(rest[1..], Quoted(k), Quoted(v))
  {
    var x, pat := QuoteMark + k + rest, Quoted(k);
    assert rest == QuoteMark + rest[1..];
    assert x == pat + rest[1..];
    assert pat <= x;
    assert x[|pat|..] == rest[1..];
    ReplaceAllStep(x, pat, Quoted(v));
  }

  /** The scan arriving at a quote mark not followed by `k"`: the quote
      mark is copied. */
  lemma ScanPastQuote(a: string, rest: string, k: string, v: string)
    requires QuoteFree(k) && QuoteFree(a)
    requires rest == [] || rest[0] == '"'
    requires !(a == k && rest != [])
    ensures ReplaceAll(QuoteMark + a + rest, Quoted(k), Quoted(v))
         == QuoteMark + ReplaceAll(a + rest, Quoted(k), Quoted(v))
  {
    var x, pat := QuoteMark + a + rest, Quoted(k);
    if pat <= x {
      QuotedTokenAt(k, a, rest);
      assert false;
    }
    assert x[1..] == a + rest;
    ReplaceAllStep(x, pat, Quoted(v));
  }

  /** The scan arriving at a quote mark followed by segment `a`: it replaces
      `"a"` when `a` is the token, and otherwise copies the quote mark. */
  lemma ScanAtQuote(a: string, rest: string, k: string, v: string)
    requires QuoteFree(k) && QuoteFree(a)
    requires rest == [] || rest[0] == '"'
    ensures ReplaceAll(QuoteMark + a + rest, Quoted(k), Quoted(v)) ==
              if a == k && rest != [] then Quoted(v) + ReplaceAll(rest[1..], Quoted(k), Quoted(v))
              else QuoteMark + ReplaceAll(a + rest, Quoted(k), Quoted(v))
  {
    if a == k && rest != [] {
      ScanAtToken(k, rest, v);
    } else {
      ScanPastQuote(a, rest, k, v);
    }
  }

  /** When segment 1 is the token, segments 0 and 1 become `a0` and `v` and
      the rest is replaced as if it stood alone. */
  lemma SegmentsAfterMatch(segs: seq<string>, k: string, v: string)
    requires |segs| >= 3 && segs[1] == k
    ensures ReplaceSegments(segs, k, v) == [segs[0], v] + ReplaceSegments(segs[2..], k, v)
  {
    assert Replaced(segs, k, 1);
    forall i | 2 <= i < |segs| ensures Replaced(segs, k, i) == Replaced(segs[2..], k, i - 2) {
      ReplacedShift(segs, k, 2, i);
    }
  }

  /** When segment 1 is not the token, segment 0 is kept and the rest is
      replaced as if it stood alone. */
  lemma SegmentsAfterMiss(segs: seq<string>, k: string, v: string)
    requires |segs| >= 2 && segs[1] != k
    ensures ReplaceSegments(segs, k, v) == [segs[0]] + ReplaceSegments(segs[1..], k, v)
  {
    forall i | 1 <= i < |segs| ensures Replaced(segs, k, i) == Replaced(segs[1..], k, i - 1) {
      ReplacedShift(segs, k, 1, i);
    }
  }

  /** A quote-free text holds no quoted token. */
  lemma ReplaceAllQuotedOne(a0: string, k: string, v: string)
    requires QuoteFree(a0)
    ensures ReplaceAll(a0, Quoted(k), Quoted(v)) == a0
  {
    var pat, rep := Quoted(k), Quoted(v);
    assert pat[0] == '"';
    ReplaceAllStep([], pat, rep);
    ReplaceAllSkips(a0, [], pat, rep);
    assert a0 + [] == a0;
  }

  /** A text with one quote mark holds no quoted token. */
  lemma ReplaceAllQuotedTwo(a0: string, a1: string, k: string, v: string)
    requires QuoteFree(a0) && QuoteFree(a1) && QuoteFree(k)
    ensures ReplaceAll(a0 + (QuoteMark + a1), Quoted(k), Quoted(v)) == a0 + (QuoteMark + a1)
  {
    var pat, rep := Quoted(k), Quoted(v);
    assert pat[0] == '"';
    ReplaceAllSkips(a0, QuoteMark + a1, pat, rep);
    assert QuoteMark + a1 + [] == QuoteMark + a1;
    ScanAtQuote(a1, [], k, v);
    assert a1 + [] == a1;
    ReplaceAllQuotedOne(a1, k, v);
  }

  /** Fewer than three segments enclose none. */
  lemma ShortSegmentsUnchanged(segs: seq<string>, k: string, v: string)
    requires |segs| <= 2
    ensures ReplaceSegments(segs, k, v) == segs
  {
    forall i | 0 <= i < |segs| ensures !Replaced(segs, k, i) {
    }
  }

  /** Two segments joined by a quote mark. */
  lemma JoinPair(segs: seq<string>)
    requires |segs| == 2
    ensures Join(segs, QuoteMark) == segs[0] + (QuoteMark + segs[1])
  {
    assert segs[1..] == [segs[1]];
  }

  /** A text of at most one quote mark holds no quoted token. */
  lemma ReplaceAllQuotedShort(segs: seq<string>, k: string, v: string)
    requires 1 <= |segs| <= 2 && AllQuoteFree(segs) && QuoteFree(k)
    ensures ReplaceAll(Join(segs, QuoteMark), Quoted(k), Quoted(v))
         == Join(ReplaceSegments(segs, k, v), QuoteMark)
  {
    ShortSegmentsUnchanged(segs, k, v);
    if |segs| == 1 {
      assert Join(segs, QuoteMark) == segs[0];
      ReplaceAllQuotedOne(segs[0], k, v);
    } else {
      JoinPair(segs);
      ReplaceAllQuotedTwo(segs[0], segs[1], k, v);
    }
  }

  /** Regrouping five strings. */
  lemma Regroup(a: string, b: string, c: string, d: string, e: string)
    ensures a + b + (c + d + e) == a + (b + c + (d + e))
  {
  }

  /** A text of three or more segments, cut after its first two. */
  lemma JoinFirstTwo(segs: seq<string>)
    requires |segs| >= 3
    ensures Join(segs, QuoteMark)
         == segs[0] + (QuoteMark + segs[1] + (QuoteMark + Join(segs[2..], QuoteMark)))
  {
    var later := Join(segs[2..], QuoteMark);
    assert segs[1..][1..] == segs[2..];
    assert Join(segs, QuoteMark) == segs[0] + QuoteMark + Join(segs[1..], QuoteMark);
    assert Join(segs[1..], QuoteMark) == segs[1] + QuoteMark + later;
    Regroup(segs[0], QuoteMark, segs[1], QuoteMark, later);
  }

  /** The scan over `a0"k"rest`: `a0` is copied and `"k"` replaced. */
  lemma ScanMatch(a0: string, k: string, v: string, rest: string)
    requires QuoteFree(a0) && QuoteFree(k)
    ensures ReplaceAll(a0 + (QuoteMark + k + (QuoteMark + rest)), Quoted(k), Quoted(v))
         == a0 + (Quoted(v) + ReplaceAll(rest, Quoted(k), Quoted(v)))
  {
    var tail := QuoteMark + k + (QuoteMark + rest);
    ReplaceAllSkips(a0, tail, Quoted(k), Quoted(v));
    ScanAtQuote(k, QuoteMark + rest, k, v);
    assert (QuoteMark + rest)[1..] == rest;
  }

  /** The scan over `a0"a1"rest` when `a1` is not the token: `a0` and the
      quote mark are copied. */
  lemma ScanMiss(a0: string, a1: string, k: string, v: string, rest: string)
    requires QuoteFree(a0) && QuoteFree(a1) && QuoteFree(k) && a1 != k
    ensures ReplaceAll(a0 + (QuoteMark + a1 + (QuoteMark + rest)), Quoted(k), Quoted(v))
         == a0 + (QuoteMark + ReplaceAll(a1 + (QuoteMark + rest), Quoted(k), Quoted(v)))
  {
    var tail := QuoteMark + a1 + (QuoteMark + rest);
    ReplaceAllSkips(a0, tail, Quoted(k), Quoted(v));
    ScanAtQuote(a1, QuoteMark + rest, k, v);
  }

  /** The text `a0"k"rest` after the replace-all. */
  lemma MatchText(segs: seq<string>, k: string, v: string)
    requires |segs| >= 3 && QuoteFree(segs[0]) && QuoteFree(k) && segs[1] == k
    ensures ReplaceAll(Join(segs, QuoteMark), Quoted(k), Quoted(v))
         == segs[0] + (Quoted(v) + ReplaceAll(Join(segs[2..], QuoteMark), Quoted(k), Quoted(v)))
  {
    JoinFirstTwo(segs);
    ScanMatch(segs[0], k, v, Join(segs[2..], QuoteMark));
  }

  /** The segments of `a0"k"rest` after replacing, joined. */
  lemma MatchSegments(segs: seq<string>, k: string, v: string)
    requires |segs| >= 3 && segs[1] == k
    ensures Join(ReplaceSegments(segs, k, v), QuoteMark)
         == segs[0] + (Quoted(v) + Join(ReplaceSegments(segs[2..], k, v), QuoteMark))
  {
    var a0, later := segs[0], ReplaceSegments(segs[2..], k, v);
    SegmentsAfterMatch(segs, k, v);
    JoinAppend([a0, v], later, QuoteMark);
    assert [a0, v][1..] == [v];
    assert Join([a0, v], QuoteMark) == a0 + QuoteMark + v;
  }

  /** The text `a0"a1"rest` after the replace-all, when `a1` is not the token. */
  lemma MissText(segs: seq<string>, k: string, v: string)
    requires |segs| >= 3 && QuoteFree(segs[0]) && QuoteFree(segs[1]) && QuoteFree(k)
    requires segs[1] != k
    ensures ReplaceAll(Join(segs, QuoteMark), Quoted(k), Quoted(v))
         == segs[0] + (QuoteMark + ReplaceAll(Join(segs[1..], QuoteMark), Quoted(k), Quoted(v)))
  {
    var rest := Join(segs[2..], QuoteMark);
    JoinFirstTwo(segs);
    assert segs[1..][1..] == segs[2..];
    assert Join(segs[1..], QuoteMark) == segs[1] + (QuoteMark + rest);
    ScanMiss(segs[0], segs[1], k, v, rest);
  }

  /** The segments of `a0"a1"rest` after replacing, joined, when `a1` is not
      the token. */
  lemma MissSegments(segs: seq<string>, k: string, v: string)
    requires |segs| >= 3 && segs[1] != k
    ensures Join(ReplaceSegments(segs, k, v), QuoteMark)
         == segs[0] + (QuoteMark + Join(ReplaceSegments(segs[1..], k, v), QuoteMark))
  {
    var later := ReplaceSegments(segs[1..], k, v);
    SegmentsAfterMiss(segs, k, v);
    JoinAppend([segs[0]], later, QuoteMark);
  }

  /** Replacing `"k"` by `"v"` in a text is replacing segments. */
  lemma {:induction false} ReplaceAllQuoted(segs: seq<string>, k: string, v: string)
    requires |segs| >= 1 && AllQuoteFree(segs) && QuoteFree(k)
    ensures ReplaceAll(Join(segs, QuoteMark), Quoted(k), Quoted(v))
         == Join(ReplaceSegments(segs, k, v), QuoteMark)
    decreases |segs|
  {
    if |segs| <= 2 {
      ReplaceAllQuotedShort(segs, k, v);
    } else if segs[1] == k {
      ReplaceAllQuoted(segs[2..], k, v);
      MatchText(segs, k, v);
      MatchSegments(segs, k, v);
    } else {
      ReplaceAllQuoted(segs[1..], k, v);
      MissText(segs, k, v);
      MissSegments(segs, k, v);
    }
  }

  lemma ContainsWithin(x: string, y: string, z: string, p: string)
    requires Contains(y, p)
    ensures Contains(x + y + z, p)
  {
    var i: nat :| i <= |y| && OccursAt(y, p, i);
    assert (x + y + z)[|x| + i..|x| + i + |p|] == y[i..i + |p|];
    assert OccursAt(x + y + z, p, |x| + i);
  }

  /** A run of enclosed segments appears in the text between quote marks. */
  lemma {:induction false} EnclosedRunOccurs(segs: seq<string>, i: nat, j: nat)
    requires 1 <= i <= j < |segs| - 1
    ensures Contains(Join(segs, QuoteMark), QuoteMark + Join(segs[i..j + 1], QuoteMark) + QuoteMark)
    decreases i
  {
    var run := QuoteMark + Join(segs[i..j + 1], QuoteMark) + QuoteMark;
    var tail := Join(segs[1..], QuoteMark);
    assert Join(segs, QuoteMark) == segs[0] + QuoteMark + tail;
    if i == 1 {
      assert segs[1..] == segs[1..j + 1] + segs[j + 1..];
      JoinAppend(segs[1..j + 1], segs[j + 1..], QuoteMark);
      assert OccursAt(run, run, 0);
      ContainsWithin(segs[0], run, Join(segs[j + 1..], QuoteMark), run);
      assert Join(segs, QuoteMark) == segs[0] + run + Join(segs[j + 1..], QuoteMark);
    } else {
      EnclosedRunOccurs(segs[1..], i - 1, j - 1);
      assert segs[1..][i - 1..j] == segs[i..j + 1];
      ContainsWithin(segs[0] + QuoteMark, tail, [], run);
      assert segs[0] + QuoteMark + tail + [] == Join(segs, QuoteMark);
    }
  }

  /** A quoted token that starts at the first quote mark of the text is
      segment 1, and segment 1 is enclosed. */
  lemma QuotedTokenAtFirstQuote(segs: seq<string>, k: string)
    requires |segs| > 1 && QuoteFree(segs[1]) && QuoteFree(k)
    requires Quoted(k) <= QuoteMark + Join(segs[1..], QuoteMark)
    ensures Enclosed(segs, 1) && segs[1] == k
  {
    var a1 := segs[1];
    var rest := if |segs| == 2 then [] else QuoteMark + Join(segs[2..], QuoteMark);
    if |segs| > 2 {
      assert segs[1..][1..] == segs[2..];
    }
    assert Join(segs[1..], QuoteMark) == a1 + rest;
    assert QuoteMark + Join(segs[1..], QuoteMark) == QuoteMark + a1 + rest;
    QuotedTokenAt(k, a1, rest);
  }

  /** An occurrence past the first quote mark is an occurrence in what
      follows it. */
  lemma OccursPastQuote(a0: string, tail: string, pat: string, p: nat)
    requires p > |a0| && OccursAt(a0 + QuoteMark + tail, pat, p)
    ensures OccursAt(tail, pat, p - |a0| - 1)
  {
    var text := a0 + QuoteMark + tail;
    assert text[p..p + |pat|] == tail[p - |a0| - 1..p - |a0| - 1 + |pat|];
  }

  /** A quoted token occurs in a text only as an enclosed segment. */
  lemma {:induction false} QuotedTokenOccurs(segs: seq<string>, k: string)
    requires |segs| >= 1 && AllQuoteFree(segs) && QuoteFree(k)
    requires Contains(Join(segs, QuoteMark), Quoted(k))
    ensures exists i :: Enclosed(segs, i) && segs[i] == k
    decreases |segs|
  {
    var text, pat := Join(segs, QuoteMark), Quoted(k);
    var p: nat :| p <= |text| && OccursAt(text, pat, p);
    assert text[p] == pat[0] == '"';
    if |segs| > 1 {
      var a0, tail := segs[0], Join(segs[1..], QuoteMark);
      assert text == a0 + QuoteMark + tail;
      assert text[|a0|..] == QuoteMark + tail;
      assert p >= |a0|;
      if p == |a0| {
        assert pat <= text[p..];
        QuotedTokenAtFirstQuote(segs, k);
        assert Enclosed(segs, 1) && segs[1] == k;
      } else {
        OccursPastQuote(a0, tail, pat, p);
        QuotedTokenOccurs(segs[1..], k);
        var i :| Enclosed(segs[1..], i) && segs[1..][i] == k;
        assert Enclosed(segs, i + 1) && segs[i + 1] == k;
      }
    }
  }

  /** One quoted token occurs inside another only when the two are the
      same token: `"A_1"` never matches inside `"A_10"`. */
  lemma QuotedTokenInQuotedToken(k1: string, k2: string)
    requires QuoteFree(k1) && QuoteFree(k2)
    ensures Contains(Quoted(k2), Quoted(k1)) <==> k1 == k2
  {
    var segs := ["", k2, ""];
    assert segs[1..] == [k2, ""] && segs[1..][1..] == [""];
    assert Join([""], QuoteMark) == "";
    assert Join([k2, ""], QuoteMark) == k2 + QuoteMark;
    assert Join(segs, QuoteMark) == Quoted(k2);
    if Contains(Quoted(k2), Quoted(k1)) {
      QuotedTokenOccurs(segs, k1);
    }
    if k1 == k2 {
      assert OccursAt(Quoted(k2), Quoted(k1), 0);
    }
  }

  /** Replacing several tokens at once, each enclosed segment by the value
      the map gives its text, with the same skip rule as a single token. */
  function RehydrateSegs(segs: seq<string>, m: map<string, string>): seq<string> {
    seq(|segs|, i requires 0 <= i < |segs| =>
      if segs[i] in m && Replaced(segs, segs[i], i) then m[segs[i]] else segs[i])
  }

  /** A segment that still reads `k` after the replacement, where no value
      is `k`, was skipped because the segment before it read `k` and was
      replaced: the text had `"k"k"`. */
  lemma LeftoverIsAdjacent(segs: seq<string>, m: map<string, string>, k: string, i: nat)
    requires Enclosed(segs, i) && k in m && RehydrateSegs(segs, m)[i] == k
    requires forall x :: x in m ==> m[x] != k
    ensures Enclosed(segs, i - 1) && segs[i - 1] == k && segs[i] == k
  {
    assert segs[i] == k;
    assert Replaced(segs, k, i - 1);
  }

  /** Two neighbouring enclosed segments both reading `k` show `"k"k"` in
      the text. */
  lemma AdjacentPairOccurs(segs: seq<string>, k: string, i: nat)
    requires Enclosed(segs, i - 1) && Enclosed(segs, i) && segs[i - 1] == k && segs[i] == k
    ensures Contains(Join(segs, QuoteMark), Quoted(k) + k + QuoteMark)
  {
    EnclosedRunOccurs(segs, i - 1, i);
    assert segs[i - 1..i + 1] == [k, k];
    assert segs[i - 1..i + 1][1..] == [k];
    assert Join([k, k], QuoteMark) == k + QuoteMark + k;
    assert QuoteMark + Join(segs[i - 1..i + 1], QuoteMark) + QuoteMark == Quoted(k) + k + QuoteMark;
  }

  /** Replacing token `k` by `v` does not move the replacements of another
      token `k2`, as long as `v` is not `k2` either. */
  lemma {:induction false} ReplacedUnaffected(segs: seq<string>, k: string, v: string, k2: string, i: nat)
    requires i < |segs| && k2 != k && k2 != v
    ensures Replaced(ReplaceSegments(segs, k, v), k2, i) == Replaced(segs, k2, i)
    decreases i
  {
    if i > 0 {
      ReplacedUnaffected(segs, k, v, k2, i - 1);
    }
  }

  /** Replacing `k` by `v` and then the tokens of `m` is replacing the
      tokens of `m` extended with `k` mapped to `v`, when neither `k` nor
      `v` is a token of `m`. */
  lemma ComposeSegs(segs: seq<string>, k: string, v: string, m: map<string, string>)
    requires k !in m && v !in m
    ensures RehydrateSegs(ReplaceSegments(segs, k, v), m) == RehydrateSegs(segs, m[k := v])
  {
    var t := ReplaceSegments(segs, k, v);
    forall i | 0 <= i < |segs|
      ensures RehydrateSegs(t, m)[i] == RehydrateSegs(segs, m[k := v])[i]
    {
      if segs[i] != k && segs[i] in m {
        ReplacedUnaffected(segs, k, v, segs[i], i);
      }
    }
  }

  /** Replacing no token changes nothing. */
  lemma RehydrateSegsEmpty(segs: seq<string>)
    ensures RehydrateSegs(segs, map[]) == segs
  {
  }

  /** Four segments joined by quote marks. */
  lemma JoinFour(a: string, b: string, c: string, d: string)
    ensures Join([a, b, c, d], QuoteMark) == a + QuoteMark + b + QuoteMark + c + QuoteMark + d
  {
    assert [c, d][1..] == [d];
    assert Join([c, d], QuoteMark) == c + QuoteMark + d;
    assert [b, c, d][1..] == [c, d];
    assert Join([b, c, d], QuoteMark) == b + QuoteMark + (c + QuoteMark + d);
    assert [a, b, c, d][1..] == [b, c, d];
    assert Join([a, b, c, d], QuoteMark) == a + QuoteMark + (b + QuoteMark + (c + QuoteMark + d));
  }

  /** In the segments of `"k"k"` only the first enclosed `k` is replaced. */
  lemma AdjacentSegments(k: string, v: string)
    ensures ReplaceSegments(["", k, k, ""], k, v) == ["", v, k, ""]
  {
    var segs := ["", k, k, ""];
    assert Replaced(segs, k, 1) && !Replaced(segs, k, 2);
  }

  /** The concrete case that defeats "no `"k"` is left": in `"k"k"` the
      second token shares its opening quote with the first, which the
      replacement has already consumed. */
  lemma AdjacentTokenSurvives(k: string, v: string)
    requires QuoteFree(k) && QuoteFree(v)
    ensures ReplaceAll(Quoted(k) + k + QuoteMark, Quoted(k), Quoted(v)) == Quoted(v) + k + QuoteMark
    ensures Contains(Quoted(v) + k + QuoteMark, Quoted(k))
  {
    var segs := ["", k, k, ""];
    JoinFour("", k, k, "");
    assert Join(segs, QuoteMark) == Quoted(k) + k + QuoteMark;
    JoinFour("", v, k, "");
    assert Join(["", v, k, ""], QuoteMark) == Quoted(v) + k + QuoteMark;
    assert AllQuoteFree(segs);
    ReplaceAllQuoted(segs, k, v);
    AdjacentSegments(k, v);
    var r := Quoted(v) + k + QuoteMark;
    assert r == QuoteMark + v + Quoted(k);
    assert r[|v| + 1..] == Quoted(k);
    assert OccursAt(r, Quoted(k), |v| + 1);
  }
}
