/** The guide generator's own logic around the AI call. Images never travel
    to the model: each is swapped for a placeholder token before the call
    and put back into the returned text afterwards. Before a chat starts, the
    parsed guide has its images replaced by short descriptors. The call
    itself is an outcome given from outside. */
module GeminiService {
  import opened Wrappers
  import opened Text
  import opened Splice
  import opened QuotedTokens
  import opened Types
  import opened GuideDocument

  const PlaceholderPrefix: string := "IMG_PLACEHOLDER_"
  const HostKey: string := PlaceholderPrefix + "HOST"
  const HeroKey: string := PlaceholderPrefix + "HERO"

  /** `IMG_PLACEHOLDER_GALLERY_${i}`. */
  function GalleryKey(i: nat): string {
    PlaceholderPrefix + "GALLERY_" + DecimalString(i)
  }

  /** A gallery photo is sent by placeholder only when it is an inlined
      image: a non-empty string starting with `data:image`. */
  predicate IsInlineImage(photo: string) {
    photo != "" && StartsWith(photo, "data:image")
  }

  /** One entry of the image map: a placeholder token and the image text it
      stands for. */
  type Entry = (string, string)

  // ---------------------------------------------------------------------
  // The image map
  // ---------------------------------------------------------------------

  /** The indices below `n` of the inlined gallery photos, ascending. */
  function InlineIndices(photos: seq<string>, n: nat): (r: seq<nat>)
    requires n <= |photos|
    ensures forall j :: 0 <= j < |r| ==> r[j] < n && IsInlineImage(photos[r[j]])
    ensures forall j, l :: 0 <= j < l < |r| ==> r[j] < r[l]
    ensures forall i :: 0 <= i < n && IsInlineImage(photos[i]) ==> i in r
    decreases n
  {
    if n == 0 then []
    else InlineIndices(photos, n - 1) + (if IsInlineImage(photos[n - 1]) then [n - 1] else [])
  }

  /** The gallery entries the loop has added after its first `n` photos. */
  function GalleryEntries(photos: seq<string>, n: nat): seq<Entry>
    requires n <= |photos|
    decreases n
  {
    if n == 0 then []
    else GalleryEntries(photos, n - 1)
         + (if IsInlineImage(photos[n - 1]) then [(GalleryKey(n - 1), photos[n - 1])] else [])
  }

  /** The placeholders the prompt lists for the gallery after `n` photos. */
  function GalleryPlaceholders(photos: seq<string>, n: nat): seq<string>
    requires n <= |photos|
    decreases n
  {
    if n == 0 then []
    else GalleryPlaceholders(photos, n - 1) + (if IsInlineImage(photos[n - 1]) then [GalleryKey(n - 1)] else [])
  }

  /** `Object.entries(imageMap)`: host, hero, then the inlined gallery
      photos by ascending index. */
  function ImageMapOf(d: PropertyData): seq<Entry> {
    [(HostKey, d.hostImageUrl), (HeroKey, d.heroImageUrl)]
      + GalleryEntries(d.additionalPhotos, |d.additionalPhotos|)
  }

  /** Gallery entry `j` is the `j`-th inlined photo under its original
      index, and so is placeholder `j`. */
  lemma {:induction false} GalleryIndexed(photos: seq<string>, n: nat)
    requires n <= |photos|
    ensures var ix := InlineIndices(photos, n);
      && |GalleryEntries(photos, n)| == |ix| == |GalleryPlaceholders(photos, n)|
      && (forall j :: 0 <= j < |ix| ==> GalleryEntries(photos, n)[j] == (GalleryKey(ix[j]), photos[ix[j]]))
      && (forall j :: 0 <= j < |ix| ==> GalleryPlaceholders(photos, n)[j] == GalleryKey(ix[j]))
    decreases n
  {
    if n > 0 {
      GalleryIndexed(photos, n - 1);
    }
  }

  /** Builds the image map and the gallery placeholder list, one photo at a
      time. */
  method BuildImageMap(d: PropertyData) returns (imageMap: seq<Entry>, galleryPlaceholders: seq<string>)
    ensures imageMap == ImageMapOf(d)
    ensures galleryPlaceholders == GalleryPlaceholders(d.additionalPhotos, |d.additionalPhotos|)
  {
    var photos := d.additionalPhotos;
    imageMap := [(HostKey, d.hostImageUrl), (HeroKey, d.heroImageUrl)];
    galleryPlaceholders := [];
    for idx := 0 to |photos|
      invariant imageMap == [(HostKey, d.hostImageUrl), (HeroKey, d.heroImageUrl)] + GalleryEntries(photos, idx)
      invariant galleryPlaceholders == GalleryPlaceholders(photos, idx)
    {
      var photo := photos[idx];
      if IsInlineImage(photo) {
        var key := GalleryKey(idx);
        imageMap := imageMap + [(key, photo)];
        galleryPlaceholders := galleryPlaceholders + [key];
      }
    }
  }

  /** The token names of a list of entries. */
  function KeysOf(entries: seq<Entry>): seq<string> {
    seq(|entries|, i requires 0 <= i < |entries| => entries[i].0)
  }

  /** Every placeholder starts with `IMG_PLACEHOLDER_`, holds no quote mark,
      and the gallery ones are distinct from each other and from the host
      and hero ones. */
  lemma {:induction false} GalleryKeyFacts(i: nat, j: nat)
    ensures StartsWith(GalleryKey(i), PlaceholderPrefix) && QuoteFree(GalleryKey(i))
    ensures GalleryKey(i) != HostKey && GalleryKey(i) != HeroKey
    ensures GalleryKey(i) == GalleryKey(j) ==> i == j
  {
    var gi, di := GalleryKey(i), DecimalString(i);
    assert gi == (PlaceholderPrefix + "GALLERY_") + di;
    assert |gi| == 24 + |di| > |HostKey| == |HeroKey|;
    forall c | 0 <= c < |gi| ensures gi[c] != '"' {
      if c >= 24 {
        assert gi[c] == di[c - 24];
      }
    }
    if GalleryKey(i) == GalleryKey(j) {
      var dj := DecimalString(j);
      assert gi[24..] == di && GalleryKey(j)[24..] == dj;
      DecimalStringInjective(i, j);
    }
  }

  /** The map's layout: host, hero, then one entry per inlined photo,
      under its original index. */
  lemma ImageMapShape(d: PropertyData)
    ensures var m := ImageMapOf(d);
      var ix := InlineIndices(d.additionalPhotos, |d.additionalPhotos|);
      && |m| == |ix| + 2
      && m[0] == (HostKey, d.hostImageUrl) && m[1] == (HeroKey, d.heroImageUrl)
      && forall j :: 0 <= j < |ix| ==> m[j + 2] == (GalleryKey(ix[j]), d.additionalPhotos[ix[j]])
  {
    var m := ImageMapOf(d);
    var g := GalleryEntries(d.additionalPhotos, |d.additionalPhotos|);
    GalleryIndexed(d.additionalPhotos, |d.additionalPhotos|);
    assert m[2..] == g;
    forall j | 0 <= j < |g| ensures m[j + 2] == g[j] {
      assert m[2..][j] == m[j + 2];
    }
  }

  /** The map built from a guide has quote-free, distinct tokens, each
      starting with `IMG_PLACEHOLDER_`. */
  lemma ImageMapWellKeyed(d: PropertyData)
    ensures WellKeyed(ImageMapOf(d))
    ensures forall i :: 0 <= i < |ImageMapOf(d)| ==> StartsWith(ImageMapOf(d)[i].0, PlaceholderPrefix)
  {
    var m := ImageMapOf(d);
    var photos := d.additionalPhotos;
    var ix := InlineIndices(photos, |photos|);
    ImageMapShape(d);
    assert QuoteFree(HostKey) && QuoteFree(HeroKey) by {
      assert forall c :: 0 <= c < |HostKey| ==> HostKey[c] in "IMG_PLACEHOLDERHOST";
      assert forall c :: 0 <= c < |HeroKey| ==> HeroKey[c] in "IMG_PLACEHOLDERHERO";
    }
    forall i | 2 <= i < |m| ensures StartsWith(m[i].0, PlaceholderPrefix) && QuoteFree(m[i].0) {
      assert m[i] == m[(i - 2) + 2];
      GalleryKeyFacts(ix[i - 2], 0);
    }
    assert HostKey != HeroKey by {
      assert HostKey[18] == 'S' && HeroKey[18] == 'R';
    }
    forall i, j | 0 <= i < j < |m| ensures m[i].0 != m[j].0 {
      if j >= 2 {
        GalleryKeyFacts(ix[j - 2], 0);
        if i >= 2 {
          GalleryKeyFacts(ix[i - 2], ix[j - 2]);
        }
      }
    }
  }

  /** `IMG_PLACEHOLDER_HOST` and `IMG_PLACEHOLDER_HERO` each occur once in
      the map, valued by the host and hero image fields whatever those
      hold: no `data:image` test applies to them. */
  lemma HostAndHeroAlwaysMapped(d: PropertyData)
    ensures (HostKey, d.hostImageUrl) in ImageMapOf(d) && (HeroKey, d.heroImageUrl) in ImageMapOf(d)
    ensures forall v :: (HostKey, v) in ImageMapOf(d) ==> v == d.hostImageUrl
    ensures forall v :: (HeroKey, v) in ImageMapOf(d) ==> v == d.heroImageUrl
  {
    var m := ImageMapOf(d);
    ImageMapWellKeyed(d);
    assert m[0] == (HostKey, d.hostImageUrl) && m[1] == (HeroKey, d.heroImageUrl);
    forall v | (HostKey, v) in m ensures v == d.hostImageUrl {
      var j :| 0 <= j < |m| && m[j] == (HostKey, v);
      assert j == 0 || m[0].0 != m[j].0;
    }
    forall v | (HeroKey, v) in m ensures v == d.heroImageUrl {
      var j :| 0 <= j < |m| && m[j] == (HeroKey, v);
      assert j == 1 || (j < 1 && m[j].0 != m[1].0) || (j > 1 && m[1].0 != m[j].0);
    }
  }

  /** A gallery placeholder is in the map exactly for the indices whose
      photo is inlined, with that photo as its value and its original
      index in its name. */
  lemma GalleryKeyIffInline(d: PropertyData, i: nat, v: string)
    ensures (GalleryKey(i), v) in ImageMapOf(d)
        <==> i < |d.additionalPhotos| && IsInlineImage(d.additionalPhotos[i]) && v == d.additionalPhotos[i]
  {
    var photos := d.additionalPhotos;
    var m := ImageMapOf(d);
    var ix := InlineIndices(photos, |photos|);
    ImageMapShape(d);
    GalleryKeyFacts(i, 0);
    if (GalleryKey(i), v) in m {
      var j :| 0 <= j < |m| && m[j] == (GalleryKey(i), v);
      assert j >= 2;
      GalleryKeyFacts(i, ix[j - 2]);
    }
    if i < |photos| && IsInlineImage(photos[i]) {
      var j :| 0 <= j < |ix| && ix[j] == i;
      assert m[j + 2] == (GalleryKey(i), photos[i]);
    }
  }

  /** The tokens of a map after its first two entries. */
  lemma KeysAfterHead(m: seq<Entry>, p: seq<string>)
    requires |m| == |p| + 2
    requires forall j :: 0 <= j < |p| ==> m[j + 2].0 == p[j]
    ensures KeysOf(m)[2..] == p
  {
    var tail := KeysOf(m)[2..];
    forall j | 0 <= j < |p| ensures tail[j] == p[j] {
      assert tail[j] == KeysOf(m)[j + 2];
    }
  }

  /** The placeholder list names the inlined photos by their original
      indices, in ascending order (the order `InlineIndices` guarantees),
      and is exactly the gallery keys of the map, in map order. */
  lemma PlaceholdersAscending(d: PropertyData)
    ensures var p := GalleryPlaceholders(d.additionalPhotos, |d.additionalPhotos|);
      var ix := InlineIndices(d.additionalPhotos, |d.additionalPhotos|);
      && p == KeysOf(ImageMapOf(d))[2..]
      && |p| == |ix|
      && forall j :: 0 <= j < |p| ==> p[j] == GalleryKey(ix[j])
  {
    var photos := d.additionalPhotos;
    var p := GalleryPlaceholders(photos, |photos|);
    var ix := InlineIndices(photos, |photos|);
    var m := ImageMapOf(d);
    GalleryIndexed(photos, |photos|);
    ImageMapShape(d);
    forall j | 0 <= j < |p| ensures m[j + 2].0 == p[j] {
    }
    KeysAfterHead(m, p);
  }

  // ---------------------------------------------------------------------
  // Rehydration
  // ---------------------------------------------------------------------

  /** One pass of the loop: replace every `"K"` by `"V"`, unless `V` is
      empty. */
  function RehydrateStep(text: string, e: Entry): string {
    if e.1 != "" then ReplaceAll(text, Quoted(e.0), Quoted(e.1)) else text
  }

  /** The loop over all entries, in order. */
  function Rehydrated(text: string, entries: seq<Entry>): string
    decreases |entries|
  {
    if entries == [] then text else Rehydrated(RehydrateStep(text, entries[0]), entries[1..])
  }

  /** Puts the images back into the generated text. */
  method Rehydrate(text: string, entries: seq<Entry>) returns (result: string)
    ensures result == Rehydrated(text, entries)
  {
    result := text;
    for i := 0 to |entries|
      invariant Rehydrated(result, entries[i..]) == Rehydrated(text, entries)
    {
      var (placeholder, realValue) := entries[i];
      if realValue != "" {
        result := Join(Split(result, Quoted(placeholder)), Quoted(realValue));
      }
      assert entries[i..][1..] == entries[i + 1..];
    }
  }

  /** The tokens that are replaced, each with its value. */
  function ActiveMap(entries: seq<Entry>): map<string, string>
    decreases |entries|
  {
    if entries == [] then map[]
    else
      var m := ActiveMap(entries[1..]);
      if entries[0].1 != "" then m[entries[0].0 := entries[0].1] else m
  }

  /** Tokens hold no quote mark and are pairwise distinct. */
  predicate WellKeyed(entries: seq<Entry>) {
    && (forall i :: 0 <= i < |entries| ==> QuoteFree(entries[i].0))
    && (forall i, j :: 0 <= i < j < |entries| ==> entries[i].0 != entries[j].0)
  }

  /** The values that are used hold no quote mark and are not tokens. */
  predicate WellValued(entries: seq<Entry>) {
    && (forall i :: 0 <= i < |entries| && entries[i].1 != "" ==> QuoteFree(entries[i].1))
    && (forall i, j :: 0 <= i < |entries| && 0 <= j < |entries| && entries[i].1 != "" ==>
          entries[i].1 != entries[j].0)
  }

  /** The map holds exactly the tokens of the entries with a non-empty
      value, each with that value. */
  lemma {:induction false} ActiveMapSpec(entries: seq<Entry>)
    requires WellKeyed(entries)
    ensures forall k :: k in ActiveMap(entries) <==>
              exists i :: 0 <= i < |entries| && entries[i].0 == k && entries[i].1 != ""
    ensures forall i :: 0 <= i < |entries| && entries[i].1 != "" ==>
              entries[i].0 in ActiveMap(entries) && ActiveMap(entries)[entries[i].0] == entries[i].1
    decreases |entries|
  {
    if entries != [] {
      var rest := entries[1..];
      assert WellKeyed(rest) by {
        forall i, j | 0 <= i < j < |rest| ensures rest[i].0 != rest[j].0 {
          assert rest[i] == entries[i + 1] && rest[j] == entries[j + 1];
        }
      }
      ActiveMapSpec(rest);
      forall k ensures k in ActiveMap(entries) <==>
          exists i :: 0 <= i < |entries| && entries[i].0 == k && entries[i].1 != ""
      {
        if k in ActiveMap(entries) && !(entries[0].0 == k && entries[0].1 != "") {
          assert k in ActiveMap(rest);
          var i :| 0 <= i < |rest| && rest[i].0 == k && rest[i].1 != "";
          assert entries[i + 1] == rest[i];
        }
        if exists i :: 0 <= i < |entries| && entries[i].0 == k && entries[i].1 != "" {
          var i :| 0 <= i < |entries| && entries[i].0 == k && entries[i].1 != "";
          if i > 0 {
            assert rest[i - 1] == entries[i];
          }
        }
      }
      forall i | 0 <= i < |entries| && entries[i].1 != ""
        ensures entries[i].0 in ActiveMap(entries) && ActiveMap(entries)[entries[i].0] == entries[i].1
      {
        if i > 0 {
          assert rest[i - 1] == entries[i];
          assert entries[0].0 != entries[i].0;
        }
      }
    }
  }

  lemma WellFormedTail(entries: seq<Entry>)
    requires entries != [] && WellKeyed(entries) && WellValued(entries)
    ensures WellKeyed(entries[1..]) && WellValued(entries[1..])
  {
    var rest := entries[1..];
    forall i | 0 <= i < |rest| ensures rest[i] == entries[i + 1] {
    }
  }

  /** The loop over a text cut into quote-free segments is the
      simultaneous replacement of the segments by the active map. */
  lemma {:induction false} RehydratedJoin(segs: seq<string>, entries: seq<Entry>)
    requires |segs| >= 1 && AllQuoteFree(segs)
    requires WellKeyed(entries) && WellValued(entries)
    ensures Rehydrated(Join(segs, QuoteMark), entries)
         == Join(RehydrateSegs(segs, ActiveMap(entries)), QuoteMark)
    decreases |entries|
  {
    if entries == [] {
      RehydrateSegsEmpty(segs);
    } else {
      var (k, v) := entries[0];
      var rest := entries[1..];
      WellFormedTail(entries);
      if v == "" {
        RehydratedJoin(segs, rest);
      } else {
        ReplaceAllQuoted(segs, k, v);
        var t := ReplaceSegments(segs, k, v);
        assert AllQuoteFree(t) by {
          forall j | 0 <= j < |t| ensures QuoteFree(t[j]) {
          }
        }
        RehydratedJoin(t, rest);
        ActiveMapSpec(rest);
        ComposeSegs(segs, k, v, ActiveMap(rest));
      }
    }
  }

  /** Rehydration of any text, seen through its quote-free segments. */
  lemma RehydratedBySegments(s: string, entries: seq<Entry>)
    requires WellKeyed(entries) && WellValued(entries)
    ensures Rehydrated(s, entries) == Join(RehydrateSegs(Segments(s), ActiveMap(entries)), QuoteMark)
  {
    SegmentsRoundTrip(s);
    RehydratedJoin(Segments(s), entries);
  }

  /** Every replacement one ordering makes, a reordering of it makes too. */
  lemma ActiveMapIncluded(e1: seq<Entry>, e2: seq<Entry>)
    requires WellKeyed(e1) && WellKeyed(e2)
    requires multiset(e1) == multiset(e2)
    ensures forall k :: k in ActiveMap(e1) ==> k in ActiveMap(e2) && ActiveMap(e1)[k] == ActiveMap(e2)[k]
  {
    ActiveMapSpec(e1);
    ActiveMapSpec(e2);
    forall k | k in ActiveMap(e1) ensures k in ActiveMap(e2) && ActiveMap(e1)[k] == ActiveMap(e2)[k] {
      var i :| 0 <= i < |e1| && e1[i].0 == k && e1[i].1 != "";
      assert e1[i] in multiset(e2);
      var j :| 0 <= j < |e2| && e2[j] == e1[i];
    }
  }

  /** With quote-free tokens and values, distinct tokens, and no value that
      is itself a token, the order of the entries does not matter. */
  lemma RehydrationOrderIndependent(s: string, e1: seq<Entry>, e2: seq<Entry>)
    requires WellKeyed(e1) && WellValued(e1) && WellKeyed(e2) && WellValued(e2)
    requires multiset(e1) == multiset(e2)
    ensures Rehydrated(s, e1) == Rehydrated(s, e2)
  {
    ActiveMapIncluded(e1, e2);
    ActiveMapIncluded(e2, e1);
    assert ActiveMap(e1) == ActiveMap(e2);
    RehydratedBySegments(s, e1);
    RehydratedBySegments(s, e2);
  }

  /** The values of the active map hold no quote mark and are none of
      the tokens. */
  lemma ActiveValues(entries: seq<Entry>)
    requires WellKeyed(entries) && WellValued(entries)
    ensures forall x :: x in ActiveMap(entries) ==> QuoteFree(ActiveMap(entries)[x])
    ensures forall x, j :: x in ActiveMap(entries) && 0 <= j < |entries| ==>
              ActiveMap(entries)[x] != entries[j].0
  {
    ActiveMapSpec(entries);
    forall x | x in ActiveMap(entries)
      ensures QuoteFree(ActiveMap(entries)[x])
      ensures forall j :: 0 <= j < |entries| ==> ActiveMap(entries)[x] != entries[j].0
    {
      var a :| 0 <= a < |entries| && entries[a].0 == x && entries[a].1 != "";
    }
  }

  /** After rehydration no `"K"` of a replaced token is left, provided the
      text never has `"K"K"` (two tokens sharing a quote mark, which valid
      JSON cannot contain: see `AdjacentTokenSurvives`). */
  lemma NoReplacedTokenRemains(s: string, entries: seq<Entry>, j: nat)
    requires WellKeyed(entries) && WellValued(entries)
    requires j < |entries| && entries[j].1 != ""
    requires !Contains(s, Quoted(entries[j].0) + entries[j].0 + QuoteMark)
    ensures !Contains(Rehydrated(s, entries), Quoted(entries[j].0))
  {
    var k := entries[j].0;
    var m := ActiveMap(entries);
    var segs := Segments(s);
    SegmentsRoundTrip(s);
    RehydratedBySegments(s, entries);
    ActiveMapSpec(entries);
    ActiveValues(entries);
    var r := RehydrateSegs(segs, m);
    assert AllQuoteFree(r);
    if Contains(Join(r, QuoteMark), Quoted(k)) {
      QuotedTokenOccurs(r, k);
      var i :| Enclosed(r, i) && r[i] == k;
      LeftoverIsAdjacent(segs, m, k, i);
      AdjacentPairOccurs(segs, k, i);
    }
  }

  /** A token whose value is empty is left in the text wherever it was. */
  lemma EmptyValueTokenSurvives(s: string, entries: seq<Entry>, j: nat)
    requires WellKeyed(entries) && WellValued(entries)
    requires j < |entries| && entries[j].1 == ""
    requires Contains(s, Quoted(entries[j].0))
    ensures Contains(Rehydrated(s, entries), Quoted(entries[j].0))
  {
    var k := entries[j].0;
    var m := ActiveMap(entries);
    var segs := Segments(s);
    SegmentsRoundTrip(s);
    RehydratedBySegments(s, entries);
    ActiveMapSpec(entries);
    QuotedTokenOccurs(segs, k);
    var i :| Enclosed(segs, i) && segs[i] == k;
    var r := RehydrateSegs(segs, m);
    assert k !in m;
    assert r[i] == k;
    EnclosedRunOccurs(r, i, i);
    assert r[i..i + 1] == [k];
    assert Join([k], QuoteMark) == k;
    assert QuoteMark + Join(r[i..i + 1], QuoteMark) + QuoteMark == Quoted(k);
  }

  /** A text holding none of the replaced tokens comes back unchanged. */
  lemma {:induction false} UntouchedWithoutTokens(s: string, entries: seq<Entry>)
    requires forall i :: 0 <= i < |entries| && entries[i].1 != "" ==> !Contains(s, Quoted(entries[i].0))
    ensures Rehydrated(s, entries) == s
    decreases |entries|
  {
    if entries != [] {
      if entries[0].1 != "" {
        ReplaceAllAbsent(s, Quoted(entries[0].0), Quoted(entries[0].1));
      }
      var rest := entries[1..];
      forall i | 0 <= i < |rest| && rest[i].1 != "" ensures !Contains(s, Quoted(rest[i].0)) {
        assert rest[i] == entries[i + 1];
      }
      UntouchedWithoutTokens(s, rest);
    }
  }

  /** `{}` holds no quote mark, so no quoted token. */
  lemma NoQuotedTokenInBraces(k: string)
    ensures !Contains("{}", Quoted(k))
  {
    var q := Quoted(k);
    assert q[0] == '"' && |q| >= 2;
    assert forall o: nat :: o <= 2 && OccursAt("{}", q, o) ==> o == 0 && "{}"[0] == q[0];
  }

  /** The fallback text `{}` holds no quoted token, so it survives
      rehydration as it is. */
  lemma EmptyObjectUnchanged(entries: seq<Entry>)
    ensures Rehydrated("{}", entries) == "{}"
  {
    forall i | 0 <= i < |entries| && entries[i].1 != "" ensures !Contains("{}", Quoted(entries[i].0)) {
      NoQuotedTokenInBraces(entries[i].0);
    }
    UntouchedWithoutTokens("{}", entries);
  }

  /** Tokens are matched with their quote marks, so replacing one gallery
      placeholder never touches another, such as `_1` inside `_10`. */
  lemma GalleryTokensDoNotOverlap(i: nat, j: nat, v: string)
    requires i != j
    ensures ReplaceAll(Quoted(GalleryKey(j)), Quoted(GalleryKey(i)), Quoted(v)) == Quoted(GalleryKey(j))
  {
    GalleryKeyFacts(i, j);
    GalleryKeyFacts(j, i);
    QuotedTokenInQuotedToken(GalleryKey(i), GalleryKey(j));
    ReplaceAllAbsent(Quoted(GalleryKey(j)), Quoted(GalleryKey(i)), Quoted(v));
  }

  /** With quote-free images whose host and hero values are not
      placeholders, the map built from a guide meets every hypothesis
      above: gallery values start with `data:image`, so they are no
      placeholder either. */
  lemma ImageMapWellValued(d: PropertyData)
    requires QuoteFree(d.hostImageUrl) && QuoteFree(d.heroImageUrl)
    requires !StartsWith(d.hostImageUrl, PlaceholderPrefix) && !StartsWith(d.heroImageUrl, PlaceholderPrefix)
    requires forall i :: 0 <= i < |d.additionalPhotos| ==> QuoteFree(d.additionalPhotos[i])
    ensures WellKeyed(ImageMapOf(d)) && WellValued(ImageMapOf(d))
  {
    var m := ImageMapOf(d);
    var photos := d.additionalPhotos;
    var ix := InlineIndices(photos, |photos|);
    ImageMapShape(d);
    ImageMapWellKeyed(d);
    forall i | 0 <= i < |m| && m[i].1 != "" ensures QuoteFree(m[i].1) && !StartsWith(m[i].1, PlaceholderPrefix) {
      if i >= 2 {
        ImageMapGalleryValue(d, i);
      }
    }
    forall i, j | 0 <= i < |m| && 0 <= j < |m| && m[i].1 != "" ensures m[i].1 != m[j].0 {
    }
  }

  /** A gallery value of the map is an inlined photo, so it starts with
      `data:image` and not with the placeholder prefix. */
  lemma ImageMapGalleryValue(d: PropertyData, i: nat)
    requires 2 <= i < |ImageMapOf(d)|
    requires forall k :: 0 <= k < |d.additionalPhotos| ==> QuoteFree(d.additionalPhotos[k])
    ensures QuoteFree(ImageMapOf(d)[i].1) && !StartsWith(ImageMapOf(d)[i].1, PlaceholderPrefix)
  {
    var photos := d.additionalPhotos;
    var ix := InlineIndices(photos, |photos|);
    ImageMapShape(d);
    assert ImageMapOf(d)[(i - 2) + 2].1 == photos[ix[i - 2]];
    var photo := photos[ix[i - 2]];
    assert IsInlineImage(photo);
    assert photo[0] == "data:image"[0] == 'd';
  }

  // ---------------------------------------------------------------------
  // Generating a guide
  // ---------------------------------------------------------------------

  /** What the AI call produced: a response whose text may be missing, or a
      thrown error. */
  datatype AiResponse = Responded(text: Option<string>) | CallFailed

  const TimeoutMessage: string :=
    "AI Superhost timed out. This usually happens if photos are too large. Try using smaller images or fewer gallery photos."

  /** `response.text || "{}"`. */
  function ResponseText(text: Option<string>): string {
    if text.Some? && text.value != "" then text.value else "{}"
  }

  /** Generates the guide text for a property: the image map is built, the
      model answers with `response`, and its text is rehydrated. */
  method GenerateGuestGuide(data: PropertyData, response: AiResponse) returns (r: Result<string, string>)
    ensures response.CallFailed? ==> r == Failure(TimeoutMessage)
    ensures response.Responded? ==> r == Success(Rehydrated(ResponseText(response.text), ImageMapOf(data)))
  {
    var imageMap, galleryPlaceholders := BuildImageMap(data);
    if response.CallFailed? {
      return Failure(TimeoutMessage);
    }
    var resultText := if response.text.Some? && response.text.value != "" then response.text.value else "{}";
    resultText := Rehydrate(resultText, imageMap);
    return Success(resultText);
  }

  /** A missing or empty answer yields exactly `{}`; every failure of the
      call yields the one timeout message. */
  lemma GenerateOutcomes(data: PropertyData, response: AiResponse)
    ensures response == Responded(None) || response == Responded(Some("")) ==>
              Rehydrated(ResponseText(response.text), ImageMapOf(data)) == "{}"
    ensures response.Responded? && response.text.Some? && response.text.value != "" ==>
              ResponseText(response.text) == response.text.value
  {
    EmptyObjectUnchanged(ImageMapOf(data));
  }

  // ---------------------------------------------------------------------
  // Chat sanitising
  // ---------------------------------------------------------------------

  const ImageUrlDescriptor: string := "[Image URL]"
  const HostPhotoDescriptor: string := "[Host Photo]"

  /** `[${n} photos available in gallery]`. */
  function GalleryDescriptor(n: nat): string {
    "[" + DecimalString(n) + " photos available in gallery]"
  }

  /** The guide handed to the chat: hero and host photo replaced by
      descriptors when truthy, and a truthy gallery replaced by a text
      giving its length. */
  function Sanitized(g: Guide): Guide {
    g.(
      heroImageUrl := if Truthy(g.heroImageUrl) then Some(ImageUrlDescriptor) else g.heroImageUrl,
      host := if g.host.Some? && Truthy(g.host.value.photo)
              then Some(g.host.value.(photo := Some(HostPhotoDescriptor))) else g.host,
      gallery := if TruthyList(g.gallery)
                 then Some(NotList(GalleryDescriptor(ListLength(g.gallery.value)))) else g.gallery
    )
  }

  /** Copies the guide and overwrites its image members one by one. The
      caller's guide is a value and stays as it was. */
  method SanitizeGuide(guide: Guide) returns (sanitized: Guide)
    ensures sanitized == Sanitized(guide)
  {
    sanitized := guide;
    if sanitized.heroImageUrl.Some? && sanitized.heroImageUrl.value != "" {
      sanitized := sanitized.(heroImageUrl := Some(ImageUrlDescriptor));
    }
    if sanitized.host.Some? && sanitized.host.value.photo.Some? && sanitized.host.value.photo.value != "" {
      sanitized := sanitized.(host := Some(sanitized.host.value.(photo := Some(HostPhotoDescriptor))));
    }
    if TruthyList(sanitized.gallery) {
      var n := ListLength(sanitized.gallery.value);
      sanitized := sanitized.(gallery := Some(NotList(GalleryDescriptor(n))));
    }
  }

  /** An image member that carries no image: absent, empty, or the given
      descriptor. */
  predicate NoImageIn(s: Option<string>, descriptor: string) {
    s.None? || s.value == "" || s.value == descriptor
  }

  /** What the chat receives carries no image payload: hero and host photo
      are at most descriptors, and the gallery is no longer an array. The
      guide keeps the same members, and everything but those three is
      unchanged. */
  lemma SanitizedCarriesNoImages(g: Guide)
    ensures var s := Sanitized(g);
      && NoImageIn(s.heroImageUrl, ImageUrlDescriptor)
      && (s.host.Some? ==> NoImageIn(s.host.value.photo, HostPhotoDescriptor))
      && !(s.gallery.Some? && s.gallery.value.Items?)
      && Keys(s) == Keys(g)
      && s.(heroImageUrl := g.heroImageUrl, host := g.host, gallery := g.gallery) == g
  {
  }

  /** The descriptor counts what the gallery held: its photos when it was an
      array, its UTF-16 length when it was a string. */
  lemma SanitizedGalleryCount(g: Guide, photos: seq<string>)
    ensures g.gallery == Some(Items(photos)) ==>
              Sanitized(g).gallery == Some(NotList(GalleryDescriptor(|photos|)))
    ensures g.gallery == Some(NotList("")) ==> Sanitized(g).gallery == g.gallery
  {
  }
}
