/** The guest-facing guide page: the YouTube link resolver, the rules that
    decide which sections and video entries appear, and the page state
    (parsed document, concierge chat transcript, open section). */
module GuideViewer {
  import opened Wrappers
  import opened Text
  import opened Types
  import opened GuideDocument
  import opened GeminiService

  // ---------------------------------------------------------------------
  // YouTube embed links
  // ---------------------------------------------------------------------

  /** The characters `\w` matches. */
  predicate IsWordChar(c: char) {
    ('a' <= c <= 'z') || ('A' <= c <= 'Z') || ('0' <= c <= '9') || c == '_'
  }

  /** The characters `[^#&?]` matches. */
  predicate IsIdChar(c: char) {
    c != '#' && c != '&' && c != '?'
  }

  /** The length of the alternative of
      `(youtu.be/|v/|u/\w/|embed/|watch\?v=|&v=)` that matches at `p`, if
      any. The expression has no `u` flag, so the `.` of `youtu.be` takes
      one UTF-16 unit: any character of the Basic Multilingual Plane but a
      line terminator. A character beyond it is two units, the dot takes
      the first and `b` fails on the second. The alternatives start with
      distinct characters, so at most one of them matches at a given
      position. */
  function MarkerLength(s: string, p: nat): (r: Option<nat>)
    ensures r.Some? ==> p < p + r.value <= |s|
    ensures r.Some? ==> forall j :: p <= j < p + r.value ==> !IsLineTerminator(s[j])
  {
    if p + 9 <= |s| && OccursAt(s, "youtu", p) && !IsLineTerminator(s[p + 5]) && s[p + 5] as int <= 0xFFFF
       && OccursAt(s, "be/", p + 6) then
      assert forall j :: p <= j < p + 5 ==> s[j] == "youtu"[j - p];
      assert forall j :: p + 6 <= j < p + 9 ==> s[j] == "be/"[j - p - 6];
      Some(9)
    else if OccursAt(s, "v/", p) then
      assert forall j :: p <= j < p + 2 ==> s[j] == "v/"[j - p];
      Some(2)
    else if p + 4 <= |s| && OccursAt(s, "u/", p) && IsWordChar(s[p + 2]) && s[p + 3] == '/' then
      assert forall j :: p <= j < p + 2 ==> s[j] == "u/"[j - p];
      Some(4)
    else if OccursAt(s, "embed/", p) then
      assert forall j :: p <= j < p + 6 ==> s[j] == "embed/"[j - p];
      Some(6)
    else if OccursAt(s, "watch?v=", p) then
      assert forall j :: p <= j < p + 8 ==> s[j] == "watch?v="[j - p];
      Some(8)
    else if OccursAt(s, "&v=", p) then
      assert forall j :: p <= j < p + 3 ==> s[j] == "&v="[j - p];
      Some(3)
    else None
  }

  /** Where the first line of `s` ends: the index of its first line
      terminator, or `|s|`. `^.*` can reach exactly the positions up to
      there. */
  function LineEnd(s: string, i: nat): (r: nat)
    requires i <= |s|
    ensures i <= r <= |s|
    ensures forall j :: i <= j < r ==> !IsLineTerminator(s[j])
    ensures r < |s| ==> IsLineTerminator(s[r])
    decreases |s| - i
  {
    if i == |s| || IsLineTerminator(s[i]) then i else LineEnd(s, i + 1)
  }

  /** The rightmost position below `n` that satisfies `f`. */
  function LastBelow(f: nat -> bool, n: nat): (r: Option<nat>)
    ensures r.Some? ==> r.value < n && f(r.value)
    ensures r.Some? ==> forall q: nat :: r.value < q < n ==> !f(q)
    ensures r.None? ==> forall q: nat :: q < n ==> !f(q)
    decreases n
  {
    if n == 0 then None
    else if f(n - 1) then Some(n - 1)
    else LastBelow(f, n - 1)
  }

  /** The rightmost position below `n` where a marker matches: the greedy
      `.*` in front of the marker backs off from the right. */
  function LastMarkerBelow(s: string, n: nat): (r: Option<nat>)
    requires n <= |s|
    ensures r.Some? ==> r.value < n && MarkerLength(s, r.value).Some?
    ensures r.Some? ==> forall q: nat :: r.value < q < n ==> MarkerLength(s, q).None?
    ensures r.None? ==> forall q: nat :: q < n ==> MarkerLength(s, q).None?
  {
    var f := (q: nat) => MarkerLength(s, q).Some?;
    assert forall q: nat :: f(q) == MarkerLength(s, q).Some?;
    LastBelow(f, n)
  }

  /** The end of the maximal run of `[^#&?]` starting at `i`: the greedy
      second group. */
  function RunEnd(s: string, i: nat): (e: nat)
    requires i <= |s|
    ensures i <= e <= |s|
    ensures forall j :: i <= j < e ==> IsIdChar(s[j])
    ensures e < |s| ==> !IsIdChar(s[e])
    decreases |s| - i
  {
    if i == |s| || !IsIdChar(s[i]) then i else RunEnd(s, i + 1)
  }

  const EmbedPrefix: string := "https://www.youtube.com/embed/"

  /** The embed link built from the id that follows the marker at `p`,
      when that id is exactly eleven UTF-16 units long. */
  function EmbedAfterMarker(s: string, p: nat): (r: Option<string>)
    requires MarkerLength(s, p).Some?
    ensures r.Some? ==> StartsWith(r.value, EmbedPrefix) && Utf16Length(r.value[|EmbedPrefix|..]) == 11
  {
    var start := p + MarkerLength(s, p).value;
    var id := s[start..RunEnd(s, start)];
    if id != "" && Utf16Length(id) == 11 then
      assert (EmbedPrefix + id)[|EmbedPrefix|..] == id;
      Some(EmbedPrefix + id)
    else None
  }

  /** `getYoutubeEmbedUrl`: `None` stands for an argument that is not a
      string. The result is the embed link of the id that follows the
      rightmost marker, when that id is exactly eleven UTF-16 units long;
      the host name is never looked at. */
  function YoutubeEmbedUrl(url: Option<string>): (r: Option<string>)
    ensures url.None? || url == Some("") ==> r.None?
    ensures r.Some? ==> StartsWith(r.value, EmbedPrefix) && Utf16Length(r.value[|EmbedPrefix|..]) == 11
  {
    if url.None? || url.value == "" then None
    else
      match LastMarkerBelow(url.value, LineEnd(url.value, 0))
      case None => None
      case Some(p) => EmbedAfterMarker(url.value, p)
  }

  /** Position `p` can be reached by `^.*`: no line terminator before it. */
  predicate Reachable(s: string, p: nat) {
    p <= |s| && forall j :: 0 <= j < p ==> !IsLineTerminator(s[j])
  }

  /** The greedy `^.*` in front of the marker: a marker matches at the
      reachable position `p` and at no reachable position to its right. */
  predicate LastReachableMarker(s: string, p: nat) {
    && Reachable(s, p)
    && MarkerLength(s, p).Some?
    && (forall q :: p < q < |s| && Reachable(s, q) ==> MarkerLength(s, q).None?)
  }

  /** The greedy second group: `id` is the longest run of `[^#&?]` that
      starts at `start`. */
  predicate LongestRun(s: string, start: nat, id: string) {
    && start + |id| <= |s| && s[start..start + |id|] == id
    && (forall j :: 0 <= j < |id| ==> IsIdChar(id[j]))
    && (start + |id| == |s| || !IsIdChar(s[start + |id|]))
  }

  /** What `^.*(marker)([^#&?]*).*` matches on `s`, stated on its own:
      the rightmost reachable marker, then the longest id run after it. */
  predicate RegexMatch(s: string, p: nat, id: string) {
    LastReachableMarker(s, p) && LongestRun(s, p + MarkerLength(s, p).value, id)
  }

  /** A marker that `^.*` can reach lies on the first line. */
  lemma MarkersWithinLine(s: string)
    ensures forall q: nat :: Reachable(s, q) && MarkerLength(s, q).Some? ==> q < LineEnd(s, 0)
  {
    var n := LineEnd(s, 0);
    forall q: nat | Reachable(s, q) && MarkerLength(s, q).Some? ensures q < n {
      assert !IsLineTerminator(s[q]);
      assert n == |s| || IsLineTerminator(s[n]);
    }
  }

  /** The search finds exactly the rightmost reachable marker. */
  lemma LastMarkerIsLastReachable(s: string, p: nat)
    ensures LastMarkerBelow(s, LineEnd(s, 0)) == Some(p) <==> LastReachableMarker(s, p)
  {
    var n := LineEnd(s, 0);
    MarkersWithinLine(s);
    var r := LastMarkerBelow(s, n);
    if r == Some(p) {
      assert Reachable(s, p);
    }
    if LastReachableMarker(s, p) {
      assert r.Some? && r.value >= p;
    }
  }

  /** `RunEnd` ends the longest run, and the longest run is unique. */
  lemma RunEndIsLongest(s: string, start: nat, id: string)
    requires start <= |s|
    ensures LongestRun(s, start, s[start..RunEnd(s, start)])
    ensures LongestRun(s, start, id) ==> id == s[start..RunEnd(s, start)]
  {
    var e := RunEnd(s, start);
    var run := s[start..e];
    assert forall j :: 0 <= j < |run| ==> run[j] == s[start + j];
  }

  /** A match gives the embed link of its id when the id is eleven units
      long, and nothing otherwise. */
  lemma RegexMatchResolves(s: string, p: nat, id: string)
    requires RegexMatch(s, p, id)
    ensures YoutubeEmbedUrl(Some(s)) == if Utf16Length(id) == 11 then Some(EmbedPrefix + id) else None
  {
    LastMarkerIsLastReachable(s, p);
    assert s != "";
    assert YoutubeEmbedUrl(Some(s)) == EmbedAfterMarker(s, p);
    EmbedAfterLongestRun(s, p, id);
  }

  /** The link after a marker is built from the longest id run after it. */
  lemma EmbedAfterLongestRun(s: string, p: nat, id: string)
    requires MarkerLength(s, p).Some? && LongestRun(s, p + MarkerLength(s, p).value, id)
    ensures EmbedAfterMarker(s, p) == if Utf16Length(id) == 11 then Some(EmbedPrefix + id) else None
  {
    var start := p + MarkerLength(s, p).value;
    RunEndIsLongest(s, start, id);
    assert id == s[start..RunEnd(s, start)];
  }

  /** A link the resolver yields comes from a match of the expression
      with an eleven-unit id. */
  lemma ResolvedHasMatch(s: string)
    requires YoutubeEmbedUrl(Some(s)).Some?
    ensures exists p: nat, id: string :: RegexMatch(s, p, id) && Utf16Length(id) == 11
  {
    var p := LastMarkerBelow(s, LineEnd(s, 0)).value;
    var start := p + MarkerLength(s, p).value;
    var id := s[start..RunEnd(s, start)];
    assert YoutubeEmbedUrl(Some(s)) == EmbedAfterMarker(s, p);
    LastMarkerIsLastReachable(s, p);
    RunEndIsLongest(s, start, []);
    assert RegexMatch(s, p, id) && Utf16Length(id) == 11;
  }

  /** The resolver agrees with the regular expression: it yields a link
      exactly when the expression matches with an eleven-unit id, and the
      link is built from that id. */
  lemma YoutubeEmbedUrlMatchesRegex(s: string)
    ensures YoutubeEmbedUrl(Some(s)).Some? <==>
              exists p: nat, id: string :: RegexMatch(s, p, id) && Utf16Length(id) == 11
    ensures forall p: nat, id: string :: RegexMatch(s, p, id) && Utf16Length(id) == 11 ==>
              YoutubeEmbedUrl(Some(s)) == Some(EmbedPrefix + id)
  {
    forall p: nat, id: string | RegexMatch(s, p, id) && Utf16Length(id) == 11
      ensures YoutubeEmbedUrl(Some(s)) == Some(EmbedPrefix + id)
    {
      RegexMatchResolves(s, p, id);
    }
    if YoutubeEmbedUrl(Some(s)).Some? {
      ResolvedHasMatch(s);
    }
  }

  /** Every marker starts with one of six two-character openings. */
  lemma MarkerOpening(s: string, p: nat)
    ensures MarkerLength(s, p).Some? ==> (
      && p + 2 <= |s|
      && ( (s[p] == 'y' && s[p + 1] == 'o') || (s[p] == 'v' && s[p + 1] == '/')
        || (s[p] == 'u' && s[p + 1] == '/') || (s[p] == 'e' && s[p + 1] == 'm')
        || (s[p] == 'w' && s[p + 1] == 'a') || (s[p] == '&' && s[p + 1] == 'v')))
  {
    if MarkerLength(s, p).Some? {
      var two := s[p..p + 2];
      assert two[0] == s[p] && two[1] == s[p + 1];
      if OccursAt(s, "youtu", p) {
        assert two == "youtu"[..2];
      } else if OccursAt(s, "v/", p) {
        assert two == "v/";
      } else if OccursAt(s, "u/", p) {
        assert two == "u/";
      } else if OccursAt(s, "embed/", p) {
        assert two == "embed/"[..2];
      } else if OccursAt(s, "watch?v=", p) {
        assert two == "watch?v="[..2];
      } else {
        assert two == "&v="[..2];
      }
    }
  }

  /** Every marker ends with `/` or `=`. */
  lemma MarkerClosing(s: string, p: nat)
    ensures MarkerLength(s, p).Some? ==>
      s[p + MarkerLength(s, p).value - 1] == '/' || s[p + MarkerLength(s, p).value - 1] == '='
  {
    if MarkerLength(s, p).Some? {
      var l := MarkerLength(s, p).value;
      assert s[p + l - 1] == s[p..p + l][l - 1];
    }
  }

  /** A character a YouTube video id is made of: `[A-Za-z0-9_-]`. */
  predicate IsVideoIdChar(c: char) {
    IsWordChar(c) || c == '-'
  }

  /** The start of a short link, marker included. */
  const ShortLinkHead: string := "https://youtu.be/"

  /** After the `youtu.be/` marker of a short link no marker starts: a
      marker would have to close on the slash at index 16, and none of
      the openings it would need appears before it. */
  lemma NoMarkerAfterShortLinkHead(id: string)
    requires forall j :: 0 <= j < |id| ==> IsVideoIdChar(id[j])
    ensures forall q :: 8 < q < |ShortLinkHead + id| ==> MarkerLength(ShortLinkHead + id, q).None?
  {
    var s := ShortLinkHead + id;
    assert forall j :: 17 <= j < |s| ==> s[j] == id[j - 17];
    assert s[9] == 'o' && s[10] == 'u' && s[11] == 't' && s[12] == 'u';
    assert s[13] == '.' && s[14] == 'b' && s[15] == 'e' && s[16] == '/';
    forall q | 8 < q < |s| ensures MarkerLength(s, q).None? {
      MarkerOpening(s, q);
      MarkerClosing(s, q);
    }
  }

  /** The `youtu.be/` marker of a short link sits at index 8, on the
      first line. */
  lemma ShortLinkMarker(id: string)
    ensures MarkerLength(ShortLinkHead + id, 8) == Some(9) && Reachable(ShortLinkHead + id, 8)
  {
    var s := ShortLinkHead + id;
    assert s[8..13] == "youtu" && s[14..17] == "be/";
    assert OccursAt(s, "youtu", 8) && OccursAt(s, "be/", 14) && !IsLineTerminator(s[13]);
  }

  /** The id of a short link is the whole run after its marker. */
  lemma ShortLinkIdRun(id: string)
    requires forall j :: 0 <= j < |id| ==> IsVideoIdChar(id[j])
    ensures LongestRun(ShortLinkHead + id, 17, id)
  {
    var s := ShortLinkHead + id;
    assert s[17..17 + |id|] == id;
  }

  /** In `https://youtu.be/<id>` the only marker `^.*` can take is the
      `youtu.be/` one, and the id is all that follows it. */
  lemma ShortLinkMatch(id: string)
    requires forall j :: 0 <= j < |id| ==> IsVideoIdChar(id[j])
    ensures RegexMatch(ShortLinkHead + id, 8, id)
  {
    ShortLinkMarker(id);
    NoMarkerAfterShortLinkHead(id);
    ShortLinkIdRun(id);
  }

  /** A short link with an eleven-character id resolves to the embed link
      of that id. */
  lemma ShortLinkResolves(id: string)
    requires |id| == 11 && forall j :: 0 <= j < |id| ==> IsVideoIdChar(id[j])
    ensures YoutubeEmbedUrl(Some(ShortLinkHead + id)) == Some(EmbedPrefix + id)
  {
    ShortLinkMatch(id);
    Utf16LengthOfBmp(id);
    RegexMatchResolves(ShortLinkHead + id, 8, id);
  }

  /** A character beyond the Basic Multilingual Plane in place of the dot
      of `youtu.be` leaves no marker anywhere, so the link does not
      resolve, whatever id follows. */
  lemma AstralDotBreaksShortLink(c: char, id: string)
    requires c as int > 0xFFFF
    requires forall j :: 0 <= j < |id| ==> IsVideoIdChar(id[j])
    ensures YoutubeEmbedUrl(Some("youtu" + [c] + "be/" + id)) == None
  {
    var s := "youtu" + [c] + "be/" + id;
    assert forall j :: 9 <= j < |s| ==> s[j] == id[j - 9];
    assert s[0] == 'y' && s[1] == 'o' && s[2] == 'u' && s[3] == 't' && s[4] == 'u';
    assert s[5] == c && s[6] == 'b' && s[7] == 'e' && s[8] == '/';
    forall q: nat | q < |s| ensures MarkerLength(s, q).None? {
      if q > 0 {
        MarkerOpening(s, q);
        MarkerClosing(s, q);
      }
    }
  }

  /** A short link whose id has any other length does not resolve. */
  lemma ShortLinkWrongLength(id: string)
    requires |id| != 11 && forall j :: 0 <= j < |id| ==> IsVideoIdChar(id[j])
    ensures YoutubeEmbedUrl(Some(ShortLinkHead + id)) == None
  {
    ShortLinkMatch(id);
    Utf16LengthOfBmp(id);
    RegexMatchResolves(ShortLinkHead + id, 8, id);
  }

  // ---------------------------------------------------------------------
  // Sections and video entries
  // ---------------------------------------------------------------------

  /** The collapsible cards of the page, in page order. */
  datatype SectionCard = WifiCard | CheckInCard | GalleryCard | VideosCard | RulesCard | GemsCard | EmergencyCard

  /** The id each card is opened under, which is also the guide member it
      shows. */
  function CardId(c: SectionCard): string {
    match c
    case WifiCard => "wifi"
    case CheckInCard => "checkIn"
    case GalleryCard => "gallery"
    case VideosCard => "videoGuides"
    case RulesCard => "houseRules"
    case GemsCard => "localGems"
    case EmergencyCard => "emergency"
  }

  /** `x && Array.isArray(x) && x.length > 0`. */
  predicate NonEmptyArray<T>(l: Option<Listish<T>>) {
    l.Some? && l.value.Items? && |l.value.items| > 0
  }

  /** The page position of a card. */
  function CardRank(c: SectionCard): nat {
    match c
    case WifiCard => 0
    case CheckInCard => 1
    case GalleryCard => 2
    case VideosCard => 3
    case RulesCard => 4
    case GemsCard => 5
    case EmergencyCard => 6
  }

  /** The cards in the order the page lays them out. */
  const PageOrder: seq<SectionCard> :=
    [WifiCard, CheckInCard, GalleryCard, VideosCard, RulesCard, GemsCard, EmergencyCard]

  /** The condition the page puts on a card: an object card needs its
      member present, a list card needs it to be a non-empty array. */
  predicate Renders(g: Guide, c: SectionCard) {
    match c
    case WifiCard => g.wifi.Some?
    case CheckInCard => g.checkIn.Some?
    case GalleryCard => NonEmptyArray(g.gallery)
    case VideosCard => NonEmptyArray(g.videoGuides)
    case RulesCard => NonEmptyArray(g.houseRules)
    case GemsCard => NonEmptyArray(g.localGems)
    case EmergencyCard => g.emergency.Some?
  }

  /** The cards of `cs` the page renders for `g`, keeping their order. */
  function RenderedAmong(g: Guide, cs: seq<SectionCard>): seq<SectionCard> {
    if cs == [] then []
    else (if Renders(g, cs[0]) then [cs[0]] else []) + RenderedAmong(g, cs[1..])
  }

  /** The cards the page renders for a guide, in page order. */
  function RenderedSections(g: Guide): seq<SectionCard> {
    RenderedAmong(g, PageOrder)
  }

  /** Ranks strictly increase along `cs`. */
  predicate RankIncreasing(cs: seq<SectionCard>) {
    forall i, j :: 0 <= i < j < |cs| ==> CardRank(cs[i]) < CardRank(cs[j])
  }

  /** Filtering keeps exactly the rendered cards of `cs` and, when `cs` is
      in page order, keeps the page order. */
  lemma {:induction false} RenderedAmongFacts(g: Guide, cs: seq<SectionCard>)
    ensures forall c :: c in RenderedAmong(g, cs) <==> c in cs && Renders(g, c)
    ensures RankIncreasing(cs) ==> RankIncreasing(RenderedAmong(g, cs))
  {
    if cs != [] {
      RenderedAmongFacts(g, cs[1..]);
      var head := if Renders(g, cs[0]) then [cs[0]] else [];
      var later := RenderedAmong(g, cs[1..]);
      assert RenderedAmong(g, cs) == head + later;
      assert forall c :: c in cs <==> c == cs[0] || c in cs[1..];
      if RankIncreasing(cs) {
        assert RankIncreasing(cs[1..]) by {
          forall i, j | 0 <= i < j < |cs[1..]| ensures CardRank(cs[1..][i]) < CardRank(cs[1..][j]) {
            assert cs[1..][i] == cs[i + 1] && cs[1..][j] == cs[j + 1];
          }
        }
        forall k | 0 <= k < |later| ensures CardRank(cs[0]) < CardRank(later[k]) {
          assert later[k] in cs[1..];
          var m :| 0 <= m < |cs[1..]| && cs[1..][m] == later[k];
          assert cs[1..][m] == cs[m + 1];
        }
      }
    }
  }

  /** A rendered card's member is one of the document's keys. */
  lemma RenderedCardHasKey(g: Guide, c: SectionCard)
    requires Renders(g, c)
    ensures CardId(c) in Keys(g)
  {
  }

  /** The page shows exactly the cards whose rule holds, each at most once
      and in page order, and each for a member the document has. */
  lemma RenderedSectionsRules(g: Guide)
    ensures forall c :: c in RenderedSections(g) <==> Renders(g, c)
    ensures RankIncreasing(RenderedSections(g))
    ensures forall c :: c in RenderedSections(g) ==> CardId(c) in Keys(g)
  {
    RenderedAmongFacts(g, PageOrder);
    forall c ensures c in PageOrder {
      assert PageOrder[CardRank(c)] == c;
    }
    forall c | c in RenderedSections(g) ensures CardId(c) in Keys(g) {
      RenderedCardHasKey(g, c);
    }
  }

  /** Filtering cards none of which renders leaves nothing. */
  lemma {:induction false} NothingRendersAmong(g: Guide, cs: seq<SectionCard>)
    requires forall c :: !Renders(g, c)
    ensures RenderedAmong(g, cs) == []
  {
    if cs != [] {
      NothingRendersAmong(g, cs[1..]);
    }
  }

  /** A document without keys, such as `{}`, renders no card. */
  lemma NoKeysRendersNothing(g: Guide)
    requires Keys(g) == {}
    ensures RenderedSections(g) == []
  {
    KeysEmptyIffEmptyGuide(g);
    NothingRendersAmong(g, PageOrder);
  }

  /** What one video entry renders as. */
  datatype VideoMedia = Embed(src: string) | ExternalLink(href: string) | NoMedia
  datatype VideoView = Skipped | Rendered(title: string, media: VideoMedia)

  const DefaultVideoTitle: string := "Video Tutorial"

  /** One entry of the video list: `None` is a `null` entry. */
  function RenderVideo(v: Option<VideoEntry>): VideoView {
    if v.None? || (!Truthy(v.value.url) && !Truthy(v.value.title)) then Skipped
    else
      var title := if Truthy(v.value.title) then v.value.title.value else DefaultVideoTitle;
      match YoutubeEmbedUrl(v.value.url)
      case Some(e) => Rendered(title, Embed(e))
      case None => Rendered(title, if Truthy(v.value.url) then ExternalLink(v.value.url.value) else NoMedia)
  }

  /** An entry is skipped exactly when it is `null` or has neither url
      nor title; a shown entry has its own title or the default one, an
      embedded player exactly when its url resolves, and otherwise a plain
      link exactly when it has a url. */
  lemma RenderVideoRules(v: Option<VideoEntry>)
    ensures RenderVideo(v).Skipped? <==> v.None? || (!Truthy(v.value.url) && !Truthy(v.value.title))
    ensures RenderVideo(v).Rendered? ==>
      && RenderVideo(v).title == (if Truthy(v.value.title) then v.value.title.value else DefaultVideoTitle)
      && RenderVideo(v).title != ""
      && (RenderVideo(v).media.Embed? <==> YoutubeEmbedUrl(v.value.url).Some?)
      && (RenderVideo(v).media.Embed? ==>
            && StartsWith(RenderVideo(v).media.src, EmbedPrefix)
            && Utf16Length(RenderVideo(v).media.src[|EmbedPrefix|..]) == 11)
      && (RenderVideo(v).media.ExternalLink? <==> YoutubeEmbedUrl(v.value.url).None? && Truthy(v.value.url))
      && (RenderVideo(v).media.ExternalLink? ==> RenderVideo(v).media.href == v.value.url.value)
  {
  }

  /** A title-only entry is still shown, with no media. */
  lemma TitleOnlyVideo(title: string)
    requires title != ""
    ensures RenderVideo(Some(VideoEntry(Some(title), None))) == Rendered(title, NoMedia)
  {
  }

  /** The header photograph: the document's own when truthy, else the
      stock photograph new guides start with. */
  function HeroImage(g: Guide): string {
    if Truthy(g.heroImageUrl) then g.heroImageUrl.value else DefaultHeroImageUrl
  }

  const DefaultHostName: string := "Superhost"

  /** The "Hosted by" name: the host's own when truthy, else a stock name. */
  function HostName(g: Guide): string {
    if g.host.Some? && Truthy(g.host.value.name) then g.host.value.name.value else DefaultHostName
  }

  /** The header always has a photograph and a host name, and shows the
      document's own exactly when it has one; sanitising a guide for the
      chat changes the photograph shown but not the host name. */
  lemma HeaderFallbacks(g: Guide)
    ensures HeroImage(g) != "" && HostName(g) != ""
    ensures HeroImage(g) == DefaultHeroImageUrl || (Truthy(g.heroImageUrl) && HeroImage(g) == g.heroImageUrl.value)
    ensures HostName(g) != DefaultHostName ==> g.host.Some? && g.host.value.name == Some(HostName(g))
    ensures HostName(Sanitized(g)) == HostName(g)
    ensures Truthy(g.heroImageUrl) ==> HeroImage(Sanitized(g)) == ImageUrlDescriptor
  {
  }

  // ---------------------------------------------------------------------
  // Page state
  // ---------------------------------------------------------------------

  /** `openSection === c ? null : c`. */
  function ToggleSection(open: Option<SectionCard>, c: SectionCard): (r: Option<SectionCard>)
    ensures r == Some(c) <==> open != Some(c)
    ensures r.None? <==> open == Some(c)
  {
    if open == Some(c) then None else Some(c)
  }

  /** Toggling a card twice from any state leaves it closed or open as it
      was, but closes every other card. */
  lemma ToggleTwice(open: Option<SectionCard>, c: SectionCard)
    ensures ToggleSection(ToggleSection(open, c), c) == (if open == Some(c) then open else None)
  {
  }

  datatype Role = UserRole | ModelRole
  datatype Message = Message(role: Role, text: string)

  /** The concierge's opening line. */
  function Greeting(propertyName: string): string {
    "Hi! I'm your digital concierge for " + propertyName + ". How can I help you today?"
  }

  const NotSureReply: string := "I'm not sure about that. Try contacting the host!"
  const ConnectionErrorReply: string := "Sorry, I'm having trouble connecting. Please try again."

  /** What the chat call produced: a reply whose text may be missing, or a
      thrown error. */
  datatype ChatReply = Replied(text: Option<string>) | ChatFailed

  /** The model message appended for a reply. */
  function ReplyText(reply: ChatReply): (r: string)
    ensures r != ""
    ensures reply.Replied? && Truthy(reply.text) ==> r == reply.text.value
    ensures reply.Replied? && !Truthy(reply.text) ==> r == NotSureReply
    ensures reply.ChatFailed? ==> r == ConnectionErrorReply
  {
    match reply
    case Replied(t) => if t.Some? && t.value != "" then t.value else NotSureReply
    case ChatFailed => ConnectionErrorReply
  }

  /** What parsing the guide text gave: a syntax error, `null`, or a
      document. */
  datatype ParseOutcome = Malformed | ParsedNull | Parsed(guide: Guide)

  /** The guide page. `data` is the parsed document (`None` while it is
      `null`); `chat` is the guide the concierge chat was started with,
      if one was. */
  class Viewer {
    var data: Option<Guide>
    var chat: Option<Guide>
    var messages: seq<Message>
    var userInput: string
    var isTyping: bool
    var openSection: Option<SectionCard>
    /** The document the current chat was started from. */
    ghost var chatSource: Guide

    /** A chat, once started, runs on the sanitised copy of a document that
        has keys (is not `{}`), and a reply is only awaited from a running
        chat. */
    ghost predicate Valid()
      reads this
    {
      && (chat.Some? ==> chat.value == Sanitized(chatSource) && chatSource != EmptyGuide)
      && (isTyping ==> chat.Some?)
    }

    /** The page shows its loading view. */
    function ShowsLoading(): bool
      reads this
    {
      data.None? || Keys(data.value) == {}
    }

    /** Mounts the page and runs the parse effect once. */
    constructor(outcome: ParseOutcome, propertyName: string)
      ensures Valid()
      ensures data == (if outcome.Parsed? then Some(outcome.guide) else None)
      ensures outcome.Parsed? && Keys(outcome.guide) != {} ==>
                chat == Some(Sanitized(outcome.guide)) && messages == [Message(ModelRole, Greeting(propertyName))]
      ensures !(outcome.Parsed? && Keys(outcome.guide) != {}) ==> chat.None? && messages == []
      ensures ShowsLoading() <==> chat.None?
      ensures userInput == "" && !isTyping && openSection.None?
    {
      data := None;
      chat := None;
      messages := [];
      userInput := "";
      isTyping := false;
      openSection := None;
      chatSource := EmptyGuide;
      new;
      Load(outcome, propertyName);
      if outcome.Parsed? {
        KeysEmptyIffEmptyGuide(outcome.guide);
      }
    }

    /** The parse effect, run again whenever the content or the property
        name changes: a syntax error changes nothing; otherwise the result
        becomes the document, and a document with keys starts a fresh chat
        with the greeting alone. */
    method Load(outcome: ParseOutcome, propertyName: string)
      requires Valid()
      modifies this
      ensures Valid()
      ensures outcome.Malformed? ==> data == old(data) && chat == old(chat) && messages == old(messages)
      ensures outcome.ParsedNull? ==> data.None? && chat == old(chat) && messages == old(messages)
      ensures outcome.Parsed? ==> data == Some(outcome.guide)
      ensures outcome.Parsed? && outcome.guide != EmptyGuide ==>
                chat == Some(Sanitized(outcome.guide)) && messages == [Message(ModelRole, Greeting(propertyName))]
      ensures outcome.Parsed? && outcome.guide == EmptyGuide ==> chat == old(chat) && messages == old(messages)
      ensures userInput == old(userInput) && isTyping == old(isTyping) && openSection == old(openSection)
    {
      match outcome
      case Malformed =>
      case ParsedNull =>
        data := None;
      case Parsed(g) =>
        data := Some(g);
        if g != EmptyGuide {
          var sanitized := SanitizeGuide(g);
          chat := Some(sanitized);
          chatSource := g;
          messages := [Message(ModelRole, Greeting(propertyName))];
        }
    }

    /** Opens or closes a card. */
    method Toggle(c: SectionCard)
      modifies this
      ensures openSection == ToggleSection(old(openSection), c)
      ensures data == old(data) && chat == old(chat) && messages == old(messages)
      ensures userInput == old(userInput) && isTyping == old(isTyping)
      ensures chatSource == old(chatSource)
    {
      openSection := if openSection == Some(c) then None else Some(c);
    }

    /** The first half of `handleSendMessage`, up to the awaited call: a
        blank input, a reply already awaited or a missing chat changes
        nothing; otherwise the raw input is appended as the user's message
        and cleared. */
    method BeginSend() returns (sent: bool)
      requires Valid()
      modifies this
      ensures Valid()
      ensures sent <==> !IsBlank(old(userInput)) && !old(isTyping) && old(chat).Some?
      ensures !sent ==> messages == old(messages) && userInput == old(userInput) && isTyping == old(isTyping)
      ensures sent ==> messages == old(messages) + [Message(UserRole, old(userInput))]
                       && userInput == "" && isTyping
      ensures data == old(data) && chat == old(chat) && openSection == old(openSection)
      ensures chatSource == old(chatSource)
    {
      var userText := userInput;
      var blank := Trim(userText) == "";
      TrimEmptyIffBlank(userText);
      if blank || isTyping || chat.None? {
        return false;
      }
      userInput := "";
      messages := messages + [Message(UserRole, userText)];
      isTyping := true;
      return true;
    }

    /** The second half: the reply, or the error, is appended as the
        model's message and the wait ends. */
    method FinishSend(reply: ChatReply)
      requires Valid() && isTyping
      modifies this
      ensures Valid()
      ensures messages == old(messages) + [Message(ModelRole, ReplyText(reply))]
      ensures !isTyping
      ensures data == old(data) && chat == old(chat) && userInput == old(userInput)
      ensures openSection == old(openSection)
      ensures chatSource == old(chatSource)
    {
      messages := messages + [Message(ModelRole, ReplyText(reply))];
      isTyping := false;
    }

    /** `handleSendMessage` with the reply arriving before anything else
        happens: either nothing changes, or exactly two messages are
        appended, the raw input and the reply, and the input is cleared. */
    method SendMessage(reply: ChatReply)
      requires Valid()
      modifies this
      ensures Valid()
      ensures IsBlank(old(userInput)) || old(isTyping) || old(chat).None? ==>
                messages == old(messages) && userInput == old(userInput) && isTyping == old(isTyping)
      ensures !IsBlank(old(userInput)) && !old(isTyping) && old(chat).Some? ==>
                && messages == old(messages) + [Message(UserRole, old(userInput)), Message(ModelRole, ReplyText(reply))]
                && userInput == "" && !isTyping
      ensures data == old(data) && chat == old(chat) && openSection == old(openSection)
    {
      var sent := BeginSend();
      if sent {
        FinishSend(reply);
      }
    }
  }
}
