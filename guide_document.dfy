/** The guest guide as it comes back from the generator and is parsed:
    every member may be missing, and a member meant to be a list may hold
    some other value instead. */
module GuideDocument {
  import opened Wrappers
  import opened Text

  /** A member meant to be an array: either an array, or a non-array value
      kept as its text (the chat sanitiser replaces the gallery by one). */
  datatype Listish<T> = Items(items: seq<T>) | NotList(text: string)

  datatype Host = Host(name: Option<string>, photo: Option<string>)
  datatype Wifi = Wifi(name: Option<string>, password: Option<string>, instructions: Option<string>)
  datatype CheckIn = CheckIn(entryMethod: Option<string>, instructions: Option<string>, accessCode: Option<string>)
  datatype Emergency = Emergency(phone: Option<string>, safetyInfo: Option<string>)
  datatype Gem = Gem(name: Option<string>, kind: Option<string>, description: Option<string>)
  datatype VideoEntry = VideoEntry(title: Option<string>, url: Option<string>)
  datatype Checkout = Checkout(time: Option<string>, tasks: Option<Listish<string>>)

  /** A parsed guide. `None` is a member the document does not have;
      `otherKeys` are the names of its remaining members (unknown names,
      or known names whose value is `null`), which count as keys but are
      never shown. A `null` video entry is `None` in `videoGuides`. */
  datatype Guide = Guide(
    welcome: Option<string>,
    host: Option<Host>,
    heroImageUrl: Option<string>,
    gallery: Option<Listish<string>>,
    videoGuides: Option<Listish<Option<VideoEntry>>>,
    wifi: Option<Wifi>,
    checkIn: Option<CheckIn>,
    houseRules: Option<Listish<string>>,
    emergency: Option<Emergency>,
    localGems: Option<Listish<Gem>>,
    checkout: Option<Checkout>,
    otherKeys: set<string>
  )

  /** JavaScript truthiness of an optional string: present and non-empty. */
  predicate Truthy(s: Option<string>) {
    s.Some? && s.value != ""
  }

  /** JavaScript truthiness of an optional list-like member: an array is
      truthy even when empty, a string only when non-empty. */
  predicate TruthyList<T>(l: Option<Listish<T>>) {
    match l
    case None => false
    case Some(Items(_)) => true
    case Some(NotList(t)) => t != ""
  }

  /** The `length` of a list-like member: the element count of an array,
      the UTF-16 length of a string. */
  function ListLength<T>(l: Listish<T>): nat {
    match l
    case Items(xs) => |xs|
    case NotList(t) => Utf16Length(t)
  }

  function PresentKey<T>(name: string, member: Option<T>): set<string> {
    if member.Some? then {name} else {}
  }

  /** `Object.keys` of the parsed guide, as a set. */
  function Keys(g: Guide): set<string> {
    PresentKey("welcome", g.welcome) + PresentKey("host", g.host)
    + PresentKey("heroImageUrl", g.heroImageUrl) + PresentKey("gallery", g.gallery)
    + PresentKey("videoGuides", g.videoGuides) + PresentKey("wifi", g.wifi)
    + PresentKey("checkIn", g.checkIn) + PresentKey("houseRules", g.houseRules)
    + PresentKey("emergency", g.emergency) + PresentKey("localGems", g.localGems)
    + PresentKey("checkout", g.checkout) + g.otherKeys
  }

  /** The empty object `{}`. */
  const EmptyGuide: Guide :=
    Guide(None, None, None, None, None, None, None, None, None, None, None, {})

  /** A guide has no keys exactly when it is the empty object. */
  lemma KeysEmptyIffEmptyGuide(g: Guide)
    ensures Keys(g) == {} <==> g == EmptyGuide
  {
    if Keys(g) == {} {
      assert "welcome" !in Keys(g) && "host" !in Keys(g) && "heroImageUrl" !in Keys(g);
      assert "videoGuides" !in Keys(g) && "checkIn" !in Keys(g) && "houseRules" !in Keys(g);
      assert "emergency" !in Keys(g) && "localGems" !in Keys(g) && "checkout" !in Keys(g);
    }
  }
}
