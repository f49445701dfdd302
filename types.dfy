/** The property record the editor fills in and every other part consumes,
    with its enumerations and the defaults a new guide starts from. */
module Types {
  import opened Wrappers
  import opened Text

  /** The kind of property; `UniqueStay` is written "Unique Stay". */
  datatype PropertyType = Apartment | House | Cabin | Studio | UniqueStay | Villa

  datatype GuestType = Families | Couples | Solo | DigitalNomads | BusinessTravelers

  datatype AreaType = Urban | Suburban | RemoteRural | Beachfront | Mountain

  /** The string each property type is stored as. */
  function PropertyTypeName(t: PropertyType): string {
    match t
    case Apartment => "Apartment"
    case House => "House"
    case Cabin => "Cabin"
    case Studio => "Studio"
    case UniqueStay => "Unique Stay"
    case Villa => "Villa"
  }

  /** Reading a stored property type back: exactly the six names are
      accepted. */
  function ParsePropertyType(s: string): (r: Option<PropertyType>)
    ensures r.Some? ==> PropertyTypeName(r.value) == s
  {
    if s == "Apartment" then Some(Apartment)
    else if s == "House" then Some(House)
    else if s == "Cabin" then Some(Cabin)
    else if s == "Studio" then Some(Studio)
    else if s == "Unique Stay" then Some(UniqueStay)
    else if s == "Villa" then Some(Villa)
    else None
  }

  /** Every property type name reads back as that type, so the six names
      are distinct. */
  lemma PropertyTypeRoundTrip(t: PropertyType)
    ensures ParsePropertyType(PropertyTypeName(t)) == Some(t)
  {
  }

  function GuestTypeName(t: GuestType): string {
    match t
    case Families => "Families"
    case Couples => "Couples"
    case Solo => "Solo"
    case DigitalNomads => "Digital Nomads"
    case BusinessTravelers => "Business Travelers"
  }

  function AreaTypeName(t: AreaType): string {
    match t
    case Urban => "Urban"
    case Suburban => "Suburban"
    case RemoteRural => "Remote/Rural"
    case Beachfront => "Beachfront"
    case Mountain => "Mountain"
  }

  /** A video tutorial the host links: a title and a URL, nothing else. */
  datatype VideoGuide = VideoGuide(title: string, url: string)

  /** One guide as the host edits it. The two optional members are the
      Drive link and the generated guide text. */
  datatype PropertyData = PropertyData(
    id: string,
    createdAt: int,
    driveLink: Option<string>,
    propertyName: string,
    propertyType: PropertyType,
    location: string,
    hostName: string,
    hostImageUrl: string,
    heroImageUrl: string,
    additionalPhotos: seq<string>,
    videoGuides: seq<VideoGuide>,
    targetGuest: GuestType,
    checkInTime: string,
    checkOutTime: string,
    checkInMethod: string,
    wifiName: string,
    wifiPassword: string,
    emergencyPhone: string,
    propertyContact: string,
    houseRules: seq<string>,
    parkingInfo: string,
    petPolicy: string,
    smokingPolicy: string,
    quietHours: string,
    checkoutTasks: string,
    areaType: AreaType,
    restaurants: string,
    activities: string,
    specialNotes: string,
    aiGeneratedContent: Option<string>
  )

  /** The stock hero photograph every new guide starts with. */
  const DefaultHeroImageUrl: string :=
    "https://" + "images.unsplash.com/photo-1512917774080-9991f1c4c750?auto=format&fit=crop&q=80&w=800"

  /** The defaults of a new guide; `loadedAt` is the clock reading taken
      when the record was first built. */
  function InitialData(loadedAt: int): PropertyData {
    PropertyData(
      id := "",
      createdAt := loadedAt,
      driveLink := None,
      propertyName := "",
      propertyType := House,
      location := "",
      hostName := "",
      hostImageUrl := "",
      heroImageUrl := DefaultHeroImageUrl,
      additionalPhotos := [],
      videoGuides := [],
      targetGuest := Families,
      checkInTime := "15:00",
      checkOutTime := "11:00",
      checkInMethod := "",
      wifiName := "",
      wifiPassword := "",
      emergencyPhone := "",
      propertyContact := "",
      houseRules := [],
      parkingInfo := "",
      petPolicy := "No pets allowed",
      smokingPolicy := "No smoking",
      quietHours := "10 PM - 8 AM",
      checkoutTasks := "Please turn off lights and lock the door.",
      areaType := Urban,
      restaurants := "",
      activities := "",
      specialNotes := "",
      aiGeneratedContent := None
    )
  }

  /** A new guide has no photos, videos or rules, no host photo, a hero
      photo served over https rather than inlined, a house with the usual
      check-in and check-out times, and no generated text yet. */
  lemma InitialDataDefaults(loadedAt: int)
    ensures var d := InitialData(loadedAt);
      && d.additionalPhotos == [] && d.videoGuides == [] && d.houseRules == []
      && d.hostImageUrl == ""
      && StartsWith(d.heroImageUrl, "https://") && !StartsWith(d.heroImageUrl, "data:image")
      && PropertyTypeName(d.propertyType) == "House"
      && d.checkInTime == "15:00" && d.checkOutTime == "11:00"
      && d.aiGeneratedContent.None?
  {
    var h := DefaultHeroImageUrl;
    assert "https://" <= h;
    assert h[0] == 'h';
  }
}
