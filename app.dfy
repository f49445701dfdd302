/** The host-side application: the editor's step navigation and list
    editing, the guide list, viewing and generating guides, and the modes
    the sign-in state drives. The remote store is modelled by the requests
    the application sends it and the answers it gives back. */
module App {
  import opened Wrappers
  import opened Text
  import opened Splice
  import opened Types
  import opened GeminiService

  datatype AppMode = AuthMode | OnboardingMode | DashboardMode | EditorMode | ViewerMode | GuestViewMode

  datatype UserProfile = UserProfile(id: string, name: string, email: string)

  /** The number of editor steps. */
  const TotalSteps: int := 7

  // ---------------------------------------------------------------------
  // Step navigation
  // ---------------------------------------------------------------------

  /** The two members the first step insists on. */
  predicate RequiredFilled(g: PropertyData) {
    g.propertyName != "" && g.location != ""
  }

  /** `nextStep`: blocked on the first step until the required members
      are filled in, otherwise one step on, at most the last. */
  function NextStepOf(step: int, g: PropertyData): int {
    if step == 1 && !RequiredFilled(g) then step
    else if step + 1 < TotalSteps then step + 1 else TotalSteps
  }

  /** `prevStep`: one step back, at least the first. */
  function PrevStepOf(step: int): int {
    if step - 1 > 1 then step - 1 else 1
  }

  /** Navigation keeps the step within 1..7; a step forward moves by
      exactly one unless it is blocked or already on the last step; a step
      back moves by exactly one unless already on the first. */
  lemma StepBounds(step: int, g: PropertyData)
    requires 1 <= step <= TotalSteps
    ensures 1 <= NextStepOf(step, g) <= TotalSteps && 1 <= PrevStepOf(step) <= TotalSteps
    ensures NextStepOf(step, g) == step <==> step == TotalSteps || (step == 1 && !RequiredFilled(g))
    ensures NextStepOf(step, g) != step ==> NextStepOf(step, g) == step + 1
    ensures PrevStepOf(step) == step <==> step == 1
    ensures PrevStepOf(step) != step ==> PrevStepOf(step) == step - 1
  {
  }

  /** Back undoes forward and forward undoes back, except where the
      navigation is clamped or blocked. */
  lemma StepsUndo(step: int, g: PropertyData)
    requires 1 <= step <= TotalSteps
    ensures NextStepOf(step, g) != step ==> PrevStepOf(NextStepOf(step, g)) == step
    ensures step > 1 && (step != 2 || RequiredFilled(g)) ==> NextStepOf(PrevStepOf(step), g) == step
  {
  }

  // ---------------------------------------------------------------------
  // List editing
  // ---------------------------------------------------------------------

  /** `xs.filter((_, i) => i !== idx)`, walking the list as the filter
      does. */
  function RemoveAt<T>(xs: seq<T>, idx: int): (r: seq<T>)
    ensures 0 <= idx < |xs| ==> r == xs[..idx] + xs[idx + 1..]
    ensures !(0 <= idx < |xs|) ==> r == xs
  {
    if xs == [] then []
    else
      var rest := RemoveAt(xs[1..], idx - 1);
      if idx == 0 then rest
      else
        assert 0 < idx < |xs| ==> xs[..idx] + xs[idx + 1..] == [xs[0]] + (xs[1..][..idx - 1] + xs[1..][idx..]);
        [xs[0]] + rest
  }

  /** Removing an entry shortens the list by one and keeps every other
      entry, in order: the entries before `idx` keep their index and the
      entries after it move down by one. */
  lemma RemoveAtShifts<T>(xs: seq<T>, idx: int)
    requires 0 <= idx < |xs|
    ensures |RemoveAt(xs, idx)| == |xs| - 1
    ensures forall j :: 0 <= j < idx ==> RemoveAt(xs, idx)[j] == xs[j]
    ensures forall j :: idx <= j < |xs| - 1 ==> RemoveAt(xs, idx)[j] == xs[j + 1]
  {
  }

  /** `list[idx] = v` on a copy of the list, for an index no further than
      one past the end. */
  function SetAt<T>(xs: seq<T>, idx: int, v: T): (r: seq<T>)
    requires idx <= |xs|
    ensures |r| == if idx == |xs| then |xs| + 1 else |xs|
    ensures 0 <= idx ==> r[idx] == v
    ensures forall j :: 0 <= j < |xs| && j != idx ==> r[j] == xs[j]
    ensures idx < 0 ==> r == xs
  {
    if idx < 0 then xs
    else if idx == |xs| then xs + [v]
    else xs[idx := v]
  }

  /** A member of a video entry the editor can change. */
  datatype VideoField = TitleField | UrlField

  function WithField(v: VideoGuide, f: VideoField, value: string): VideoGuide {
    match f
    case TitleField => v.(title := value)
    case UrlField => v.(url := value)
  }

  /** Changing a field of an entry changes exactly that field of it. */
  lemma WithFieldChangesOneField(v: VideoGuide, f: VideoField, value: string)
    ensures f == TitleField ==> WithField(v, f, value).title == value && WithField(v, f, value).url == v.url
    ensures f == UrlField ==> WithField(v, f, value).url == value && WithField(v, f, value).title == v.title
    ensures WithField(WithField(v, f, value), f, if f == TitleField then v.title else v.url) == v
  {
  }

  // ---------------------------------------------------------------------
  // Submitting
  // ---------------------------------------------------------------------

  /** `v.title?.trim() && v.url?.trim()`. */
  predicate Submittable(v: VideoGuide) {
    Trim(v.title) != "" && Trim(v.url) != ""
  }

  /** The video entries sent for generation, in their order. */
  function SubmittableVideos(vs: seq<VideoGuide>): (r: seq<VideoGuide>)
    ensures |r| <= |vs|
    ensures forall v :: v in r <==> v in vs && Submittable(v)
  {
    if vs == [] then []
    else (if Submittable(vs[0]) then [vs[0]] else []) + SubmittableVideos(vs[1..])
  }

  /** An entry is sent exactly when neither its title nor its url is
      blank. */
  lemma SubmittableIffNotBlank(v: VideoGuide)
    ensures Submittable(v) <==> !IsBlank(v.title) && !IsBlank(v.url)
  {
    TrimEmptyIffBlank(v.title);
    TrimEmptyIffBlank(v.url);
  }

  /** The filter works entry by entry, so it keeps the order: filtering a
      concatenation concatenates the filtered parts. */
  lemma {:induction false} SubmittableVideosAppend(a: seq<VideoGuide>, b: seq<VideoGuide>)
    ensures SubmittableVideos(a + b) == SubmittableVideos(a) + SubmittableVideos(b)
  {
    if a == [] {
      assert a + b == b;
    } else {
      assert (a + b)[1..] == a[1..] + b;
      SubmittableVideosAppend(a[1..], b);
    }
  }

  /** Filtering an already filtered list changes nothing. */
  lemma {:induction false} SubmittableVideosIdempotent(vs: seq<VideoGuide>)
    ensures SubmittableVideos(SubmittableVideos(vs)) == SubmittableVideos(vs)
  {
    if vs != [] {
      SubmittableVideosIdempotent(vs[1..]);
      var head := if Submittable(vs[0]) then [vs[0]] else [];
      SubmittableVideosAppend(head, SubmittableVideos(vs[1..]));
    }
  }

  /** `!content || content === "{}" || content.trim() === ""` fails the
      view. */
  predicate Acceptable(content: string) {
    !(content == "" || content == "{}" || Trim(content) == "")
  }

  /** Generated text is accepted exactly when it is neither blank nor the
      empty object. */
  lemma AcceptableIff(content: string)
    ensures Acceptable(content) <==> !IsBlank(content) && content != "{}"
  {
    TrimEmptyIffBlank(content);
  }

  /** A missing or empty answer from the model always fails the view: it
      is turned into the empty object, which rehydration leaves alone. */
  lemma EmptyAnswerNotAccepted(data: PropertyData, text: Option<string>)
    requires text == None || text == Some("")
    ensures !Acceptable(Rehydrated(ResponseText(text), ImageMapOf(data)))
  {
    GenerateOutcomes(data, Responded(text));
  }

  // ---------------------------------------------------------------------
  // Loading guides
  // ---------------------------------------------------------------------

  /** A list member as the store returns it: an array, or some other
      value. */
  datatype Stored<T> = StoredArray(items: seq<T>) | NotArray

  /** A stored guide: its three list members as stored, and its other
      members in `record` (whose own three lists are not used). */
  datatype StoredRow = StoredRow(
    record: PropertyData,
    houseRules: Stored<string>,
    additionalPhotos: Stored<string>,
    videoGuides: Stored<VideoGuide>
  )

  /** `Array.isArray(x) ? x : []`. */
  function ArrayOrEmpty<T>(s: Stored<T>): seq<T> {
    if s.StoredArray? then s.items else []
  }

  /** The normalisation applied to every loaded guide and to a guide
      opened for editing. */
  function Normalize(row: StoredRow): PropertyData {
    row.record.(
      houseRules := ArrayOrEmpty(row.houseRules),
      additionalPhotos := ArrayOrEmpty(row.additionalPhotos),
      videoGuides := ArrayOrEmpty(row.videoGuides)
    )
  }

  /** How a guide is stored: its lists as arrays. */
  function ToStored(g: PropertyData): StoredRow {
    StoredRow(g, StoredArray(g.houseRules), StoredArray(g.additionalPhotos), StoredArray(g.videoGuides))
  }

  /** Loading a stored guide gives the guide back, and normalising is
      idempotent; a non-array list loads as the empty list, and no other
      member is touched. */
  lemma NormalizeRoundTrip(g: PropertyData, row: StoredRow)
    ensures Normalize(ToStored(g)) == g
    ensures Normalize(ToStored(Normalize(row))) == Normalize(row)
    ensures row.houseRules.NotArray? ==> Normalize(row).houseRules == []
    ensures row.additionalPhotos.NotArray? ==> Normalize(row).additionalPhotos == []
    ensures row.videoGuides.NotArray? ==> Normalize(row).videoGuides == []
    ensures Normalize(row).(houseRules := [], additionalPhotos := [], videoGuides := [])
         == row.record.(houseRules := [], additionalPhotos := [], videoGuides := [])
  {
  }

  /** `data.map(normalise)`. */
  function NormalizeAll(rows: seq<StoredRow>): (r: seq<PropertyData>)
    ensures |r| == |rows|
    ensures forall i :: 0 <= i < |rows| ==> r[i] == Normalize(rows[i])
  {
    seq(|rows|, i requires 0 <= i < |rows| => Normalize(rows[i]))
  }

  /** `guides.filter(g => g.id !== id)`. */
  function WithoutId(gs: seq<PropertyData>, id: string): (r: seq<PropertyData>)
    ensures |r| <= |gs|
    ensures forall g :: g in r <==> g in gs && g.id != id
  {
    if gs == [] then []
    else (if gs[0].id != id then [gs[0]] else []) + WithoutId(gs[1..], id)
  }

  /** The number of guides carrying `id`. */
  function CountId(gs: seq<PropertyData>, id: string): nat {
    if gs == [] then 0 else (if gs[0].id == id then 1 else 0) + CountId(gs[1..], id)
  }

  /** Deleting removes exactly the guides carrying the id, so a list
      without it is left as it was. */
  lemma {:induction false} WithoutIdCount(gs: seq<PropertyData>, id: string)
    ensures |WithoutId(gs, id)| + CountId(gs, id) == |gs|
    ensures CountId(gs, id) == 0 ==> WithoutId(gs, id) == gs
  {
    if gs != [] {
      WithoutIdCount(gs[1..], id);
      assert gs == [gs[0]] + gs[1..];
    }
  }

  // ---------------------------------------------------------------------
  // Sign-in state
  // ---------------------------------------------------------------------

  /** The mode after a session appears: the sign-in page gives way to the
      dashboard, any other page stays. */
  function ModeAfterSignIn(m: AppMode): (r: AppMode)
    ensures r != AuthMode
    ensures m != AuthMode ==> r == m
  {
    if m == AuthMode then DashboardMode else m
  }

  /** The mode after the session ends: the guest view stays, any other
      page becomes the sign-in page. */
  function ModeAfterSignOut(m: AppMode): (r: AppMode)
    ensures r == AuthMode || r == GuestViewMode
    ensures r == GuestViewMode <==> m == GuestViewMode
  {
    if m == GuestViewMode then GuestViewMode else AuthMode
  }

  /** Signing in and out again ends where signing out would have, and
      signing out then in lands on the dashboard unless a guest is
      viewing. */
  lemma AuthRoundTrips(m: AppMode)
    ensures ModeAfterSignOut(ModeAfterSignIn(m)) == ModeAfterSignOut(m)
    ensures ModeAfterSignIn(ModeAfterSignOut(m)) == (if m == GuestViewMode then GuestViewMode else DashboardMode)
  {
  }

  const FallbackUserName: string := "User"

  /** `full_name || email?.split('@')[0] || 'User'`. */
  function ProfileName(fullName: Option<string>, email: Option<string>): (r: string)
    ensures r != ""
    ensures fullName.Some? && fullName.value != "" ==> r == fullName.value
    ensures !(fullName.Some? && fullName.value != "") && r != FallbackUserName ==>
              email.Some? && r <= email.value && '@' !in r
  {
    if fullName.Some? && fullName.value != "" then fullName.value
    else if email.Some? && BeforeFirst(email.value, '@') != "" then BeforeFirst(email.value, '@')
    else FallbackUserName
  }

  /** When the full name is unused, the name is `email.split('@')[0]`
      when that piece is non-empty, and `User` when it is empty or there
      is no email. */
  lemma ProfileNameFallback(fullName: Option<string>, email: Option<string>)
    ensures !(fullName.Some? && fullName.value != "") && email.Some? && Split(email.value, "@")[0] != "" ==>
              ProfileName(fullName, email) == Split(email.value, "@")[0]
    ensures !(fullName.Some? && fullName.value != "") && (email.None? || Split(email.value, "@")[0] == "") ==>
              ProfileName(fullName, email) == FallbackUserName
  {
    if email.Some? {
      SplitHeadIsBeforeFirst(email.value, '@');
    }
  }

  // ---------------------------------------------------------------------
  // The application state
  // ---------------------------------------------------------------------

  /** A request sent to the remote store. */
  datatype StoreRequest =
    | UpdateContent(id: string, content: string)
    | Upsert(row: PropertyData, userId: string)
    | DeleteRow(id: string)

  class Application {
    var mode: AppMode
    var user: Option<UserProfile>
    var currentStep: int
    var guides: seq<PropertyData>
    var activeGuide: PropertyData
    var generatedContent: Option<string>
    /** The requests sent to the store, oldest first. */
    var requests: seq<StoreRequest>

    /** The editor is always on one of its steps. */
    ghost predicate Valid()
      reads this
    {
      1 <= currentStep <= TotalSteps
    }

    /** The state at start-up; `loadedAt` is the clock reading the
        defaults were built with. */
    constructor(loadedAt: int)
      ensures Valid()
      ensures mode == AuthMode && user.None? && currentStep == 1 && guides == []
      ensures activeGuide == InitialData(loadedAt) && generatedContent.None? && requests == []
    {
      mode := AuthMode;
      user := None;
      currentStep := 1;
      guides := [];
      activeGuide := InitialData(loadedAt);
      generatedContent := None;
      requests := [];
    }

    method NextStep()
      requires Valid()
      modifies this
      ensures Valid()
      ensures currentStep == NextStepOf(old(currentStep), activeGuide)
      ensures mode == old(mode) && user == old(user) && guides == old(guides)
      ensures activeGuide == old(activeGuide) && generatedContent == old(generatedContent) && requests == old(requests)
    {
      StepBounds(currentStep, activeGuide);
      if currentStep == 1 && (activeGuide.propertyName == "" || activeGuide.location == "") {
        return;
      }
      currentStep := if currentStep + 1 < TotalSteps then currentStep + 1 else TotalSteps;
    }

    method PrevStep()
      requires Valid()
      modifies this
      ensures Valid()
      ensures currentStep == PrevStepOf(old(currentStep))
      ensures mode == old(mode) && user == old(user) && guides == old(guides)
      ensures activeGuide == old(activeGuide) && generatedContent == old(generatedContent) && requests == old(requests)
    {
      currentStep := if currentStep - 1 > 1 then currentStep - 1 else 1;
    }

    /** Appends one blank video entry. */
    method AddVideo()
      modifies this
      ensures activeGuide == old(activeGuide).(videoGuides := old(activeGuide).videoGuides + [VideoGuide("", "")])
      ensures mode == old(mode) && user == old(user) && currentStep == old(currentStep) && guides == old(guides)
      ensures generatedContent == old(generatedContent) && requests == old(requests)
    {
      activeGuide := activeGuide.(videoGuides := activeGuide.videoGuides + [VideoGuide("", "")]);
    }

    /** Sets one field of the entry at `idx` on a copy of the list; an
        index with no entry leaves the list as it was. */
    method VideoChange(idx: int, f: VideoField, value: string)
      modifies this
      ensures 0 <= idx < |old(activeGuide).videoGuides| ==>
                activeGuide == old(activeGuide).(videoGuides := old(activeGuide).videoGuides[idx := WithField(old(activeGuide).videoGuides[idx], f, value)])
      ensures !(0 <= idx < |old(activeGuide).videoGuides|) ==> activeGuide == old(activeGuide)
      ensures mode == old(mode) && user == old(user) && currentStep == old(currentStep) && guides == old(guides)
      ensures generatedContent == old(generatedContent) && requests == old(requests)
    {
      var nv := activeGuide.videoGuides;
      if 0 <= idx < |nv| {
        nv := nv[idx := WithField(nv[idx], f, value)];
      }
      activeGuide := activeGuide.(videoGuides := nv);
    }

    method RemoveVideo(idx: int)
      modifies this
      ensures activeGuide == old(activeGuide).(videoGuides := RemoveAt(old(activeGuide).videoGuides, idx))
      ensures mode == old(mode) && user == old(user) && currentStep == old(currentStep) && guides == old(guides)
      ensures generatedContent == old(generatedContent) && requests == old(requests)
    {
      activeGuide := activeGuide.(videoGuides := RemoveAt(activeGuide.videoGuides, idx));
    }

    /** Appends one blank gallery photo. */
    method AddPhoto()
      modifies this
      ensures activeGuide == old(activeGuide).(additionalPhotos := old(activeGuide).additionalPhotos + [""])
      ensures mode == old(mode) && user == old(user) && currentStep == old(currentStep) && guides == old(guides)
      ensures generatedContent == old(generatedContent) && requests == old(requests)
    {
      activeGuide := activeGuide.(additionalPhotos := activeGuide.additionalPhotos + [""]);
    }

    method PhotoChange(idx: int, value: string)
      requires idx <= |activeGuide.additionalPhotos|
      modifies this
      ensures activeGuide == old(activeGuide).(additionalPhotos := SetAt(old(activeGuide).additionalPhotos, idx, value))
      ensures mode == old(mode) && user == old(user) && currentStep == old(currentStep) && guides == old(guides)
      ensures generatedContent == old(generatedContent) && requests == old(requests)
    {
      activeGuide := activeGuide.(additionalPhotos := SetAt(activeGuide.additionalPhotos, idx, value));
    }

    method RemovePhoto(idx: int)
      modifies this
      ensures activeGuide == old(activeGuide).(additionalPhotos := RemoveAt(old(activeGuide).additionalPhotos, idx))
      ensures mode == old(mode) && user == old(user) && currentStep == old(currentStep) && guides == old(guides)
      ensures generatedContent == old(generatedContent) && requests == old(requests)
    {
      activeGuide := activeGuide.(additionalPhotos := RemoveAt(activeGuide.additionalPhotos, idx));
    }

    /** Appends one blank house rule. */
    method AddRule()
      modifies this
      ensures activeGuide == old(activeGuide).(houseRules := old(activeGuide).houseRules + [""])
      ensures mode == old(mode) && user == old(user) && currentStep == old(currentStep) && guides == old(guides)
      ensures generatedContent == old(generatedContent) && requests == old(requests)
    {
      activeGuide := activeGuide.(houseRules := activeGuide.houseRules + [""]);
    }

    method RuleChange(idx: int, value: string)
      requires idx <= |activeGuide.houseRules|
      modifies this
      ensures activeGuide == old(activeGuide).(houseRules := SetAt(old(activeGuide).houseRules, idx, value))
      ensures mode == old(mode) && user == old(user) && currentStep == old(currentStep) && guides == old(guides)
      ensures generatedContent == old(generatedContent) && requests == old(requests)
    {
      activeGuide := activeGuide.(houseRules := SetAt(activeGuide.houseRules, idx, value));
    }

    method RemoveRule(idx: int)
      modifies this
      ensures activeGuide == old(activeGuide).(houseRules := RemoveAt(old(activeGuide).houseRules, idx))
      ensures mode == old(mode) && user == old(user) && currentStep == old(currentStep) && guides == old(guides)
      ensures generatedContent == old(generatedContent) && requests == old(requests)
    {
      activeGuide := activeGuide.(houseRules := RemoveAt(activeGuide.houseRules, idx));
    }

    /** `fetchGuides`: `rows` is what the store returned for the user,
        `None` when it reported an error or returned nothing; then the
        list stays as it was. */
    method FetchGuides(rows: Option<seq<StoredRow>>)
      modifies this
      ensures guides == (if rows.Some? then NormalizeAll(rows.value) else old(guides))
      ensures mode == old(mode) && user == old(user) && currentStep == old(currentStep)
      ensures activeGuide == old(activeGuide) && generatedContent == old(generatedContent) && requests == old(requests)
    {
      if rows.Some? {
        guides := NormalizeAll(rows.value);
      }
    }

    /** Starts a new guide from the defaults, with a fresh id, the current
        time and the user's name as the host's. */
    method CreateNew(newId: string, now: int)
      modifies this
      ensures Valid()
      ensures activeGuide == InitialData(now).(id := newId, createdAt := now,
                hostName := if old(user).Some? then old(user).value.name else "")
      ensures generatedContent.None? && currentStep == 1 && mode == OnboardingMode
      ensures user == old(user) && guides == old(guides) && requests == old(requests)
    {
      var hostName := if user.Some? then user.value.name else "";
      activeGuide := InitialData(now).(id := newId, createdAt := now, hostName := hostName,
                                       houseRules := [], additionalPhotos := [], videoGuides := []);
      generatedContent := None;
      currentStep := 1;
      mode := OnboardingMode;
    }

    /** Opens a stored guide in the editor, with its generated text if it
        has any. */
    method Edit(row: StoredRow)
      modifies this
      ensures activeGuide == Normalize(row)
      ensures generatedContent == (if row.record.aiGeneratedContent == Some("") then None else row.record.aiGeneratedContent)
      ensures mode == EditorMode
      ensures user == old(user) && currentStep == old(currentStep) && guides == old(guides) && requests == old(requests)
    {
      activeGuide := Normalize(row);
      generatedContent := if row.record.aiGeneratedContent.Some? && row.record.aiGeneratedContent.value != ""
                          then row.record.aiGeneratedContent else None;
      mode := EditorMode;
    }

    /** `handleView`: a guide with generated text opens at once; otherwise
        the text is generated (the model answering with `response`) and, if
        acceptable, stored and shown. A failed or unacceptable generation
        leaves the mode as it was and stores nothing. */
    method View(guide: PropertyData, response: AiResponse)
      modifies this
      ensures activeGuide == guide
      ensures guide.aiGeneratedContent.Some? && guide.aiGeneratedContent.value != "" ==>
                generatedContent == guide.aiGeneratedContent && mode == ViewerMode && requests == old(requests)
      ensures !(guide.aiGeneratedContent.Some? && guide.aiGeneratedContent.value != "") && response.Responded? ==>
                var content := Rehydrated(ResponseText(response.text), ImageMapOf(guide));
                if Acceptable(content) then
                  generatedContent == Some(content) && mode == ViewerMode
                  && requests == old(requests) + [UpdateContent(guide.id, content)]
                else
                  generatedContent.None? && mode == old(mode) && requests == old(requests)
      ensures !(guide.aiGeneratedContent.Some? && guide.aiGeneratedContent.value != "") && response.CallFailed? ==>
                generatedContent.None? && mode == old(mode) && requests == old(requests)
      ensures user == old(user) && currentStep == old(currentStep) && guides == old(guides)
    {
      generatedContent := None;
      activeGuide := guide;
      if guide.aiGeneratedContent.Some? && guide.aiGeneratedContent.value != "" {
        generatedContent := guide.aiGeneratedContent;
        mode := ViewerMode;
        return;
      }
      var r := GenerateGuestGuide(guide, response);
      if r.Failure? {
        return;
      }
      var content := r.value;
      if !Acceptable(content) {
        return;
      }
      generatedContent := Some(content);
      requests := requests + [UpdateContent(guide.id, content)];
      mode := ViewerMode;
    }

    /** `handleDelete`: the guides carrying `id` leave the list only when
        the store reports no error. */
    method Delete(id: string, storeFailed: bool)
      modifies this
      ensures requests == old(requests) + [DeleteRow(id)]
      ensures guides == (if storeFailed then old(guides) else WithoutId(old(guides), id))
      ensures mode == old(mode) && user == old(user) && currentStep == old(currentStep)
      ensures activeGuide == old(activeGuide) && generatedContent == old(generatedContent)
    {
      requests := requests + [DeleteRow(id)];
      if !storeFailed {
        guides := WithoutId(guides, id);
      }
    }

    /** `handleSubmit`: nothing without a user; back to the first step when
        a required member is empty; otherwise the guide with only its
        submittable videos is generated (the model answering with
        `response`), saved, and on a successful save the list is reloaded
        (`rows`) and the guide shown. The guide being edited keeps all its
        videos. */
    method Submit(response: AiResponse, saveFailed: bool, rows: Option<seq<StoredRow>>)
      requires Valid()
      modifies this
      ensures Valid()
      ensures activeGuide == old(activeGuide) && user == old(user)
      ensures old(user).None? ==>
                mode == old(mode) && currentStep == old(currentStep) && guides == old(guides)
                && generatedContent == old(generatedContent) && requests == old(requests)
      ensures old(user).Some? && !RequiredFilled(old(activeGuide)) ==>
                currentStep == 1 && mode == old(mode) && guides == old(guides)
                && generatedContent == old(generatedContent) && requests == old(requests)
      ensures old(user).Some? && RequiredFilled(old(activeGuide)) ==> currentStep == old(currentStep)
      ensures old(user).Some? && RequiredFilled(old(activeGuide)) && response.CallFailed? ==>
                mode == old(mode) && guides == old(guides)
                && generatedContent == old(generatedContent) && requests == old(requests)
      ensures old(user).Some? && RequiredFilled(old(activeGuide)) && response.Responded? ==>
                var submitted := old(activeGuide).(videoGuides := SubmittableVideos(old(activeGuide).videoGuides));
                var content := Rehydrated(ResponseText(response.text), ImageMapOf(submitted));
                && generatedContent == Some(content)
                && requests == old(requests) + [Upsert(submitted.(aiGeneratedContent := Some(content)), old(user).value.id)]
                && (saveFailed ==> mode == old(mode) && guides == old(guides))
                && (!saveFailed ==>
                      mode == ViewerMode && guides == (if rows.Some? then NormalizeAll(rows.value) else old(guides)))
    {
      if user.None? {
        return;
      }
      if activeGuide.propertyName == "" || activeGuide.location == "" {
        currentStep := 1;
        return;
      }
      var submitted := activeGuide.(videoGuides := SubmittableVideos(activeGuide.videoGuides));
      var r := GenerateGuestGuide(submitted, response);
      if r.Failure? {
        return;
      }
      var content := r.value;
      generatedContent := Some(content);
      requests := requests + [Upsert(submitted.(aiGeneratedContent := Some(content)), user.value.id)];
      if saveFailed {
        return;
      }
      FetchGuides(rows);
      mode := ViewerMode;
    }

    /** A session appeared for the account `id`: the profile is recorded,
        the sign-in page gives way to the dashboard, and for a non-empty id
        the list is reloaded (`rows`). */
    method SignIn(id: string, fullName: Option<string>, email: Option<string>, rows: Option<seq<StoredRow>>)
      modifies this
      ensures user == Some(UserProfile(id, ProfileName(fullName, email), email.GetOr("")))
      ensures mode == ModeAfterSignIn(old(mode))
      ensures guides == (if id != "" && rows.Some? then NormalizeAll(rows.value) else old(guides))
      ensures currentStep == old(currentStep) && activeGuide == old(activeGuide)
      ensures generatedContent == old(generatedContent) && requests == old(requests)
    {
      user := Some(UserProfile(id, ProfileName(fullName, email), email.GetOr("")));
      mode := if mode == AuthMode then DashboardMode else mode;
      if id != "" {
        FetchGuides(rows);
      }
    }

    /** The session ended. */
    method SignOut()
      modifies this
      ensures user.None? && mode == ModeAfterSignOut(old(mode))
      ensures currentStep == old(currentStep) && guides == old(guides) && activeGuide == old(activeGuide)
      ensures generatedContent == old(generatedContent) && requests == old(requests)
    {
      user := None;
      mode := if mode == GuestViewMode then GuestViewMode else AuthMode;
    }
  }
}
