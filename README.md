# Air-BnB-Guide, modelled in Dafny

Air-BnB-Guide lets a host describe a rental property in a seven-step editor.
An AI model turns that description into a digital house manual, which
guests open on a mobile page that has a chat concierge. This project
models the core of that application and proves properties about it:

- **the property record** (`types.dfy`): the property types and the
  defaults a new guide starts from;
- **the generator service** (`gemini_service.dfy`), in three parts:
  - the image map, which swaps host, hero and inlined gallery photos for
    placeholder tokens before the prompt is sent;
  - the rehydration loop, which puts the images back into the answer with
    `split`/`join`;
  - the sanitised copy of a guide that the chat is given;
- **the JavaScript string built-ins** the application relies on
  (`text.dfy`, `splice.dfy`): `trim`, `String(n)`, UTF-16 `length`,
  `split`, `join` and `split(p).join(r)`;
- **the quoted-token view of rehydration** (`quoted_tokens.dfy`): a text
  cut at its quote marks. Here replacing `"K"` by `"V"` is a replacement of
  segments. From this follow order independence, what can be left over,
  and why `_1` is never matched inside `_10`;
- **the parsed guide** (`guide_document.dfy`) and **the guest page**
  (`guide_viewer.dfy`):
  - the YouTube link resolver, proved equal to a statement of its regular
    expression (the rightmost reachable marker and the longest id run after
    it), with the expression's `.` and `length` read over UTF-16 units;
  - which section cards render, in which order;
  - the video entries, the header fallbacks and the card toggle;
  - the parse effect and the chat message handler, as a `Viewer` class;
- **the host application** (`app.dfy`), an `Application` class covering:
  - step navigation and list editing;
  - loading, creating, editing, viewing, deleting and submitting guides,
    with the remote store reduced to the requests sent to it and the
    answers it gives;
  - the modes that the sign-in state drives;
- **the sign-in form** (`login.dfy`): its checks, its display-name
  fallback and its state, as a `LoginForm` class;
- **the image picker** (`image_upload.dfy`): its type and size checks and
  its drag state, as an `Uploader` class.

Several things are parameters here rather than computed:

- the AI model's answers (`AiResponse`, `ChatReply`);
- the store's answers (rows, failure flags);
- the clock (`loadedAt`, `now`) and generated ids;
- the data URL a file reads as;
- the result of `JSON.parse` (`ParseOutcome`).

## Model

| member | source | states |
|---|---|---|
| Types.ParsePropertyType | types.ts:2 | a parsed property type is one whose stored name is the input text |
| Types.PropertyTypeRoundTrip | types.ts:2 | every property type's name parses back to that type, so the six names are distinct |
| Types.InitialDataDefaults | types.ts:44-73 | a new guide has no photos, videos, rules or host photo; it has the stock https hero photo, a House, check-in 15:00 and check-out 11:00, and no generated text |
| Text.TrimStart | App.tsx:237 | the result is a suffix of the input; every removed character is whitespace, and the result does not start with whitespace |
| Text.TrimEnd | App.tsx:237 | the result is a prefix of the input; every removed character is whitespace, and the result does not end with whitespace |
| Text.TrimEmptyIffBlank | App.tsx:201 | `s.trim()` is empty exactly when every character of `s` is ECMAScript whitespace |
| Text.DigitChar | services/geminiService.ts:62 | the digit character has the given value |
| Text.DecimalString | services/geminiService.ts:62 | `String(n)` is non-empty, all digits, one digit exactly below 10, and has no leading zero |
| Text.DecimalStringInjective | services/geminiService.ts:62 | distinct indices give distinct decimal strings, so gallery placeholders are distinct |
| Text.Utf16Length | components/Login.tsx:25 | a string's `length` in UTF-16 units lies between its character count and twice that |
| Text.Utf16LengthOfBmp | components/Login.tsx:25 | a string of Basic Multilingual Plane characters has as many units as characters |
| Text.BeforeFirst | components/Login.tsx:52 | the result is a prefix without `c`, followed in the input by `c` when it is shorter |
| Splice.Split | services/geminiService.ts:108 | a split has at least one piece, and its first piece is a prefix of the text |
| Splice.JoinAppend | services/geminiService.ts:108 | joining two glued piece lists puts the separator once between their joins |
| Splice.JoinExtendFirst | services/geminiService.ts:108 | extending the first piece extends the joined text at the front |
| Splice.ReplaceAllAtPattern | services/geminiService.ts:108 | a pattern at the front is replaced and skipped |
| Splice.ReplaceAllPastChar | services/geminiService.ts:108 | without the pattern at the front, the first character is copied |
| Splice.ReplaceAllStep | services/geminiService.ts:108 | `split(p).join(r)` is the left-to-right scan that replaces each leftmost non-overlapping occurrence |
| Splice.SplitJoinRoundTrip | services/geminiService.ts:108 | joining the pieces of a split with the same separator gives the text back |
| Splice.ExtendedPieceAvoidsSeparator | services/geminiService.ts:108 | a piece extended by one character stays separator-free when the text does not start with the separator |
| Splice.SplitPartsAvoidSeparator | services/geminiService.ts:108 | no piece of a split contains the separator |
| Splice.ReplaceAllAbsent | services/geminiService.ts:108 | a text without the pattern comes back unchanged |
| Splice.ReplaceAllSkips | services/geminiService.ts:108 | a stretch none of whose characters can start the pattern is copied through |
| QuotedTokens.SegmentsRoundTrip | services/geminiService.ts:108 | every text is its quote-free segments joined by quote marks |
| QuotedTokens.ReplacedShift | services/geminiService.ts:108 | dropping segments up to one left alone does not change which later segments are replaced |
| QuotedTokens.QuotedTokenAt | services/geminiService.ts:108 | a quoted token can start at a quote mark only as that quote mark's own segment, closed by a following quote |
| QuotedTokens.ScanAtQuote | services/geminiService.ts:108 | at a quote mark the scan replaces `"k"` when the segment is `k`, and otherwise copies the quote mark |
| QuotedTokens.SegmentsAfterMatch | services/geminiService.ts:108 | when segment 1 is the token it becomes the value, and the rest is replaced as if alone |
| QuotedTokens.SegmentsAfterMiss | services/geminiService.ts:108 | when segment 1 is not the token, segment 0 stays and the rest is replaced as if alone |
| QuotedTokens.ReplaceAllQuotedShort | services/geminiService.ts:108 | a text with at most one quote mark holds no quoted token and is unchanged |
| QuotedTokens.ReplaceAllQuoted | services/geminiService.ts:108 | replacing `"k"` by `"v"` in a text replaces exactly the enclosed segments reading `k`, except one whose opening quote the previous replacement consumed |
| QuotedTokens.EnclosedRunOccurs | services/geminiService.ts:108 | a run of enclosed segments occurs in the text between quote marks |
| QuotedTokens.QuotedTokenOccurs | services/geminiService.ts:108 | a quoted token occurs in a text only as an enclosed segment |
| QuotedTokens.QuotedTokenInQuotedToken | services/geminiService.ts:62 | one quoted placeholder occurs inside another exactly when they are the same |
| QuotedTokens.LeftoverIsAdjacent | services/geminiService.ts:108 | a token left after replacement (no value being that token) was preceded by the same token: the text had `"k"k"` |
| QuotedTokens.AdjacentPairOccurs | services/geminiService.ts:108 | two neighbouring enclosed segments reading `k` mean the text contains `"k"k"` |
| QuotedTokens.ReplacedUnaffected | services/geminiService.ts:108 | replacing one token does not move the replacements of another, different from both token and value |
| QuotedTokens.ComposeSegs | services/geminiService.ts:106-110 | replacing `k` and then the tokens of a map is replacing with the map extended by `k` |
| QuotedTokens.RehydrateSegsEmpty | services/geminiService.ts:106-110 | an empty map changes no segment |
| QuotedTokens.AdjacentSegments | services/geminiService.ts:108 | in `"k"k"` only the first enclosed `k` is replaced |
| QuotedTokens.AdjacentTokenSurvives | services/geminiService.ts:108 | in `"k"k"` the second token survives the replacement |
| GeminiService.InlineIndices | services/geminiService.ts:60-66 | the inlined photo indices: ascending, each inlined, and every inlined index below `n` listed |
| GeminiService.GalleryIndexed | services/geminiService.ts:59-66 | gallery entry `j` and placeholder `j` name the `j`-th inlined photo by its original index |
| GeminiService.BuildImageMap | services/geminiService.ts:54-66 | the loop builds exactly the host, hero and inlined-gallery map and the placeholder list |
| GeminiService.GalleryKeyFacts | services/geminiService.ts:62 | gallery placeholders start with `IMG_PLACEHOLDER_`, hold no quote, are not host or hero, and differ for different indices |
| GeminiService.ImageMapShape | services/geminiService.ts:54-66 | map layout: host, hero, then one entry per inlined photo in index order |
| GeminiService.ImageMapWellKeyed | services/geminiService.ts:54-66 | the map's tokens are quote-free, pairwise distinct, and start with `IMG_PLACEHOLDER_` |
| GeminiService.HostAndHeroAlwaysMapped | services/geminiService.ts:54-57 | host and hero are always mapped, each once, to the record's own field |
| GeminiService.GalleryKeyIffInline | services/geminiService.ts:60-65 | `IMG_PLACEHOLDER_GALLERY_i` maps to `v` exactly when photo `i` starts with `data:image` and is `v` |
| GeminiService.PlaceholdersAscending | services/geminiService.ts:64 | the prompt's placeholder list is the map's gallery keys, in ascending photo order |
| GeminiService.Rehydrate | services/geminiService.ts:106-110 | the loop computes the entry-by-entry replacement of `"K"` by `"V"`, skipping empty values |
| GeminiService.ActiveMapSpec | services/geminiService.ts:107 | the tokens replaced are exactly those with a non-empty value, each with its value |
| GeminiService.RehydratedJoin | services/geminiService.ts:106-110 | the loop over a segmented text is one simultaneous replacement by the active map |
| GeminiService.RehydratedBySegments | services/geminiService.ts:106-110 | rehydration of any text is the simultaneous replacement of its segments |
| GeminiService.ActiveMapIncluded | services/geminiService.ts:106 | every replacement one ordering of the entries makes, a permutation makes too |
| GeminiService.RehydrationOrderIndependent | services/geminiService.ts:106-110 | for well-formed entries the map's iteration order does not change the result |
| GeminiService.ActiveValues | services/geminiService.ts:107-108 | active values hold no quote mark and are no token |
| GeminiService.NoReplacedTokenRemains | services/geminiService.ts:106-110 | for entries with quote-free, distinct tokens and quote-free used values that are no token, a token with a non-empty value no longer occurs after rehydration, when the text has no `"k"k"` |
| GeminiService.EmptyValueTokenSurvives | services/geminiService.ts:107 | for entries with quote-free, distinct tokens and quote-free used values that are no token, a token with an empty value stays in the text |
| GeminiService.UntouchedWithoutTokens | services/geminiService.ts:106-110 | a text without any replaced token comes back unchanged |
| GeminiService.NoQuotedTokenInBraces | services/geminiService.ts:103 | `{}` contains no quoted token |
| GeminiService.EmptyObjectUnchanged | services/geminiService.ts:103 | the fallback `{}` survives rehydration unchanged |
| GeminiService.GalleryTokensDoNotOverlap | services/geminiService.ts:108 | replacing one gallery placeholder never changes another, such as `_1` against `_10` |
| GeminiService.ImageMapWellValued | services/geminiService.ts:54-66 | with quote-free photos and host/hero not placeholders, the map is well keyed and well valued |
| GeminiService.ImageMapGalleryValue | services/geminiService.ts:61-63 | when the photos hold no quote mark, a gallery value is quote-free and is no placeholder |
| GeminiService.GenerateGuestGuide | services/geminiService.ts:92-116 | a failed call gives the timeout error; otherwise the rehydrated answer text, with `{}` for a missing or empty one |
| GeminiService.GenerateOutcomes | services/geminiService.ts:103 | a missing or empty answer yields exactly `{}`; a non-empty one is used as is |
| GeminiService.SanitizeGuide | services/geminiService.ts:123-126 | the method computes the chat's sanitised copy |
| GeminiService.SanitizedCarriesNoImages | services/geminiService.ts:123-126 | in the sanitised copy hero and host photo are at most descriptors and the gallery is no longer an array; the keys and every other member are unchanged |
| GeminiService.SanitizedGalleryCount | services/geminiService.ts:126 | an array gallery becomes the text counting its photos; an empty-string gallery stays |
| GuideDocument.KeysEmptyIffEmptyGuide | components/GuideViewer.tsx:73 | a parsed guide has no keys exactly when it is `{}` |
| GuideViewer.MarkerLength | components/GuideViewer.tsx:24 | a marker alternative that matches lies within the text and on one line; the dot of `youtu.be` takes one UTF-16 unit, so never a character beyond the Basic Multilingual Plane |
| GuideViewer.LineEnd | components/GuideViewer.tsx:24 | the end of the line `.` can cross |
| GuideViewer.LastBelow | components/GuideViewer.tsx:24 | the rightmost position below `n` satisfying the test, or none |
| GuideViewer.LastMarkerBelow | components/GuideViewer.tsx:24 | the rightmost marker below `n`, or none |
| GuideViewer.RunEnd | components/GuideViewer.tsx:24 | the end of the maximal `[^#&?]` run |
| GuideViewer.EmbedAfterMarker | components/GuideViewer.tsx:26 | a link built after a marker is the embed prefix and an 11-unit id |
| GuideViewer.YoutubeEmbedUrl | components/GuideViewer.tsx:22-27 | a missing or empty argument gives no link; a link is the embed prefix and an 11-unit id |
| GuideViewer.MarkersWithinLine | components/GuideViewer.tsx:24 | a marker that `^.*` can reach lies on the first line |
| GuideViewer.LastMarkerIsLastReachable | components/GuideViewer.tsx:24 | the search finds exactly the rightmost reachable marker (the greedy `.*`) |
| GuideViewer.RunEndIsLongest | components/GuideViewer.tsx:24 | the greedy id group is the unique longest run |
| GuideViewer.RegexMatchResolves | components/GuideViewer.tsx:24-26 | a match of the expression yields the embed link of its id exactly when the id has 11 units |
| GuideViewer.EmbedAfterLongestRun | components/GuideViewer.tsx:24-26 | the link after a marker is built from the longest id run |
| GuideViewer.ResolvedHasMatch | components/GuideViewer.tsx:24-26 | a resolved link comes from a match with an 11-unit id |
| GuideViewer.YoutubeEmbedUrlMatchesRegex | components/GuideViewer.tsx:22-27 | the resolver yields a link exactly when the expression matches with an 11-unit id, and then the link of that id |
| GuideViewer.MarkerOpening | components/GuideViewer.tsx:24 | every marker starts with one of six two-character openings |
| GuideViewer.MarkerClosing | components/GuideViewer.tsx:24 | every marker ends with `/` or `=` |
| GuideViewer.NoMarkerAfterShortLinkHead | components/GuideViewer.tsx:24 | no marker starts inside the id of a short link |
| GuideViewer.ShortLinkMarker | components/GuideViewer.tsx:24 | the `youtu.be/` marker of a short link sits at index 8 and is reachable |
| GuideViewer.ShortLinkIdRun | components/GuideViewer.tsx:24 | the id of a short link is the whole run after its marker |
| GuideViewer.ShortLinkMatch | components/GuideViewer.tsx:24 | the expression matches a short link with its id |
| GuideViewer.ShortLinkResolves | components/GuideViewer.tsx:22-27 | `https://youtu.be/<11-char id>` resolves to the embed link of that id |
| GuideViewer.ShortLinkWrongLength | components/GuideViewer.tsx:26 | a short link with any other id length does not resolve |
| GuideViewer.AstralDotBreaksShortLink | components/GuideViewer.tsx:24-26 | `youtu`, a character beyond the Basic Multilingual Plane, then `be/` and an id: no link, since the dot takes only half of that character |
| GuideViewer.RenderedAmongFacts | components/GuideViewer.tsx:136-286 | filtering keeps exactly the rendering cards and their page order |
| GuideViewer.RenderedCardHasKey | components/GuideViewer.tsx:137-268 | a rendered card's member is one of the guide's keys |
| GuideViewer.RenderedSectionsRules | components/GuideViewer.tsx:136-286 | the page shows exactly the cards whose condition holds (a present object member, or a non-empty array), in page order, each with its key present |
| GuideViewer.NothingRendersAmong | components/GuideViewer.tsx:136-286 | cards none of which renders leave nothing |
| GuideViewer.NoKeysRendersNothing | components/GuideViewer.tsx:136-286 | a guide without keys renders no card |
| GuideViewer.RenderVideoRules | components/GuideViewer.tsx:206-224 | an entry is skipped exactly when null or without url and title; a rendered one shows its title and an embed, a link, or nothing |
| GuideViewer.TitleOnlyVideo | components/GuideViewer.tsx:207 | a title-only entry is still shown, with no media |
| GuideViewer.HeaderFallbacks | components/GuideViewer.tsx:111-125 | the header always has a photo and a host name: the guide's own when truthy, else the stock ones |
| GuideViewer.ToggleSection | components/GuideViewer.tsx:142 | a card opens exactly when it was not the open one, and closes otherwise |
| GuideViewer.ToggleTwice | components/GuideViewer.tsx:142 | toggling twice keeps an open card open and leaves every other state closed |
| GuideViewer.ReplyText | components/GuideViewer.tsx:97-99 | the model message is never empty: the reply when truthy, the not-sure text, or the connection error |
| GuideViewer.Viewer.constructor | components/GuideViewer.tsx:69-80 | mounting parses the content; a guide with keys starts a chat on its sanitised copy with the greeting |
| GuideViewer.Viewer.Load | components/GuideViewer.tsx:69-80 | a parse error keeps everything; null clears the data; a non-empty guide restarts the chat and the greeting |
| GuideViewer.Viewer.Toggle | components/GuideViewer.tsx:142 | the open card becomes the toggle of the old one, and nothing else changes |
| GuideViewer.Viewer.BeginSend | components/GuideViewer.tsx:86-93 | a message is sent exactly when the input is not blank, nothing is pending and a chat exists; the input is cleared and appended |
| GuideViewer.Viewer.FinishSend | components/GuideViewer.tsx:95-102 | the reply text is appended and typing ends |
| GuideViewer.Viewer.SendMessage | components/GuideViewer.tsx:86-103 | the guard leaves everything unchanged; otherwise the user message and then the reply text are appended |
| ImageUpload.CheckFile | components/ImageUpload.tsx:15-25 | a file is refused for its type exactly when its MIME type does not start with `image/`, for its size exactly when it is an image over 1.5 MiB, and accepted otherwise |
| ImageUpload.AlertFor | components/ImageUpload.tsx:17-23 | an alert is raised exactly for a refused file |
| ImageUpload.SizeBoundary | components/ImageUpload.tsx:22 | exactly 1572864 bytes is accepted, one byte more refused |
| ImageUpload.TypeCheckedFirst | components/ImageUpload.tsx:16-19 | a non-image gets the type alert whatever its size |
| ImageUpload.Uploader.constructor | components/ImageUpload.tsx:13 | not dragging, nothing emitted, no alert |
| ImageUpload.Uploader.HandleFile | components/ImageUpload.tsx:15-33 | an accepted file is passed on once as its data URL; a refused one raises its alert and passes nothing |
| ImageUpload.Uploader.FileChange | components/ImageUpload.tsx:35-38 | the first chosen file, if any, is handled |
| ImageUpload.Uploader.DragOver | components/ImageUpload.tsx:40-43 | the zone lights up and nothing is emitted |
| ImageUpload.Uploader.DragLeave | components/ImageUpload.tsx:45-47 | the highlight goes and nothing is emitted |
| ImageUpload.Uploader.Drop | components/ImageUpload.tsx:49-54 | the highlight goes and the first dropped file, if any, is handled |
| ImageUpload.Uploader.Remove | components/ImageUpload.tsx:97-99 | the empty string is passed on |
| Login.SignupError | components/Login.tsx:23-26 | sign-up passes its checks exactly with a name, a password of at least 6 UTF-16 units and a matching confirmation |
| Login.SignupChecksInOrder | components/Login.tsx:24-26 | each message appears exactly when its check fails and the earlier checks pass |
| Login.PasswordLengthBoundary | components/Login.tsx:25 | 5 characters are refused and 6 accepted |
| Splice.SplitHeadIsBeforeFirst | components/Login.tsx:52 | `s.split(c)[0]` is the text before the first `c` |
| Login.SignInName | components/Login.tsx:52 | the stored full name when non-empty, else a prefix of the email without `@`, ending at its first `@` |
| Login.SignInNameFallback | components/Login.tsx:52 | the fallback is `email.split('@')[0]`, the whole email when it has no `@` |
| Login.LoginForm.constructor | components/Login.tsx:9-15 | a blank sign-in form |
| Login.LoginForm.HandleSubmit | components/Login.tsx:17-62 | the error is cleared; a failing sign-up check becomes the error and nothing is sent; otherwise the request is sent, a service error becomes the error, a returned user reaches `onLogin` with its display name; loading ends |
| Login.LoginForm.ToggleMode | components/Login.tsx:64-69 | the mode flips; error and both passwords clear; email and name stay |
| App.StepBounds | App.tsx:263-270 | navigation stays within 1..7 and moves by exactly one unless blocked on step 1 or clamped |
| App.StepsUndo | App.tsx:263-270 | back undoes forward, and forward undoes back, unless clamped or blocked |
| App.RemoveAt | App.tsx:164 | filtering out index `idx` removes exactly that entry, or nothing when out of range |
| App.RemoveAtShifts | App.tsx:164 | earlier entries keep their index and later ones move down by one |
| App.SetAt | App.tsx:157-163 | the copy has `v` at `idx`, every other entry unchanged, grown by one at the end |
| App.WithFieldChangesOneField | App.tsx:147-155 | changing a video field changes only that field, and setting it back restores the entry |
| App.SubmittableVideos | App.tsx:236-237 | the videos sent are exactly those with non-blank title and url |
| App.SubmittableIffNotBlank | App.tsx:237 | an entry is sent exactly when neither title nor url is blank |
| App.SubmittableVideosAppend | App.tsx:236-237 | the filter keeps order: filtering a concatenation concatenates |
| App.SubmittableVideosIdempotent | App.tsx:236-237 | filtering twice equals filtering once |
| App.AcceptableIff | App.tsx:201 | generated text is accepted exactly when it is not blank and not `{}` |
| App.EmptyAnswerNotAccepted | App.tsx:200-201 | a missing or empty model answer always fails the view |
| App.NormalizeRoundTrip | App.tsx:111-116 | loading a stored guide gives it back; normalising is idempotent; a non-array list loads empty, and nothing else changes |
| App.NormalizeAll | App.tsx:111-116 | every row is normalised, in order |
| App.WithoutId | App.tsx:221 | exactly the guides without the id remain |
| App.WithoutIdCount | App.tsx:221 | the guides carrying the id are removed, and a list without it is unchanged |
| App.ModeAfterSignIn | App.tsx:88 | the sign-in page gives way to the dashboard and any other page stays |
| App.ModeAfterSignOut | App.tsx:92 | the guest view stays and every other page becomes sign-in |
| App.AuthRoundTrips | App.tsx:79-93 | sign-in then sign-out ends as sign-out would; sign-out then sign-in lands on the dashboard unless a guest is viewing |
| App.ProfileName | App.tsx:84 | the profile name is never empty; it is the full name when that is non-empty, and otherwise an `@`-free prefix of the email or `User` |
| App.ProfileNameFallback | App.tsx:84 | without a full name, the name is `email.split('@')[0]` when that is non-empty, and `User` when it is empty or there is no email |
| App.Application.constructor | App.tsx:23-31 | the sign-in page, step 1, no guides, the initial record, nothing generated |
| App.Application.NextStep | App.tsx:263-269 | the step becomes the guarded, clamped next step, and nothing else changes |
| App.Application.PrevStep | App.tsx:270 | the step becomes the clamped previous step |
| App.Application.AddVideo | App.tsx:146 | one blank video entry is appended |
| App.Application.VideoChange | App.tsx:147-155 | entry `idx` has its field changed; an index outside the list changes nothing |
| App.Application.RemoveVideo | App.tsx:174 | video `idx` is removed |
| App.Application.AddPhoto | App.tsx:156 | one empty photo is appended |
| App.Application.PhotoChange | App.tsx:157-163 | photo `idx` is set |
| App.Application.RemovePhoto | App.tsx:164 | photo `idx` is removed |
| App.Application.AddRule | App.tsx:165 | one empty rule is appended |
| App.Application.RuleChange | App.tsx:166-172 | rule `idx` is set |
| App.Application.RemoveRule | App.tsx:173 | rule `idx` is removed |
| App.Application.FetchGuides | App.tsx:102-120 | a successful load replaces the list by the normalised rows; a failed one keeps it |
| App.Application.CreateNew | App.tsx:131-144 | a fresh record with the new id and time, step 1, onboarding, nothing generated |
| App.Application.Edit | App.tsx:176-185 | the normalised guide is edited and its non-empty generated text kept |
| App.Application.View | App.tsx:187-214 | stored text is shown as is; otherwise the generated text is shown and saved only when acceptable, and a failure or unacceptable text leaves the mode |
| App.Application.Delete | App.tsx:216-223 | the delete request is sent; the guides with the id leave the list unless the store fails |
| App.Application.Submit | App.tsx:225-261 | nothing without a user; step 1 when a required member is empty; otherwise the guide with only submittable videos is generated and saved, and on success the list is reloaded and the guide shown |
| App.Application.SignIn | App.tsx:81-89 | the profile is recorded, the mode follows `ModeAfterSignIn`, and guides reload for a non-empty id |
| App.Application.SignOut | App.tsx:90-93 | the profile is cleared and the mode follows `ModeAfterSignOut` |

## Left out

- JSON parsing and `JSON.stringify` are not modelled. The parsed guide
  (`ParseOutcome`) and the text the model returns are parameters.
- The prompt text and the system instructions given to the AI model are
  not modelled. They only shape what the model answers, and that answer
  is a parameter.
- The AI model, the store and the authentication service are not
  modelled. Their answers are parameters, and the calls made to them are
  recorded in order (`requests`).
- `FileReader` is not modelled; the data URL a file reads as is a
  parameter.
- `alert` is not modelled as a dialog. The picker's alerts are recorded
  in `Uploader.alerts`, and the application's error alerts are left out.
- The guest path of `initApp` (App.tsx:35-78) is not modelled: opening a
  shared guide by `?g=` and restoring a session at start-up. Its
  profile-name rule is the same `ProfileName`.
- Loading flags and the QR guide selection (`isGenerating`, `isLoading`,
  `selectedQRGuide`) are not modelled; they only drive spinners and the
  QR dialog.
- `handleInputChange` and `handleImageChange` are not modelled. They set
  one named member of the record from a form control, which needs a
  by-name update the record datatype does not have.
- Dashboard, QRModal and Input are not modelled; they only lay out data
  the model already has.
- App passes a no-op `onLogin` to the sign-in form (App.tsx:274), and the
  application then reacts to the session change. `LoginForm.logins`
  records the calls, and `Application.SignIn` models the session change.
- The Sign Out button (App.tsx:297) is not modelled separately. After
  signing out it also sets the sign-in page, which `ModeAfterSignOut`
  gives for every page the button is shown on.
- Non-object JSON values inside a guide are not modelled beyond
  "present", "absent", "array", "string" and `null`.
- A non-string `full_name` in the account metadata is not modelled.
- `null` entries of the editor's video list are not modelled; the editor
  only ever holds objects there.
- App.Application.PhotoChange: requires `idx <= |additionalPhotos|`,
  because an assignment further past the end leaves holes in a
  JavaScript array, and holes are not modelled.
- App.Application.RuleChange: requires `idx <= |houseRules|`, for the
  same reason.
- GeminiService.RehydrationOrderIndependent: proved only when tokens and
  used values are quote-free, tokens are distinct, and no used value is a
  token. `ImageMapWellValued` shows the image map meets this whenever the
  photos hold no quote mark and host and hero are not placeholders.
- GeminiService.NoReplacedTokenRemains: requires the text to hold no
  `"k"k"`. `AdjacentTokenSurvives` shows that such a text keeps a
  replaced token. It also requires the same entry conditions as
  `RehydrationOrderIndependent`: quote-free, distinct tokens, and used
  values that are quote-free and no token.
- GeminiService.EmptyValueTokenSurvives: requires the same entry
  conditions as `RehydrationOrderIndependent`.
- GeminiService.ImageMapGalleryValue: requires the gallery photos to hold
  no quote mark.
- Text.Utf16Length, GuideViewer.MarkerLength and GuideViewer.YoutubeEmbedUrl
  read text in UTF-16 units. A `char` outside the Basic Multilingual Plane
  counts as two units, and the dot of `youtu.be` does not match it. Lone
  surrogates are not modelled, because a Dafny `char` cannot hold one.
