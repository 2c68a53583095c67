# Artist dashboard edit state, in Dafny

This project models the editing logic of the artist dashboard page of the
Get-Ink'd tattoo-artist marketplace (`src/src/pages/ArtistDashboard.jsx`).
The page keeps a draft of the signed-in artist's profile, derived from the
user record held by the authentication store. Name, bio, location, styles
and the booking fields are edited in the draft and committed together on
submit. Portfolio images are committed at once. A "refresh visibility"
button commits the record with nothing but a new `lastActive` stamp.

Files and modules:

- `js_text.dfy`, module `JsText`: `String.prototype.trim`. It removes the
  ECMAScript WhiteSpace and LineTerminator characters from both ends. Its
  characterisation: the result is a slice of the input, everything cut away
  is whitespace, and the result has no whitespace at either end. It also
  proves that trimming is idempotent and that the trim is empty exactly
  when the input is all whitespace.
- `js_array.dfy`, module `JsArray`: the two `Array.prototype.filter` calls
  of the page. Each is written element by element, as `filter` computes.
  Filtering by value is characterised by membership, occurrence counts,
  order and splitting over concatenation. Filtering by index is proved equal
  to the slice expression `s[..i] + s[i+1..]` for an index in range, and to
  `s` for any other index.
- `artist_dashboard.dfy`, module `ArtistDashboard`: the user record, the
  draft and their derivations as datatypes and functions with lemmas, and
  the class `Dashboard`. The class has the page's state (`user`, `profile`,
  `newStyle`, `newImage`, `showImageDialog`) as fields and one method per
  handler.

Modelling choices:

- A record field that may be undefined is an `Option`. The fields no
  handler reads (username, email, followers, ...) are kept together in
  `rest` with opaque values, so "every other field is unchanged" can be
  stated. The page reads some of them (`user.username` at line 157,
  `user.followers` at line 175) only to render them.
- `updateUser` is modelled as the method `Dashboard.UpdateUser`, which
  replaces the `user` field.
- Every `new Date().toISOString()` becomes a string parameter.
  `handleAddImage` calls it twice (once for `createdDate`, once for
  `lastActive`), so `AddImage` takes two timestamps, `created` and `now`.
  The two may differ.
- The effect that rebuilds the draft (lines 34-49) is the explicit method
  `SyncDraft`. React re-runs it whenever `user` changes, and so after every
  commit. The model does not run it automatically. Because an image
  commit leaves the derived draft as it was (`WithPortfolio` ensures
  `DraftOf(r) == DraftOf(u)`), the draft rebuilt after it is the draft of
  the old record, so draft edits not yet submitted are lost.
- `handleRemoveImage` reads `user.portfolio.filter` with no `|| []`
  default, so it would throw on a record with no portfolio. The page calls it
  only from the rendered portfolio grid, which exists only when the
  portfolio is non-empty (line 369). `RemoveImage` therefore requires a
  record that has a portfolio.

The code has no error paths, and it differs from what one might expect in these ways:

- No handler reports an error. A blank image URL makes `handleAddImage` do
  nothing. An index out of range makes `handleRemoveImage` commit an
  identical portfolio with a new `lastActive`. There is no unknown-field
  case, because each input sets one fixed field.
- `handleRemoveStyle` removes every entry equal to the target, not only the
  first one.
- Nothing in the code makes `lastActive` increase. It is whatever timestamp
  is passed in, so the model makes no claim about its order.
- The draft defaults come only from `||`. A present `''` or `false` gives
  the same value as a missing field. The initial draft before the effect runs
  is all blanks (lines 20-28).

## Model

| member | source | states |
|---|---|---|
| `JsText.Trim` | src/src/pages/ArtistDashboard.jsx:69 | the trim is a contiguous slice of the input; everything before and after it is whitespace; it has no whitespace at either end |
| `JsText.TrimOfTrimmed` | src/src/pages/ArtistDashboard.jsx:69 | a string with no whitespace at its ends is its own trim |
| `JsText.TrimIdempotent` | src/src/pages/ArtistDashboard.jsx:69-72 | trimming twice gives the same as trimming once, so an added style is already trimmed |
| `JsText.TrimEmptyIffAllSpace` | src/src/pages/ArtistDashboard.jsx:86 | the trim is falsy (empty) exactly when every character is whitespace, in both directions |
| `JsArray.Without` | src/src/pages/ArtistDashboard.jsx:81 | filtering by value never lengthens the list, and the value no longer occurs |
| `JsArray.WithoutMembers` | src/src/pages/ArtistDashboard.jsx:81 | an element is in the filtered list if and only if it was in the list and differs from the value |
| `JsArray.WithoutCounts` | src/src/pages/ArtistDashboard.jsx:81 | every occurrence of the value goes; every other element keeps its number of occurrences |
| `JsArray.WithoutKeepsOrder` | src/src/pages/ArtistDashboard.jsx:81 | the remaining elements keep their original relative order (a subsequence) |
| `JsArray.WithoutAbsent` | src/src/pages/ArtistDashboard.jsx:81 | filtering out an absent value returns the same list |
| `JsArray.WithoutAppend` | src/src/pages/ArtistDashboard.jsx:81 | filtering the concatenation of two lists is the concatenation of the two filtered lists |
| `JsArray.WithoutNoDuplicates` | src/src/pages/ArtistDashboard.jsx:81 | a list without duplicates has none after the filter |
| `JsArray.DropIndex` | src/src/pages/ArtistDashboard.jsx:112 | `user.portfolio.filter((_, index) => index !== i)` has one element fewer when the index is within the list, and the same length otherwise |
| `JsArray.DropIndexFrom` | src/src/pages/ArtistDashboard.jsx:112 | scanning the positions from k to the end, the index filter removes one element when the index is among them and none otherwise |
| `JsArray.DropIndexFromSlices` | src/src/pages/ArtistDashboard.jsx:112 | scanning from position k, the index filter gives the positions from k up to the index followed by those after it, or all positions from k when the index is not among them |
| `JsArray.DropIndexSlices` | src/src/pages/ArtistDashboard.jsx:112 | `filter((_, index) => index !== i)` is `s[..i] + s[i+1..]` for an index within the list, and `s` for any other index |
| `ArtistDashboard.OrDefault` | src/src/pages/ArtistDashboard.jsx:41-47 | the or-default of lines 41-47 and 93 gives the field's value when it is present and the default when it is missing |
| `ArtistDashboard.DraftOf` | src/src/pages/ArtistDashboard.jsx:40-48 | each of the seven draft fields is the record's value when present, and `''`, `[]` or `false` when missing |
| `ArtistDashboard.MergeProfile` | src/src/pages/ArtistDashboard.jsx:54-58 | the committed record has all seven draft fields; reading the draft back from it gives the draft; `lastActive` is `now`; restoring those eight fields gives the old record back, so nothing else changed |
| `ArtistDashboard.WithPortfolio` | src/src/pages/ArtistDashboard.jsx:93-98 | the record gets the new portfolio and `lastActive`; every other field is the old record's; the draft derived from it is unchanged (no draft merge) |
| `ArtistDashboard.Touch` | src/src/pages/ArtistDashboard.jsx:128-131 | the record differs from the old one in `lastActive` alone |
| `ArtistDashboard.CommitUnchangedDraft` | src/src/pages/ArtistDashboard.jsx:40-58 | committing an unedited draft of a record that has all seven fields is a pure `lastActive` refresh |
| `ArtistDashboard.MergeProfileTwice` | src/src/pages/ArtistDashboard.jsx:54-58 | committing the same draft twice is the same as committing it once with the later timestamp |
| `ArtistDashboard.ApplyEdit` | src/src/pages/ArtistDashboard.jsx:214-304 | a form input sets exactly the one draft field it names; every other field, the styles included, is unchanged |
| `ArtistDashboard.BookingDateSurvivesClosing` | src/src/pages/ArtistDashboard.jsx:278-304 | a booking date entered while bookings are open is still committed after bookings are closed, beside `bookingStatus = false` |
| `ArtistDashboard.AcceptsStyle` | src/src/pages/ArtistDashboard.jsx:69 | the style test passes exactly when the input is not all whitespace and its trim is not already listed |
| `ArtistDashboard.AddStyleTo` | src/src/pages/ArtistDashboard.jsx:68-76 | the old styles are a prefix of the new ones; at most one style is added; the new styles are exactly the old ones plus the trimmed input when it is non-empty; a blank or already-listed input leaves the styles unchanged |
| `ArtistDashboard.AddStyleIdempotent` | src/src/pages/ArtistDashboard.jsx:68-76 | adding the same input a second time leaves the styles as the first addition left them |
| `ArtistDashboard.AddStyleKeepsValid` | src/src/pages/ArtistDashboard.jsx:69-72 | styles that were trimmed, non-empty and free of duplicates stay so after an addition |
| `ArtistDashboard.AddStyleIsCaseSensitive` | src/src/pages/ArtistDashboard.jsx:69 | adding `"traditional"` to `["Traditional"]` gives `["Traditional", "traditional"]` |
| `ArtistDashboard.RemoveStyleKeepsValid` | src/src/pages/ArtistDashboard.jsx:78-83 | styles that were trimmed, non-empty and free of duplicates stay so after a removal |
| `ArtistDashboard.RemoveThenAddStyle` | src/src/pages/ArtistDashboard.jsx:68-83 | removing a listed style and adding it back moves it to the end and restores the same set of styles |
| `ArtistDashboard.AcceptsImage` | src/src/pages/ArtistDashboard.jsx:86 | the image test passes exactly when the URL is not all whitespace |
| `ArtistDashboard.AppendItem` | src/src/pages/ArtistDashboard.jsx:93 | the new portfolio is the old one (or `[]`) with its items unchanged, followed by exactly one new item |
| `ArtistDashboard.RemoveAppendedItem` | src/src/pages/ArtistDashboard.jsx:93-112 | removing the item just appended, by its index, gives the old portfolio back |
| `ArtistDashboard.RemoveImageShape` | src/src/pages/ArtistDashboard.jsx:111-112 | an index in range leaves one item fewer, with the earlier items in place and the later ones moved down by one; any other index leaves the portfolio identical |
| `ArtistDashboard.RemoveOutOfRangeIsRefresh` | src/src/pages/ArtistDashboard.jsx:111-119 | removing at an index out of range still commits, and the commit equals a visibility refresh |
| `ArtistDashboard.RemoveMiddleImage` | src/src/pages/ArtistDashboard.jsx:112 | removing index 1 from `[A, B, C]` gives `[A, C]` |
| `ArtistDashboard.Dashboard.constructor` | src/src/pages/ArtistDashboard.jsx:20-32 | the page starts with the store's record, a blank draft, empty inputs and the dialog closed |
| `ArtistDashboard.Dashboard.UpdateUser` | src/src/pages/ArtistDashboard.jsx:16 | the store's current record is replaced, and no page state changes |
| `ArtistDashboard.Dashboard.SyncDraft` | src/src/pages/ArtistDashboard.jsx:34-49 | a record that is not an artist's redirects and leaves the draft alone; otherwise the draft becomes the draft derived from the record |
| `ArtistDashboard.Dashboard.EditProfile` | src/src/pages/ArtistDashboard.jsx:214-304 | the draft takes the edit and nothing else changes |
| `ArtistDashboard.Dashboard.TypeStyle` | src/src/pages/ArtistDashboard.jsx:249 | the style input holds what was typed; nothing else changes |
| `ArtistDashboard.Dashboard.TypeImageUrl` | src/src/pages/ArtistDashboard.jsx:342 | the dialog's URL changes and its caption is kept |
| `ArtistDashboard.Dashboard.TypeCaption` | src/src/pages/ArtistDashboard.jsx:351 | the dialog's caption changes and its URL is kept |
| `ArtistDashboard.Dashboard.SetImageDialog` | src/src/pages/ArtistDashboard.jsx:325 | the dialog is open exactly when requested |
| `ArtistDashboard.Dashboard.ProfileUpdate` | src/src/pages/ArtistDashboard.jsx:51-60 | the store receives the draft merged into the old record with `lastActive = now`, and the committed record reads back as the draft; the draft and inputs are untouched |
| `ArtistDashboard.Dashboard.AddStyle` | src/src/pages/ArtistDashboard.jsx:68-76 | an accepted input is appended to the draft's styles and the input is cleared; otherwise neither the draft nor the input changes; well-formed styles stay well formed; the record is not committed |
| `ArtistDashboard.Dashboard.RemoveStyle` | src/src/pages/ArtistDashboard.jsx:78-83 | the draft's styles lose every entry equal to the target and the other draft fields are untouched; an absent target changes nothing; well-formed styles stay well formed |
| `ArtistDashboard.Dashboard.AddImage` | src/src/pages/ArtistDashboard.jsx:85-102 | a blank URL changes nothing; otherwise the store receives the old record with one item (untrimmed URL, caption, `created`) appended and `lastActive = now`, the inputs are blanked and the dialog closes; the draft is not merged |
| `ArtistDashboard.Dashboard.RemoveImage` | src/src/pages/ArtistDashboard.jsx:111-119 | the store receives the old record with the item at the index filtered out and `lastActive = now`; the portfolio shrinks by one exactly when the index is in range; the draft is not merged |
| `ArtistDashboard.Dashboard.VisibilityRefresh` | src/src/pages/ArtistDashboard.jsx:127-133 | the store receives the old record with only `lastActive` changed |

## Left out

- `src/components/Navbar.jsx`: navigation links and the avatar initial, which is presentation only.
- Everything the page renders: layout, animations, toasts, the fixed statistics cards and `e.preventDefault()`.
- The redirect when no user is signed in. The class always holds a record. The non-artist redirect is modelled only as the result of `SyncDraft`.
- The store's persistence and its notification of the page. `UpdateUser` just replaces the field, and `SyncDraft` is not triggered automatically.
- The clock. Timestamps are opaque strings, with nothing said about their order.
- Values of the wrong JavaScript type in the record, such as a number where a string is expected. The fields have fixed types.
- JsText.Trim: uses the space-separator characters of current Unicode. A JavaScript engine built on a different Unicode version may differ there.
- Dashboard.RemoveImage: does not model the exception `handleRemoveImage` would throw on a record without a portfolio. It requires a portfolio instead, which the page's rendering guarantees.
