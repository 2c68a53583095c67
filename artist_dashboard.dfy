/** The edit and commit state of the artist dashboard page
    (src/src/pages/ArtistDashboard.jsx): a draft profile derived from the
    signed-in user's record, staged edits to that draft, and the four ways
    a new user record is committed to the authentication store. */
module ArtistDashboard {
  import opened JsText
  import opened JsArray

  datatype Option<T> = None | Some(value: T)

  /** JavaScript's `x || d` for a field that is either missing or holds a
      value; a present '' or false gives the same result as the default. */
  function OrDefault<T>(o: Option<T>, d: T): (r: T)
    ensures o == Some(r) || (o == None && r == d)
  {
    match o
    case Some(v) => v
    case None => d
  }

  /** One entry of the artist's portfolio. */
  datatype PortfolioItem = PortfolioItem(image: string, caption: string, createdDate: string)

  /** The user object held by the authentication store. A field the object
      may lack is an Option (None standing for undefined); `rest` holds
      every other field of the object (username, email, followers, ...),
      keyed by name; no handler reads them, and the page reads some of them
      only to render them. */
  datatype UserRecord = UserRecord(
    name: Option<string>,
    bio: Option<string>,
    location: Option<string>,
    styles: Option<seq<string>>,
    bookingStatus: Option<bool>,
    bookedUntil: Option<string>,
    bookingLink: Option<string>,
    portfolio: Option<seq<PortfolioItem>>,
    lastActive: Option<string>,
    isArtist: bool,
    rest: map<string, string>)

  /** The page's draft of the seven editable fields. */
  datatype Profile = Profile(
    name: string,
    bio: string,
    location: string,
    styles: seq<string>,
    bookingStatus: bool,
    bookedUntil: string,
    bookingLink: string)

  /** The contents of the "add image" dialog's two inputs. */
  datatype ImageDraft = ImageDraft(image: string, caption: string)

  /** A change made through one of the profile form's inputs. */
  datatype ProfileEdit =
    | SetName(name: string)
    | SetLocation(location: string)
    | SetBio(bio: string)
    | SetBookingStatus(open: bool)
    | SetBookedUntil(date: string)
    | SetBookingLink(link: string)

  /** The draft the page starts with, before its effect has run. */
  const BlankProfile := Profile("", "", "", [], false, "", "")

  const BlankImage := ImageDraft("", "")

  // ---------------------------------------------------------------------
  // Deriving the draft from the record

  /** True when the record carries all seven draft fields. */
  predicate HasDraftFields(u: UserRecord)
  {
    u.name.Some? && u.bio.Some? && u.location.Some? && u.styles.Some?
    && u.bookingStatus.Some? && u.bookedUntil.Some? && u.bookingLink.Some?
  }

  /** The draft built from the record: each field is the record's when it has
      one, and '', [] or false when it does not. */
  function DraftOf(u: UserRecord): (p: Profile)
    ensures u.name == Some(p.name) || (u.name == None && p.name == "")
    ensures u.bio == Some(p.bio) || (u.bio == None && p.bio == "")
    ensures u.location == Some(p.location) || (u.location == None && p.location == "")
    ensures u.styles == Some(p.styles) || (u.styles == None && p.styles == [])
    ensures u.bookingStatus == Some(p.bookingStatus) || (u.bookingStatus == None && !p.bookingStatus)
    ensures u.bookedUntil == Some(p.bookedUntil) || (u.bookedUntil == None && p.bookedUntil == "")
    ensures u.bookingLink == Some(p.bookingLink) || (u.bookingLink == None && p.bookingLink == "")
  {
    Profile(
      OrDefault(u.name, ""),
      OrDefault(u.bio, ""),
      OrDefault(u.location, ""),
      OrDefault(u.styles, []),
      OrDefault(u.bookingStatus, false),
      OrDefault(u.bookedUntil, ""),
      OrDefault(u.bookingLink, ""))
  }

  // ---------------------------------------------------------------------
  // The three shapes of a committed record

  /** `{...user, ...profile, lastActive: now}`: the draft's seven fields
      overwrite the record's, lastActive is stamped, and nothing else
      changes. Reading the draft back from the result gives the draft. */
  function MergeProfile(u: UserRecord, p: Profile, now: string): (r: UserRecord)
    ensures HasDraftFields(r) && DraftOf(r) == p
    ensures r.lastActive == Some(now)
    ensures r.(name := u.name, bio := u.bio, location := u.location, styles := u.styles,
               bookingStatus := u.bookingStatus, bookedUntil := u.bookedUntil,
               bookingLink := u.bookingLink, lastActive := u.lastActive) == u
  {
    u.(name := Some(p.name), bio := Some(p.bio), location := Some(p.location),
       styles := Some(p.styles), bookingStatus := Some(p.bookingStatus),
       bookedUntil := Some(p.bookedUntil), bookingLink := Some(p.bookingLink),
       lastActive := Some(now))
  }

  /** `{...user, portfolio, lastActive: now}`: the record with a new
      portfolio and lastActive, and with the draft not merged. */
  function WithPortfolio(u: UserRecord, items: seq<PortfolioItem>, now: string): (r: UserRecord)
    ensures r.portfolio == Some(items) && r.lastActive == Some(now)
    ensures r.(portfolio := u.portfolio, lastActive := u.lastActive) == u
    ensures DraftOf(r) == DraftOf(u)
  {
    u.(portfolio := Some(items), lastActive := Some(now))
  }

  /** `{...user, lastActive: now}`: the record with only lastActive changed. */
  function Touch(u: UserRecord, now: string): (r: UserRecord)
    ensures r.lastActive == Some(now)
    ensures r.(lastActive := u.lastActive) == u
    ensures DraftOf(r) == DraftOf(u)
  {
    u.(lastActive := Some(now))
  }

  /** Committing a draft that was derived from the record and left alone
      changes nothing but lastActive, provided the record had all seven
      fields (otherwise the missing ones are filled with their defaults). */
  lemma CommitUnchangedDraft(u: UserRecord, now: string)
    requires HasDraftFields(u)
    ensures MergeProfile(u, DraftOf(u), now) == Touch(u, now)
  {
  }

  /** A second commit of the same draft rewrites the same fields: only the
      last timestamp survives. */
  lemma MergeProfileTwice(u: UserRecord, p: Profile, t1: string, t2: string)
    ensures MergeProfile(MergeProfile(u, p, t1), p, t2) == MergeProfile(u, p, t2)
  {
  }

  // ---------------------------------------------------------------------
  // Staged edits to the draft

  /** `setProfile({...profile, <field>: value})` from one of the form's inputs:
      the named field takes the new value and the rest of the draft, styles
      included, stays as it was. */
  function ApplyEdit(p: Profile, e: ProfileEdit): (r: Profile)
    ensures match e
      case SetName(v) => r.name == v && r.(name := p.name) == p
      case SetLocation(v) => r.location == v && r.(location := p.location) == p
      case SetBio(v) => r.bio == v && r.(bio := p.bio) == p
      case SetBookingStatus(v) => r.bookingStatus == v && r.(bookingStatus := p.bookingStatus) == p
      case SetBookedUntil(v) => r.bookedUntil == v && r.(bookedUntil := p.bookedUntil) == p
      case SetBookingLink(v) => r.bookingLink == v && r.(bookingLink := p.bookingLink) == p
  {
    match e
    case SetName(v) => p.(name := v)
    case SetLocation(v) => p.(location := v)
    case SetBio(v) => p.(bio := v)
    case SetBookingStatus(v) => p.(bookingStatus := v)
    case SetBookedUntil(v) => p.(bookedUntil := v)
    case SetBookingLink(v) => p.(bookingLink := v)
  }

  /** The booking-date input is shown only while bookings are open, but
      closing bookings afterwards does not clear the date: the commit keeps
      it even though the record now says bookings are closed. */
  lemma BookingDateSurvivesClosing(u: UserRecord, p: Profile, date: string, now: string)
    requires p.bookingStatus
    ensures var closed := ApplyEdit(ApplyEdit(p, SetBookedUntil(date)), SetBookingStatus(false));
      var r := MergeProfile(u, closed, now);
      r.bookedUntil == Some(date) && r.bookingStatus == Some(false)
  {
  }

  /** The styles the page keeps well formed: every entry trimmed and
      non-empty, and no entry twice (compared exactly, case included). */
  predicate ValidStyles(styles: seq<string>)
  {
    && (forall k :: 0 <= k < |styles| ==> styles[k] != "" && IsTrimmed(styles[k]))
    && (forall p, q :: 0 <= p < q < |styles| ==> styles[p] != styles[q])
  }

  /** The test in handleAddStyle: the trimmed input is non-empty and not
      already one of the styles. */
  predicate AcceptsStyle(styles: seq<string>, input: string)
    ensures AcceptsStyle(styles, input) <==> !AllSpace(input) && Trim(input) !in styles
  {
    TrimEmptyIffAllSpace(input);
    Trim(input) != "" && Trim(input) !in styles
  }

  /** The styles after handleAddStyle. The old list is a prefix of the new
      one, at most one entry is added, and the styles are then exactly the
      old ones together with the trimmed input when it is non-empty. These
      three facts together force the trimmed input onto the end when it is
      new. A blank or already-listed input leaves the list as it was. */
  function AddStyleTo(styles: seq<string>, input: string): (r: seq<string>)
    ensures styles <= r && |r| <= |styles| + 1
    ensures forall x :: x in r <==> x in styles || (x == Trim(input) && Trim(input) != "")
    ensures Trim(input) == "" || Trim(input) in styles ==> r == styles
  {
    if AcceptsStyle(styles, input) then styles + [Trim(input)] else styles
  }

  /** Adding the same input twice is adding it once. */
  lemma AddStyleIdempotent(styles: seq<string>, input: string)
    ensures AddStyleTo(AddStyleTo(styles, input), input) == AddStyleTo(styles, input)
  {
  }

  /** Adding a style keeps the list well formed. */
  lemma AddStyleKeepsValid(styles: seq<string>, input: string)
    requires ValidStyles(styles)
    ensures ValidStyles(AddStyleTo(styles, input))
  {
  }

  /** Comparison is case-sensitive: a style differing only in case is added. */
  lemma AddStyleIsCaseSensitive()
    ensures AddStyleTo(["Traditional"], "traditional") == ["Traditional", "traditional"]
  {
    assert "traditional" != "Traditional" by { assert "traditional"[0] != "Traditional"[0]; }
    TrimOfTrimmed("traditional");
  }

  /** Removing a style keeps the list well formed. */
  lemma RemoveStyleKeepsValid(styles: seq<string>, target: string)
    requires ValidStyles(styles)
    ensures ValidStyles(Without(styles, target))
  {
    var r := Without(styles, target);
    WithoutNoDuplicates(styles, target);
    forall k | 0 <= k < |r| ensures r[k] != "" && IsTrimmed(r[k]) {
      WithoutMembers(styles, target, r[k]);
    }
  }

  /** Removing a style that is present and adding it back gives the same
      set of styles, with the style moved to the end. */
  lemma RemoveThenAddStyle(styles: seq<string>, style: string)
    requires ValidStyles(styles) && style in styles
    ensures AddStyleTo(Without(styles, style), style) == Without(styles, style) + [style]
    ensures forall x :: x in AddStyleTo(Without(styles, style), style) <==> x in styles
  {
    TrimOfTrimmed(style);
    forall x ensures x in Without(styles, style) <==> x in styles && x != style {
      WithoutMembers(styles, style, x);
    }
  }

  // ---------------------------------------------------------------------
  // Eager commits to the portfolio

  /** The test in handleAddImage: the trimmed URL is non-empty. */
  predicate AcceptsImage(d: ImageDraft)
    ensures AcceptsImage(d) <==> !AllSpace(d.image)
  {
    TrimEmptyIffAllSpace(d.image);
    Trim(d.image) != ""
  }

  /** `[...(user.portfolio || []), item]`: the earlier items, unchanged and in
      order, followed by exactly one new one. */
  function AppendItem(portfolio: Option<seq<PortfolioItem>>, item: PortfolioItem): (r: seq<PortfolioItem>)
    ensures |r| == |OrDefault(portfolio, [])| + 1
    ensures r[..|r| - 1] == OrDefault(portfolio, []) && r[|r| - 1] == item
  {
    OrDefault(portfolio, []) + [item]
  }

  /** Removing the item just appended gives the old portfolio back. */
  lemma RemoveAppendedItem(items: seq<PortfolioItem>, item: PortfolioItem)
    ensures DropIndex(AppendItem(Some(items), item), |items|) == items
  {
    DropIndexSlices(items + [item], |items|);
  }

  /** handleRemoveImage's new portfolio: with an index in range, one item
      fewer, the items before it in place and those after it shifted down by
      one; with any other index, the same items. */
  lemma RemoveImageShape(items: seq<PortfolioItem>, index: int)
    ensures var r := DropIndex(items, index);
      if 0 <= index < |items| then
        |r| == |items| - 1
        && (forall k :: 0 <= k < index ==> r[k] == items[k])
        && (forall k :: index <= k < |r| ==> r[k] == items[k + 1])
      else r == items
  {
    DropIndexSlices(items, index);
  }

  /** Removing at an index out of range still commits, and the commit is
      then a visibility refresh. */
  lemma RemoveOutOfRangeIsRefresh(u: UserRecord, index: int, now: string)
    requires u.portfolio.Some?
    requires index < 0 || index >= |u.portfolio.value|
    ensures WithPortfolio(u, DropIndex(u.portfolio.value, index), now) == Touch(u, now)
  {
    DropIndexSlices(u.portfolio.value, index);
  }

  /** The portfolio [A, B, C] with index 1 removed is [A, C]. */
  lemma RemoveMiddleImage(a: PortfolioItem, b: PortfolioItem, c: PortfolioItem)
    ensures DropIndex([a, b, c], 1) == [a, c]
  {
    DropIndexSlices([a, b, c], 1);
  }

  // ---------------------------------------------------------------------
  // The page's state and its handlers

  /** The dashboard page. `user` stands for the authentication store's
      current record; the other fields are the page's own state hooks. */
  class Dashboard {
    var user: UserRecord
    var profile: Profile
    var newStyle: string
    var newImage: ImageDraft
    var showImageDialog: bool

    /** The page as first rendered, before its effect runs. */
    constructor (u: UserRecord)
      ensures user == u && profile == BlankProfile
      ensures newStyle == "" && newImage == BlankImage && !showImageDialog
    {
      user := u;
      profile := BlankProfile;
      newStyle := "";
      newImage := BlankImage;
      showImageDialog := false;
    }

    /** The store's updateUser: replaces the current record. */
    method UpdateUser(u: UserRecord)
      modifies this`user
      ensures user == u
    {
      user := u;
    }

    /** The effect that runs when the record changes: a record that is not an
        artist's sends the page home (redirect) and leaves the draft alone;
        otherwise the draft is rebuilt from the record. */
    method SyncDraft() returns (redirect: bool)
      modifies this`profile
      ensures redirect <==> !user.isArtist
      ensures profile == if redirect then old(profile) else DraftOf(user)
    {
      if !user.isArtist {
        redirect := true;
        return;
      }
      redirect := false;
      profile := DraftOf(user);
    }

    /** An input of the profile form changed. */
    method EditProfile(e: ProfileEdit)
      modifies this`profile
      ensures profile == ApplyEdit(old(profile), e)
    {
      profile := ApplyEdit(profile, e);
    }

    /** The style input changed. */
    method TypeStyle(s: string)
      modifies this`newStyle
      ensures newStyle == s
    {
      newStyle := s;
    }

    /** The dialog's URL input changed. */
    method TypeImageUrl(s: string)
      modifies this`newImage
      ensures newImage == old(newImage).(image := s)
    {
      newImage := newImage.(image := s);
    }

    /** The dialog's caption input changed. */
    method TypeCaption(s: string)
      modifies this`newImage
      ensures newImage == old(newImage).(caption := s)
    {
      newImage := newImage.(caption := s);
    }

    /** The dialog was opened or closed. */
    method SetImageDialog(open: bool)
      modifies this`showImageDialog
      ensures showImageDialog == open
    {
      showImageDialog := open;
    }

    /** handleProfileUpdate: commits the draft merged into the record. */
    method ProfileUpdate(now: string)
      modifies this`user
      ensures user == MergeProfile(old(user), profile, now)
      ensures DraftOf(user) == profile
    {
      UpdateUser(MergeProfile(user, profile, now));
    }

    /** handleAddStyle: appends the trimmed input to the draft's styles and
        clears the input, unless the trimmed input is empty or already
        listed, in which case nothing changes. */
    method AddStyle()
      modifies this`profile, this`newStyle
      ensures profile == old(profile).(styles := AddStyleTo(old(profile.styles), old(newStyle)))
      ensures newStyle == if AcceptsStyle(old(profile.styles), old(newStyle)) then "" else old(newStyle)
      ensures ValidStyles(old(profile.styles)) ==> ValidStyles(profile.styles)
    {
      ghost var before := profile.styles;
      var trimmed := Trim(newStyle);
      if trimmed != "" && trimmed !in profile.styles {
        profile := profile.(styles := profile.styles + [trimmed]);
        newStyle := "";
      }
      if ValidStyles(before) {
        AddStyleKeepsValid(before, old(newStyle));
      }
    }

    /** handleRemoveStyle: drops every style equal to the target from the
        draft; the rest of the draft is untouched. */
    method RemoveStyle(target: string)
      modifies this`profile
      ensures profile == old(profile).(styles := Without(old(profile.styles), target))
      ensures target !in old(profile.styles) ==> profile == old(profile)
      ensures ValidStyles(old(profile.styles)) ==> ValidStyles(profile.styles)
    {
      ghost var before := profile.styles;
      profile := profile.(styles := Without(profile.styles, target));
      if target !in before {
        WithoutAbsent(before, target);
      }
      if ValidStyles(before) {
        RemoveStyleKeepsValid(before, target);
      }
    }

    /** handleAddImage: with a URL that is not blank, commits the record with
        one item appended (the URL as typed, the caption, and the first
        timestamp `created`) and lastActive set to the second timestamp
        `now`, then blanks the inputs and closes the dialog; with a blank
        URL nothing changes. */
    method AddImage(created: string, now: string)
      modifies this`user, this`newImage, this`showImageDialog
      ensures AcceptsImage(old(newImage)) ==>
        user == WithPortfolio(old(user),
          AppendItem(old(user).portfolio, PortfolioItem(old(newImage).image, old(newImage).caption, created)), now)
        && newImage == BlankImage && !showImageDialog
      ensures !AcceptsImage(old(newImage)) ==>
        user == old(user) && newImage == old(newImage) && showImageDialog == old(showImageDialog)
    {
      if Trim(newImage.image) != "" {
        var item := PortfolioItem(newImage.image, newImage.caption, created);
        var updatedPortfolio := OrDefault(user.portfolio, []) + [item];
        UpdateUser(WithPortfolio(user, updatedPortfolio, now));
        newImage := ImageDraft("", "");
        showImageDialog := false;
      }
    }

    /** handleRemoveImage: commits the record with the item at `index`
        filtered out of the portfolio and lastActive stamped; the draft is
        not merged. The handler reads user.portfolio without a default, so
        it needs a record that has one. */
    method RemoveImage(index: int, now: string)
      requires user.portfolio.Some?
      modifies this`user
      ensures user == WithPortfolio(old(user), DropIndex(old(user).portfolio.value, index), now)
      ensures |user.portfolio.value| ==
        if 0 <= index < |old(user).portfolio.value| then |old(user).portfolio.value| - 1
        else |old(user).portfolio.value|
    {
      var updatedPortfolio := DropIndex(user.portfolio.value, index);
      UpdateUser(WithPortfolio(user, updatedPortfolio, now));
    }

    /** handleVisibilityRefresh: commits the record with only lastActive
        changed. */
    method VisibilityRefresh(now: string)
      modifies this`user
      ensures user == Touch(old(user), now)
    {
      UpdateUser(Touch(user, now));
    }
  }
}
