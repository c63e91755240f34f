/**
  Listings of the real-estate platform: the record a submitted property
  becomes, its moderation status, the badge text shown for that status, and
  the half-filled submission form (the "draft") an agent types into.
 */
module Listings {

  /** A value that may be absent; `None` plays the part of `undefined`. */
  datatype Option<+T> = None | Some(value: T)

  /** The four moderation states a listing can be in. */
  datatype Status = Pending | Approved | Rejected | Revision

  /** One property listing. `kind` is the record's `type` field. */
  datatype Listing = Listing(
    id: string,
    title: string,
    price: string,
    location: string,
    city: string,
    district: string,
    rooms: string,
    view: string,
    kind: string,
    pool: string,
    description: string,
    photos: seq<string>,
    agent: string,
    status: Status
  )

  /** The ten free-text fields of a listing that the submission form edits. */
  datatype Field = Title | Price | Location | City | District | Rooms | View | Kind | Pool | Description

  /**
    The submission form: a partial listing in which every field may be
    missing. Identifier, agent and status are never part of it.
   */
  datatype Draft = Draft(
    title: Option<string>,
    price: Option<string>,
    location: Option<string>,
    city: Option<string>,
    district: Option<string>,
    rooms: Option<string>,
    view: Option<string>,
    kind: Option<string>,
    pool: Option<string>,
    description: Option<string>,
    photos: Option<seq<string>>
  )

  /** The form as it is first shown and as it is reset after a submission. */
  const BlankDraft: Draft :=
    Draft(Some(""), Some(""), Some(""), Some(""), Some(""), Some(""),
          Some(""), Some(""), Some(""), Some(""), Some([]))

  /** Reads one text field of a listing. */
  function ListingField(p: Listing, f: Field): string {
    match f
    case Title => p.title
    case Price => p.price
    case Location => p.location
    case City => p.city
    case District => p.district
    case Rooms => p.rooms
    case View => p.view
    case Kind => p.kind
    case Pool => p.pool
    case Description => p.description
  }

  /** Reads one text field of the form. */
  function DraftField(d: Draft, f: Field): Option<string> {
    match f
    case Title => d.title
    case Price => d.price
    case Location => d.location
    case City => d.city
    case District => d.district
    case Rooms => d.rooms
    case View => d.view
    case Kind => d.kind
    case Pool => d.pool
    case Description => d.description
  }

  /** Every field of the form is present (none is `undefined`). */
  predicate Complete(d: Draft) {
    (forall f: Field :: DraftField(d, f).Some?) && d.photos.Some?
  }

  /** The form holds empty strings in every text field and no photos. */
  predicate IsBlank(d: Draft) {
    (forall f: Field :: DraftField(d, f) == Some("")) && d.photos == Some([])
  }

  /** The change handler of one form input: the field takes the typed value. */
  function SetDraftField(d: Draft, f: Field, v: string): (r: Draft)
    ensures DraftField(r, f) == Some(v)
    ensures forall g: Field :: g != f ==> DraftField(r, g) == DraftField(d, g)
    ensures r.photos == d.photos
  {
    match f
    case Title => d.(title := Some(v))
    case Price => d.(price := Some(v))
    case Location => d.(location := Some(v))
    case City => d.(city := Some(v))
    case District => d.(district := Some(v))
    case Rooms => d.(rooms := Some(v))
    case View => d.(view := Some(v))
    case Kind => d.(kind := Some(v))
    case Pool => d.(pool := Some(v))
    case Description => d.(description := Some(v))
  }

  /** Editing a field keeps the form free of missing fields. */
  lemma SetDraftFieldKeepsComplete(d: Draft, f: Field, v: string)
    requires Complete(d)
    ensures Complete(SetDraftField(d, f, v))
  {
  }

  /** The blank form is exactly the one that `IsBlank` describes. */
  lemma BlankDraftIsBlank(d: Draft)
    ensures IsBlank(d) <==> d == BlankDraft
  {
    if IsBlank(d) {
      assert DraftField(d, Title) == Some("");
      assert DraftField(d, Price) == Some("");
      assert DraftField(d, Location) == Some("");
      assert DraftField(d, City) == Some("");
      assert DraftField(d, District) == Some("");
      assert DraftField(d, Rooms) == Some("");
      assert DraftField(d, View) == Some("");
      assert DraftField(d, Kind) == Some("");
      assert DraftField(d, Pool) == Some("");
      assert DraftField(d, Description) == Some("");
    }
    if d == BlankDraft {
      forall f: Field
        ensures DraftField(d, f) == Some("")
      {
      }
    }
  }

  /** JavaScript truthiness of an optional string: present and non-empty. */
  predicate Truthy(o: Option<string>) {
    o.Some? && o.value != ""
  }

  /** The expression `o || fallback` on an optional string. */
  function OrElse(o: Option<string>, fallback: string): string {
    if Truthy(o) then o.value else fallback
  }

  /**
    Falling back to the empty string only changes a missing value: a present
    empty string falls back to itself.
   */
  lemma OrEmptyKeepsPresentValue(o: Option<string>)
    ensures o.Some? ==> OrElse(o, "") == o.value
    ensures o.None? ==> OrElse(o, "") == ""
  {
  }

  /** The expression `photos || []`: an array is truthy even when empty. */
  function PhotosOrNone(o: Option<seq<string>>): (r: seq<string>)
    ensures o.Some? ==> r == o.value
    ensures o.None? ==> r == []
  {
    match o
    case Some(ps) => ps
    case None => []
  }

  /** Two listings agree on every field except, perhaps, their status. */
  predicate SameExceptStatus(a: Listing, b: Listing) {
    a.(status := b.status) == b
  }

  /** The badge text shown for a status on the agent's own listings. */
  function Label(s: Status): string {
    if s == Approved then "Одобрено"
    else if s == Rejected then "Отклонено"
    else if s == Revision then "На доработку"
    else "На проверке"
  }

  /** Reads a badge text back as the status it stands for. */
  function StatusOfLabel(text: string): Option<Status> {
    if text == "Одобрено" then Some(Approved)
    else if text == "Отклонено" then Some(Rejected)
    else if text == "На доработку" then Some(Revision)
    else if text == "На проверке" then Some(Pending)
    else None
  }

  /** Every status has its own text, and the text names the status back. */
  lemma LabelRoundTrip(s: Status, text: string)
    ensures StatusOfLabel(Label(s)) == Some(s)
    ensures StatusOfLabel(text) == Some(s) <==> Label(s) == text
  {
  }

  /** No two statuses share a badge text. */
  lemma LabelInjective(s: Status, t: Status)
    ensures Label(s) == Label(t) <==> s == t
  {
  }
}
