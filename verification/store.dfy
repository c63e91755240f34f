/**
  The listing store: submitting the form as a new listing and the
  moderation decision that sets the status of a listing.
 */
module Store {
  import opened Listings

  /** The form may be submitted: its title and its price are both non-empty. */
  predicate Submittable(d: Draft) {
    Truthy(d.title) && Truthy(d.price)
  }

  /**
    The listing a submission creates from the form, the session's agent name
    and an identifier (the submission time, supplied by the caller).
   */
  function NewListing(d: Draft, agent: string, id: string): (p: Listing)
    ensures p.id == id && p.agent == agent && p.status == Pending
    ensures forall f: Field ::
              DraftField(d, f).Some? ==> ListingField(p, f) == DraftField(d, f).value
    ensures forall f: Field ::
              DraftField(d, f).None? ==> ListingField(p, f) == ""
    ensures d.photos.Some? ==> p.photos == d.photos.value
    ensures d.photos.None? ==> p.photos == []
  {
    Listing(
      id,
      OrElse(d.title, ""),
      OrElse(d.price, ""),
      OrElse(d.location, ""),
      OrElse(d.city, ""),
      OrElse(d.district, ""),
      OrElse(d.rooms, ""),
      OrElse(d.view, ""),
      OrElse(d.kind, ""),
      OrElse(d.pool, ""),
      OrElse(d.description, ""),
      PhotosOrNone(d.photos),
      agent,
      Pending)
  }

  /**
    Submits the form. A form without a title or without a price is ignored;
    otherwise the new listing is appended after every existing one and the
    form is reset to blank. Result: the new listings and the new form.
   */
  function AddProperty(ps: seq<Listing>, d: Draft, agent: string, id: string)
    : (r: (seq<Listing>, Draft))
    ensures !Submittable(d) ==> r.0 == ps && r.1 == d
    ensures Submittable(d) ==> |r.0| == |ps| + 1 && r.0[..|ps|] == ps
    ensures Submittable(d) ==> r.0[|ps|] == NewListing(d, agent, id)
    ensures Submittable(d) ==> r.0[|ps|].title == d.title.value != ""
    ensures Submittable(d) ==> r.0[|ps|].price == d.price.value != ""
    ensures Submittable(d) ==> IsBlank(r.1)
  {
    if Submittable(d) then
      (ps + [NewListing(d, agent, id)], BlankDraft)
    else
      (ps, d)
  }

  /**
    The moderation decision: every listing whose identifier is `id` takes
    status `s`, whatever its status was; every other listing is kept as it is.
   */
  function UpdateStatus(ps: seq<Listing>, id: string, s: Status): (r: seq<Listing>)
    ensures |r| == |ps|
    ensures forall i :: 0 <= i < |ps| && ps[i].id == id ==>
              r[i].status == s && SameExceptStatus(ps[i], r[i])
    ensures forall i :: 0 <= i < |ps| && ps[i].id != id ==> r[i] == ps[i]
    decreases |ps|
  {
    if ps == [] then []
    else
      var head := if ps[0].id == id then ps[0].(status := s) else ps[0];
      [head] + UpdateStatus(ps[1..], id, s)
  }

  /** No listing carries the identifier. */
  predicate Absent(ps: seq<Listing>, id: string) {
    forall i :: 0 <= i < |ps| ==> ps[i].id != id
  }

  /** A decision about an identifier that no listing carries changes nothing. */
  lemma UpdateStatusAbsentIsNoOp(ps: seq<Listing>, id: string, s: Status)
    requires Absent(ps, id)
    ensures UpdateStatus(ps, id, s) == ps
  {
  }

  /** Taking the same decision twice is the same as taking it once. */
  lemma UpdateStatusIdempotent(ps: seq<Listing>, id: string, s: Status)
    ensures UpdateStatus(UpdateStatus(ps, id, s), id, s) == UpdateStatus(ps, id, s)
  {
  }

  /** Of two decisions about the same identifier, only the later one shows. */
  lemma UpdateStatusLastWins(ps: seq<Listing>, id: string, s: Status, t: Status)
    ensures UpdateStatus(UpdateStatus(ps, id, s), id, t) == UpdateStatus(ps, id, t)
  {
  }

  /** Decisions about two different identifiers may be taken in either order. */
  lemma UpdateStatusCommutes(ps: seq<Listing>, id: string, s: Status, id': string, t: Status)
    requires id != id'
    ensures UpdateStatus(UpdateStatus(ps, id, s), id', t)
         == UpdateStatus(UpdateStatus(ps, id', t), id, s)
  {
  }

  /**
    A decision followed by a submission gives the same listings as the
    submission followed by the decision, as long as the new listing has a
    different identifier.
   */
  lemma UpdateStatusThenAdd(ps: seq<Listing>, d: Draft, agent: string, id: string,
                            target: string, s: Status)
    requires target != id
    ensures AddProperty(UpdateStatus(ps, target, s), d, agent, id).0
         == UpdateStatus(AddProperty(ps, d, agent, id).0, target, s)
  {
  }
}
