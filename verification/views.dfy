/**
  The three read views over the listings: an agent's own listings, the
  manager's moderation queue of pending listings, and the public catalog of
  approved listings, together with the counts shown beside them.
 */
module Views {
  import opened Listings
  import opened Store

  /** What a view keeps: listings of one agent, or listings in one status. */
  datatype Criterion = ByAgent(agent: string) | ByStatus(status: Status)

  predicate Matches(c: Criterion, p: Listing) {
    match c
    case ByAgent(a) => p.agent == a
    case ByStatus(s) => p.status == s
  }

  /** `a` is `b` with some elements left out, the rest kept in order. */
  predicate IsSubsequence(a: seq<Listing>, b: seq<Listing>)
    decreases |b|
  {
    if a == [] then true
    else if b == [] then false
    else (a[0] == b[0] && IsSubsequence(a[1..], b[1..])) || IsSubsequence(a, b[1..])
  }

  /** The listings that meet the criterion, in their original order. */
  function Select(ps: seq<Listing>, c: Criterion): (r: seq<Listing>)
    ensures |r| <= |ps|
    ensures forall x :: x in r <==> x in ps && Matches(c, x)
    decreases |ps|
  {
    if ps == [] then []
    else if Matches(c, ps[0]) then [ps[0]] + Select(ps[1..], c)
    else Select(ps[1..], c)
  }

  /** A view keeps each matching listing as often as the store holds it, and no other. */
  lemma {:induction false} SelectKeepsMultiplicity(ps: seq<Listing>, c: Criterion)
    ensures forall x :: multiset(Select(ps, c))[x] == if Matches(c, x) then multiset(ps)[x] else 0
    decreases |ps|
  {
    if ps != [] {
      SelectKeepsMultiplicity(ps[1..], c);
      assert ps == [ps[0]] + ps[1..];
    }
  }

  /** A view lists its listings in the order the store holds them. */
  lemma {:induction false} SelectIsSubsequence(ps: seq<Listing>, c: Criterion)
    ensures IsSubsequence(Select(ps, c), ps)
    decreases |ps|
  {
    if ps != [] {
      SelectIsSubsequence(ps[1..], c);
      if Matches(c, ps[0]) {
        assert Select(ps, c)[1..] == Select(ps[1..], c);
      }
    }
  }

  /** The agent's own listings, whatever their status. */
  function MyListings(ps: seq<Listing>, agent: string): (r: seq<Listing>)
    ensures forall x :: x in r <==> x in ps && x.agent == agent
    ensures forall x :: multiset(r)[x] == if x.agent == agent then multiset(ps)[x] else 0
    ensures IsSubsequence(r, ps)
  {
    SelectKeepsMultiplicity(ps, ByAgent(agent));
    SelectIsSubsequence(ps, ByAgent(agent));
    Select(ps, ByAgent(agent))
  }

  /** The manager's queue: the pending listings. */
  function ModerationQueue(ps: seq<Listing>): (r: seq<Listing>)
    ensures forall x :: x in r <==> x in ps && x.status == Pending
    ensures forall x :: multiset(r)[x] == if x.status == Pending then multiset(ps)[x] else 0
    ensures IsSubsequence(r, ps)
  {
    SelectKeepsMultiplicity(ps, ByStatus(Pending));
    SelectIsSubsequence(ps, ByStatus(Pending));
    Select(ps, ByStatus(Pending))
  }

  /** The public catalog: the approved listings. */
  function PublicCatalog(ps: seq<Listing>): (r: seq<Listing>)
    ensures forall x :: x in r <==> x in ps && x.status == Approved
    ensures forall x :: multiset(r)[x] == if x.status == Approved then multiset(ps)[x] else 0
    ensures IsSubsequence(r, ps)
  {
    SelectKeepsMultiplicity(ps, ByStatus(Approved));
    SelectIsSubsequence(ps, ByStatus(Approved));
    Select(ps, ByStatus(Approved))
  }

  /** The positions, from `k` on, that hold a listing meeting the criterion. */
  function PositionsFrom(ps: seq<Listing>, c: Criterion, k: nat): set<nat> {
    set i: nat | k <= i < |ps| && Matches(c, ps[i])
  }

  /** Stepping one position back adds that position when it matches. */
  lemma PositionsFromStep(ps: seq<Listing>, c: Criterion, k: nat)
    requires k < |ps|
    ensures k !in PositionsFrom(ps, c, k + 1)
    ensures Matches(c, ps[k]) ==> PositionsFrom(ps, c, k) == PositionsFrom(ps, c, k + 1) + {k}
    ensures !Matches(c, ps[k]) ==> PositionsFrom(ps, c, k) == PositionsFrom(ps, c, k + 1)
  {
  }

  /** Stepping one position back adds that listing to the view when it matches. */
  lemma SelectFromStep(ps: seq<Listing>, c: Criterion, k: nat)
    requires k < |ps|
    ensures |Select(ps[k..], c)|
         == |Select(ps[k + 1..], c)| + (if Matches(c, ps[k]) then 1 else 0)
  {
  }

  /** A view is as long as the number of positions holding a matching listing. */
  lemma {:induction false} SelectLengthIsPositionCount(ps: seq<Listing>, c: Criterion, k: nat)
    requires k <= |ps|
    ensures |Select(ps[k..], c)| == |PositionsFrom(ps, c, k)|
    decreases |ps| - k
  {
    if k == |ps| {
      assert PositionsFrom(ps, c, k) == {};
    } else {
      SelectLengthIsPositionCount(ps, c, k + 1);
      SelectFromStep(ps, c, k);
      PositionsFromStep(ps, c, k);
    }
  }

  /** The count beside "my listings": how many positions hold one of the agent's. */
  function MyListingsCount(ps: seq<Listing>, agent: string): (n: nat)
    ensures n == |set i: nat | i < |ps| && ps[i].agent == agent|
  {
    SelectLengthIsPositionCount(ps, ByAgent(agent), 0);
    assert ps[0..] == ps;
    assert PositionsFrom(ps, ByAgent(agent), 0) == set i: nat | i < |ps| && ps[i].agent == agent;
    |MyListings(ps, agent)|
  }

  /** The count on the moderation badge: how many positions hold a pending listing. */
  function PendingCount(ps: seq<Listing>): (n: nat)
    ensures n == |set i: nat | i < |ps| && ps[i].status == Pending|
  {
    SelectLengthIsPositionCount(ps, ByStatus(Pending), 0);
    assert ps[0..] == ps;
    assert PositionsFrom(ps, ByStatus(Pending), 0) == set i: nat | i < |ps| && ps[i].status == Pending;
    |ModerationQueue(ps)|
  }

  /** No listing is both in the moderation queue and in the catalog. */
  lemma QueueAndCatalogDisjoint(ps: seq<Listing>)
    ensures forall x :: !(x in ModerationQueue(ps) && x in PublicCatalog(ps))
  {
  }

  /** The four status views split the listings: their lengths add up to the whole. */
  lemma {:induction false} StatusViewsPartition(ps: seq<Listing>)
    ensures |Select(ps, ByStatus(Pending))| + |Select(ps, ByStatus(Approved))|
          + |Select(ps, ByStatus(Rejected))| + |Select(ps, ByStatus(Revision))| == |ps|
    decreases |ps|
  {
    if ps != [] {
      StatusViewsPartition(ps[1..]);
    }
  }

  /** Selecting from two runs of listings selects from each in turn. */
  lemma {:induction false} SelectAppend(a: seq<Listing>, b: seq<Listing>, c: Criterion)
    ensures Select(a + b, c) == Select(a, c) + Select(b, c)
    decreases |a|
  {
    if a == [] {
      assert a + b == b;
    } else {
      assert (a + b)[0] == a[0];
      assert (a + b)[1..] == a[1..] + b;
      SelectAppend(a[1..], b, c);
    }
  }

  /**
    A successful submission shows up last in the submitting agent's listings
    and last in the moderation queue, and leaves the catalog as it was.
   */
  lemma AddPropertyViews(ps: seq<Listing>, d: Draft, agent: string, id: string)
    requires Submittable(d)
    ensures Select(AddProperty(ps, d, agent, id).0, ByAgent(agent))
         == Select(ps, ByAgent(agent)) + [NewListing(d, agent, id)]
    ensures Select(AddProperty(ps, d, agent, id).0, ByStatus(Pending))
         == Select(ps, ByStatus(Pending)) + [NewListing(d, agent, id)]
    ensures Select(AddProperty(ps, d, agent, id).0, ByStatus(Approved))
         == Select(ps, ByStatus(Approved))
  {
    var p := NewListing(d, agent, id);
    assert AddProperty(ps, d, agent, id).0 == ps + [p];
    assert Select([p], ByAgent(agent)) == [p];
    assert Select([p], ByStatus(Pending)) == [p];
    assert Select([p], ByStatus(Approved)) == [];
    SelectAppend(ps, [p], ByAgent(agent));
    SelectAppend(ps, [p], ByStatus(Pending));
    SelectAppend(ps, [p], ByStatus(Approved));
  }

  /**
    An agent's own listings follow a moderation decision: selecting them after
    the decision is the same as taking the decision on the selection.
   */
  lemma {:induction false} MyListingsTrackDecision(ps: seq<Listing>, agent: string,
                                                   id: string, s: Status)
    ensures Select(UpdateStatus(ps, id, s), ByAgent(agent))
         == UpdateStatus(Select(ps, ByAgent(agent)), id, s)
    decreases |ps|
  {
    if ps != [] {
      MyListingsTrackDecision(ps[1..], agent, id, s);
      var r := UpdateStatus(ps, id, s);
      assert r[1..] == UpdateStatus(ps[1..], id, s);
      assert r[0].agent == ps[0].agent;
    }
  }

  /**
    A decision other than "pending" takes every listing with that identifier
    out of the moderation queue, and every other queued listing stays in it.
   */
  lemma DecisionLeavesQueue(ps: seq<Listing>, id: string, s: Status)
    requires s != Pending
    ensures forall x :: x in ModerationQueue(UpdateStatus(ps, id, s))
                    <==> x in ModerationQueue(ps) && x.id != id
  {
  }

  /** An approval puts every listing with that identifier into the catalog. */
  lemma ApprovalPublishes(ps: seq<Listing>, id: string)
    ensures forall i :: 0 <= i < |ps| && ps[i].id == id ==>
              ps[i].(status := Approved) in PublicCatalog(UpdateStatus(ps, id, Approved))
  {
  }
}
