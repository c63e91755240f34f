/**
  The page as a state machine: which screen is shown, who is logged in, the
  listings and the submission form. Every click or keystroke the page offers
  is an event, and an event can only happen on the screen that renders its
  control; that is the only role check the platform has.
 */
module Session {
  import opened Listings
  import opened Store
  import opened Views

  /** The four screens of the page. */
  datatype Screen = Home | Agent | Manager | Catalog

  datatype State = State(
    currentView: Screen,
    currentAgent: string,
    currentManager: string,
    properties: seq<Listing>,
    draft: Draft
  )

  /** The one listing the page starts with. */
  const SeedListing: Listing := Listing(
    "1",
    "Современная вилла у моря",
    "2 500 000 €",
    "https://maps.google.com/villa-paphos",
    "Пафос",
    "Корал Бэй",
    "4",
    "море",
    "вилла",
    "частный",
    "Роскошная вилла с панорамным видом на море. Современный дизайн, собственный бассейн и сад.",
    ["https://v3.fal.media/files/monkey/LAEXwZz2QfrWntpsTDtRM_output.png"],
    "Анна Петрова",
    Pending)

  /** The page when it is first opened. */
  const Init: State := State(Home, "", "", [SeedListing], BlankDraft)

  /** The text put in front of an access code to name the agent's session. */
  const AgentPrefix: string := "Агент "

  /** The two manager access codes and the managers they log in. */
  const LeraCode: string := "000"
  const LeraName: string := "Лера"
  const IlyaCode: string := "111"
  const IlyaName: string := "Илья"

  /**
    The length of a string counted as the page's strings count it: in UTF-16
    code units, so a character outside the Basic Multilingual Plane counts twice.
   */
  function Utf16Length(s: string): (n: nat)
    ensures |s| <= n <= 2 * |s|
    ensures (forall i :: 0 <= i < |s| ==> (s[i] as int) < 0x1_0000) ==> n == |s|
    decreases |s|
  {
    if s == [] then 0
    else (if (s[0] as int) < 0x1_0000 then 1 else 2) + Utf16Length(s[1..])
  }

  /** The positions, from `k` on, of characters outside the Basic Multilingual Plane. */
  function AstralFrom(s: string, k: nat): set<nat> {
    set i: nat | k <= i < |s| && (s[i] as int) >= 0x1_0000
  }

  /** Each suffix counts one unit per character and one more per astral character. */
  lemma {:induction false} Utf16LengthFrom(s: string, k: nat)
    requires k <= |s|
    ensures Utf16Length(s[k..]) == |s| - k + |AstralFrom(s, k)|
    decreases |s| - k
  {
    if k == |s| {
      assert AstralFrom(s, k) == {};
    } else {
      Utf16LengthFrom(s, k + 1);
      assert s[k..][1..] == s[k + 1..];
      assert k !in AstralFrom(s, k + 1);
      if (s[k] as int) >= 0x1_0000 {
        assert AstralFrom(s, k) == AstralFrom(s, k + 1) + {k};
      } else {
        assert AstralFrom(s, k) == AstralFrom(s, k + 1);
      }
    }
  }

  /**
    The UTF-16 length is the number of characters plus the number of
    characters outside the Basic Multilingual Plane, which need a surrogate pair.
   */
  lemma Utf16LengthCountsAstral(s: string)
    ensures Utf16Length(s) == |s| + |set i: nat | i < |s| && (s[i] as int) >= 0x1_0000|
  {
    Utf16LengthFrom(s, 0);
    assert s[0..] == s;
    assert AstralFrom(s, 0) == set i: nat | i < |s| && (s[i] as int) >= 0x1_0000;
  }

  /** The agent login: a code of at least three units opens the agent screen. */
  function AgentLogin(st: State, code: string): (r: State)
    ensures Utf16Length(code) >= 3 ==>
              r.currentView == Agent && r.currentAgent == AgentPrefix + code
              && r.currentManager == st.currentManager
              && r.properties == st.properties && r.draft == st.draft
    ensures Utf16Length(code) < 3 ==> r == st
  {
    if Utf16Length(code) >= 3 then
      st.(currentAgent := AgentPrefix + code, currentView := Agent)
    else
      st
  }

  /** The manager login: only the two fixed codes open the manager screen. */
  function ManagerLogin(st: State, code: string): (r: State)
    ensures r != st ==> code == LeraCode || code == IlyaCode
    ensures code == LeraCode ==> r.currentView == Manager && r.currentManager == LeraName
    ensures code == IlyaCode ==> r.currentView == Manager && r.currentManager == IlyaName
    ensures r.currentAgent == st.currentAgent && r.properties == st.properties && r.draft == st.draft
  {
    if code == LeraCode then
      st.(currentManager := LeraName, currentView := Manager)
    else if code == IlyaCode then
      st.(currentManager := IlyaName, currentView := Manager)
    else
      st
  }

  /** Events the page reacts to; the time-based listing identifier comes with the submission. */
  datatype Event =
    | CatalogOpened
    | AgentLoginClicked(agentCode: string)
    | ManagerLoginClicked(managerCode: string)
    | ExitClicked
    | DraftEdited(field: Field, text: string)
    | SubmitClicked(newId: string)
    | DecisionClicked(targetId: string, decision: Status)

  /**
    The event's control is on the screen: login and catalog on the home
    screen, exit everywhere else, the form on the agent screen, and the three
    decision buttons on the manager screen, beside each pending listing.
   */
  predicate Enabled(st: State, e: Event) {
    match e
    case CatalogOpened => st.currentView == Home
    case AgentLoginClicked(_) => st.currentView == Home
    case ManagerLoginClicked(_) => st.currentView == Home
    case ExitClicked => st.currentView != Home
    case DraftEdited(_, _) => st.currentView == Agent
    case SubmitClicked(_) => st.currentView == Agent
    case DecisionClicked(id, s) =>
      && st.currentView == Manager
      && s != Pending
      && exists p :: p in ModerationQueue(st.properties) && p.id == id
  }

  /** One handler run to completion; an event whose control is not shown changes nothing. */
  function Step(st: State, e: Event): (r: State)
    ensures !Enabled(st, e) ==> r == st
    ensures e.ExitClicked? && Enabled(st, e) ==> r == st.(currentView := Home)
    ensures e.CatalogOpened? && Enabled(st, e) ==> r == st.(currentView := Catalog)
    ensures !e.DecisionClicked? && !e.SubmitClicked? ==> r.properties == st.properties
    ensures e.AgentLoginClicked? && Enabled(st, e) ==> r == AgentLogin(st, e.agentCode)
    ensures e.ManagerLoginClicked? && Enabled(st, e) ==> r == ManagerLogin(st, e.managerCode)
    ensures e.DraftEdited? && Enabled(st, e) ==>
              r == st.(draft := SetDraftField(st.draft, e.field, e.text))
    ensures e.SubmitClicked? && Enabled(st, e) ==>
              var (ps, d) := AddProperty(st.properties, st.draft, st.currentAgent, e.newId);
              r == st.(properties := ps, draft := d)
    ensures e.DecisionClicked? && Enabled(st, e) ==>
              r == st.(properties := UpdateStatus(st.properties, e.targetId, e.decision))
  {
    if !Enabled(st, e) then st
    else match e
      case CatalogOpened => st.(currentView := Catalog)
      case AgentLoginClicked(code) => AgentLogin(st, code)
      case ManagerLoginClicked(code) => ManagerLogin(st, code)
      case ExitClicked => st.(currentView := Home)
      case DraftEdited(f, v) => st.(draft := SetDraftField(st.draft, f, v))
      case SubmitClicked(id) =>
        var (ps, d) := AddProperty(st.properties, st.draft, st.currentAgent, id);
        st.(properties := ps, draft := d)
      case DecisionClicked(id, s) =>
        st.(properties := UpdateStatus(st.properties, id, s))
  }

  /** The state after a sequence of events, taken one after the other. */
  function Run(st: State, es: seq<Event>): State
    decreases |es|
  {
    if es == [] then st else Run(Step(st, es[0]), es[1..])
  }

  /**
    What showing each control only on its own screen achieves, the page's
    only role check: off the manager screen no listing changes (one may only
    be appended), off the agent screen nothing is appended and the form stays
    as it is, the catalog can only be left, and the home screen only logs in.
   */
  lemma ScreenGating(st: State, e: Event)
    ensures var r := Step(st, e);
            && (st.currentView != Manager ==>
                  && |r.properties| >= |st.properties|
                  && forall i :: 0 <= i < |st.properties| ==> r.properties[i] == st.properties[i])
            && (st.currentView != Agent ==>
                  |r.properties| == |st.properties| && r.draft == st.draft)
            && (st.currentView == Catalog ==> r == st || r == st.(currentView := Home))
            && (st.currentView == Home ==> r.properties == st.properties && r.draft == st.draft)
  {
  }

  /**
    The approve, reject and revision buttons are rendered only on the manager
    screen, and only beside a listing of the store that is still pending.
   */
  lemma DecisionEnabled(st: State, id: string, s: Status)
    ensures Enabled(st, DecisionClicked(id, s)) <==>
              && st.currentView == Manager
              && (s == Approved || s == Rejected || s == Revision)
              && exists i :: 0 <= i < |st.properties| && st.properties[i].id == id
                             && st.properties[i].status == Pending
  {
    QueuedIsPendingPosition(st.properties, id);
  }

  /** An identifier is in the queue exactly when some position holds it pending. */
  lemma QueuedIsPendingPosition(ps: seq<Listing>, id: string)
    ensures (exists p :: p in ModerationQueue(ps) && p.id == id)
        <==> exists i :: 0 <= i < |ps| && ps[i].id == id && ps[i].status == Pending
  {
    if exists p :: p in ModerationQueue(ps) && p.id == id {
      var p :| p in ModerationQueue(ps) && p.id == id;
      var i :| 0 <= i < |ps| && ps[i] == p;
      assert ps[i].id == id && ps[i].status == Pending;
    }
    if exists i :: 0 <= i < |ps| && ps[i].id == id && ps[i].status == Pending {
      var i :| 0 <= i < |ps| && ps[i].id == id && ps[i].status == Pending;
      assert ps[i] in ModerationQueue(ps);
    }
  }

  /**
    A submission on the agent screen with a title and a price appends one
    pending listing, under the logged-in agent's session name, after all the
    others, and blanks the form; without them it changes nothing.
   */
  lemma SubmitOnAgentScreen(st: State, id: string)
    requires st.currentView == Agent
    ensures var r := Step(st, SubmitClicked(id));
            && (Submittable(st.draft) ==>
                  && r.properties == st.properties + [NewListing(st.draft, st.currentAgent, id)]
                  && r.properties[|st.properties|].agent == st.currentAgent
                  && r.properties[|st.properties|].status == Pending
                  && IsBlank(r.draft))
            && (!Submittable(st.draft) ==> r == st)
  {
  }

  /**
    A decision on the manager screen beside a pending listing sets the status
    of every listing with that identifier, and changes nothing else of the page.
   */
  lemma DecisionOnManagerScreen(st: State, p: Listing, s: Status)
    requires st.currentView == Manager && s != Pending
    requires p in ModerationQueue(st.properties)
    ensures var r := Step(st, DecisionClicked(p.id, s));
            && r.properties == UpdateStatus(st.properties, p.id, s)
            && r.currentView == st.currentView && r.currentAgent == st.currentAgent
            && r.currentManager == st.currentManager && r.draft == st.draft
  {
  }

  /** A session name an agent login produces: the prefix and a code of three or more units. */
  predicate IsAgentName(name: string) {
    |name| >= |AgentPrefix| && name[..|AgentPrefix|] == AgentPrefix
    && Utf16Length(name[|AgentPrefix|..]) >= 3
  }

  /** Reads the access code back out of an agent's session name. */
  function AgentCodeOf(name: string): string
    requires IsAgentName(name)
  {
    name[|AgentPrefix|..]
  }

  /** Session names and accepted codes correspond one to one. */
  lemma AgentNameRoundTrip(code: string, name: string)
    ensures Utf16Length(code) >= 3 ==>
              IsAgentName(AgentPrefix + code) && AgentCodeOf(AgentPrefix + code) == code
    ensures IsAgentName(name) ==> AgentPrefix + AgentCodeOf(name) == name
  {
  }

  /** From the home screen the agent screen opens exactly for codes of three or more units. */
  lemma AgentLoginOpensAgentScreen(st: State, code: string)
    requires st.currentView == Home
    ensures Step(st, AgentLoginClicked(code)).currentView == Agent <==> Utf16Length(code) >= 3
    ensures Utf16Length(code) < 3 ==> Step(st, AgentLoginClicked(code)) == st
  {
  }

  /** From the home screen the manager screen opens exactly for the two fixed codes. */
  lemma ManagerLoginOpensManagerScreen(st: State, code: string)
    requires st.currentView == Home
    ensures Step(st, ManagerLoginClicked(code)).currentView == Manager
        <==> code == LeraCode || code == IlyaCode
  {
  }

  /** Two emoji pass the agent login, since each counts as two units. */
  lemma TwoEmojiCodeLogsIn()
    ensures |"\U{1F3E0}\U{1F511}"| == 2
    ensures AgentLogin(Init, "\U{1F3E0}\U{1F511}").currentView == Agent
  {
  }

  /** A letter and one emoji sit exactly at the threshold: three UTF-16 units. */
  lemma AstralCodeLogsIn()
    ensures |"a\U{1F600}"| == 2
    ensures AgentLogin(Init, "a\U{1F600}").currentView == Agent
  {
    assert Utf16Length("a\U{1F600}") == 3;
  }

  /**
    What holds of every state the page can reach: the agent screen belongs
    to a logged-in agent and the manager screen to one of the two managers;
    the form never has a missing field; the seed listing stays first; every
    listing has a title and a price, and every later one was submitted by a
    logged-in agent.
   */
  predicate Good(st: State) {
    && (st.currentView == Agent ==> IsAgentName(st.currentAgent))
    && (st.currentView == Manager ==> st.currentManager == LeraName || st.currentManager == IlyaName)
    && Complete(st.draft)
    && |st.properties| >= 1
    && SameExceptStatus(SeedListing, st.properties[0])
    && (forall i :: 0 <= i < |st.properties| ==>
          st.properties[i].title != "" && st.properties[i].price != "")
    && (forall i :: 1 <= i < |st.properties| ==> IsAgentName(st.properties[i].agent))
  }

  lemma InitIsGood()
    ensures Good(Init)
  {
  }

  lemma StepKeepsGood(st: State, e: Event)
    requires Good(st)
    ensures Good(Step(st, e))
  {
  }

  /** Every state reached from a good state by any sequence of events is good. */
  lemma {:induction false} RunKeepsGood(st: State, es: seq<Event>)
    requires Good(st)
    ensures Good(Run(st, es))
    decreases |es|
  {
    if es != [] {
      StepKeepsGood(st, es[0]);
      RunKeepsGood(Step(st, es[0]), es[1..]);
    }
  }

  /** Every reachable state is good. */
  lemma ReachableIsGood(es: seq<Event>)
    ensures Good(Run(Init, es))
  {
    InitIsGood();
    RunKeepsGood(Init, es);
  }

  /**
    `b` is `a` grown: no listing is ever removed or moved, nothing of a
    listing but its status ever changes, and a decided listing never goes
    back to pending.
   */
  predicate Grows(a: seq<Listing>, b: seq<Listing>) {
    && |a| <= |b|
    && (forall i :: 0 <= i < |a| ==> SameExceptStatus(a[i], b[i]))
    && (forall i :: 0 <= i < |a| && a[i].status != Pending ==> b[i].status != Pending)
  }

  lemma StepGrows(st: State, e: Event)
    ensures Grows(st.properties, Step(st, e).properties)
  {
    if Enabled(st, e) && e.DecisionClicked? {
      assert e.decision != Pending;
    }
  }

  /** Whatever happens, listings are only appended and only their status changes. */
  lemma {:induction false} RunGrows(st: State, es: seq<Event>)
    ensures Grows(st.properties, Run(st, es).properties)
    decreases |es|
  {
    if es != [] {
      var next := Step(st, es[0]);
      StepGrows(st, es[0]);
      RunGrows(next, es[1..]);
    }
  }

  /** No logged-in agent sees the seed listing among their own listings. */
  lemma SeedNeverInAgentListings(es: seq<Event>)
    ensures Run(Init, es).currentView == Agent ==>
              forall x :: x in MyListings(Run(Init, es).properties, Run(Init, es).currentAgent)
                ==> x.agent != SeedListing.agent
  {
    ReachableIsGood(es);
    var st := Run(Init, es);
    if st.currentView == Agent {
      assert st.currentAgent[..|AgentPrefix|] == AgentPrefix;
      assert SeedListing.agent[..|AgentPrefix|] != AgentPrefix by {
        assert SeedListing.agent[0] == 'А' && SeedListing.agent[1] == 'н';
        assert AgentPrefix[1] == 'г';
      }
    }
  }

  /** Running two sequences of events one after the other runs their concatenation. */
  lemma {:induction false} RunAppend(st: State, es: seq<Event>, fs: seq<Event>)
    ensures Run(st, es + fs) == Run(Run(st, es), fs)
    decreases |es|
  {
    if es == [] {
      assert es + fs == fs;
    } else {
      assert (es + fs)[0] == es[0];
      assert (es + fs)[1..] == es[1..] + fs;
      RunAppend(Step(st, es[0]), es[1..], fs);
    }
  }

  /** The villa of the walk-through below, as submitted. */
  const Villa: Listing :=
    Listing("42", "Sea Villa", "500000", "", "", "", "", "", "", "", "", [], "Агент A17", Pending)

  /** An agent logs in with code "A17" and submits a villa: it joins the queue, pending. */
  lemma SubmitScenario()
    ensures Run(Init, [AgentLoginClicked("A17"), DraftEdited(Title, "Sea Villa"),
                       DraftEdited(Price, "500000"), SubmitClicked("42")])
         == State(Agent, "Агент A17", "", [SeedListing, Villa], BlankDraft)
  {
    assert Utf16Length("A17") == 3;
    var s1 := State(Agent, "Агент A17", "", [SeedListing], BlankDraft);
    assert Step(Init, AgentLoginClicked("A17")) == s1;
    var s2 := s1.(draft := BlankDraft.(title := Some("Sea Villa")));
    assert Step(s1, DraftEdited(Title, "Sea Villa")) == s2;
    var s3 := s2.(draft := s2.draft.(price := Some("500000")));
    assert Step(s2, DraftEdited(Price, "500000")) == s3;
    assert NewListing(s3.draft, "Агент A17", "42") == Villa;
    var s4 := State(Agent, "Агент A17", "", [SeedListing, Villa], BlankDraft);
    assert Step(s3, SubmitClicked("42")) == s4;
  }


  /** The approval decision on the villa changes it alone, and the views follow. */
  lemma ApprovalOfVilla()
    ensures UpdateStatus([SeedListing, Villa], "42", Approved)
         == [SeedListing, Villa.(status := Approved)]
    ensures PublicCatalog([SeedListing, Villa.(status := Approved)]) == [Villa.(status := Approved)]
    ensures ModerationQueue([SeedListing, Villa.(status := Approved)]) == [SeedListing]
  {
    var approved := [SeedListing, Villa.(status := Approved)];
    assert approved[1..] == [Villa.(status := Approved)];
    assert PublicCatalog([Villa.(status := Approved)]) == [Villa.(status := Approved)];
    assert ModerationQueue([Villa.(status := Approved)]) == [];
  }

  /** On the manager screen the approve button beside the villa is shown and takes effect. */
  lemma ApproveClick()
    ensures var s6 := State(Manager, "Агент A17", LeraName, [SeedListing, Villa], BlankDraft);
            Step(s6, DecisionClicked("42", Approved))
              == s6.(properties := [SeedListing, Villa.(status := Approved)])
  {
  }

  /** A manager then approves it: the catalog shows it and only the seed is left pending. */
  lemma ApproveScenario()
    ensures var st := Run(State(Agent, "Агент A17", "", [SeedListing, Villa], BlankDraft),
                          [ExitClicked, ManagerLoginClicked(LeraCode), DecisionClicked("42", Approved)]);
            && st.properties == [SeedListing, Villa.(status := Approved)]
            && PublicCatalog(st.properties) == [Villa.(status := Approved)]
            && ModerationQueue(st.properties) == [SeedListing]
  {
    var s4 := State(Agent, "Агент A17", "", [SeedListing, Villa], BlankDraft);
    var s5 := s4.(currentView := Home);
    var s6 := State(Manager, "Агент A17", LeraName, [SeedListing, Villa], BlankDraft);
    var s7 := s6.(properties := [SeedListing, Villa.(status := Approved)]);
    var es := [ExitClicked, ManagerLoginClicked(LeraCode), DecisionClicked("42", Approved)];
    assert Run(s4, es) == Run(s5, es[1..]);
    assert Run(s5, es[1..]) == Run(s6, es[1..][1..]);
    ApproveClick();
    assert Run(s6, es[1..][1..]) == Run(s7, []);
    ApprovalOfVilla();
  }

  /** The whole walk-through from the opened page: submit, log out, log in as manager, approve. */
  lemma SubmitApproveScenario()
    ensures var st := Run(Init, [AgentLoginClicked("A17"), DraftEdited(Title, "Sea Villa"),
                                 DraftEdited(Price, "500000"), SubmitClicked("42"), ExitClicked,
                                 ManagerLoginClicked(LeraCode), DecisionClicked("42", Approved)]);
            && Villa.(status := Approved) in PublicCatalog(st.properties)
            && ModerationQueue(st.properties) == [SeedListing]
  {
    var es := [AgentLoginClicked("A17"), DraftEdited(Title, "Sea Villa"),
               DraftEdited(Price, "500000"), SubmitClicked("42")];
    var fs := [ExitClicked, ManagerLoginClicked(LeraCode), DecisionClicked("42", Approved)];
    SubmitScenario();
    ApproveScenario();
    RunAppend(Init, es, fs);
    assert es + fs == [AgentLoginClicked("A17"), DraftEdited(Title, "Sea Villa"),
                       DraftEdited(Price, "500000"), SubmitClicked("42"), ExitClicked,
                       ManagerLoginClicked(LeraCode), DecisionClicked("42", Approved)];
  }
}
