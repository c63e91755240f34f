# Real-estate listing store and moderation, in Dafny

This project models the logic of a single-page real-estate platform. The page has four screens: home, agent, manager and catalog.

- On the home screen an agent logs in with any access code of three or more UTF-16 code units. A manager logs in with one of two fixed codes: `000` logs in Лера, `111` logs in Илья.
- On the agent screen the agent fills in a form (the *draft*) and submits it. The result is a new listing with status *pending*.
- On the manager screen every pending listing is shown with three buttons: approve, reject and send back for revision.
- The public catalog shows the approved listings.

All state lives in memory. The model is a set of pure functions over immutable values:

- `listing.dfy`, module `Listings`: the listing record, its four statuses, the badge text of each status, and the partial form. Every form field may be missing (`undefined`), so each one is an `Option`. The source's `x || ""` is modelled with JavaScript truthiness.
- `store.dfy`, module `Store`: submitting the form (`AddProperty`) and the moderation decision (`UpdateStatus`).
- `views.dfy`, module `Views`: the agent's own listings, the moderation queue, the public catalog and the counts shown beside them. All are order-preserving selections.
- `session.dfy`, module `Session`: the whole page as a state machine over `{currentView, currentAgent, currentManager, properties, draft}`.
  - Each click or keystroke is an `Event`, handled atomically by `Step`.
  - An event can only happen on the screen that renders its control (`Enabled`). The page has no other role check.
  - The invariant `Good` holds in every reachable state. `Grows` states that listings are only ever appended, that only their status ever changes, and that a decided listing never becomes pending again: the only decision buttons offer approve, reject and revision.

Identifiers come from the clock (`Date.now()`), so the submit event carries the identifier as a parameter. Nothing assumes identifiers are unique. A decision applies to every listing that carries the identifier.

The page counts string length in UTF-16 code units. `Utf16Length` models this: a character outside the Basic Multilingual Plane counts twice (`Utf16LengthCountsAstral`). As a result, a code of two emoji passes the agent login (`TwoEmojiCodeLogsIn`).

The model follows the code as written, which is looser than a listing service would usually be:
- there is no permission check inside the decision, only the screen that shows its buttons;
- there is no "not found" error: a decision on an identifier nobody carries is a no-op;
- the decision does not restrict the status being replaced;
- the form's photo count is not capped;
- the catalog is never narrowed by its filter controls.

## Model

| member | source | states |
|---|---|---|
| Listings.SetDraftField | src/pages/Index.tsx:369-531 | Editing one form input sets that field to the typed text. Every other field, and the photo list, stays as it was. |
| Listings.SetDraftFieldKeepsComplete | src/pages/Index.tsx:71-83 | A form with no missing field keeps that property under every edit. |
| Listings.BlankDraftIsBlank | src/pages/Index.tsx:121-133 | The reset form is exactly the one whose text fields are all empty strings and whose photo list is empty. |
| Listings.OrEmptyKeepsPresentValue | src/pages/Index.tsx:106-115 | `field \|\| ""` yields the field's value whenever it is present, even an empty one, and `""` only when it is missing. |
| Listings.LabelRoundTrip | src/pages/Index.tsx:307-313 | Each status's badge text reads back as that status, and a text reads back as a status exactly when it is that status's text. |
| Listings.LabelInjective | src/pages/Index.tsx:307-313 | Two statuses share a badge text only if they are the same status. |
| Store.NewListing | src/pages/Index.tsx:104-119 | The created listing is pending, carries the given agent and identifier, and takes every present form field as it is. Every missing text field becomes `""` and a missing photo list becomes `[]`. |
| Store.AddProperty | src/pages/Index.tsx:102-135 | Without a non-empty title and price, neither the listings nor the form change. Otherwise exactly one listing is appended after the unchanged old ones. It holds the form's title and price and is pending, and the form is reset to blank. |
| Store.UpdateStatus | src/pages/Index.tsx:137-139 | Length and order are kept. Every listing with the identifier takes the new status, whatever its old one, and keeps all other fields. Every other listing is untouched. |
| Store.UpdateStatusAbsentIsNoOp | src/pages/Index.tsx:138 | A decision about an identifier no listing carries leaves the listings as they were. |
| Store.UpdateStatusIdempotent | src/pages/Index.tsx:138 | Taking the same decision twice gives the same listings as taking it once. |
| Store.UpdateStatusLastWins | src/pages/Index.tsx:138 | Two decisions on one identifier leave the same listings as the later decision alone. |
| Store.UpdateStatusCommutes | src/pages/Index.tsx:138 | Decisions on two different identifiers give the same listings in either order. |
| Store.UpdateStatusThenAdd | src/pages/Index.tsx:102-139 | A decision on another identifier and a submission give the same listings in either order. |
| Views.Select | src/pages/Index.tsx:284-285 | A view is no longer than the store and holds a listing exactly when the store holds it and it meets the view's criterion. |
| Views.SelectKeepsMultiplicity | src/pages/Index.tsx:284-285 | A view holds every matching listing as many times as the store does, and no non-matching listing at all. |
| Views.SelectIsSubsequence | src/pages/Index.tsx:284-285 | A view is a subsequence of the store: its listings appear in the store's order. |
| Views.MyListings | src/pages/Index.tsx:284-285 | The agent's view holds every listing whose agent is the logged-in agent, as many times as the store holds it, and nothing else, in store order, whatever its status. |
| Views.ModerationQueue | src/pages/Index.tsx:634-635 | The queue holds every pending listing as many times as the store holds it, and nothing else, in store order. |
| Views.PublicCatalog | src/pages/Index.tsx:790-791 | The catalog holds every approved listing as many times as the store holds it, and nothing else, in store order. |
| Views.MyListingsCount | src/pages/Index.tsx:281 | The count in the agent's heading is the number of store positions holding one of the agent's listings. |
| Views.PendingCount | src/pages/Index.tsx:628 | The count on the moderation badge is the number of store positions holding a pending listing. |
| Views.SelectLengthIsPositionCount | src/pages/Index.tsx:628 | The length of a view equals the number of positions that meet its criterion. |
| Views.QueueAndCatalogDisjoint | src/pages/Index.tsx:634-635 | No listing is in both the moderation queue and the catalog. |
| Views.StatusViewsPartition | src/pages/Index.tsx:39 | The pending, approved, rejected and revision views together are as long as the whole store. |
| Views.SelectAppend | src/pages/Index.tsx:120 | Selecting from a store grown at its end is the old selection followed by the selection from the new part. |
| Views.AddPropertyViews | src/pages/Index.tsx:120 | A submission appears last in the submitter's own view and last in the moderation queue, and leaves the catalog as it was. |
| Views.MyListingsTrackDecision | src/pages/Index.tsx:137-139 | The agent's own view after a decision is the old view with the same decision applied. The agent therefore sees the new status at once. |
| Views.DecisionLeavesQueue | src/pages/Index.tsx:694-716 | After an approve, reject or revision decision, a listing is in the queue exactly when it was queued before and carries another identifier. |
| Views.ApprovalPublishes | src/pages/Index.tsx:790-791 | After an approval every listing with that identifier is in the catalog, with status approved. |
| Session.Utf16Length | src/pages/Index.tsx:86 | A code's length in UTF-16 units lies between its character count and twice that count, and equals the character count when no character lies outside the Basic Multilingual Plane. |
| Session.Utf16LengthFrom | src/pages/Index.tsx:86 | From any position on, the UTF-16 length of the rest of a code is the number of its characters plus the number of them outside the Basic Multilingual Plane. |
| Session.Utf16LengthCountsAstral | src/pages/Index.tsx:86 | A code's UTF-16 length is exactly its character count plus the count of its characters outside the Basic Multilingual Plane. |
| Session.AgentLogin | src/pages/Index.tsx:85-90 | A code of three or more units opens the agent screen under the name "Агент " followed by the code, and leaves the listings and form alone. A shorter code changes nothing. |
| Session.ManagerLogin | src/pages/Index.tsx:92-100 | `000` opens the manager screen as Лера and `111` as Илья. Only these two codes change anything, and neither touches the agent session, the listings or the form. |
| Session.AgentLoginOpensAgentScreen | src/pages/Index.tsx:85-90 | From the home screen, the agent login reaches the agent screen if and only if the code has three or more units. |
| Session.ManagerLoginOpensManagerScreen | src/pages/Index.tsx:92-100 | From the home screen, the manager login reaches the manager screen if and only if the code is `000` or `111`. |
| Session.ScreenGating | src/pages/Index.tsx:141-746 | Because each control only works on the screen that renders it: off the manager screen no existing listing changes at all, not even its status, and listings can only be appended; off the agent screen no listing is appended and the form stays as it is; the catalog screen can only be left for home; the home screen never touches the listings or the form. |
| Session.DecisionEnabled | src/pages/Index.tsx:634-716 | A decision can be taken exactly on the manager screen, only as approve, reject or revision, and only for an identifier that some pending listing of the store carries. |
| Session.QueuedIsPendingPosition | src/pages/Index.tsx:634-635 | An identifier appears in the moderation queue exactly when some position of the store holds a pending listing with it. |
| Session.SubmitOnAgentScreen | src/pages/Index.tsx:102-135 | On the agent screen, a submission with a title and a price appends one pending listing whose agent is the logged-in session name, after all others, and blanks the form; otherwise nothing changes. |
| Session.DecisionOnManagerScreen | src/pages/Index.tsx:694-716 | On the manager screen, a decision beside a pending listing sets the status of every listing with its identifier and leaves the screen, sessions and form alone. |
| Session.AgentNameRoundTrip | src/pages/Index.tsx:87 | An accepted code gives a valid session name, and the code can be read back from it. Every valid session name is the prefix followed by its code. |
| Session.TwoEmojiCodeLogsIn | src/pages/Index.tsx:86 | A two-character code of two emoji passes the length check. |
| Session.AstralCodeLogsIn | src/pages/Index.tsx:86 | A two-character code of a letter and one emoji has length 3 in UTF-16 units, so it passes the length check and opens the agent screen. |
| Session.Step | src/pages/Index.tsx:141-746 | An event whose control is not rendered changes nothing. An enabled event runs its own handler: exit returns to home, the catalog button shows the catalog, a login runs the login rule, an edit sets one form field, a submission runs the submission on the session's agent name, and a decision sets the status of the chosen identifier. Only submissions and decisions change the listings. |
| Session.InitIsGood | src/pages/Index.tsx:42-83 | The opened page satisfies the invariant. |
| Session.StepKeepsGood | src/pages/Index.tsx:85-139 | Every handler keeps the invariant. The agent screen always belongs to a logged-in agent and the manager screen to Лера or Илья. No form field is ever missing. The seed listing stays first. Every listing has a title and a price, and every later one was submitted under an agent session name. |
| Session.RunKeepsGood | src/pages/Index.tsx:85-139 | Any sequence of events keeps the invariant. |
| Session.ReachableIsGood | src/pages/Index.tsx:42-139 | Every state reachable from the opened page satisfies the invariant. |
| Session.StepGrows | src/pages/Index.tsx:102-139 | One event never removes or reorders a listing, changes nothing of one but its status, and never puts a decided listing back to pending. |
| Session.RunGrows | src/pages/Index.tsx:102-139 | Over any sequence of events, listings are only appended. Identifier, agent and every other field except the status are fixed once a listing exists, and a listing once approved, rejected or sent for revision is never pending again. |
| Session.SeedNeverInAgentListings | src/pages/Index.tsx:281-285 | No logged-in agent ever sees the seed listing among their own listings. |
| Session.RunAppend | src/pages/Index.tsx:141-746 | Running two event sequences one after the other is running their concatenation. |
| Session.SubmitScenario | src/pages/Index.tsx:102-135 | Logging in with `A17`, typing a title and a price and submitting gives exactly the seed plus one pending villa, and a blank form. |
| Session.ApproveScenario | src/pages/Index.tsx:694-700 | Exiting, logging in as Лера and approving the villa publishes it, and leaves only the seed in the queue. |
| Session.SubmitApproveScenario | src/pages/Index.tsx:85-139 | The whole walk-through from the opened page ends with the villa in the catalog and only the seed pending. |

## Left out

- Rendering, styling, icons, dialogs, tabs and the badge colours: presentational only.
- The agent and manager code input fields: their change handlers only store the typed text, so the login events carry the code directly.
- Identifier generation from the clock: the identifier is a parameter of the submit event, and no uniqueness is claimed because the code does not ensure it.
- The catalog filter selects: their values are never applied to the list.
- The photo upload area and the chat: static controls with no state. The photo limit of 15 is only a label, and no control ever fills the form's photo list.
- Lone UTF-16 surrogates in typed codes: Dafny characters are Unicode scalar values, so `Utf16Length` covers well-formed text only.
- React's batching of state updates and its closures over stale state: each handler is one atomic step.
