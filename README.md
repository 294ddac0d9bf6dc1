# SoundLink in Dafny

SoundLink is a desktop application for music communities and events. Users register and log in. They join communities and book events. Community admins approve join requests. Four Python scripts fill the database with mock rows. This project models the decision logic of that application and of the scripts, and proves what the code promises about it:

- **Permission scopes.** Scopes are single-bit masks. The model covers combining, testing, removing and decoding them, and the `isAuthorized` rule built on top.
- **Scene history.** The back and forward stacks of the scene manager and the route resets of its scene switches.
- **Approval queue.** Join requests waiting for admin approval, and the notification counters that follow it.
- **Event and community services.** Search filters, booking and membership stores, permission levels and the admin-only deletions.
- **Login and registration.** The login and registration decisions, with password hashing passed in as functions.
- **Profile updates** and the five model validators, together with the shared `ensure` and check helpers.
- **Result types.** `CoreResult`, `ValidationResult` and `ValidationError`, together with the combined error text.
- **Smaller helpers.**
  - The comma-joined id list of `CommunityFactory`.
  - The image path helpers of the image uploader.
  - The digit filter of `IntegerTextField`.
- **The four seed scripts.** Each one's random draws, order-preserving dedupe, INSERT lines and transaction framing.

There is one Dafny module per source file. The shared pieces, such as `Option`, text helpers, Java `int` arithmetic, sequence filters and record types, live in `wrappers.dfy`, `text.dfy`, `java_int.dfy`, `filters.dfy`, `models.dfy` and `seed_data.dfy`.

**What changes state in place.** The scene manager, the two notification controllers, the approval service, the identity service and the service stores are Dafny classes. Each method's postcondition ties the new fields to a pure transition function of the old ones. The lemmas then prove the promised properties about those functions.

**The database.** It is replaced by store fields:
- a map keyed by (event id, user id) for bookings, and by (community id, user id) for memberships;
- sequences for the Events, Communities and UserProfiles tables, and a map keyed by username for Users.

Ids and dates that the database or the clock assigns are parameters. So is "now". A store failure is a parameter exactly where the code catches it.

**Randomness.** Python's `random.randrange` and `random.choice` become an input sequence of 200 draws. Draw k is the k-th call, in program order. For the seed scripts this means the even draws are the first value of each pair and the odd draws the second, with the ranges `randrange` allows. Each script's output file becomes the text the script would write.

## Model

| member | source | states |
|---|---|---|
| Scopes.Ordinal | src/main/java/hub/troubleshooters/soundlink/core/auth/Scope.java:16-36 | the declaration position of a scope, below 5, indexes that scope in Scope.values() |
| Scopes.MaskIsOrdinalBit | src/main/java/hub/troubleshooters/soundlink/core/auth/Scope.java:16-56 | getBitmask of every scope is the single bit at its declaration position |
| Scopes.MaskValues | src/main/java/hub/troubleshooters/soundlink/core/auth/Scope.java:16-36 | the masks are SUPERADMIN=1, EVENT_READ=2, EVENT_WRITE=4, COMMUNITY_READ=8, COMMUNITY_WRITE=16 |
| Scopes.SingleBit | src/main/java/hub/troubleshooters/soundlink/core/auth/Scope.java:16-36 | every mask is non-zero with exactly one bit set |
| Scopes.Disjoint | src/main/java/hub/troubleshooters/soundlink/core/auth/Scope.java:16-36 | two scopes are different iff their masks AND to 0 |
| Scopes.AllMasks | src/main/java/hub/troubleshooters/soundlink/core/auth/Scope.java:16-36 | the OR of the five masks is 31 |
| ScopeUtils.HasScope | src/main/java/hub/troubleshooters/soundlink/core/auth/ScopeUtils.java:29-31 | hasScope holds iff the scope's bit is set in the combined value |
| ScopeUtils.ScopesIn | src/main/java/hub/troubleshooters/soundlink/core/auth/ScopeUtils.java:50-60 | the decoded set contains a scope iff hasScope holds for it |
| ScopeUtils.MaskOfSingleton | src/main/java/hub/troubleshooters/soundlink/core/auth/ScopeUtils.java:14-20 | combining a single scope gives that scope's mask |
| ScopeUtils.MaskOfAdd | src/main/java/hub/troubleshooters/soundlink/core/auth/ScopeUtils.java:16-18 | combining one more scope ORs its mask in, so order and repeats do not matter |
| ScopeUtils.CombineScopes | src/main/java/hub/troubleshooters/soundlink/core/auth/ScopeUtils.java:14-20 | the loop's result is the mask of exactly the set of scopes passed in, whatever their order and repeats |
| ScopeUtils.CombineNone | src/main/java/hub/troubleshooters/soundlink/core/auth/ScopeUtils.java:14-20 | combining no scopes gives 0 |
| ScopeUtils.HasScopeOfMask | src/main/java/hub/troubleshooters/soundlink/core/auth/ScopeUtils.java:14-31 | hasScope(combineScopes(S), s) holds iff s is in S |
| ScopeUtils.RemoveScope | src/main/java/hub/troubleshooters/soundlink/core/auth/ScopeUtils.java:40-42 | the result has the scope's bit clear and every other bit of the input unchanged |
| ScopeUtils.RemoveKeepsOthers | src/main/java/hub/troubleshooters/soundlink/core/auth/ScopeUtils.java:29-42 | after removeScope(c, s) a scope t is present iff t differs from s and was present before |
| ScopeUtils.ScopesInRemove | src/main/java/hub/troubleshooters/soundlink/core/auth/ScopeUtils.java:40-60 | decoding after removeScope gives the decoded set without the removed scope |
| ScopeUtils.RemoveIdempotent | src/main/java/hub/troubleshooters/soundlink/core/auth/ScopeUtils.java:40-42 | removing a scope twice is removing it once |
| ScopeUtils.RemoveOfMask | src/main/java/hub/troubleshooters/soundlink/core/auth/ScopeUtils.java:14-42 | removing s from the combination of S is the combination of S without s |
| ScopeUtils.DeconstructScopes | src/main/java/hub/troubleshooters/soundlink/core/auth/ScopeUtils.java:50-60 | the loop collects exactly the scopes whose bit is set |
| ScopeUtils.DeconstructCombine | src/main/java/hub/troubleshooters/soundlink/core/auth/ScopeUtils.java:14-60 | round trip: deconstructScopes(combineScopes(S)) == S for every set S |
| ScopeUtils.CombineDeconstruct | src/main/java/hub/troubleshooters/soundlink/core/auth/ScopeUtils.java:14-60 | the other direction: re-combining the decoded scopes keeps exactly the low five bits |
| ScopeUtils.MaskSubset | src/main/java/hub/troubleshooters/soundlink/core/auth/ScopeUtils.java:14-60 | a set of scopes is contained in the decoding of c iff all of its bits are set in c |
| IdentityService.CommunityIds | src/main/java/hub/troubleshooters/soundlink/core/auth/services/IdentityServiceImpl.java:87-89 | the community id of every membership of the context, in order |
| IdentityService.Communities | src/main/java/hub/troubleshooters/soundlink/core/auth/services/IdentityServiceImpl.java:82-92 | getCommunities is empty without a context and on a lookup failure, otherwise the lookup of the membership ids |
| IdentityService.IdentityServiceImpl.constructor | src/main/java/hub/troubleshooters/soundlink/core/auth/services/IdentityServiceImpl.java:39-51 | a fresh service holds no user context |
| IdentityService.IdentityServiceImpl.SetUserContext | src/main/java/hub/troubleshooters/soundlink/core/auth/services/IdentityServiceImpl.java:39-41 | the stored context becomes the argument |
| IdentityService.IdentityServiceImpl.GetUserContext | src/main/java/hub/troubleshooters/soundlink/core/auth/services/IdentityServiceImpl.java:49-51 | returns exactly the context last stored |
| IdentityService.NoContextDenies | src/main/java/hub/troubleshooters/soundlink/core/auth/services/IdentityServiceImpl.java:65-67 | with no context isAuthorized is false for every community and request |
| IdentityService.SuperAdminOverride | src/main/java/hub/troubleshooters/soundlink/core/auth/services/IdentityServiceImpl.java:70-72 | SUPERADMIN among the current scopes authorises every request |
| IdentityService.SubsetTest | src/main/java/hub/troubleshooters/soundlink/core/auth/services/IdentityServiceImpl.java:73 | without SUPERADMIN, a request is authorised iff every requested scope is current |
| IdentityService.EmptyRequest | src/main/java/hub/troubleshooters/soundlink/core/auth/services/IdentityServiceImpl.java:73 | with a context, requesting no scopes is always authorised |
| IdentityService.AuthorizedByBits | src/main/java/hub/troubleshooters/soundlink/core/auth/services/IdentityServiceImpl.java:64-74 | when the current scopes are decoded from a permission value, authorisation is SUPERADMIN's bit or all requested bits set |
| IdentityService.Authorized | src/main/java/hub/troubleshooters/soundlink/core/auth/services/IdentityServiceImpl.java:64-74 | isAuthorized: false without a context; otherwise SUPERADMIN among the current scopes, or every requested scope among them |
| IdentityService.IdentityServiceImpl.IsAuthorized | src/main/java/hub/troubleshooters/soundlink/core/auth/services/IdentityServiceImpl.java:64-74 | isAuthorized against the stored context |
| IdentityService.IdentityServiceImpl.GetCommunities | src/main/java/hub/troubleshooters/soundlink/core/auth/services/IdentityServiceImpl.java:82-92 | getCommunities against the stored context |
| SceneManager.Timeline | src/main/java/hub/troubleshooters/soundlink/app/services/SceneManagerImpl.java:35-37 | the back stack, the current route and the reversed forward stack form one timeline with current at position abs(back) |
| SceneManager.NavigateSameRoute | src/main/java/hub/troubleshooters/soundlink/app/services/SceneManagerImpl.java:111-112 | navigating to the current route changes nothing |
| SceneManager.NavigateNewRoute | src/main/java/hub/troubleshooters/soundlink/app/services/SceneManagerImpl.java:113-116 | navigating elsewhere pushes the old route, clears the future and makes the new route current |
| SceneManager.BackKeepsTimeline | src/main/java/hub/troubleshooters/soundlink/app/services/SceneManagerImpl.java:122-127 | going back moves one step left along the same timeline |
| SceneManager.ForwardKeepsTimeline | src/main/java/hub/troubleshooters/soundlink/app/services/SceneManagerImpl.java:132-137 | going forward moves one step right along the same timeline |
| SceneManager.BackThenForward | src/main/java/hub/troubleshooters/soundlink/app/services/SceneManagerImpl.java:122-137 | back then forward restores the route and both stacks exactly |
| SceneManager.ForwardThenBack | src/main/java/hub/troubleshooters/soundlink/app/services/SceneManagerImpl.java:122-137 | forward then back restores the route and both stacks exactly |
| SceneManager.MovesKeepSize | src/main/java/hub/troubleshooters/soundlink/app/services/SceneManagerImpl.java:122-137 | back and forward moves keep the total size of the two stacks |
| SceneManager.EmptyStackNoOp | src/main/java/hub/troubleshooters/soundlink/app/services/SceneManagerImpl.java:122-137 | a move with its source stack empty changes nothing |
| SceneManager.SwitchSceneResets | src/main/java/hub/troubleshooters/soundlink/app/services/SceneManagerImpl.java:61-63 | after a loaded switchToScene only the new scene is left in the history |
| SceneManager.SwitchOutletKeepsStacks | src/main/java/hub/troubleshooters/soundlink/app/services/SceneManagerImpl.java:84-103 | switchToOutletScene rewrites only the current route, and only when the view loads |
| SceneManager.SceneManagerImpl.constructor | src/main/java/hub/troubleshooters/soundlink/app/services/SceneManagerImpl.java:35-37 | the manager starts at the login route with no history and no future |
| SceneManager.SceneManagerImpl.SwitchToScene | src/main/java/hub/troubleshooters/soundlink/app/services/SceneManagerImpl.java:48-69 | the new state is the scene-switch transition of the old one |
| SceneManager.SceneManagerImpl.SwitchToDefaultScene | src/main/java/hub/troubleshooters/soundlink/app/services/SceneManagerImpl.java:72-74 | the one-argument switch is the switch with scene name "SoundLink" |
| SceneManager.SceneManagerImpl.SwitchToOutletScene | src/main/java/hub/troubleshooters/soundlink/app/services/SceneManagerImpl.java:84-103 | the new state is the outlet-switch transition of the old one |
| SceneManager.SceneManagerImpl.Navigate | src/main/java/hub/troubleshooters/soundlink/app/services/SceneManagerImpl.java:111-119 | the new state is the navigate transition of the old one |
| SceneManager.SceneManagerImpl.NavigateBack | src/main/java/hub/troubleshooters/soundlink/app/services/SceneManagerImpl.java:122-129 | the new state is the back transition of the old one |
| SceneManager.SceneManagerImpl.NavigateForward | src/main/java/hub/troubleshooters/soundlink/app/services/SceneManagerImpl.java:132-139 | the new state is the forward transition of the old one |
| SceneManager.NavigateTo | src/main/java/hub/troubleshooters/soundlink/app/services/SceneManagerImpl.java:111-119 | navigate: the same route changes nothing; a new one pushes the current route, clears the forward stack and becomes current |
| SceneManager.Back | src/main/java/hub/troubleshooters/soundlink/app/services/SceneManagerImpl.java:122-129 | navigateBack: with a non-empty back stack, the current route goes onto the forward stack and the back top becomes current; otherwise no change |
| SceneManager.Forward | src/main/java/hub/troubleshooters/soundlink/app/services/SceneManagerImpl.java:132-139 | navigateForward: the mirror image of navigateBack |
| SceneManager.SwitchScene | src/main/java/hub/troubleshooters/soundlink/app/services/SceneManagerImpl.java:48-69 | switchToScene: on a successful load both stacks are cleared and the scene name becomes current |
| SceneManager.SwitchOutlet | src/main/java/hub/troubleshooters/soundlink/app/services/SceneManagerImpl.java:84-103 | switchToOutletScene: on a successful load only the current route changes |
| SceneManager.SceneManagerImpl.HasHistory | src/main/java/hub/troubleshooters/soundlink/app/services/SceneManagerImpl.java:142-144 | hasHistory: the back stack is non-empty |
| SceneManager.SceneManagerImpl.HasFuture | src/main/java/hub/troubleshooters/soundlink/app/services/SceneManagerImpl.java:147-149 | hasFuture: the forward stack is non-empty |
| ApprovalService.FirstIndexOf | src/main/java/hub/troubleshooters/soundlink/core/admin/services/ApprovalServiceImpl.java:95-100 | the first position holding the id, or none when no request has it |
| ApprovalService.FindRequestById | src/main/java/hub/troubleshooters/soundlink/core/admin/services/ApprovalServiceImpl.java:95-100 | a request is found iff some request has the id, and the one found has it and is in the list |
| ApprovalService.Pending | src/main/java/hub/troubleshooters/soundlink/core/admin/services/ApprovalServiceImpl.java:54-58 | exactly the unapproved requests of the community |
| ApprovalService.PendingAppend | src/main/java/hub/troubleshooters/soundlink/core/admin/services/ApprovalServiceImpl.java:55-57 | the pending list of a concatenation is the concatenation of the pending lists, so list order is kept |
| ApprovalService.PendingSingle | src/main/java/hub/troubleshooters/soundlink/core/admin/services/ApprovalServiceImpl.java:56 | one request is pending for a community iff it has that community and is unapproved |
| ApprovalService.SubmitAppends | src/main/java/hub/troubleshooters/soundlink/core/admin/services/ApprovalServiceImpl.java:40-42 | a submission appends one unapproved request numbered length + 1, and it joins its community's pending list |
| ApprovalService.ApproveShape | src/main/java/hub/troubleshooters/soundlink/core/admin/services/ApprovalServiceImpl.java:66-71 | approve keeps length and order, marks only the first request with the id, and leaves an unknown id alone |
| ApprovalService.RejectShape | src/main/java/hub/troubleshooters/soundlink/core/admin/services/ApprovalServiceImpl.java:81-86 | reject removes only the first request with the id, keeps the rest in order, and leaves an unknown id alone |
| ApprovalService.DecisionLeavesPending | src/main/java/hub/troubleshooters/soundlink/core/admin/services/ApprovalServiceImpl.java:56-86 | after approve or reject, the decided request is no longer pending |
| ApprovalService.DuplicateIdAfterReject | src/main/java/hub/troubleshooters/soundlink/core/admin/services/ApprovalServiceImpl.java:41-84 | two submissions, a rejection of id 1 and one more submission leave two requests with id 2 |
| ApprovalService.ApprovalServiceImpl.constructor | src/main/java/hub/troubleshooters/soundlink/core/admin/services/ApprovalServiceImpl.java:36-44 | a fresh service has no requests and keeps the given controller |
| ApprovalService.ApprovalServiceImpl.SubmitJoinRequest | src/main/java/hub/troubleshooters/soundlink/core/admin/services/ApprovalServiceImpl.java:40-44 | the list becomes the submit transition and the counter is incremented once |
| ApprovalService.ApprovalServiceImpl.ApproveRequest | src/main/java/hub/troubleshooters/soundlink/core/admin/services/ApprovalServiceImpl.java:66-72 | the list becomes the approve transition; the counter is decremented only for a known id |
| ApprovalService.ApprovalServiceImpl.RejectRequest | src/main/java/hub/troubleshooters/soundlink/core/admin/services/ApprovalServiceImpl.java:81-87 | the list becomes the reject transition; the counter is decremented only for a known id |
| ApprovalService.IsPendingFor | src/main/java/hub/troubleshooters/soundlink/core/admin/services/ApprovalServiceImpl.java:56 | the filter condition: the request is for the community and not approved |
| ApprovalService.Submit | src/main/java/hub/troubleshooters/soundlink/core/admin/services/ApprovalServiceImpl.java:40-44 | submitJoinRequest on the list: append an unapproved request numbered size + 1 |
| ApprovalService.Approve | src/main/java/hub/troubleshooters/soundlink/core/admin/services/ApprovalServiceImpl.java:66-72 | approveRequest on the list: the first request with the id is marked approved, an unknown id changes nothing |
| ApprovalService.Reject | src/main/java/hub/troubleshooters/soundlink/core/admin/services/ApprovalServiceImpl.java:81-87 | rejectRequest on the list: the first request with the id is removed, an unknown id changes nothing |
| ApprovalService.ApprovalServiceImpl.GetPendingRequestsForCommunity | src/main/java/hub/troubleshooters/soundlink/core/admin/services/ApprovalServiceImpl.java:54-58 | getPendingRequestsForCommunity: the pending filter over the stored list |
| NotificationCounter.Increments | src/main/java/hub/troubleshooters/soundlink/app/areas/notification/NotificationController.java:60-62 | k increments keep the count a Java int, and add exactly k when they stay at or below the int maximum |
| NotificationCounter.IncrementAddsOne | src/main/java/hub/troubleshooters/soundlink/app/areas/notification/NotificationController.java:60-62 | below the int maximum an increment adds exactly 1 |
| NotificationCounter.DecrementStep | src/main/java/hub/troubleshooters/soundlink/app/areas/notification/NotificationController.java:67-71 | a clear takes one off a positive count and leaves 0 at 0; it never resets to 0 |
| NotificationCounter.DecrementsSubtract | src/main/java/hub/troubleshooters/soundlink/app/areas/notification/NotificationController.java:67-71 | k clears from a count of at least k take exactly k off |
| NotificationCounter.DecrementsStayNonNegative | src/main/java/hub/troubleshooters/soundlink/app/areas/notification/NotificationController.java:68 | clears never take a non-negative count below 0 |
| NotificationCounter.IncrementsThenDecrements | src/main/java/hub/troubleshooters/soundlink/app/areas/notification/NotificationController.java:60-71 | k increments followed by k clears give the original count back |
| NotificationCounter.WrapsAtTop | src/main/java/hub/troubleshooters/soundlink/app/areas/notification/NotificationController.java:61 | incrementing the int maximum wraps to the minimum, which a clear leaves alone |
| NotificationCounter.NotificationController.constructor | src/main/java/hub/troubleshooters/soundlink/app/areas/notification/NotificationController.java:18 | the count starts at 0 |
| NotificationCounter.NotificationController.IncrementNotifications | src/main/java/hub/troubleshooters/soundlink/app/areas/notification/NotificationController.java:60-62 | the count becomes its Java-int increment |
| NotificationCounter.NotificationController.ClearNotifications | src/main/java/hub/troubleshooters/soundlink/app/areas/notification/NotificationController.java:67-71 | the count becomes its guarded decrement |
| NotificationCounter.Increment | src/main/java/hub/troubleshooters/soundlink/app/areas/notification/NotificationController.java:60-62 | incrementNotifications: plus one on a Java int, wrapping at the top |
| NotificationCounter.Decrement | src/main/java/hub/troubleshooters/soundlink/app/areas/notification/NotificationController.java:67-71 | clearNotifications: one less when positive, otherwise unchanged |
| NotificationCounter.Label | src/main/java/hub/troubleshooters/soundlink/app/areas/notification/NotificationController.java:46 | the bound text "Notifications (n)" for every count |
| NotificationCounter.NotificationController.ButtonText | src/main/java/hub/troubleshooters/soundlink/app/areas/notification/NotificationController.java:46 | the button text follows the current count |
| SharedNotification.ButtonText | src/main/java/hub/troubleshooters/soundlink/app/areas/shared/NotificationController.java:36-44 | the label starts with "Notifications" and differs from the bare word iff the count is positive |
| SharedNotification.ButtonTextShowsCount | src/main/java/hub/troubleshooters/soundlink/app/areas/shared/NotificationController.java:37-38 | a positive count is shown as "Notifications (n)" and can be read back from the label |
| SharedNotification.NotificationController.constructor | src/main/java/hub/troubleshooters/soundlink/app/areas/shared/NotificationController.java:15 | the count starts at 0 and the button keeps its declared text |
| SharedNotification.NotificationController.AddNotification | src/main/java/hub/troubleshooters/soundlink/app/areas/shared/NotificationController.java:26-29 | the count goes up by one (Java int) and the label shows the new count |
| SharedNotification.NotificationController.HandleNotifications | src/main/java/hub/troubleshooters/soundlink/app/areas/shared/NotificationController.java:17-24 | a positive count is reset to 0 with the bare label; otherwise nothing changes |
| SharedNotification.NotificationController.ClearNotifications | src/main/java/hub/troubleshooters/soundlink/app/areas/shared/NotificationController.java:31-34 | the count is 0 and the label is the bare word |
| SharedNotification.NotificationController.UpdateNotificationButton | src/main/java/hub/troubleshooters/soundlink/app/areas/shared/NotificationController.java:36-44 | the count is unchanged and the label matches it |
| EventService.EventMatches | src/main/java/hub/troubleshooters/soundlink/core/events/services/EventServiceImpl.java:163-177 | the five search conditions: lowercased text in name, description or venue; from and to bounds when set; capacity and community unless 0 |
| EventService.SearchEvents | src/main/java/hub/troubleshooters/soundlink/core/events/services/EventServiceImpl.java:159-178 | an event is returned iff it is stored and matches, and every returned event matches |
| EventService.SearchKeepsOrder | src/main/java/hub/troubleshooters/soundlink/core/events/services/EventServiceImpl.java:161-177 | searching a concatenation concatenates the searches, so store order is kept |
| EventService.UnfilteredSearchKeepsAll | src/main/java/hub/troubleshooters/soundlink/core/events/services/EventServiceImpl.java:165-175 | empty text, no dates and zero filters return every event |
| EventService.SearchIgnoresTextCase | src/main/java/hub/troubleshooters/soundlink/core/events/services/EventServiceImpl.java:165 | texts equal up to letter case give the same result |
| EventService.ListUpcomingEvents | src/main/java/hub/troubleshooters/soundlink/core/events/services/EventServiceImpl.java:188-197 | the user's community events followed by the public events, nothing else |
| EventService.BookingPermission | src/main/java/hub/troubleshooters/soundlink/core/events/services/EventServiceImpl.java:213 | a new booking's permission combineScopes(EVENT_READ) is 2 |
| EventService.PermissionLevel | src/main/java/hub/troubleshooters/soundlink/core/events/services/EventServiceImpl.java:336-339 | the booking's permission, or 0 without a booking |
| EventService.Book | src/main/java/hub/troubleshooters/soundlink/core/events/services/EventServiceImpl.java:208-216 | a booked pair fails with BookingAlreadyExists and no change; a free pair gains exactly one booking with permission 2, returned as success |
| EventService.Cancel | src/main/java/hub/troubleshooters/soundlink/core/events/services/EventServiceImpl.java:281-294 | true iff the pair was booked; the pair is gone and every other booking unchanged |
| EventService.BookTwice | src/main/java/hub/troubleshooters/soundlink/core/events/services/EventServiceImpl.java:209-215 | after a first booking the pair is booked, and a second booking fails and changes nothing |
| EventService.BookingNeverAdmin | src/main/java/hub/troubleshooters/soundlink/core/events/services/EventServiceImpl.java:213-352 | a booking made by bookEvent has level 2 and never makes the user admin |
| EventService.BookThenCancel | src/main/java/hub/troubleshooters/soundlink/core/events/services/EventServiceImpl.java:208-294 | booking a free pair and cancelling it gives the original store back and reports true |
| EventService.OtherPairsUnaffected | src/main/java/hub/troubleshooters/soundlink/core/events/services/EventServiceImpl.java:208-294 | booking or cancelling one pair keeps every other pair's permission level |
| EventService.FindEvent | src/main/java/hub/troubleshooters/soundlink/core/events/services/EventServiceImpl.java:369 | an event with the id from the store, or none when no stored event has it |
| EventService.Delete | src/main/java/hub/troubleshooters/soundlink/core/events/services/EventServiceImpl.java:364-378 | a non-admin is refused before any lookup; an admin gets not-found for a missing event; otherwise the event is deleted |
| EventService.DeleteRemovesOnlyThatEvent | src/main/java/hub/troubleshooters/soundlink/core/events/services/EventServiceImpl.java:364-378 | after a deletion no event has the id and every other event is still there |
| EventService.BookedUserCannotDelete | src/main/java/hub/troubleshooters/soundlink/core/events/services/EventServiceImpl.java:213-374 | a user booked through bookEvent is always refused deleteEvent |
| EventService.EventServiceImpl.constructor | src/main/java/hub/troubleshooters/soundlink/core/events/services/EventServiceImpl.java:159-378 | the service holds the given events and bookings |
| EventService.EventServiceImpl.BookEvent | src/main/java/hub/troubleshooters/soundlink/core/events/services/EventServiceImpl.java:208-216 | store and result are the booking transition; events unchanged |
| EventService.EventServiceImpl.CancelBooking | src/main/java/hub/troubleshooters/soundlink/core/events/services/EventServiceImpl.java:281-294 | store and result are the cancel transition; events unchanged |
| EventService.EventServiceImpl.DeleteEvent | src/main/java/hub/troubleshooters/soundlink/core/events/services/EventServiceImpl.java:364-378 | events and outcome are the delete transition; bookings unchanged |
| EventService.Booked | src/main/java/hub/troubleshooters/soundlink/core/events/services/EventServiceImpl.java:227-230 | isBooked on the store: a booking for the (event, user) pair exists |
| EventService.IsAdminIn | src/main/java/hub/troubleshooters/soundlink/core/events/services/EventServiceImpl.java:350-353 | isAdmin on the store: the permission level is exactly 1 |
| EventService.EventServiceImpl.Search | src/main/java/hub/troubleshooters/soundlink/core/events/services/EventServiceImpl.java:159-178 | search over the stored events |
| EventService.EventServiceImpl.IsBooked | src/main/java/hub/troubleshooters/soundlink/core/events/services/EventServiceImpl.java:227-230 | isBooked against the stored bookings |
| EventService.EventServiceImpl.GetUserPermissionLevel | src/main/java/hub/troubleshooters/soundlink/core/events/services/EventServiceImpl.java:336-339 | getUserPermissionLevel against the stored bookings |
| EventService.EventServiceImpl.IsAdmin | src/main/java/hub/troubleshooters/soundlink/core/events/services/EventServiceImpl.java:350-353 | isAdmin against the stored bookings |
| CommunityService.PrivacyMatches | src/main/java/hub/troubleshooters/soundlink/core/communities/services/CommunityServiceImpl.java:125 | with showOnlyPrivate only private communities pass |
| CommunityService.SearchCommunities | src/main/java/hub/troubleshooters/soundlink/core/communities/services/CommunityServiceImpl.java:115-132 | empty on a lookup failure; otherwise a community is returned iff it passes the text and privacy filters |
| CommunityService.SearchKeepsOrder | src/main/java/hub/troubleshooters/soundlink/core/communities/services/CommunityServiceImpl.java:120-126 | searching a concatenation concatenates the searches |
| CommunityService.NoFilterKeepsAll | src/main/java/hub/troubleshooters/soundlink/core/communities/services/CommunityServiceImpl.java:121 | null or empty text without showOnlyPrivate returns every community |
| CommunityService.OnlyPrivate | src/main/java/hub/troubleshooters/soundlink/core/communities/services/CommunityServiceImpl.java:120-126 | with showOnlyPrivate the result is the text matches that are private, in order |
| CommunityService.SignUp | src/main/java/hub/troubleshooters/soundlink/core/communities/services/CommunityServiceImpl.java:143-154 | false and no change for a member; otherwise true and one new membership with permission 6, others unchanged |
| CommunityService.Leave | src/main/java/hub/troubleshooters/soundlink/core/communities/services/CommunityServiceImpl.java:165-180 | true iff the membership existed; it is gone and every other membership unchanged |
| CommunityService.PermissionLevel | src/main/java/hub/troubleshooters/soundlink/core/communities/services/CommunityServiceImpl.java:253-256 | the member's permission, or 0 for a non-member |
| CommunityService.SignUpJoins | src/main/java/hub/troubleshooters/soundlink/core/communities/services/CommunityServiceImpl.java:145-153 | a sign-up makes the user a level-6 non-admin member, and a second sign-up fails |
| CommunityService.SignUpThenCancel | src/main/java/hub/troubleshooters/soundlink/core/communities/services/CommunityServiceImpl.java:143-180 | signing up then cancelling gives the original store back and reports true |
| CommunityService.CancelTwice | src/main/java/hub/troubleshooters/soundlink/core/communities/services/CommunityServiceImpl.java:165-180 | after a cancellation the user is no member and cancelling again reports false |
| CommunityService.FindCommunity | src/main/java/hub/troubleshooters/soundlink/core/communities/services/CommunityServiceImpl.java:272 | a community with the id from the store, or none when no stored community has it |
| CommunityService.Delete | src/main/java/hub/troubleshooters/soundlink/core/communities/services/CommunityServiceImpl.java:267-282 | a non-admin is refused; an admin gets not-found for a missing community; otherwise it is deleted |
| CommunityService.DeleteRemovesOnlyThatCommunity | src/main/java/hub/troubleshooters/soundlink/core/communities/services/CommunityServiceImpl.java:267-282 | after a deletion no community has the id and every other one is still there |
| CommunityService.SignedUpMemberCannotDelete | src/main/java/hub/troubleshooters/soundlink/core/communities/services/CommunityServiceImpl.java:150-294 | a member who joined by signing up is always refused deleteCommunity |
| CommunityService.AsWrittenMissesMember | src/main/java/hub/troubleshooters/soundlink/core/communities/services/CommunityServiceImpl.java:145 | the lookup with swapped arguments misses an existing member |
| CommunityService.SignUpIsFound | src/main/java/hub/troubleshooters/soundlink/core/communities/services/CommunityServiceImpl.java:143-213 | with the intended keying a sign-up is always found by the membership test |
| CommunityService.CommunityServiceImpl.constructor | src/main/java/hub/troubleshooters/soundlink/core/communities/services/CommunityServiceImpl.java:115-295 | the service holds the given communities and memberships |
| CommunityService.CommunityServiceImpl.SignUpForCommunity | src/main/java/hub/troubleshooters/soundlink/core/communities/services/CommunityServiceImpl.java:143-154 | store and result are the sign-up transition; communities unchanged |
| CommunityService.CommunityServiceImpl.CancelJoin | src/main/java/hub/troubleshooters/soundlink/core/communities/services/CommunityServiceImpl.java:165-180 | store and result are the cancel transition; communities unchanged |
| CommunityService.CommunityServiceImpl.DeleteCommunity | src/main/java/hub/troubleshooters/soundlink/core/communities/services/CommunityServiceImpl.java:267-282 | communities and outcome are the delete transition; memberships unchanged |
| CommunityService.TextMatches | src/main/java/hub/troubleshooters/soundlink/core/communities/services/CommunityServiceImpl.java:121-124 | the text filter: no or empty text, or the lowercased text inside the lowercased name, description or genre |
| CommunityService.Joined | src/main/java/hub/troubleshooters/soundlink/core/communities/services/CommunityServiceImpl.java:210-213 | the membership test with the intended keying: a membership of that user in that community exists |
| CommunityService.IsAdminIn | src/main/java/hub/troubleshooters/soundlink/core/communities/services/CommunityServiceImpl.java:292-295 | isAdmin on the store: the permission level is exactly 1 |
| CommunityService.JoinedAsWritten | src/main/java/hub/troubleshooters/soundlink/core/communities/services/CommunityServiceImpl.java:211 | the lookup as written: get(communityId, userId) against get(int userId, int communityId) looks the ids up swapped |
| CommunityService.CommunityServiceImpl.Search | src/main/java/hub/troubleshooters/soundlink/core/communities/services/CommunityServiceImpl.java:115-132 | searchCommunities over the stored communities, empty when the lookup throws |
| CommunityService.CommunityServiceImpl.HasUserJoinedIntoCommunity | src/main/java/hub/troubleshooters/soundlink/core/communities/services/CommunityServiceImpl.java:210-213 | hasUserJoinedIntoCommunity against the stored memberships, with the intended keying |
| CommunityService.CommunityServiceImpl.GetUserPermissionLevel | src/main/java/hub/troubleshooters/soundlink/core/communities/services/CommunityServiceImpl.java:253-256 | getUserPermissionLevel against the stored memberships |
| CommunityService.CommunityServiceImpl.IsAdmin | src/main/java/hub/troubleshooters/soundlink/core/communities/services/CommunityServiceImpl.java:292-295 | isAdmin against the stored memberships |
| LegacyCommunitySearch.SearchCommunities | src/main/java/hub/troubleshooters/soundlink/core/events/services/CommunityServiceImpl.java:39-52 | empty on a lookup failure; otherwise a community is kept iff it passes the genre and location filters |
| LegacyCommunitySearch.SearchKeepsOrder | src/main/java/hub/troubleshooters/soundlink/core/events/services/CommunityServiceImpl.java:43-46 | searching a concatenation concatenates the searches |
| LegacyCommunitySearch.NoFilterKeepsAll | src/main/java/hub/troubleshooters/soundlink/core/events/services/CommunityServiceImpl.java:44-45 | null or empty genre and location return every community |
| LegacyCommunitySearch.CaseSensitivity | src/main/java/hub/troubleshooters/soundlink/core/events/services/CommunityServiceImpl.java:44-45 | the genre test ignores letter case while the location test does not |
| LegacyCommunitySearch.GenreMatches | src/main/java/hub/troubleshooters/soundlink/core/events/services/CommunityServiceImpl.java:44 | no or empty genre, or a genre equal ignoring case |
| LegacyCommunitySearch.LocationMatches | src/main/java/hub/troubleshooters/soundlink/core/events/services/CommunityServiceImpl.java:45 | no or empty location, or the location inside the description, case-sensitive |
| LoginService.Failure | src/main/java/hub/troubleshooters/soundlink/core/auth/validation/AuthResult.java:22-24 | a failed result carrying the AuthError with the message |
| LoginService.Succeeded | src/main/java/hub/troubleshooters/soundlink/core/auth/validation/AuthResult.java:13-15 | a successful result |
| LoginService.InternalError | src/main/java/hub/troubleshooters/soundlink/core/auth/services/LoginServiceImpl.java:91 | the SQL failure message starts with "Internal server error" |
| LoginService.MembershipsOf | src/main/java/hub/troubleshooters/soundlink/core/auth/services/LoginServiceImpl.java:85 | exactly the memberships with the user's id |
| LoginService.InvalidModelNoLookup | src/main/java/hub/troubleshooters/soundlink/core/auth/services/LoginServiceImpl.java:68-71 | an invalid model is refused with "Username and password must have values", whatever the store holds |
| LoginService.UnknownUserLooksLikeWrongPassword | src/main/java/hub/troubleshooters/soundlink/core/auth/services/LoginServiceImpl.java:74-81 | an unknown user and a wrong password get the same message and the same unchanged state |
| LoginService.SuccessfulLogin | src/main/java/hub/troubleshooters/soundlink/core/auth/services/LoginServiceImpl.java:82-89 | a verified login sets lastLogin, stores the user and memberships as context, saves and succeeds |
| LoginService.SaveFailureKeepsContext | src/main/java/hub/troubleshooters/soundlink/core/auth/services/LoginServiceImpl.java:87-91 | a failed save still leaves the user logged in while reporting an internal error |
| LoginService.RegisterExistingUser | src/main/java/hub/troubleshooters/soundlink/core/auth/services/LoginServiceImpl.java:119-121 | a taken username gives "User already exists" and changes nothing |
| LoginService.RegisterNewUser | src/main/java/hub/troubleshooters/soundlink/core/auth/services/LoginServiceImpl.java:122-128 | a new username gets a user with the hashed password and a profile named after it |
| LoginService.RegisterThenLogin | src/main/java/hub/troubleshooters/soundlink/core/auth/services/LoginServiceImpl.java:66-132 | registering and then logging in with the same password succeeds when the hash verifies |
| LoginService.LoginServiceImpl.constructor | src/main/java/hub/troubleshooters/soundlink/core/auth/services/LoginServiceImpl.java:66-132 | the service holds the given identity service and tables |
| LoginService.LoginServiceImpl.Login | src/main/java/hub/troubleshooters/soundlink/core/auth/services/LoginServiceImpl.java:66-93 | users, context and result are the login decision; the other tables are unchanged |
| LoginService.LoginServiceImpl.Logout | src/main/java/hub/troubleshooters/soundlink/core/auth/services/LoginServiceImpl.java:99-101 | the identity context becomes null |
| LoginService.LoginServiceImpl.Register | src/main/java/hub/troubleshooters/soundlink/core/auth/services/LoginServiceImpl.java:111-132 | users, profiles and result are the register decision; memberships are unchanged |
| LoginService.LoginDecision | src/main/java/hub/troubleshooters/soundlink/core/auth/services/LoginServiceImpl.java:66-93 | login: validation first, one message for an unknown user and a wrong password, then last login, context and save, with a store failure keeping what was done |
| LoginService.RegisterDecision | src/main/java/hub/troubleshooters/soundlink/core/auth/services/LoginServiceImpl.java:111-132 | register: validation, "User already exists", then the user with the hashed password and a profile named after them |
| ProfileService.ProfileOf | src/main/java/hub/troubleshooters/soundlink/core/profile/services/UserProfileServiceImpl.java:54 | a stored profile of the user, or none when no row has the user id |
| ProfileService.GetUserProfile | src/main/java/hub/troubleshooters/soundlink/core/profile/services/UserProfileServiceImpl.java:52-58 | the user's profile, or empty when the lookup throws |
| ProfileService.Save | src/main/java/hub/troubleshooters/soundlink/core/profile/services/UserProfileServiceImpl.java:95 | every row with the profile's id takes the new values; the others stay |
| ProfileService.Edited | src/main/java/hub/troubleshooters/soundlink/core/profile/services/UserProfileServiceImpl.java:78-92 | display name and bio come from the form; image id is the upload's or is cleared |
| ProfileService.UpdateProfile | src/main/java/hub/troubleshooters/soundlink/core/profile/services/UserProfileServiceImpl.java:72-102 | an invalid form returns its result and writes nothing; a crash writes nothing |
| ProfileService.UpdateSucceeds | src/main/java/hub/troubleshooters/soundlink/core/profile/services/UserProfileServiceImpl.java:78-101 | a valid form with an existing profile saves the edited profile and returns success |
| ProfileService.NoImageClearsImage | src/main/java/hub/troubleshooters/soundlink/core/profile/services/UserProfileServiceImpl.java:90-92 | without a new image the profile image id is cleared |
| ProfileService.MissingProfileCrashes | src/main/java/hub/troubleshooters/soundlink/core/profile/services/UserProfileServiceImpl.java:77-78 | a user without a profile makes a valid update crash, with nothing written |
| ProfileService.UserProfileServiceImpl.constructor | src/main/java/hub/troubleshooters/soundlink/core/profile/services/UserProfileServiceImpl.java:52-102 | the service holds the given profiles |
| ProfileService.UserProfileServiceImpl.Update | src/main/java/hub/troubleshooters/soundlink/core/profile/services/UserProfileServiceImpl.java:72-102 | profiles and outcome are the update transition |
| ProfileService.UserProfileServiceImpl.GetProfile | src/main/java/hub/troubleshooters/soundlink/core/profile/services/UserProfileServiceImpl.java:52-58 | getUserProfile against the stored profiles, empty when the lookup throws |
| CoreResults.OfResult | src/main/java/hub/troubleshooters/soundlink/core/CoreResult.java:17-20 | the result is stored, the error is null, and the result is a success |
| CoreResults.OfError | src/main/java/hub/troubleshooters/soundlink/core/CoreResult.java:27-30 | the error is stored, the result is null; success iff the error is null |
| ValidationResults.OfValidationError | src/main/java/hub/troubleshooters/soundlink/core/validation/ValidationResult.java:38-41 | a failure whose errors list is exactly the given error |
| ValidationResults.OfErrors | src/main/java/hub/troubleshooters/soundlink/core/validation/ValidationResult.java:48-51 | the errors list is the given list; success iff it is empty; otherwise the error is the combined one |
| ValidationResults.Success | src/main/java/hub/troubleshooters/soundlink/core/validation/ValidationResult.java:31-58 | a success with an empty errors list |
| ValidationErrors.Single | src/main/java/hub/troubleshooters/soundlink/core/validation/ValidationError.java:16-18 | the message is kept verbatim with no cause |
| ValidationErrors.BracedAll | src/main/java/hub/troubleshooters/soundlink/core/validation/ValidationError.java:30 | every error's message in braces, in list order |
| ValidationErrors.Combined | src/main/java/hub/troubleshooters/soundlink/core/validation/ValidationError.java:28-34 | the cause carries the combined text, and the message is Throwable.toString of that cause |
| ValidationErrors.ReduceIsJoin | src/main/java/hub/troubleshooters/soundlink/core/validation/ValidationError.java:31-32 | the reduce with "" as fallback is the comma join of the pieces |
| ValidationErrors.CombinedTextIsJoin | src/main/java/hub/troubleshooters/soundlink/core/validation/ValidationError.java:29-33 | the combined text is every message in braces, in order, separated by single commas |
| ValidationErrors.CombinedTextSmall | src/main/java/hub/troubleshooters/soundlink/core/validation/ValidationError.java:29-33 | no errors give ""; one error gives its message in braces |
| ValidationErrors.CombinedTextTwo | src/main/java/hub/troubleshooters/soundlink/core/validation/ValidationError.java:29-33 | two errors give both braced messages joined by one comma |
| ValidationErrors.Reduce | src/main/java/hub/troubleshooters/soundlink/core/validation/ValidationError.java:31-32 | the stream reduce joining the messages with commas, none for an empty list |
| ModelValidator.NotEmpty | src/test/java/hub/troubleshooters/soundlink/core/validation/ModelValidatorTest.java:40-51 | an error iff the value is null or empty, with message "name is null or empty" |
| ModelValidator.IsFuture | src/test/java/hub/troubleshooters/soundlink/core/validation/ModelValidatorTest.java:81-94 | an error iff the date is not after now, with message "name is not in the future" |
| ModelValidator.IsPositive | src/test/java/hub/troubleshooters/soundlink/core/validation/ModelValidatorTest.java:96-107 | an error iff the number is not above 0, with message "name is not greater than 0" |
| ModelValidator.CommunityExists | src/test/java/hub/troubleshooters/soundlink/core/validation/ModelValidatorTest.java:109-136 | no error iff found; "Community not found with id: n" when missing; "Internal error: msg" on a lookup failure |
| ModelValidator.IsImage | src/main/java/hub/troubleshooters/soundlink/core/events/validation/CreateEventModelValidator.java:46 | an error iff the file is not PNG, JPG or JPEG |
| ModelValidator.IfPresentImage | src/main/java/hub/troubleshooters/soundlink/core/events/validation/CreateEventModelValidator.java:66 | an absent file gives no error; a present one is checked as an image |
| ModelValidator.Failures | src/main/java/hub/troubleshooters/soundlink/core/events/validation/CreateEventModelValidator.java:59-67 | the failed checks' errors, no more than there are checks |
| ModelValidator.FailuresCount | src/test/java/hub/troubleshooters/soundlink/core/validation/EventModelValidationTest.java:51-58 | one error per failed check, and each error comes from a failed check |
| ModelValidator.FailuresAppend | src/main/java/hub/troubleshooters/soundlink/core/events/validation/CreateEventModelValidator.java:59-67 | the errors of concatenated checks are the concatenated errors, in check order |
| ModelValidator.FailuresSingle | src/main/java/hub/troubleshooters/soundlink/core/events/validation/CreateEventModelValidator.java:59-67 | a passed check adds no error, a failed one adds its own |
| ModelValidator.AllFailed | src/test/java/hub/troubleshooters/soundlink/core/validation/EventModelValidationTest.java:51-58 | when every check fails, the errors are all of them in order |
| ModelValidator.AllPassed | src/test/java/hub/troubleshooters/soundlink/core/validation/EventModelValidationTest.java:41-48 | when every check passes there are no errors |
| ModelValidator.EnsureSuccess | src/test/java/hub/troubleshooters/soundlink/core/validation/EventModelValidationTest.java:41-58 | ensure succeeds iff every check passed, and lists exactly the failures |
| ModelValidator.HasImageExtension | src/main/java/hub/troubleshooters/soundlink/core/events/validation/CreateEventModelValidator.java:46 | the file name ends in .png, .jpg or .jpeg in any letter case |
| ModelValidator.Ensure | src/main/java/hub/troubleshooters/soundlink/core/events/validation/CreateEventModelValidator.java:59-67 | ensure(checks...): a result holding the failed checks' errors in check order |
| CreateEventValidator.Validate | src/main/java/hub/troubleshooters/soundlink/core/events/validation/CreateEventModelValidator.java:54-68 | null gives only "Model is null"; otherwise success iff every rule holds, with one error per failed rule |
| CreateEventValidator.InvalidTestChecks | src/test/java/hub/troubleshooters/soundlink/core/validation/EventModelValidationTest.java:51-58 | the test's invalid model fails each of the six non-banner checks, with their messages |
| CreateEventValidator.NotEmptyMessages | src/test/java/hub/troubleshooters/soundlink/core/validation/ModelValidatorTest.java:43 | the three emptiness messages of the invalid model |
| CreateEventValidator.OtherMessages | src/test/java/hub/troubleshooters/soundlink/core/validation/ModelValidatorTest.java:93-125 | the future, positive and community messages of the invalid model |
| CreateEventValidator.InvalidModelSixErrors | src/test/java/hub/troubleshooters/soundlink/core/validation/EventModelValidationTest.java:51-58 | the invalid model gives exactly six errors, in rule order |
| CreateEventValidator.ValidModelPasses | src/test/java/hub/troubleshooters/soundlink/core/validation/EventModelValidationTest.java:41-48 | the valid model with its community found passes |
| CreateEventValidator.NoBannerNoBannerError | src/main/java/hub/troubleshooters/soundlink/core/events/validation/CreateEventModelValidator.java:66 | without a banner the errors are exactly those of the other six rules |
| CreateCommunityValidator.Validate | src/main/java/hub/troubleshooters/soundlink/core/communities/validation/CreateCommunityModelValidator.java:37-47 | null gives only "Model is null"; otherwise success iff name, description and genre are filled and the banner, if any, is an image |
| CreateCommunityValidator.IgnoresCreatedAndPrivacy | src/main/java/hub/troubleshooters/soundlink/core/communities/validation/CreateCommunityModelValidator.java:42-47 | the creation date and the privacy flag never change the outcome |
| CreateCommunityValidator.ThreeMissingFields | src/main/java/hub/troubleshooters/soundlink/core/communities/validation/CreateCommunityModelValidator.java:43-45 | three missing strings give three errors |
| LoginValidator.Validate | src/main/java/hub/troubleshooters/soundlink/core/auth/validation/LoginModelValidator.java:24-33 | null gives only "Login model is null"; otherwise success iff both fields are filled, with "Username/Password is null or empty" errors |
| LoginValidator.FieldMessages | src/main/java/hub/troubleshooters/soundlink/core/auth/validation/LoginModelValidator.java:30-31 | the two field messages read "Username is null or empty" and "Password is null or empty" |
| RegisterValidator.Validate | src/main/java/hub/troubleshooters/soundlink/core/auth/validation/RegisterModelValidator.java:11-20 | null gives only "Login model is null"; otherwise success iff both fields are filled, with no other rule |
| RegisterValidator.FieldMessages | src/main/java/hub/troubleshooters/soundlink/core/auth/validation/RegisterModelValidator.java:17-18 | the two field messages read "Username is null or empty" and "Password is null or empty" |
| UserProfileValidator.Validate | src/main/java/hub/troubleshooters/soundlink/core/profile/validation/UserProfileValidator.java:28-37 | null gives only "Model is null"; otherwise success iff the display name is filled and the image, if any, is an image |
| UserProfileValidator.BioIgnored | src/main/java/hub/troubleshooters/soundlink/core/profile/validation/UserProfileValidator.java:33-36 | the bio never changes the outcome |
| UserProfileValidator.ImageExtensions | src/main/java/hub/troubleshooters/soundlink/core/profile/validation/UserProfileValidator.java:21-22 | a .PNG file passes and a .gif file is refused |
| CommunityFactory.IdStrings | src/main/java/hub/troubleshooters/soundlink/data/factories/CommunityFactory.java:65 | the decimal rendering of every id, in list order |
| CommunityFactory.WithCommasJoin | src/main/java/hub/troubleshooters/soundlink/data/factories/CommunityFactory.java:64-67 | before the trim, the builder holds the comma join plus one trailing comma |
| CommunityFactory.JoinIds | src/main/java/hub/troubleshooters/soundlink/data/factories/CommunityFactory.java:63-70 | the loop and trim give the ids in order separated by single commas, with no trailing comma |
| CommunityFactory.JoinNone | src/main/java/hub/troubleshooters/soundlink/data/factories/CommunityFactory.java:68-70 | no ids give the empty string |
| CommunityFactory.CommaCount | src/main/java/hub/troubleshooters/soundlink/data/factories/CommunityFactory.java:64-70 | n ids give exactly n - 1 commas |
| CommunityFactory.ParseIds | src/main/java/hub/troubleshooters/soundlink/data/factories/CommunityFactory.java:71 | one parsed value per comma-separated piece |
| CommunityFactory.SplitParseRoundTrip | src/main/java/hub/troubleshooters/soundlink/data/factories/CommunityFactory.java:64-70 | splitting on commas and parsing recovers the id list |
| ImageUploader.SampleBannerFileName | src/main/java/hub/troubleshooters/soundlink/core/images/ImageUploaderServiceImpl.java:78-80 | the name ends in ".jpg" and its stem parses to the id's Java remainder by 7 |
| ImageUploader.BannerOfNonNegativeId | src/main/java/hub/troubleshooters/soundlink/core/images/ImageUploaderServiceImpl.java:77-80 | a non-negative id picks the banner of its remainder, one of "0.jpg" to "6.jpg" |
| ImageUploader.CongruentIdsShareBanner | src/main/java/hub/troubleshooters/soundlink/core/images/ImageUploaderServiceImpl.java:77-84 | non-negative ids congruent modulo 7 get the same banner file |
| ImageUploader.NegativeIdBanner | src/main/java/hub/troubleshooters/soundlink/core/images/ImageUploaderServiceImpl.java:78-80 | id -8 names "-1.jpg", which is not one of the seven banners |
| ImageUploader.DefaultProfileImageFile | src/main/java/hub/troubleshooters/soundlink/core/images/ImageUploaderServiceImpl.java:25-94 | always 1.png under the default-profile directory of the working directory |
| ImageUploader.FullProtocolPath | src/main/java/hub/troubleshooters/soundlink/core/images/ImageUploaderServiceImpl.java:102-104 | "file:///" followed by exactly the absolute path |
| ImageUploader.ImageFile | src/main/java/hub/troubleshooters/soundlink/core/images/ImageUploaderServiceImpl.java:123-128 | the images directory followed by exactly the image's file name |
| ImageUploader.ProtocolPathNamesImage | src/main/java/hub/troubleshooters/soundlink/core/images/ImageUploaderServiceImpl.java:112-114 | the image's file name can be read back from its protocol path |
| ImageUploader.AbsolutePathGivesFourSlashes | src/main/java/hub/troubleshooters/soundlink/core/images/ImageUploaderServiceImpl.java:103 | an absolute working directory makes the URL start with "file:////" |
| ImageUploader.SampleBannerImageFile | src/main/java/hub/troubleshooters/soundlink/core/images/ImageUploaderServiceImpl.java:77-84 | getSampleBannerImageFile: the banner directory plus the file chosen by the id's Java remainder by 7 |
| ImageUploader.ImageProtocolPath | src/main/java/hub/troubleshooters/soundlink/core/images/ImageUploaderServiceImpl.java:112-114 | getFullProtocolPath(Image): the protocol path of the image's file |
| JavaInt.Inc | src/main/java/hub/troubleshooters/soundlink/app/areas/shared/NotificationController.java:27 | a Java int increment: plus one, except that the maximum wraps to the minimum |
| JavaInt.Rem | src/main/java/hub/troubleshooters/soundlink/core/images/ImageUploaderServiceImpl.java:78 | Java's remainder, which takes the sign of the dividend |
| JavaInt.RemTruncates | src/main/java/hub/troubleshooters/soundlink/core/images/ImageUploaderServiceImpl.java:78 | Java's -8 % 7 is -1 where Euclidean remainder gives 6 |
| IntegerTextField.IntegerFilter | src/main/java/hub/troubleshooters/soundlink/app/components/IntegerTextField.java:17-23 | an edit is kept unchanged iff its inserted text is all digits, otherwise it is dropped |
| IntegerTextField.DeletionAccepted | src/main/java/hub/troubleshooters/soundlink/app/components/IntegerTextField.java:19 | an edit that inserts nothing is always accepted |
| IntegerTextField.FilterKeepsDigits | src/main/java/hub/troubleshooters/soundlink/app/components/IntegerTextField.java:9-23 | applying an accepted edit to all-digit text leaves all-digit text |
| IntegerTextField.ParseJavaInt | src/main/java/hub/troubleshooters/soundlink/app/components/IntegerTextField.java:36 | a parsed value always fits in a Java int |
| IntegerTextField.GetValue | src/main/java/hub/troubleshooters/soundlink/app/components/IntegerTextField.java:32-37 | empty text gives 0; digit text gives its non-negative value iff it fits in a Java int |
| IntegerTextField.GetValueRoundTrip | src/main/java/hub/troubleshooters/soundlink/app/components/IntegerTextField.java:32-37 | the text of any non-negative int reads back as that int |
| IntegerTextField.TooLargeRefused | src/main/java/hub/troubleshooters/soundlink/app/components/IntegerTextField.java:36 | digit text above the int maximum gives no value |
| SeedData.Drawn | scripts/generate/bookings.py:5-6 | 100 pairs, each first value in [1,100] and each second in [1,101] |
| SeedData.DrawPairs | scripts/generate/bookings.py:3-6 | the loop builds exactly the 100 drawn pairs, in draw order |
| SeedData.FirstIndex | scripts/generate/bookings.py:9 | the first position at which an element occurs |
| SeedData.DedupeSameElements | scripts/generate/bookings.py:9 | dedupe keeps exactly the elements of its input |
| SeedData.DedupeDistinct | scripts/generate/bookings.py:9 | the deduplicated list has no repeats |
| SeedData.DedupeLength | scripts/generate/bookings.py:9 | dedupe never lengthens the list |
| SeedData.DedupeFirstOccurrenceOrder | scripts/generate/bookings.py:9 | dedupe lists elements in order of their first occurrence |
| SeedData.DedupeOfDistinct | scripts/generate/bookings.py:9 | a list with no repeats is left unchanged |
| SeedData.DedupeIdempotent | scripts/generate/bookings.py:9 | deduplicating twice is deduplicating once |
| SeedData.FromKeys | scripts/generate/bookings.py:9 | dict.fromkeys keeps each element once, in first-occurrence order, same elements, no longer |
| SeedData.LinesJoin | scripts/generate/bookings.py:16-18 | newline-terminated lines then a tail are the newline join of lines and tail |
| SeedData.SplitLines | scripts/generate/bookings.py:14-18 | splitting the written text on newlines gives back the lines and the tail |
| SeedData.PairStatementOneLine | scripts/generate/bookings.py:11 | an INSERT line for two integers holds no newline |
| SeedData.WriteInserts | scripts/generate/bookings.py:16-17 | the write loop produces one formatted INSERT line per pair, in order |
| SeedData.FramedLines | scripts/generate/bookings.py:14-18 | the framed file splits into BEGIN TRANSACTION;, the INSERT lines and COMMIT; with no trailing newline |
| SeedData.PlainLines | scripts/generate/event_attendees.py:11-13 | an unframed file splits into the INSERT lines and one empty last piece |
| BookingsScript.Generate | scripts/generate/bookings.py:1-18 | the file is the framed INSERT lines of the deduplicated draws |
| BookingsScript.BookingsFile | scripts/generate/bookings.py:5-18 | the file is BEGIN, distinct pairs within range forming exactly the drawn set and at most 100, then COMMIT |
| CommunityMembersScript.Generate | scripts/generate/community_members.py:1-18 | the file is the framed INSERT lines of the deduplicated draws |
| CommunityMembersScript.CommunityMembersFile | scripts/generate/community_members.py:5-18 | the file is BEGIN, distinct pairs within range forming exactly the drawn set and at most 100, then COMMIT |
| EventAttendeesScript.Generate | scripts/generate/event_attendees.py:1-13 | the file is the INSERT lines of the draws, with no dedupe and no framing |
| EventAttendeesScript.AttendeesFile | scripts/generate/event_attendees.py:5-13 | exactly 100 lines in draw order, then an empty last piece |
| EventAttendeesScript.RepeatsKept | scripts/generate/event_attendees.py:5-13 | two equal draws give two equal lines, so repeats stay |
| GenerateCommunities.FormatPlainPrefix | scripts/generate/generate_communities.py:134 | formatting passes brace-free text through unchanged |
| GenerateCommunities.FormatFillsField | scripts/generate/generate_communities.py:116-134 | formatting a template puts the genre where {genre} stood |
| GenerateCommunities.Row | scripts/generate/generate_communities.py:131-135 | row i has name i and a genre from the genre list |
| GenerateCommunities.Rows | scripts/generate/generate_communities.py:130-135 | the 100 rows, row i from name i and the draws of iteration i |
| GenerateCommunities.Assemble | scripts/generate/generate_communities.py:130-135 | the loop builds exactly those rows |
| GenerateCommunities.Statement | scripts/generate/generate_communities.py:139 | the INSERT line with the three values single-quoted and unescaped |
| GenerateCommunities.Statements | scripts/generate/generate_communities.py:141-143 | one INSERT line per row, in order |
| GenerateCommunities.WriteRows | scripts/generate/generate_communities.py:141-143 | the write loop produces those lines |
| GenerateCommunities.Generate | scripts/generate/generate_communities.py:130-143 | the file is the INSERT lines of the rows built from the fixed lists and the draws |
| GenerateCommunities.DescriptionUsesRowGenre | scripts/generate/generate_communities.py:116-134 | each description is a template with {genre} replaced by that row's own genre |
| GenerateCommunities.CommunitiesFile | scripts/generate/generate_communities.py:139-143 | the file splits into 100 INSERT lines and an empty last piece, with no framing |
| GenerateCommunities.NamesOneLine | scripts/generate/generate_communities.py:4-105 | the name list has 100 entries and none holds a newline |
| GenerateCommunities.GenresOneLine | scripts/generate/generate_communities.py:109-113 | no genre holds a newline |
| GenerateCommunities.TemplatesPlain | scripts/generate/generate_communities.py:116-127 | the text around each template's {genre} field holds no brace and no newline |
| GenerateCommunities.ScriptDescriptionUsesRowGenre | scripts/generate/generate_communities.py:116-134 | on the script's own lists, each description is one of its templates with the row's genre in the field |
| GenerateCommunities.ScriptRowsOneLine | scripts/generate/generate_communities.py:4-135 | on the script's own lists, no name, genre or description holds a newline |
| GenerateCommunities.ScriptFile | scripts/generate/generate_communities.py:130-143 | the script's own file splits into exactly its 100 INSERT lines and an empty last piece |
| GenerateCommunities.RepeatedNameKept | scripts/generate/generate_communities.py:131-132 | two rows with equal names both start their INSERT line with that name, so repeats stay |
| GenerateCommunities.BasslineListedTwice | scripts/generate/generate_communities.py:27-89 | the names list has 100 entries with "Bassline Brotherhood" at positions 22 and 84 |
| Text.ToLower | src/main/java/hub/troubleshooters/soundlink/core/events/services/EventServiceImpl.java:165 | toLowerCase on ASCII letters, other characters kept, length preserved |
| Text.EqualsIgnoreCase | src/main/java/hub/troubleshooters/soundlink/core/events/services/CommunityServiceImpl.java:44 | equalsIgnoreCase: equal after ASCII lowercasing |

## Left out

- **JavaFX views and controllers.** Widget wiring, alerts, styles and FXML loading are not modelled. Of the controllers, only the two notification counters and their label text are.
- **Threading.** `Platform.runLater` and the listener notifications are not modelled: the model is sequential.
- **Stage sizing** in the scene manager is not modelled either.
- **JDBC and SQL.**
  - `DatabaseConnection` and the executors, along with every factory's SQL and row mapping, are replaced by the store fields of the services.
  - Whether `IN (?)` bound to "1,2,3" matches rows is a question for the database, and it is not modelled. Only `CommunityFactory`'s id join is.
  - `signUpForCommunity`, `cancelJoin`, `bookEvent` and `cancelBooking` let an `SQLException` from their store writes escape to the caller. The model's stores never fail, so that exit is not modelled.
- **Factories whose signatures do not match the services' calls.**
  - `UserFactory.create` returns nothing, yet `register` uses its result.
  - `CommunityMemberFactory` has no `create` or `delete` taking (communityId, userId).
  - `CommunityFactory` has no `delete`.
  - The model gives those store operations the meaning their call sites expect.
- **BCrypt.** `hashPassword` and `verifyPassword` are function parameters of `login` and `register`. Nothing is assumed about them beyond what a lemma requires.
- **Clock.** `new Date()` and `LocalDateTime.now()` are an integer parameter `now`, and every date is a whole number.
- **Database-assigned ids.** These are parameters too.
- **Null dates.**
  - Dates in the search model and the event model are never null, except where the code tests for null.
  - EventService.EventMatches: only the from and to bounds may be absent.
- **File system.** `ImageUploaderServiceImpl.upload` and its directory creation are not modelled, and neither is `File` path normalisation. Paths are strings built by concatenation.
- **Working directory.** `System.getProperty("user.dir")` is a parameter.
- **Script I/O.** The scripts' `open` and `write` are not modelled. The written file is returned as text.
- **Randomness.** The scripts' `random.randrange` and `random.choice` are input draws.
- **Case folding.** `toLowerCase` and `equalsIgnoreCase` fold ASCII letters only. Text.ToLower and every search built on it leave other letters unchanged.
- **ModelValidator helper bodies.** `ModelValidator` is only an interface in the source.
  - The helpers' messages come from its unit tests.
  - ModelValidator.IsImage: the failure message "<name> is not a valid image" is assumed, because no test fixes it.
  - ModelValidator.HasImageExtension: the extension test ignores letter case, which is also assumed.
- **Stale or unused duplicates.** These are not modelled:
  - the old `LoginServiceImpl`, `IdentityServiceImpl` and `UserContext` in `core/auth`;
  - `core/data/Map.java`;
  - the events-package `CreateCommunityModelValidator` and `SearchEventModelValidator`, which do not compile;
  - the placeholder services in `core/auth/services` that return fixed lists.
- **Other service operations outside this model.**
  - `getCommunityEvents`, event comments and posts;
  - `createEvent`, `createCommunity` and `getCommunityPosts`;
  - the search-event service.
  - These are store reads and writes with nothing to decide.
- **Notification side effects.** `handleNotifications`' console output and `checkForEventReminders` are not modelled.
- **Approval requests as values.** The source's requests are shared objects. `approveRequest` mutates one in place with `setApproved(true)`, and the lists `getPendingRequestsForCommunity` returned earlier alias the same objects. The model's requests are values, so a list handed out before an approval keeps showing the request as pending; that aliasing is not modelled.
- **Approval request ids.** Ids are not unique after a rejection (ApprovalService.DuplicateIdAfterReject). This is modelled as written and is a property of the code, not a defect the model repairs.

## Findings

| source | as written | input that shows it | evidently intended | confidence | as-written member | corrected member |
|---|---|---|---|---|---|---|
| src/main/java/hub/troubleshooters/soundlink/core/communities/services/CommunityServiceImpl.java:145 | the service calls `communityMemberFactory.get(communityId, userId)`, but the factory declares `get(int userId, int communityId)` (src/main/java/hub/troubleshooters/soundlink/data/factories/CommunityMemberFactory.java:61), so the ids are swapped | user 9 is a member of community 5; the lookup searches for user 5 in community 9 and finds nothing | the lookup finds the membership of that user in that community | not executed | CommunityService.AsWrittenMissesMember | CommunityService.SignUpIsFound |
