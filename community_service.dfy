/**
 * communities.CommunityServiceImpl: community search, membership sign-up and
 * cancellation, permission levels and guarded deletion. The Communities table and the
 * CommunityMembers table are in-memory stores; a membership is keyed by its
 * (community id, user id) pair, the keying the service means when it calls
 * communityMemberFactory.get(communityId, userId).
 */
module CommunityService {

  import opened Wrappers
  import opened Text
  import opened Models
  import opened Filters

  /** The text filter: no text, or the text in the name, description or genre, ignoring case. */
  predicate TextMatches(searchText: Option<string>, c: Community) {
    searchText.None? || searchText.value == ""
    || Contains(ToLower(c.name), ToLower(searchText.value))
    || Contains(ToLower(c.description), ToLower(searchText.value))
    || Contains(ToLower(c.genre), ToLower(searchText.value))
  }

  /** The privacy filter: with showOnlyPrivate only private communities pass. */
  predicate PrivacyMatches(showOnlyPrivate: bool, c: Community) {
    !showOnlyPrivate || c.isPrivate
  }

  /**
   * searchCommunities over getAllCommunities (None when that throws): the text filter,
   * then the privacy filter, in store order; a failed lookup gives the empty list.
   */
  function SearchCommunities(all: Option<seq<Community>>, searchText: Option<string>, showOnlyPrivate: bool)
    : (r: seq<Community>)
    ensures all.None? ==> r == []
    ensures all.Some? ==> forall c :: c in r <==> c in all.value && TextMatches(searchText, c) && PrivacyMatches(showOnlyPrivate, c)
  {
    match all
    case None => []
    case Some(cs) =>
      var byText := Filter(cs, c => TextMatches(searchText, c));
      forall c ensures c in Filter(byText, c => PrivacyMatches(showOnlyPrivate, c))
                       <==> c in cs && TextMatches(searchText, c) && PrivacyMatches(showOnlyPrivate, c) {
        FilterMembership(cs, c => TextMatches(searchText, c), c);
        FilterMembership(byText, c => PrivacyMatches(showOnlyPrivate, c), c);
      }
      Filter(byText, c => PrivacyMatches(showOnlyPrivate, c))
  }

  /** The search keeps store order: searching a concatenation concatenates the searches. */
  lemma SearchKeepsOrder(a: seq<Community>, b: seq<Community>, searchText: Option<string>, showOnlyPrivate: bool)
    ensures SearchCommunities(Some(a + b), searchText, showOnlyPrivate)
         == SearchCommunities(Some(a), searchText, showOnlyPrivate) + SearchCommunities(Some(b), searchText, showOnlyPrivate)
  {
    FilterAppend(a, b, c => TextMatches(searchText, c));
    FilterAppend(Filter(a, c => TextMatches(searchText, c)), Filter(b, c => TextMatches(searchText, c)),
                 c => PrivacyMatches(showOnlyPrivate, c));
  }

  /** With no text, or empty text, and privacy ignored, every community is returned. */
  lemma NoFilterKeepsAll(all: seq<Community>, searchText: Option<string>)
    requires searchText.None? || searchText == Some("")
    ensures SearchCommunities(Some(all), searchText, false) == all
  {
    FilterAll(all, c => TextMatches(searchText, c));
    FilterAll(all, c => PrivacyMatches(false, c));
  }

  /** With showOnlyPrivate, the result is exactly the matching private communities, in order. */
  lemma OnlyPrivate(all: seq<Community>, searchText: Option<string>)
    ensures SearchCommunities(Some(all), searchText, true)
         == Filter(all, c => TextMatches(searchText, c) && c.isPrivate)
  {
    FilterFilter(all, c => TextMatches(searchText, c), c => PrivacyMatches(true, c),
                 c => TextMatches(searchText, c) && c.isPrivate);
  }

  type MemberStore = map<(int, int), CommunityMember>

  /** The permission signUpForCommunity gives a new member. */
  const SignUpPermission := 6

  predicate Joined(members: MemberStore, userId: int, communityId: int) {
    (communityId, userId) in members
  }

  /**
   * signUpForCommunity on the store: false and no change for an existing member,
   * otherwise true and one new membership with permission 6.
   */
  function SignUp(members: MemberStore, userId: int, communityId: int, newId: int, now: int)
    : (r: (MemberStore, bool))
    ensures r.1 <==> !Joined(members, userId, communityId)
    ensures !r.1 ==> r.0 == members
    ensures r.1 ==> r.0.Keys == members.Keys + {(communityId, userId)}
                    && (forall k :: k in members ==> r.0[k] == members[k])
                    && r.0[(communityId, userId)] == CommunityMember(newId, communityId, userId, now, 6)
  {
    if Joined(members, userId, communityId) then (members, false)
    else (members[(communityId, userId) := CommunityMember(newId, communityId, userId, now, SignUpPermission)], true)
  }

  /** cancelJoin on the store: true and the membership removed iff it existed. */
  function Leave(members: MemberStore, userId: int, communityId: int): (r: (MemberStore, bool))
    ensures r.1 <==> Joined(members, userId, communityId)
    ensures r.0.Keys == members.Keys - {(communityId, userId)}
    ensures forall k :: k in r.0 ==> r.0[k] == members[k]
  {
    if Joined(members, userId, communityId) then (members - {(communityId, userId)}, true) else (members, false)
  }

  /** getUserPermissionLevel: the member's permission, or 0 (read only) for a non-member. */
  function PermissionLevel(members: MemberStore, userId: int, communityId: int): (level: int)
    ensures Joined(members, userId, communityId) ==> level == members[(communityId, userId)].permission
    ensures !Joined(members, userId, communityId) ==> level == 0
  {
    if (communityId, userId) in members then members[(communityId, userId)].permission else 0
  }

  /** isAdmin: the permission level is exactly 1. */
  predicate IsAdminIn(members: MemberStore, userId: int, communityId: int) {
    PermissionLevel(members, userId, communityId) == 1
  }

  /** A sign-up makes the user a member with level 6, who is not an admin; a second sign-up fails. */
  lemma SignUpJoins(members: MemberStore, userId: int, communityId: int, id1: int, id2: int, now: int)
    requires !Joined(members, userId, communityId)
    ensures var (m1, ok1) := SignUp(members, userId, communityId, id1, now);
            ok1 && Joined(m1, userId, communityId)
            && PermissionLevel(m1, userId, communityId) == 6 && !IsAdminIn(m1, userId, communityId)
            && SignUp(m1, userId, communityId, id2, now) == (m1, false)
  {
  }

  /** Signing up and cancelling gives the original store back. */
  lemma SignUpThenCancel(members: MemberStore, userId: int, communityId: int, newId: int, now: int)
    requires !Joined(members, userId, communityId)
    ensures Leave(SignUp(members, userId, communityId, newId, now).0, userId, communityId) == (members, true)
  {
    var m1 := SignUp(members, userId, communityId, newId, now).0;
    assert m1 - {(communityId, userId)} == members;
  }

  /** After a cancellation the user is no member, and cancelling again reports false. */
  lemma CancelTwice(members: MemberStore, userId: int, communityId: int)
    ensures var (m1, _) := Leave(members, userId, communityId);
            !Joined(m1, userId, communityId) && Leave(m1, userId, communityId) == (m1, false)
  {
  }

  /** The first community with the given id, as communityFactory.get(id) finds it. */
  function FindCommunity(communities: seq<Community>, id: int): (r: Option<Community>)
    ensures r.Some? ==> r.value in communities && r.value.id == id
    ensures r.None? ==> forall i :: 0 <= i < |communities| ==> communities[i].id != id
  {
    if communities == [] then None
    else if communities[0].id == id then Some(communities[0])
    else FindCommunity(communities[1..], id)
  }

  /** How deleteCommunity ends: the community deleted, or the exception it throws. */
  datatype DeleteOutcome = Deleted | SecurityDenied(message: string) | NotFound(message: string)

  /**
   * deleteCommunity on the stores: a non-admin is refused and nothing is deleted; an admin
   * gets an error for a missing community, otherwise its row is removed.
   */
  function Delete(communities: seq<Community>, members: MemberStore, communityId: int, userId: int)
    : (r: (seq<Community>, DeleteOutcome))
    ensures !IsAdminIn(members, userId, communityId) ==>
              r == (communities, SecurityDenied("Only admins can delete communities."))
    ensures IsAdminIn(members, userId, communityId) && FindCommunity(communities, communityId).None? ==>
              r == (communities, NotFound("Community with ID " + IntToString(communityId) + " not found."))
    ensures r.1.Deleted? <==> IsAdminIn(members, userId, communityId) && FindCommunity(communities, communityId).Some?
    ensures r.1.Deleted? ==> r.0 == Filter(communities, (c: Community) => c.id != communityId)
  {
    if !IsAdminIn(members, userId, communityId) then
      (communities, SecurityDenied("Only admins can delete communities."))
    else if FindCommunity(communities, communityId).None? then
      (communities, NotFound("Community with ID " + IntToString(communityId) + " not found."))
    else (Filter(communities, (c: Community) => c.id != communityId), Deleted)
  }

  /** After a deletion no community has the id, and every other community is still there. */
  lemma DeleteRemovesOnlyThatCommunity(communities: seq<Community>, members: MemberStore, communityId: int,
                                       userId: int, x: Community)
    requires Delete(communities, members, communityId, userId).1.Deleted?
    ensures FindCommunity(Delete(communities, members, communityId, userId).0, communityId).None?
    ensures x in Delete(communities, members, communityId, userId).0 <==> x in communities && x.id != communityId
  {
    FilterSatisfies(communities, (c: Community) => c.id != communityId);
    FilterMembership(communities, (c: Community) => c.id != communityId, x);
  }

  /** A member who joined by signing up can never delete the community. */
  lemma SignedUpMemberCannotDelete(communities: seq<Community>, members: MemberStore, communityId: int,
                                   userId: int, newId: int, now: int)
    requires !Joined(members, userId, communityId)
    ensures Delete(communities, SignUp(members, userId, communityId, newId, now).0, communityId, userId).1.SecurityDenied?
  {
    SignUpJoins(members, userId, communityId, newId, newId, now);
  }

  /**
   * The membership lookup as the service's calls are written against the factory:
   * get(communityId, userId) reaches get(int userId, int communityId), so it finds the
   * row whose user id is the community id and whose community id is the user id.
   */
  predicate JoinedAsWritten(members: MemberStore, userId: int, communityId: int) {
    (userId, communityId) in members
  }

  /** A real member (community 5, user 9) is not found by the lookup as written. */
  lemma AsWrittenMissesMember()
    ensures var members := map[(5, 9) := CommunityMember(1, 5, 9, 0, SignUpPermission)];
            Joined(members, 9, 5) && !JoinedAsWritten(members, 9, 5)
  {
  }

  /** With the intended keying a sign-up is always found by the membership test. */
  lemma SignUpIsFound(members: MemberStore, userId: int, communityId: int, newId: int, now: int)
    ensures Joined(SignUp(members, userId, communityId, newId, now).0, userId, communityId)
  {
  }

  class CommunityServiceImpl {

    /** The Communities table, in getAllCommunities order. */
    var communities: seq<Community>
    /** The CommunityMembers table, keyed by (community id, user id). */
    var members: MemberStore

    constructor (communities: seq<Community>, members: MemberStore)
      ensures this.communities == communities && this.members == members
    {
      this.communities := communities;
      this.members := members;
    }

    /** `lookupFails` says whether getAllCommunities throws. */
    function Search(searchText: Option<string>, showOnlyPrivate: bool, lookupFails: bool): seq<Community>
      reads this
    {
      SearchCommunities(if lookupFails then None else Some(communities), searchText, showOnlyPrivate)
    }

    /** `newId` and `now` are the id and creation date the database assigns. */
    method SignUpForCommunity(userId: int, communityId: int, newId: int, now: int) returns (joined: bool)
      modifies this
      ensures (members, joined) == SignUp(old(members), userId, communityId, newId, now)
      ensures communities == old(communities)
    {
      if (communityId, userId) in members {
        return false;
      }
      var permission := 6;
      members := members[(communityId, userId) := CommunityMember(newId, communityId, userId, now, permission)];
      joined := true;
    }

    method CancelJoin(userId: int, communityId: int) returns (cancelled: bool)
      modifies this
      ensures (members, cancelled) == Leave(old(members), userId, communityId)
      ensures communities == old(communities)
    {
      if (communityId, userId) in members {
        members := members - {(communityId, userId)};
        cancelled := true;
      } else {
        cancelled := false;
      }
    }

    predicate HasUserJoinedIntoCommunity(userId: int, communityId: int)
      reads this
    {
      Joined(members, userId, communityId)
    }

    function GetUserPermissionLevel(userId: int, communityId: int): int
      reads this
    {
      PermissionLevel(members, userId, communityId)
    }

    predicate IsAdmin(userId: int, communityId: int)
      reads this
    {
      IsAdminIn(members, userId, communityId)
    }

    method DeleteCommunity(communityId: int, userId: int) returns (outcome: DeleteOutcome)
      modifies this
      ensures (communities, outcome) == Delete(old(communities), old(members), communityId, userId)
      ensures members == old(members)
    {
      if !IsAdmin(userId, communityId) {
        return SecurityDenied("Only admins can delete communities.");
      }
      var found := FindCommunity(communities, communityId);
      if found.None? {
        return NotFound("Community with ID " + IntToString(communityId) + " not found.");
      }
      communities := Filter(communities, (c: Community) => c.id != found.value.id);
      outcome := Deleted;
    }
  }
}
