/**
 * IdentityServiceImpl: holds the logged-in user's context and answers authorisation
 * questions against the scopes the user currently holds in a community.
 */
module IdentityService {

  import opened Wrappers
  import opened Scopes
  import opened ScopeUtils
  import opened Models

  /**
   * The scopes a context holds in a community (UserContext.getCurrentScopes(community)).
   * UserContext is not part of this model, so the mapping is a parameter.
   */
  type CurrentScopes = (UserContext, Community) -> set<Scope>

  /**
   * The communities the fetch by id returns, or None when it throws SQLException
   * (CommunityFactory.get(List<Integer>)).
   */
  type CommunityLookup = seq<int> -> Option<seq<Community>>

  /** isAuthorized, over an explicit context. */
  predicate Authorized(ctx: Option<UserContext>, community: Community, requested: seq<Scope>,
                       currentScopes: CurrentScopes)
  {
    match ctx
    case None => false
    case Some(c) =>
      SuperAdmin in currentScopes(c, community)
      || forall i :: 0 <= i < |requested| ==> requested[i] in currentScopes(c, community)
  }

  /** The community id of every membership, in order. */
  function CommunityIds(members: seq<CommunityMember>): (r: seq<int>)
    ensures |r| == |members|
    ensures forall i :: 0 <= i < |members| ==> r[i] == members[i].communityId
  {
    seq(|members|, i requires 0 <= i < |members| => members[i].communityId)
  }

  /**
   * getCommunities, over an explicit context. The community lookup is left abstract, so
   * the contract can only say which ids it is asked for and that its answer is passed on.
   */
  function Communities(ctx: Option<UserContext>, lookup: CommunityLookup): (r: seq<Community>)
    ensures ctx.None? ==> r == []
    ensures ctx.Some? && lookup(CommunityIds(ctx.value.communityMembers)).None? ==> r == []
    ensures ctx.Some? && lookup(CommunityIds(ctx.value.communityMembers)).Some?
            ==> r == lookup(CommunityIds(ctx.value.communityMembers)).value
  {
    match ctx
    case None => []
    case Some(c) => lookup(CommunityIds(c.communityMembers)).GetOr([])
  }

  class IdentityServiceImpl {

    var userContext: Option<UserContext>

    /** A fresh service has no logged-in user. */
    constructor ()
      ensures userContext == None
    {
      userContext := None;
    }

    method SetUserContext(ctx: Option<UserContext>)
      modifies this
      ensures userContext == ctx
    {
      userContext := ctx;
    }

    method GetUserContext() returns (ctx: Option<UserContext>)
      ensures ctx == userContext
    {
      ctx := userContext;
    }

    /** isAuthorized(community, scopes...) against the stored context. */
    predicate IsAuthorized(community: Community, requested: seq<Scope>, currentScopes: CurrentScopes)
      reads this
    {
      Authorized(userContext, community, requested, currentScopes)
    }

    /** getCommunities against the stored context. */
    function GetCommunities(lookup: CommunityLookup): seq<Community>
      reads this
    {
      Communities(userContext, lookup)
    }
  }

  /** Without a context nothing is authorised. */
  lemma NoContextDenies(community: Community, requested: seq<Scope>, currentScopes: CurrentScopes)
    ensures !Authorized(None, community, requested, currentScopes)
  {
  }

  /** SUPERADMIN in the community authorises every request. */
  lemma SuperAdminOverride(c: UserContext, community: Community, requested: seq<Scope>,
                           currentScopes: CurrentScopes)
    requires SuperAdmin in currentScopes(c, community)
    ensures Authorized(Some(c), community, requested, currentScopes)
  {
  }

  /** Without SUPERADMIN, authorisation is the subset test. */
  lemma SubsetTest(c: UserContext, community: Community, requested: seq<Scope>,
                   currentScopes: CurrentScopes)
    requires SuperAdmin !in currentScopes(c, community)
    ensures Authorized(Some(c), community, requested, currentScopes)
            <==> Elements(requested) <= currentScopes(c, community)
  {
  }

  /** With a context, an empty request is always authorised. */
  lemma EmptyRequest(c: UserContext, community: Community, currentScopes: CurrentScopes)
    ensures Authorized(Some(c), community, [], currentScopes)
  {
  }

  /**
   * When the current scopes are those decoded from a stored permission value, the
   * decision is a pure bit test: the SUPERADMIN bit is set, or every requested bit is.
   */
  lemma AuthorizedByBits(c: UserContext, community: Community, requested: seq<Scope>,
                         permission: bv32, currentScopes: CurrentScopes)
    requires currentScopes(c, community) == ScopesIn(permission)
    ensures Authorized(Some(c), community, requested, currentScopes)
            <==> HasScope(permission, SuperAdmin)
                 || MaskOf(Elements(requested)) & permission == MaskOf(Elements(requested))
  {
    MaskSubset(Elements(requested), permission);
  }
}
