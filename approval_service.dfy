/**
 * ApprovalServiceImpl: an in-memory list of community join requests. Submitting appends
 * a request and bumps the notification counter; approving marks the first request with
 * the id, rejecting removes it, and each decision takes one off the counter.
 * Requests are values here: the list holds them, not references to shared objects.
 */
module ApprovalService {

  import opened Wrappers
  import opened Models
  import NotificationCounter

  /** The position of the first request with the id (findFirst over the list). */
  function FirstIndexOf(reqs: seq<ApprovalRequest>, requestId: int): (r: Option<nat>)
    ensures r.Some? ==> r.value < |reqs| && reqs[r.value].requestId == requestId
                        && forall j :: 0 <= j < r.value ==> reqs[j].requestId != requestId
    ensures r.None? ==> forall j :: 0 <= j < |reqs| ==> reqs[j].requestId != requestId
  {
    if reqs == [] then None
    else if reqs[0].requestId == requestId then Some(0)
    else match FirstIndexOf(reqs[1..], requestId)
         case None => None
         case Some(k) => Some(k + 1)
  }

  /** findRequestById: the first request with the id, or none. */
  function FindRequestById(reqs: seq<ApprovalRequest>, requestId: int): (r: Option<ApprovalRequest>)
    ensures r.Some? <==> exists j :: 0 <= j < |reqs| && reqs[j].requestId == requestId
    ensures r.Some? ==> r.value.requestId == requestId && r.value in reqs
  {
    match FirstIndexOf(reqs, requestId)
    case None => None
    case Some(k) => Some(reqs[k])
  }

  predicate IsPendingFor(r: ApprovalRequest, communityId: int) {
    r.communityId == communityId && !r.isApproved
  }

  /** getPendingRequestsForCommunity: the unapproved requests of the community, in list order. */
  function Pending(reqs: seq<ApprovalRequest>, communityId: int): (r: seq<ApprovalRequest>)
    ensures |r| <= |reqs|
    ensures forall x :: x in r <==> x in reqs && IsPendingFor(x, communityId)
  {
    if reqs == [] then []
    else (if IsPendingFor(reqs[0], communityId) then [reqs[0]] else []) + Pending(reqs[1..], communityId)
  }

  /** submitJoinRequest: a new unapproved request whose id is the list length plus one. */
  function Submit(reqs: seq<ApprovalRequest>, communityId: int, userId: int, now: int): seq<ApprovalRequest> {
    reqs + [ApprovalRequest(|reqs| + 1, communityId, userId, now, false)]
  }

  /** approveRequest: the first request with the id is marked approved. */
  function Approve(reqs: seq<ApprovalRequest>, requestId: int): seq<ApprovalRequest> {
    match FirstIndexOf(reqs, requestId)
    case None => reqs
    case Some(k) => reqs[k := reqs[k].(isApproved := true)]
  }

  /** rejectRequest: the first request with the id is removed. */
  function Reject(reqs: seq<ApprovalRequest>, requestId: int): seq<ApprovalRequest> {
    match FirstIndexOf(reqs, requestId)
    case None => reqs
    case Some(k) => reqs[..k] + reqs[k + 1..]
  }

  lemma {:induction false} PendingAppend(a: seq<ApprovalRequest>, b: seq<ApprovalRequest>, communityId: int)
    ensures Pending(a + b, communityId) == Pending(a, communityId) + Pending(b, communityId)
  {
    if a == [] {
      assert a + b == b;
    } else {
      assert (a + b)[1..] == a[1..] + b;
      PendingAppend(a[1..], b, communityId);
    }
  }

  /** The pending list keeps list order: it is the filter applied element by element. */
  lemma PendingSingle(x: ApprovalRequest, communityId: int)
    ensures Pending([x], communityId) == if IsPendingFor(x, communityId) then [x] else []
  {
    assert [x][1..] == [];
  }

  /** A submission appends exactly one unapproved request, numbered |list| + 1. */
  lemma SubmitAppends(reqs: seq<ApprovalRequest>, communityId: int, userId: int, now: int)
    ensures var s := Submit(reqs, communityId, userId, now);
            |s| == |reqs| + 1 && s[..|reqs|] == reqs
            && s[|reqs|] == ApprovalRequest(|reqs| + 1, communityId, userId, now, false)
    ensures Pending(Submit(reqs, communityId, userId, now), communityId)
            == Pending(reqs, communityId) + [ApprovalRequest(|reqs| + 1, communityId, userId, now, false)]
  {
    var x := ApprovalRequest(|reqs| + 1, communityId, userId, now, false);
    PendingAppend(reqs, [x], communityId);
    PendingSingle(x, communityId);
  }

  /**
   * Approving an existing id marks only its first request, keeping length and order;
   * an unknown id changes nothing.
   */
  lemma ApproveShape(reqs: seq<ApprovalRequest>, requestId: int)
    ensures |Approve(reqs, requestId)| == |reqs|
    ensures FirstIndexOf(reqs, requestId).None? ==> Approve(reqs, requestId) == reqs
    ensures FirstIndexOf(reqs, requestId).Some? ==>
              var k := FirstIndexOf(reqs, requestId).value;
              Approve(reqs, requestId)[k] == reqs[k].(isApproved := true)
              && forall j :: 0 <= j < |reqs| && j != k ==> Approve(reqs, requestId)[j] == reqs[j]
  {
  }

  /** Rejecting an existing id removes its first request and keeps the rest in order. */
  lemma RejectShape(reqs: seq<ApprovalRequest>, requestId: int)
    ensures FirstIndexOf(reqs, requestId).None? ==> Reject(reqs, requestId) == reqs
    ensures FirstIndexOf(reqs, requestId).Some? ==>
              var k := FirstIndexOf(reqs, requestId).value;
              |Reject(reqs, requestId)| == |reqs| - 1
              && (forall j :: 0 <= j < k ==> Reject(reqs, requestId)[j] == reqs[j])
              && (forall j :: k <= j < |reqs| - 1 ==> Reject(reqs, requestId)[j] == reqs[j + 1])
  {
  }

  /**
   * An approved request drops out of its community's pending list and nothing else
   * changes there: the pending list after approving is the one of the list without it.
   * Rejecting has the same effect on every pending list.
   */
  lemma DecisionLeavesPending(reqs: seq<ApprovalRequest>, requestId: int, communityId: int)
    requires FirstIndexOf(reqs, requestId).Some?
    ensures var k := FirstIndexOf(reqs, requestId).value;
            Pending(Approve(reqs, requestId), communityId) == Pending(reqs[..k] + reqs[k + 1..], communityId)
    ensures var k := FirstIndexOf(reqs, requestId).value;
            Pending(Reject(reqs, requestId), communityId) == Pending(reqs[..k] + reqs[k + 1..], communityId)
  {
    var k := FirstIndexOf(reqs, requestId).value;
    ReplaceByNonPending(reqs, k, reqs[k].(isApproved := true), communityId);
  }

  /** Overwriting one entry with a request that is not pending drops that entry from the pending list. */
  lemma ReplaceByNonPending(reqs: seq<ApprovalRequest>, k: nat, x: ApprovalRequest, communityId: int)
    requires k < |reqs| && !IsPendingFor(x, communityId)
    ensures Pending(reqs[k := x], communityId) == Pending(reqs[..k] + reqs[k + 1..], communityId)
  {
    var a := reqs[k := x];
    assert a == reqs[..k] + [x] + reqs[k + 1..];
    PendingAppend(reqs[..k] + [x], reqs[k + 1..], communityId);
    PendingAppend(reqs[..k], [x], communityId);
    PendingSingle(x, communityId);
    PendingAppend(reqs[..k], reqs[k + 1..], communityId);
  }

  /**
   * Ids are not unique: submit two requests, reject the first, submit again, and the
   * list holds two requests numbered 2.
   */
  lemma DuplicateIdAfterReject(c: int, u: int, now: int)
    ensures var reqs := Submit(Reject(Submit(Submit([], c, u, now), c, u, now), 1), c, u, now);
            |reqs| == 2 && reqs[0].requestId == 2 && reqs[1].requestId == 2
  {
    var two := Submit(Submit([], c, u, now), c, u, now);
    assert FirstIndexOf(two, 1) == Some(0);
  }

  class ApprovalServiceImpl {

    var approvalRequests: seq<ApprovalRequest>
    const notificationController: NotificationCounter.NotificationController

    predicate Valid()
      reads this, notificationController
    {
      notificationController.Valid()
    }

    constructor (controller: NotificationCounter.NotificationController)
      requires controller.Valid()
      ensures Valid() && approvalRequests == [] && notificationController == controller
    {
      approvalRequests := [];
      notificationController := controller;
    }

    /** `now` is the clock reading for the request date. */
    method SubmitJoinRequest(communityId: int, userId: int, now: int)
      requires Valid()
      modifies this, notificationController
      ensures Valid()
      ensures approvalRequests == Submit(old(approvalRequests), communityId, userId, now)
      ensures notificationController.notificationCount
              == NotificationCounter.Increment(old(notificationController.notificationCount))
    {
      var request := ApprovalRequest(|approvalRequests| + 1, communityId, userId, now, false);
      approvalRequests := approvalRequests + [request];
      notificationController.IncrementNotifications();
    }

    function GetPendingRequestsForCommunity(communityId: int): seq<ApprovalRequest>
      reads this
    {
      Pending(approvalRequests, communityId)
    }

    method ApproveRequest(requestId: int)
      requires Valid()
      modifies this, notificationController
      ensures Valid()
      ensures approvalRequests == Approve(old(approvalRequests), requestId)
      ensures notificationController.notificationCount
              == if FindRequestById(old(approvalRequests), requestId).Some?
                 then NotificationCounter.Decrement(old(notificationController.notificationCount))
                 else old(notificationController.notificationCount)
    {
      var k := FirstIndexOf(approvalRequests, requestId);
      if k.Some? {
        approvalRequests := approvalRequests[k.value := approvalRequests[k.value].(isApproved := true)];
        notificationController.ClearNotifications();
      }
    }

    method RejectRequest(requestId: int)
      requires Valid()
      modifies this, notificationController
      ensures Valid()
      ensures approvalRequests == Reject(old(approvalRequests), requestId)
      ensures notificationController.notificationCount
              == if FindRequestById(old(approvalRequests), requestId).Some?
                 then NotificationCounter.Decrement(old(notificationController.notificationCount))
                 else old(notificationController.notificationCount)
    {
      var k := FirstIndexOf(approvalRequests, requestId);
      if k.Some? {
        approvalRequests := approvalRequests[..k.value] + approvalRequests[k.value + 1..];
        notificationController.ClearNotifications();
      }
    }
  }
}
