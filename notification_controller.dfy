/**
 * The join-request notification counter (app/areas/notification/NotificationController):
 * an int property that submissions increment and decisions decrement, shown on the
 * button as "Notifications (n)".
 */
module NotificationCounter {

  import opened Text
  import opened JavaInt

  /** incrementNotifications, on a Java int. */
  function Increment(count: int): int
    requires IsInt32(count)
  {
    Inc(count)
  }

  /** clearNotifications: one less when positive, otherwise unchanged (it does not reset). */
  function Decrement(count: int): int {
    if count > 0 then count - 1 else count
  }

  /** The text bound to the button, asString("Notifications (%d)"), for every count. */
  function Label(count: int): string {
    "Notifications (" + IntToString(count) + ")"
  }

  /** k increments stay a Java int, and add exactly k when they do not reach the top of the range. */
  function Increments(count: int, k: nat): (r: int)
    requires IsInt32(count)
    ensures IsInt32(r)
    ensures count + k <= MaxInt ==> r == count + k
  {
    if k == 0 then count else Increment(Increments(count, k - 1))
  }

  function Decrements(count: int, k: nat): int {
    if k == 0 then count else Decrement(Decrements(count, k - 1))
  }

  /** Away from the top of the int range, incrementing adds exactly 1. */
  lemma IncrementAddsOne(count: int)
    requires IsInt32(count) && count < MaxInt
    ensures Increment(count) == count + 1
  {
  }

  /** A decision on a positive count takes exactly one off; on 0 it leaves 0. */
  lemma DecrementStep(count: int)
    ensures count > 0 ==> Decrement(count) == count - 1
    ensures count == 0 ==> Decrement(count) == 0
    ensures count >= 0 ==> Decrement(count) >= 0
  {
  }

  /** k decrements from a count of at least k take exactly k off. */
  lemma {:induction false} DecrementsSubtract(count: int, k: nat)
    requires count >= k
    ensures Decrements(count, k) == count - k
  {
    if k > 0 {
      DecrementsSubtract(count, k - 1);
    }
  }

  /** Decrementing never goes below 0 from a non-negative count. */
  lemma {:induction false} DecrementsStayNonNegative(count: int, k: nat)
    requires count >= 0
    ensures 0 <= Decrements(count, k) <= count
  {
    if k > 0 {
      DecrementsStayNonNegative(count, k - 1);
    }
  }

  /** k submissions followed by k decisions return the count to where it was. */
  lemma IncrementsThenDecrements(count: int, k: nat)
    requires 0 <= count && count + k <= MaxInt
    ensures Decrements(Increments(count, k), k) == count
  {
    DecrementsSubtract(count + k, k);
  }

  /** The 2^31-th increment from 0 wraps the count to the most negative int. */
  lemma WrapsAtTop()
    ensures Increment(MaxInt) == MinInt && Decrement(MinInt) == MinInt
  {
  }

  class NotificationController {

    var notificationCount: int

    predicate Valid()
      reads this
    {
      IsInt32(notificationCount)
    }

    /** The count starts at 0. */
    constructor ()
      ensures Valid() && notificationCount == 0
    {
      notificationCount := 0;
    }

    function ButtonText(): string
      reads this
    {
      Label(notificationCount)
    }

    method IncrementNotifications()
      requires Valid()
      modifies this
      ensures Valid()
      ensures notificationCount == Increment(old(notificationCount))
    {
      notificationCount := Inc(notificationCount);
    }

    method ClearNotifications()
      requires Valid()
      modifies this
      ensures Valid()
      ensures notificationCount == Decrement(old(notificationCount))
    {
      if notificationCount > 0 {
        notificationCount := notificationCount - 1;
      }
    }
  }
}
