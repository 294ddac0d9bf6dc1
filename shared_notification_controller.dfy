/**
 * The shared view's notification button (app/areas/shared/NotificationController): a
 * plain int counter, reset by handling the notifications, and a button label kept in
 * step with it.
 */
module SharedNotification {

  import opened Wrappers
  import opened Text
  import opened JavaInt

  /** updateNotificationButton's text: the count in brackets when positive, otherwise no count. */
  function ButtonText(count: int): (t: string)
    ensures StartsWith(t, "Notifications")
    ensures count > 0 <==> t != "Notifications"
  {
    if count > 0 then "Notifications (" + IntToString(count) + ")" else "Notifications"
  }

  /** A positive count is shown in full, and can be read back from the label. */
  lemma ButtonTextShowsCount(count: int)
    requires count > 0
    ensures var t := ButtonText(count);
            |t| > 16 && t[..15] == "Notifications ("
            && t[|t| - 1] == ')' && ParseInt(t[15..|t| - 1]) == Some(count)
  {
    var t := ButtonText(count);
    assert t[15..|t| - 1] == IntToString(count);
    IntToStringRoundTrip(count);
  }

  class NotificationController {

    var notificationCount: int
    /** The text of the button; before the first update it is whatever the view declared. */
    var buttonText: string

    predicate Valid()
      reads this
    {
      IsInt32(notificationCount)
    }

    /** The count starts at 0; the button keeps its declared text until the first change. */
    constructor (initialText: string)
      ensures Valid() && notificationCount == 0 && buttonText == initialText
    {
      notificationCount := 0;
      buttonText := initialText;
    }

    /** addNotification: one more, and the label shows the new count. */
    method AddNotification()
      requires Valid()
      modifies this
      ensures Valid()
      ensures notificationCount == Inc(old(notificationCount))
      ensures buttonText == ButtonText(notificationCount)
    {
      notificationCount := Inc(notificationCount);
      UpdateNotificationButton();
    }

    /**
     * handleNotifications: a positive count is reset to 0 and the label goes back to
     * "Notifications"; otherwise nothing changes, the label included.
     */
    method HandleNotifications()
      requires Valid()
      modifies this
      ensures Valid()
      ensures old(notificationCount) > 0 ==> notificationCount == 0 && buttonText == "Notifications"
      ensures old(notificationCount) <= 0 ==> notificationCount == old(notificationCount)
                                               && buttonText == old(buttonText)
    {
      if notificationCount > 0 {
        ClearNotifications();
      }
    }

    method ClearNotifications()
      requires Valid()
      modifies this
      ensures Valid()
      ensures notificationCount == 0 && buttonText == ButtonText(0)
    {
      notificationCount := 0;
      UpdateNotificationButton();
    }

    method UpdateNotificationButton()
      modifies this
      ensures notificationCount == old(notificationCount)
      ensures buttonText == ButtonText(notificationCount)
    {
      if notificationCount > 0 {
        buttonText := "Notifications (" + IntToString(notificationCount) + ")";
      } else {
        buttonText := "Notifications";
      }
    }
  }
}
