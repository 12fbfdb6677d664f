/**
 * The "auction starting soon" modal (src/components/Modals/AuctionNotificationModal.tsx):
 * a 30-second countdown that runs while the modal is open, is reset while it
 * is closed, and sends the user to the auction when it reaches 0. Whether the
 * modal is open is an input (the `isOpen` prop); navigating to `/auction` and
 * calling `onClose` are reported as a result.
 */
module Notification {

  /** `useState(30)` and the reset value. */
  const NoticeSeconds := 30

  /** What the modal asked of its parent: nothing, `onClose()` alone, or
      `navigate('/auction')` followed by `onClose()`. */
  datatype Outcome = Stay | Closed | GoToAuction

  /** One second with the modal open or closed: while closed the effect
      resets the countdown; while open with time left the interval subtracts
      one, and the effect run that sees 0 navigates and closes. With the
      countdown already at 0 no dependency changes, so nothing runs. */
  function NoticeTick(countdown: int, isOpen: bool): (r: (int, Outcome))
    ensures !isOpen ==> r == (NoticeSeconds, Stay)
    ensures isOpen && countdown > 0 ==> r.0 == countdown - 1
    ensures isOpen && countdown <= 0 ==> r == (countdown, Stay)
    ensures r.1 == GoToAuction <==> isOpen && countdown == 1
  {
    if !isOpen then (NoticeSeconds, Stay)
    else if countdown > 0 then
      (countdown - 1, if countdown - 1 == 0 then GoToAuction else Stay)
    else (countdown, Stay)
  }

  /** The countdown after `k` seconds with the modal open, and whether it
      navigated during them. */
  function OpenFor(countdown: int, k: nat): (int, bool)
    decreases k
  {
    if k == 0 then (countdown, false)
    else
      var (c, o) := NoticeTick(countdown, true);
      var (c', went) := OpenFor(c, k - 1);
      (c', went || o == GoToAuction)
  }

  /** Opened with a full countdown, the modal waits 29 seconds and sends the
      user to the auction on the thirtieth, never earlier. */
  lemma {:induction false} CountsDownThenNavigates(countdown: int, k: nat)
    requires 0 < countdown && k <= countdown
    ensures OpenFor(countdown, k) == (countdown - k, k == countdown)
    decreases k
  {
    if k > 1 {
      CountsDownThenNavigates(countdown - 1, k - 1);
    }
  }

  class NotificationModal {
    var countdown: int

    ghost predicate Valid()
      reads this
    {
      0 <= countdown <= NoticeSeconds
    }

    constructor ()
      ensures Valid() && countdown == NoticeSeconds
    {
      countdown := NoticeSeconds;
    }

    /** One second of the countdown effect and its interval. */
    method Tick(isOpen: bool) returns (outcome: Outcome)
      requires Valid()
      modifies this
      ensures Valid()
      ensures (countdown, outcome) == NoticeTick(old(countdown), isOpen)
    {
      outcome := Stay;
      if !isOpen {
        countdown := NoticeSeconds;
      } else if countdown > 0 {
        countdown := countdown - 1;
        if countdown == 0 {
          outcome := GoToAuction;
        }
      }
    }

    /** The "Go to Auction" button: navigates and closes whatever the
        countdown shows. */
    method GoToAuctionButton() returns (outcome: Outcome)
      requires Valid()
      ensures outcome == GoToAuction
    {
      outcome := GoToAuction;
    }

    /** The "Close" button and the X: `onClose` without navigating. */
    method CloseButton() returns (outcome: Outcome)
      requires Valid()
      ensures outcome == Closed
    {
      outcome := Closed;
    }
  }
}
