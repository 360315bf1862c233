/** The notification log behind `NotificationService.sendEmail`: every message handed to the
    sender is recorded; delivery itself is outside the model and arrives as its outcome. */
module Notifications {
  import opened Wrappers
  import opened Entities
  import opened Exceptions

  class NotificationLog {
    var sent: seq<Notification>

    constructor ()
      ensures sent == []
    {
      sent := [];
    }

    /** Records `n`; `failure` is `None` when the mail server accepted it, otherwise the message
        of the exception the sender throws back to its caller. */
    method SendEmail(n: Notification, failure: Option<string>) returns (r: Result<(), Exception>)
      modifies this
      ensures sent == old(sent) + [n]
      ensures r.Ok? <==> failure.None?
      ensures failure.Some? ==> r == Err(MailException(failure.value))
    {
      sent := sent + [n];
      if failure.Some? {
        r := Err(MailException(failure.value));
      } else {
        r := Ok(());
      }
    }
  }
}
