/**
 * Show more: content above three buttons, CANCEL (an icon), CONFIRM and
 * "i" for more information; each button ends the screen with its message.
 */
module ShowMore {
  import opened Wrappers
  import opened Buttons

  datatype CancelInfoConfirmMsg = Cancelled | Info | Confirmed

  /** The buttons the screen shows. */
  function InitialLayout(): ButtonLayout
  {
    CancelArmedText("CONFIRM", "i")
  }

  /** The message for the button the controller reports as triggered, if any. */
  function Event(trigger: Option<ButtonPos>): (msg: Option<CancelInfoConfirmMsg>)
    ensures msg.Some? <==> trigger.Some?
  {
    match trigger
    case Some(Left) => Some(Cancelled)
    case Some(Middle) => Some(Confirmed)
    case Some(Right) => Some(CancelInfoConfirmMsg.Info)
    case None => None
  }

  /**
   * Each button's message matches what it shows: the cancel icon cancels,
   * the armed CONFIRM confirms and "i" asks for information; and no two
   * buttons give the same message.
   */
  lemma MessagesMatchButtons(p: ButtonPos, q: ButtonPos)
    ensures Event(Some(p)) == Some(Cancelled) <==> InitialLayout().btnLeft == Some(CancelIcon) && p == Left
    ensures Event(Some(p)) == Some(Confirmed) <==> InitialLayout().btnMiddle == Some(ArmedText("CONFIRM")) && p == Middle
    ensures Event(Some(p)) == Some(CancelInfoConfirmMsg.Info) <==> InitialLayout().btnRight == Some(Text("i")) && p == Right
    ensures Event(Some(p)) == Event(Some(q)) ==> p == q
  {
  }
}
