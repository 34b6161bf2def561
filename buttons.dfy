/**
 * Button positions, button details, button layouts and button actions of
 * the model-R components. The button module itself is not part of this
 * model: the variants below only name the distinct values the modelled
 * components build and compare.
 */
module Buttons {
  import opened Wrappers

  /** Which of the three physical buttons was triggered. */
  datatype ButtonPos = Left | Middle | Right

  /** What one button shows. */
  datatype ButtonDetails =
    | LeftArrowIcon
    | RightArrowIcon
    | SelectIcon
    | UpArrowIcon
    | UpArrowIconWide
    | DownArrowIconWide
    | CancelIcon
    | Text(text: string)
    | ArmedText(text: string)

  /** The three button slots of a screen; `None` hides that button. */
  datatype ButtonLayout = ButtonLayout(
    btnLeft: Option<ButtonDetails>,
    btnMiddle: Option<ButtonDetails>,
    btnRight: Option<ButtonDetails>)

  function EmptyLayout(): ButtonLayout
  {
    ButtonLayout(None, None, None)
  }

  function DefaultThreeIcons(): ButtonLayout
  {
    ButtonLayout(Some(LeftArrowIcon), Some(SelectIcon), Some(RightArrowIcon))
  }

  function ArrowArmedArrow(text: string): ButtonLayout
  {
    ButtonLayout(Some(LeftArrowIcon), Some(ArmedText(text)), Some(RightArrowIcon))
  }

  function NoneArmedArrow(text: string): ButtonLayout
  {
    ButtonLayout(None, Some(ArmedText(text)), Some(RightArrowIcon))
  }

  function CancelArmedText(middle: string, right: string): ButtonLayout
  {
    ButtonLayout(Some(CancelIcon), Some(ArmedText(middle)), Some(Text(right)))
  }

  /** What pressing a button of a flow page does. */
  datatype ButtonAction =
    | PrevPage
    | NextPage
    | FirstPage
    | LastPage
    | Cancel
    | Confirm
    | Select
    | Info
    | Action(name: string)

  /** The action table of one flow page: one optional action per button. */
  datatype ButtonActions = ButtonActions(
    left: Option<ButtonAction>,
    middle: Option<ButtonAction>,
    right: Option<ButtonAction>)
  {
    function GetAction(pos: ButtonPos): Option<ButtonAction>
    {
      match pos
      case Left => left
      case Middle => middle
      case Right => right
    }
  }
}
