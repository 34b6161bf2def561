/**
 * `ChoiceItem`: one entry of a choice page, shown in the centre with its
 * icon and text, or on a side with only its icon (or only its text when it
 * has no icon). Pixel widths of icons and of text in a font come from the
 * display and are parameters (`Metrics`).
 */
module ChoiceItems {
  import opened Wrappers
  import opened Buttons
  import opened TextLayout

  /** Icons the choice factories attach to items. */
  datatype Icon = IconEye | IconTick | IconCancel | IconDelete | IconSpace | IconArrowBackUp

  /** Gap between the icon and the text of a centred item. */
  const ICON_RIGHT_PADDING: int := 2

  /** The font choice items are shown in unless changed. */
  const FONT_CHOICE_ITEMS: Font := BOLD

  /** Widths the display reports: of an icon, and of a text in a font. */
  datatype Metrics = Metrics(iconWidth: Icon -> int, textWidth: (Font, string) -> int)
  {
    /** Widths the display reports are never negative. */
    ghost predicate NonNegative()
    {
      (forall icon: Icon :: 0 <= iconWidth(icon)) && (forall f: Font, s: string :: 0 <= textWidth(f, s))
    }
  }

  datatype ChoiceItem = ChoiceItem(text: string, icon: Option<Icon>, btnLayout: ButtonLayout, font: Font)
  {
    /** An item with the given text and buttons, no icon, in the default font. */
    static function New(text: string, btnLayout: ButtonLayout): (item: ChoiceItem)
      ensures item.text == text && item.btnLayout == btnLayout
      ensures item.icon == None && item.font == FONT_CHOICE_ITEMS
    {
      ChoiceItem(text, None, btnLayout, FONT_CHOICE_ITEMS)
    }

    function WithIcon(icon: Icon): (item: ChoiceItem)
      ensures item.icon == Some(icon)
      ensures item.text == text && item.btnLayout == btnLayout && item.font == font
    {
      this.(icon := Some(icon))
    }

    function WithFont(font: Font): (item: ChoiceItem)
      ensures item.font == font
      ensures item.text == text && item.btnLayout == btnLayout && item.icon == icon
    {
      this.(font := font)
    }

    /** Width when shown on a side: the icon alone if there is one, else the text. */
    function WidthSide(m: Metrics): int
    {
      if icon.Some? then m.iconWidth(icon.value) else m.textWidth(font, text)
    }

    /** Whether the item shown on a side fits into `rect`. */
    predicate Fits(m: Metrics, rect: Rect)
    {
      WidthSide(m) <= rect.width
    }

    /** Width when shown in the centre: icon, padding and text, or the text alone. */
    function WidthCenter(m: Metrics): int
    {
      var iconWidth := if icon.Some? then m.iconWidth(icon.value) + ICON_RIGHT_PADDING else 0;
      iconWidth + m.textWidth(font, text)
    }

    /**
     * Shows the item left of the centre when it fits and reports the width
     * it took; an item that does not fit reports nothing, whether or not it
     * is drawn incomplete.
     */
    function PaintLeft(m: Metrics, area: Rect, showIncomplete: bool): (r: Option<int>)
      ensures r.Some? <==> Fits(m, area)
      ensures r.Some? ==> r.value == WidthSide(m) <= area.width
    {
      if !Fits(m, area) then None else Some(WidthSide(m))
    }

    /** As `PaintLeft`, right of the centre. */
    function PaintRight(m: Metrics, area: Rect, showIncomplete: bool): (r: Option<int>)
      ensures r.Some? <==> Fits(m, area)
      ensures r.Some? ==> r.value == WidthSide(m) <= area.width
    {
      if !Fits(m, area) then None else Some(WidthSide(m))
    }

    function SetLeftBtn(btnLeft: Option<ButtonDetails>): (item: ChoiceItem)
      ensures item.btnLayout == btnLayout.(btnLeft := btnLeft)
      ensures item.text == text && item.icon == icon && item.font == font
    {
      this.(btnLayout := btnLayout.(btnLeft := btnLeft))
    }

    function SetMiddleBtn(btnMiddle: Option<ButtonDetails>): (item: ChoiceItem)
      ensures item.btnLayout == btnLayout.(btnMiddle := btnMiddle)
      ensures item.text == text && item.icon == icon && item.font == font
    {
      this.(btnLayout := btnLayout.(btnMiddle := btnMiddle))
    }

    function SetRightBtn(btnRight: Option<ButtonDetails>): (item: ChoiceItem)
      ensures item.btnLayout == btnLayout.(btnRight := btnRight)
      ensures item.text == text && item.icon == icon && item.font == font
    {
      this.(btnLayout := btnLayout.(btnRight := btnRight))
    }

    function SetText(text: string): (item: ChoiceItem)
      ensures item.text == text
      ensures item.btnLayout == btnLayout && item.icon == icon && item.font == font
    {
      this.(text := text)
    }

    function BtnLayout(): ButtonLayout
    {
      btnLayout
    }
  }

  /**
   * The centred width is the side width plus the padding and text width
   * when the item has an icon, and equals the side width otherwise; so with
   * widths the display can report it is never smaller.
   */
  lemma CenterWidthCoversSide(item: ChoiceItem, m: Metrics)
    requires m.NonNegative()
    ensures item.icon.Some? ==> item.WidthCenter(m) == item.WidthSide(m) + ICON_RIGHT_PADDING + m.textWidth(item.font, item.text)
    ensures item.icon.None? ==> item.WidthCenter(m) == item.WidthSide(m)
    ensures item.WidthSide(m) <= item.WidthCenter(m)
  {
    assert 0 <= m.textWidth(item.font, item.text);
  }

  /**
   * Fitting is monotone in the width offered, and a side painter reports
   * the same in either direction and regardless of `showIncomplete`.
   */
  lemma PaintSidesAgree(item: ChoiceItem, m: Metrics, area: Rect, wider: Rect, showIncomplete: bool)
    requires area.width <= wider.width
    ensures item.Fits(m, area) ==> item.Fits(m, wider)
    ensures item.PaintLeft(m, area, showIncomplete) == item.PaintLeft(m, area, !showIncomplete)
         == item.PaintRight(m, area, showIncomplete)
  {
  }

  /** Setting one button slot leaves the other two slots as they were. */
  lemma SetButtonsAreIndependent(item: ChoiceItem, b: Option<ButtonDetails>)
    ensures item.SetLeftBtn(b).btnLayout.btnMiddle == item.btnLayout.btnMiddle
    ensures item.SetLeftBtn(b).btnLayout.btnRight == item.btnLayout.btnRight
    ensures item.SetMiddleBtn(b).btnLayout.btnLeft == item.btnLayout.btnLeft
    ensures item.SetMiddleBtn(b).btnLayout.btnRight == item.btnLayout.btnRight
    ensures item.SetRightBtn(b).btnLayout.btnLeft == item.btnLayout.btnLeft
    ensures item.SetRightBtn(b).btnLayout.btnMiddle == item.btnLayout.btnMiddle
  {
  }
}
