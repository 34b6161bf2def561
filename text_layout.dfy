/**
 * The text layout engine that `Page` paginates with, as an oracle.
 *
 * Given a page's layout operations, the bounds and the character offset at
 * which the current sub-page starts, the engine answers `Fitting` (all the
 * remaining content fits) or `OutOfBounds(n)` (only `n` more characters
 * fit). Its internals are not part of this model; `Paginates` is the one
 * property the pagination loops rely on.
 */
module TextLayout {

  /** A drawing area; only its size matters to the model. */
  datatype Rect = Rect(width: int, height: int)

  /** A font, named as the theme names it. */
  datatype Font = Font(name: string)

  const NORMAL: Font := Font("NORMAL")
  const BOLD: Font := Font("BOLD")
  const MONO: Font := Font("MONO")

  datatype Alignment = Start | Center | End

  /** One layout instruction of a page. Newlines are `Text("\n")`. */
  datatype Op =
    | Text(text: string)
    | NextPage
    | SetFont(font: Font)
    | CursorOffset(dx: int, dy: int)
    | SetAlignment(alignment: Alignment)

  /** Number of characters of text in a sequence of operations. */
  function TotalChars(ops: seq<Op>): nat
  {
    if ops == [] then 0
    else
      var last := ops[|ops| - 1];
      TotalChars(ops[..|ops| - 1]) + (if last.Text? then |last.text| else 0)
  }

  datatype LayoutFit = Fitting | OutOfBounds(processedChars: nat)

  /** The engine: (operations, bounds, character offset) to a fit. */
  type Engine = (seq<Op>, Rect, nat) -> LayoutFit

  /**
   * An overflowing layout always consumes at least one character and never
   * more characters than remain after the offset.
   */
  predicate MakesProgress(ops: seq<Op>, offset: nat, fit: LayoutFit)
  {
    fit.OutOfBounds? ==> 0 < fit.processedChars && offset + fit.processedChars <= TotalChars(ops)
  }

  /** The engine makes progress on every input, so restarting it ends. */
  ghost predicate Paginates(engine: Engine)
  {
    forall ops, bounds, offset :: MakesProgress(ops, offset, engine(ops, bounds, offset))
  }
}
