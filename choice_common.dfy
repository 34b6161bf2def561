/**
 * Collaborators shared by the input methods, reduced to what the entry
 * components rely on: the choice page that scrolls through a factory's
 * items, the bounded text box that holds what was typed, and the masked
 * form of a secret.
 */
module ChoiceCommon {
  import opened Wrappers

  /**
   * The choice page: the factory it shows, the index it stands at, whether
   * it wraps around and whether it shows items that do not fit entirely.
   */
  datatype ChoicePage<F> = ChoicePage(factory: F, pageCounter: nat, isCarousel: bool, showIncomplete: bool)
  {
    /** A choice page at the first item, without carousel or incomplete items. */
    static function New(factory: F): (page: ChoicePage<F>)
      ensures page.factory == factory && page.pageCounter == 0
      ensures !page.isCarousel && !page.showIncomplete
    {
      ChoicePage(factory, 0, false, false)
    }

    function WithCarousel(isCarousel: bool): ChoicePage<F>
    {
      this.(isCarousel := isCarousel)
    }

    function WithIncomplete(showIncomplete: bool): ChoicePage<F>
    {
      this.(showIncomplete := showIncomplete)
    }

    function WithInitialPageCounter(pageCounter: nat): ChoicePage<F>
    {
      this.(pageCounter := pageCounter)
    }

    /**
     * Shows a new factory; the index moves to `resetPageCounter` when one is
     * given and stays otherwise.
     */
    function Reset(newFactory: F, resetPageCounter: Option<nat>, isCarousel: bool): (page: ChoicePage<F>)
      ensures page.factory == newFactory && page.isCarousel == isCarousel
      ensures page.pageCounter == (if resetPageCounter.Some? then resetPageCounter.value else pageCounter)
      ensures page.showIncomplete == showIncomplete
    {
      ChoicePage(newFactory, if resetPageCounter.Some? then resetPageCounter.value else pageCounter, isCarousel, showIncomplete)
    }

    function SetPageCounter(pageCounter: nat): ChoicePage<F>
    {
      this.(pageCounter := pageCounter)
    }

    function PageIndex(): nat
    {
      pageCounter
    }
  }

  // ---------------------------------------------------------------------
  // Text box
  // ---------------------------------------------------------------------

  /** The text box's content after appending `ch`; a full box ignores it. */
  function Appended(content: string, capacity: nat, ch: char): (r: string)
    ensures |content| < capacity ==> r == content + [ch]
    ensures capacity <= |content| ==> r == content
  {
    if |content| < capacity then content + [ch] else content
  }

  /** The text box's content after deleting its last character, if any. */
  function DeletedLast(content: string): (r: string)
    ensures content == [] ==> r == []
    ensures content != [] ==> r + [content[|content| - 1]] == content
  {
    if content == [] then [] else content[..|content| - 1]
  }

  /** Deleting what was just appended restores the content. */
  lemma DeleteUndoesAppend(content: string, capacity: nat, ch: char)
    requires |content| < capacity
    ensures DeletedLast(Appended(content, capacity, ch)) == content
  {
    assert (content + [ch])[..|content|] == content;
  }

  // ---------------------------------------------------------------------
  // Masking
  // ---------------------------------------------------------------------

  /** `n` asterisks: the masked form of a secret of length `n`. */
  function Mask(n: nat): (s: string)
    ensures |s| == n
    ensures forall i :: 0 <= i < |s| ==> s[i] == '*'
  {
    if n == 0 then "" else Mask(n - 1) + "*"
  }

  /** The mask of a longer secret extends the mask of a shorter one. */
  lemma {:induction false} MaskPrefix(m: nat, n: nat)
    requires m <= n
    ensures Mask(m) <= Mask(n)
    decreases n
  {
    if m < n {
      MaskPrefix(m, n - 1);
    }
  }
}
