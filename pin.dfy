/**
 * PIN entry: one carousel of thirteen items, three actions (DELETE, SHOW,
 * ENTER) followed by the digits 0 to 9. After each digit the carousel jumps
 * to a random other digit, so the position does not reveal the PIN.
 */
module Pin {
  import opened Wrappers
  import opened Buttons
  import opened ChoiceItems
  import opened ChoiceCommon

  datatype PinEntryMsg = Confirmed | Cancelled

  const MAX_PIN_LENGTH: nat := 50

  const CHOICE_LENGTH: nat := 13
  const DELETE_INDEX: nat := 0
  const SHOW_INDEX: nat := 1
  const ENTER_INDEX: nat := 2
  const NUMBER_START_INDEX: nat := 3
  const CHOICES: seq<string> := ["DELETE", "SHOW", "ENTER", "0", "1", "2", "3", "4", "5", "6", "7", "8", "9"]

  /** The PIN choices; the factory has no state of its own. */
  datatype ChoiceFactoryPin = ChoiceFactoryPin
  {
    function Count(): (n: nat)
      ensures n == |CHOICES|
    {
      CHOICE_LENGTH
    }

    /** The item at `choiceIndex`: the three actions read CONFIRM in the middle and carry icons. */
    function Get(choiceIndex: nat): ChoiceItem
      requires choiceIndex < Count()
    {
      var item := ChoiceItem.New(CHOICES[choiceIndex], DefaultThreeIcons());
      var confirmed := if choiceIndex in {DELETE_INDEX, SHOW_INDEX, ENTER_INDEX}
        then item.SetMiddleBtn(Some(ArmedText("CONFIRM"))) else item;
      if choiceIndex == DELETE_INDEX then confirmed.WithIcon(IconDelete)
      else if choiceIndex == SHOW_INDEX then confirmed.WithIcon(IconEye)
      else if choiceIndex == ENTER_INDEX then confirmed.WithIcon(IconTick)
      else confirmed
    }
  }

  /**
   * The items: the three actions with a CONFIRM middle button and their
   * icons, then the ten digits in order with the default buttons and no icon.
   */
  lemma PinItems(f: ChoiceFactoryPin, i: nat)
    requires i < f.Count()
    ensures var item := f.Get(i);
      && (i < NUMBER_START_INDEX ==>
            && item.text == ["DELETE", "SHOW", "ENTER"][i]
            && item.btnLayout == DefaultThreeIcons().(btnMiddle := Some(ArmedText("CONFIRM")))
            && item.icon == Some([IconDelete, IconEye, IconTick][i]))
      && (NUMBER_START_INDEX <= i ==>
            && item.text == ["0123456789"[i - NUMBER_START_INDEX]]
            && item.btnLayout == DefaultThreeIcons() && item.icon == None)
  {
  }

  /**
   * The header: the prompt while the PIN is empty, then the PIN itself
   * when it is shown, or one '*' per digit.
   */
  function HeaderText(prompt: string, pin: string, showRealPin: bool): (text: string)
    ensures pin == [] ==> text == prompt
    ensures pin != [] && showRealPin ==> text == pin
    ensures pin != [] && !showRealPin ==> |text| == |pin| && forall i :: 0 <= i < |text| ==> text[i] == '*'
  {
    if pin == [] then prompt else if showRealPin then pin else Mask(|pin|)
  }

  // ---------------------------------------------------------------------
  // The entry's state and its transition function
  // ---------------------------------------------------------------------

  datatype EntryState = EntryState(choicePage: ChoicePage<ChoiceFactoryPin>, showRealPin: bool, textbox: string)
  {
    ghost predicate Valid()
    {
      |textbox| <= MAX_PIN_LENGTH && choicePage.pageCounter < choicePage.factory.Count()
    }
  }

  /** The entry as it starts: at the digit 0, with an empty PIN that is not shown. */
  function InitialState(): (s: EntryState)
    ensures s.Valid()
  {
    EntryState(ChoicePage.New(ChoiceFactoryPin).WithInitialPageCounter(NUMBER_START_INDEX).WithCarousel(true), false, [])
  }

  /** Whether `next` may follow the digit at `choiceIndex`: another digit. */
  predicate IsNextDigit(choiceIndex: nat, next: nat)
  {
    NUMBER_START_INDEX <= next < CHOICE_LENGTH && next != choiceIndex
  }

  /**
   * What choosing the item at `choiceIndex` does, once a shown PIN is
   * hidden; `next` is where the carousel jumps after a digit.
   */
  function Apply(s: EntryState, choiceIndex: nat, next: nat): (EntryState, Option<PinEntryMsg>)
    requires choiceIndex < CHOICE_LENGTH
  {
    if choiceIndex == DELETE_INDEX then (s.(textbox := DeletedLast(s.textbox)), None)
    else if choiceIndex == SHOW_INDEX then (s.(showRealPin := true), None)
    else if choiceIndex == ENTER_INDEX then (s, Some(Confirmed))
    else if |s.textbox| < MAX_PIN_LENGTH then
      (s.(textbox := s.textbox + CHOICES[choiceIndex], choicePage := s.choicePage.SetPageCounter(next)), None)
    else (s, None)
  }

  /**
   * One event: a shown PIN is hidden, the choice page is left at
   * `pageCounter`, and when its item was `chosen` the item is carried out.
   */
  function Step(s: EntryState, pageCounter: nat, chosen: bool, next: nat): (EntryState, Option<PinEntryMsg>)
    requires pageCounter < s.choicePage.factory.Count()
  {
    var s1 := s.(showRealPin := false, choicePage := s.choicePage.SetPageCounter(pageCounter));
    if !chosen then (s1, None) else Apply(s1, pageCounter, next)
  }

  /** Every event keeps the PIN within 50 digits and the index among the thirteen items. */
  lemma StepKeepsValid(s: EntryState, pageCounter: nat, chosen: bool, next: nat)
    requires s.Valid() && pageCounter < s.choicePage.factory.Count()
    requires chosen && NUMBER_START_INDEX <= pageCounter && |s.textbox| < MAX_PIN_LENGTH ==>
      IsNextDigit(pageCounter, next)
    ensures Step(s, pageCounter, chosen, next).0.Valid()
  {
  }

  /**
   * Messages and the show flag: only ENTER returns a message, and it is
   * Confirmed; the entry never cancels. Every event hides a shown PIN and
   * only SHOW shows it.
   */
  lemma StepMessages(s: EntryState, pageCounter: nat, chosen: bool, next: nat)
    requires pageCounter < s.choicePage.factory.Count()
    ensures var (s', msg) := Step(s, pageCounter, chosen, next);
      && (msg.Some? <==> chosen && pageCounter == ENTER_INDEX)
      && msg != Some(Cancelled)
      && (s'.showRealPin <==> chosen && pageCounter == SHOW_INDEX)
  {
  }

  /**
   * Editing: DELETE removes the last digit; a digit is appended when the
   * PIN has fewer than 50 digits, and the carousel moves to `next`; a full
   * PIN stays as it is; nothing else changes the PIN.
   */
  lemma StepEditsPin(s: EntryState, pageCounter: nat, chosen: bool, next: nat)
    requires pageCounter < s.choicePage.factory.Count()
    ensures var s' := Step(s, pageCounter, chosen, next).0;
      && (chosen && pageCounter == DELETE_INDEX ==> s'.textbox == DeletedLast(s.textbox))
      && (chosen && NUMBER_START_INDEX <= pageCounter && |s.textbox| < MAX_PIN_LENGTH ==>
            && s'.textbox == s.textbox + [CHOICES[pageCounter][0]]
            && s'.choicePage.pageCounter == next)
      && (chosen && NUMBER_START_INDEX <= pageCounter && MAX_PIN_LENGTH <= |s.textbox| ==>
            s' == s.(showRealPin := false, choicePage := s.choicePage.SetPageCounter(pageCounter)))
      && (!chosen || pageCounter == SHOW_INDEX || pageCounter == ENTER_INDEX ==> s'.textbox == s.textbox)
  {
    if chosen && NUMBER_START_INDEX <= pageCounter && |s.textbox| < MAX_PIN_LENGTH {
      assert |CHOICES[pageCounter]| == 1;
      assert CHOICES[pageCounter] == [CHOICES[pageCounter][0]];
    }
  }

  // ---------------------------------------------------------------------
  // The entry component
  // ---------------------------------------------------------------------

  class PinEntry {
    var choicePage: ChoicePage<ChoiceFactoryPin>
    /** The header line: prompt, PIN or dots. */
    var pinLine: string
    /** Whether the line under the header shows the sub-prompt. */
    var showSubprompt: bool
    const prompt: string
    const subprompt: string
    var showRealPin: bool
    var textbox: string

    ghost function State(): EntryState
      reads this
    {
      EntryState(choicePage, showRealPin, textbox)
    }

    ghost predicate Valid()
      reads this
    {
      && State().Valid()
      && pinLine == HeaderText(prompt, textbox, showRealPin)
      && showSubprompt == (textbox == [])
    }

    constructor (prompt: string, subprompt: string)
      ensures Valid() && State() == InitialState()
      ensures this.prompt == prompt && this.subprompt == subprompt && pinLine == prompt && showSubprompt
    {
      choicePage := ChoicePage.New(ChoiceFactoryPin).WithInitialPageCounter(NUMBER_START_INDEX).WithCarousel(true);
      pinLine := prompt;
      showSubprompt := true;
      this.prompt := prompt;
      this.subprompt := subprompt;
      showRealPin := false;
      textbox := [];
    }

    function Pin(): string
      reads this
    {
      textbox
    }

    predicate IsFull()
      reads this
    {
      |textbox| >= MAX_PIN_LENGTH
    }

    predicate IsEmpty()
      reads this
    {
      textbox == []
    }

    /** Rebuilds the header from the PIN and the show flag. */
    method UpdateHeaderInfo()
      modifies this`pinLine, this`showSubprompt
      ensures pinLine == HeaderText(prompt, textbox, showRealPin)
      ensures showSubprompt == (textbox == [])
    {
      var showPrompts := IsEmpty();
      var text;
      if showPrompts {
        text := prompt;
      } else if showRealPin {
        text := Pin();
      } else {
        var dots := "";
        for i := 0 to |textbox|
          invariant dots == Mask(i)
        {
          dots := dots + "*";
        }
        text := dots;
      }
      pinLine := text;
      showSubprompt := showPrompts;
    }

    /** Carries out the chosen item, once a shown PIN is hidden. */
    method ApplyChoice(choiceIndex: nat) returns (msg: Option<PinEntryMsg>)
      requires Valid() && choiceIndex < CHOICE_LENGTH
      modifies this
      ensures pinLine == HeaderText(prompt, textbox, showRealPin) && showSubprompt == (textbox == [])
      ensures (State(), msg) == Apply(old(State()), choiceIndex, choicePage.pageCounter)
      ensures NUMBER_START_INDEX <= choiceIndex && |old(textbox)| < MAX_PIN_LENGTH ==>
        IsNextDigit(choiceIndex, choicePage.pageCounter)
      ensures !(NUMBER_START_INDEX <= choiceIndex && |old(textbox)| < MAX_PIN_LENGTH) ==>
        choicePage == old(choicePage)
    {
      if choiceIndex == DELETE_INDEX {
        textbox := DeletedLast(textbox);
        UpdateHeaderInfo();
      } else if choiceIndex == SHOW_INDEX {
        showRealPin := true;
        UpdateHeaderInfo();
      } else if choiceIndex == ENTER_INDEX {
        return Some(Confirmed);
      } else if !IsFull() {
        textbox := textbox + CHOICES[choiceIndex];
        // The random source: any other digit.
        assert IsNextDigit(choiceIndex, if choiceIndex == NUMBER_START_INDEX then NUMBER_START_INDEX + 1 else NUMBER_START_INDEX);
        var newPageCounter :| IsNextDigit(choiceIndex, newPageCounter);
        choicePage := choicePage.SetPageCounter(newPageCounter);
        UpdateHeaderInfo();
      }
      return None;
    }

    /**
     * Handles one event. The choice page handles it first and is left at
     * `pageCounter`; when its item was `chosen`, the item is carried out,
     * and after a digit the page stands at a random other digit.
     */
    method Event(pageCounter: nat, chosen: bool) returns (msg: Option<PinEntryMsg>)
      requires Valid() && pageCounter < choicePage.factory.Count()
      modifies this
      ensures Valid()
      ensures (State(), msg) == Step(old(State()), pageCounter, chosen, choicePage.pageCounter)
      ensures chosen && NUMBER_START_INDEX <= pageCounter && |old(textbox)| < MAX_PIN_LENGTH ==>
        IsNextDigit(pageCounter, choicePage.pageCounter)
    {
      if showRealPin {
        showRealPin := false;
        UpdateHeaderInfo();
      }
      // The choice page's own handling of the event.
      choicePage := choicePage.SetPageCounter(pageCounter);
      if !chosen {
        return None;
      }
      msg := ApplyChoice(pageCounter);
      StepKeepsValid(old(State()), pageCounter, chosen, choicePage.pageCounter);
    }
  }
}
