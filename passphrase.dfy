/**
 * Passphrase entry: a menu of actions and character categories, and one
 * choice page per category whose last item leads back to the menu.
 */
module Passphrase {
  import opened Wrappers
  import opened Buttons
  import opened ChoiceItems
  import opened ChoiceCommon

  datatype PassphraseEntryMsg = Confirmed | Cancelled

  /** The choices currently on the screen. */
  datatype ChoiceCategory = Menu | LowercaseLetter | UppercaseLetter | Digit | SpecialSymbol

  const MAX_PASSPHRASE_LENGTH: nat := 50

  const DIGITS: string := "0123456789"
  const LOWERCASE_LETTERS: string := "abcdefghijklmnopqrstuvwxyz"
  const UPPERCASE_LETTERS: string := "ABCDEFGHIJKLMNOPQRSTUVWXYZ"
  const SPECIAL_SYMBOLS: string := "_<>.:@/|\\!()+%&-[]?{},'`\"~$^=*#"

  const MENU_LENGTH: nat := 8
  const SHOW_INDEX: nat := 0
  const CANCEL_DELETE_INDEX: nat := 1
  const ENTER_INDEX: nat := 2
  const LOWERCASE_INDEX: nat := 3
  const UPPERCASE_INDEX: nat := 4
  const DIGITS_INDEX: nat := 5
  const SPECIAL_INDEX: nat := 6
  const SPACE_INDEX: nat := 7

  datatype PassphraseAction =
    | Menu
    | Show
    | CancelOrDelete
    | Enter
    | Category(category: ChoiceCategory)
    | Character(ch: char)

  /** One row of the menu: text, action, icon, and whether the middle button reads CONFIRM. */
  datatype MenuEntry = MenuEntry(text: string, action: PassphraseAction, icon: Option<Icon>, showConfirm: bool)

  const MENU: seq<MenuEntry> := [
    MenuEntry("SHOW", Show, Some(IconEye), true),
    // The text of this entry is chosen when the item is built.
    MenuEntry("CANCEL_OR_DELETE", CancelOrDelete, None, true),
    MenuEntry("ENTER", Enter, Some(IconTick), true),
    MenuEntry("abc", Category(LowercaseLetter), None, false),
    MenuEntry("ABC", Category(UppercaseLetter), None, false),
    MenuEntry("123", Category(Digit), None, false),
    MenuEntry("#$!", Category(SpecialSymbol), None, false),
    MenuEntry("SPACE", Character(' '), Some(IconSpace), false)
  ]

  /** The characters offered in a character category. */
  function CategoryChars(category: ChoiceCategory): string
    requires category != ChoiceCategory.Menu
  {
    match category
    case LowercaseLetter => LOWERCASE_LETTERS
    case UppercaseLetter => UPPERCASE_LETTERS
    case Digit => DIGITS
    case SpecialSymbol => SPECIAL_SYMBOLS
  }

  /** The character at `index` of a character category. */
  function GetChar(category: ChoiceCategory, index: nat): char
    requires category != ChoiceCategory.Menu && index < |CategoryChars(category)|
  {
    CategoryChars(category)[index]
  }

  /** The category the menu item at `pageIndex` opens. */
  function GetCategoryFromMenu(pageIndex: nat): (category: ChoiceCategory)
    requires LOWERCASE_INDEX <= pageIndex <= SPECIAL_INDEX
    ensures category != ChoiceCategory.Menu
    ensures MENU[pageIndex].action == Category(category)
  {
    if pageIndex == LOWERCASE_INDEX then LowercaseLetter
    else if pageIndex == UPPERCASE_INDEX then UppercaseLetter
    else if pageIndex == DIGITS_INDEX then Digit
    else SpecialSymbol
  }

  /** Number of choices of a category, not counting the way back to the menu. */
  function GetCategoryLength(category: ChoiceCategory): nat
  {
    match category
    case Menu => |MENU|
    case LowercaseLetter => |LOWERCASE_LETTERS|
    case UppercaseLetter => |UPPERCASE_LETTERS|
    case Digit => |DIGITS|
    case SpecialSymbol => |SPECIAL_SYMBOLS|
  }

  /** Whether `pageIndex` is the way back to the menu: the item after the last character. */
  predicate IsMenuChoice(category: ChoiceCategory, pageIndex: nat)
    requires category != ChoiceCategory.Menu
  {
    pageIndex == GetCategoryLength(category)
  }

  datatype ChoiceFactoryPassphrase = ChoiceFactoryPassphrase(currentCategory: ChoiceCategory, isEmpty: bool)
  {
    /** Menu items; the CANCEL/DELETE item follows whether the passphrase is empty. */
    function GetMenuItem(choiceIndex: nat): (ChoiceItem, PassphraseAction)
      requires choiceIndex < MENU_LENGTH
    {
      var entry := MENU[choiceIndex];
      var text := if entry.action.CancelOrDelete? then (if isEmpty then "CANCEL" else "DELETE") else entry.text;
      var icon := if entry.action.CancelOrDelete? then (if isEmpty then Some(IconCancel) else Some(IconDelete)) else entry.icon;
      var plain := ChoiceItem.New(text, DefaultThreeIcons());
      var confirmed := if entry.showConfirm then plain.SetMiddleBtn(Some(ArmedText("CONFIRM"))) else plain;
      var item := if icon.Some? then confirmed.WithIcon(icon.value) else confirmed;
      (item, entry.action)
    }

    /** Character items, followed by BACK to the menu. */
    function GetCharacterItem(choiceIndex: nat): (ChoiceItem, PassphraseAction)
      requires currentCategory != ChoiceCategory.Menu
      requires choiceIndex <= GetCategoryLength(currentCategory)
    {
      if IsMenuChoice(currentCategory, choiceIndex) then
        (ChoiceItem.New("BACK", ArrowArmedArrow("RETURN")).WithIcon(IconArrowBackUp), PassphraseAction.Menu)
      else
        var ch := GetChar(currentCategory, choiceIndex);
        (ChoiceItem.New([ch], DefaultThreeIcons()), Character(ch))
    }

    function Count(): nat
    {
      var length := GetCategoryLength(currentCategory);
      if currentCategory == ChoiceCategory.Menu then length else length + 1
    }

    function Get(choiceIndex: nat): (ChoiceItem, PassphraseAction)
      requires choiceIndex < Count()
    {
      if currentCategory == ChoiceCategory.Menu then GetMenuItem(choiceIndex)
      else GetCharacterItem(choiceIndex)
    }
  }

  /** The menu has 8 items; the categories 26, 26, 10 and 31 characters and a way back. */
  lemma CountByCategory(f: ChoiceFactoryPassphrase)
    ensures f.currentCategory == ChoiceCategory.Menu ==> f.Count() == MENU_LENGTH
    ensures f.currentCategory == LowercaseLetter ==> f.Count() == 27
    ensures f.currentCategory == UppercaseLetter ==> f.Count() == 27
    ensures f.currentCategory == Digit ==> f.Count() == 11
    ensures f.currentCategory == SpecialSymbol ==> f.Count() == 32
  {
  }

  /**
   * In a character category the item at index `i` leads back to the menu
   * exactly when `i` is the category's length; every smaller index types
   * the `i`-th character of the category and shows it.
   */
  lemma CharacterItems(f: ChoiceFactoryPassphrase, i: nat)
    requires f.currentCategory != ChoiceCategory.Menu && i < f.Count()
    ensures f.Get(i).1 == PassphraseAction.Menu <==> IsMenuChoice(f.currentCategory, i)
    ensures i < GetCategoryLength(f.currentCategory) ==>
      && f.Get(i).1 == Character(GetChar(f.currentCategory, i))
      && f.Get(i).0.text == [GetChar(f.currentCategory, i)]
    ensures IsMenuChoice(f.currentCategory, i) ==>
      f.Get(i).0.text == "BACK" && f.Get(i).0.icon == Some(IconArrowBackUp)
  {
  }

  /**
   * Menu item 1 cancels or deletes; it reads CANCEL on an empty passphrase
   * and DELETE otherwise. The three action items SHOW, CANCEL/DELETE and
   * ENTER have a CONFIRM middle button, the other items the select icon.
   */
  lemma MenuItems(f: ChoiceFactoryPassphrase, i: nat)
    requires f.currentCategory == ChoiceCategory.Menu && i < f.Count()
    ensures f.Get(CANCEL_DELETE_INDEX).1 == CancelOrDelete
    ensures f.Get(CANCEL_DELETE_INDEX).0.text == if f.isEmpty then "CANCEL" else "DELETE"
    ensures f.Get(CANCEL_DELETE_INDEX).0.icon == if f.isEmpty then Some(IconCancel) else Some(IconDelete)
    ensures f.Get(i).0.btnLayout.btnMiddle == if i <= ENTER_INDEX then Some(ArmedText("CONFIRM")) else Some(SelectIcon)
    ensures LOWERCASE_INDEX <= i <= SPECIAL_INDEX ==> f.Get(i).1 == Category(GetCategoryFromMenu(i))
  {
  }

  /**
   * Only the menu offers SHOW, CANCEL/DELETE, ENTER and the categories
   * (these at items 3 to 6); only a character category offers BACK.
   */
  lemma ActionOrigin(f: ChoiceFactoryPassphrase, i: nat)
    requires i < f.Count()
    ensures f.Get(i).1.Category? ==> f.currentCategory == ChoiceCategory.Menu && LOWERCASE_INDEX <= i <= SPECIAL_INDEX
    ensures f.Get(i).1.Show? || f.Get(i).1.CancelOrDelete? || f.Get(i).1.Enter? ==> f.currentCategory == ChoiceCategory.Menu
    ensures f.Get(i).1.Menu? ==> f.currentCategory != ChoiceCategory.Menu
  {
  }

  /** What the passphrase line shows: the passphrase itself, or one '*' per character. */
  function DotsText(passphrase: string, showPlain: bool): (s: string)
    ensures |s| == |passphrase|
    ensures !showPlain ==> forall i :: 0 <= i < |s| ==> s[i] == '*'
    ensures showPlain ==> s == passphrase
  {
    if showPlain then passphrase else Mask(|passphrase|)
  }

  // ---------------------------------------------------------------------
  // The entry's state and its transition function
  // ---------------------------------------------------------------------

  /** What a passphrase entry's events change. */
  datatype EntryState = EntryState(
    choicePage: ChoicePage<ChoiceFactoryPassphrase>,
    showPlainPassphrase: bool,
    textbox: string,
    currentCategory: ChoiceCategory,
    menuPosition: nat)
  {
    ghost predicate Valid()
    {
      && |textbox| <= MAX_PASSPHRASE_LENGTH
      && choicePage.factory.currentCategory == currentCategory
      && choicePage.pageCounter < choicePage.factory.Count()
      && menuPosition < MENU_LENGTH
    }

    /** The menu, at the remembered position, built for the current emptiness. */
    function MenuPage(): ChoicePage<ChoiceFactoryPassphrase>
    {
      choicePage.Reset(ChoiceFactoryPassphrase(ChoiceCategory.Menu, textbox == []), Some(menuPosition), true)
    }

    /** The current category from its first character, built for the current emptiness. */
    function CategoryPage(): ChoicePage<ChoiceFactoryPassphrase>
    {
      choicePage.Reset(ChoiceFactoryPassphrase(currentCategory, textbox == []), Some(0), true)
    }
  }

  /** The entry as it starts: the menu at "abc", an empty passphrase, nothing shown. */
  function InitialState(): (s: EntryState)
    ensures s.Valid()
  {
    EntryState(
      ChoicePage.New(ChoiceFactoryPassphrase(ChoiceCategory.Menu, true)).WithCarousel(true).WithInitialPageCounter(LOWERCASE_INDEX),
      false, [], ChoiceCategory.Menu, 0)
  }

  /** The action of item `pageCounter` of the state's choice page. */
  function ActionAt(s: EntryState, pageCounter: nat): PassphraseAction
    requires pageCounter < s.choicePage.factory.Count()
  {
    s.choicePage.factory.Get(pageCounter).1
  }

  /** What choosing an item with `action` does to a state whose shown passphrase is hidden. */
  function Apply(s: EntryState, action: PassphraseAction): (EntryState, Option<PassphraseEntryMsg>)
  {
    match action
    case CancelOrDelete =>
      if s.textbox == [] then (s, Some(Cancelled))
      else
        var s2 := s.(textbox := DeletedLast(s.textbox));
        if s2.textbox == [] then
          var s3 := s2.(menuPosition := CANCEL_DELETE_INDEX);
          (s3.(choicePage := s3.MenuPage()), None)
        else (s2, None)
    case Enter => (s, Some(Confirmed))
    case Show => (s.(showPlainPassphrase := true), None)
    case Category(category) =>
      var s2 := s.(menuPosition := s.choicePage.pageCounter, currentCategory := category);
      (s2.(choicePage := s2.CategoryPage()), None)
    case Menu =>
      var s2 := s.(currentCategory := ChoiceCategory.Menu);
      (s2.(choicePage := s2.MenuPage()), None)
    case Character(ch) =>
      (s.(textbox := Appended(s.textbox, MAX_PASSPHRASE_LENGTH, ch)), None)
  }

  /**
   * One event: a shown passphrase is hidden, the choice page is left at
   * `pageCounter`, and when its item was `chosen` that item's action is
   * carried out.
   */
  function Step(s: EntryState, pageCounter: nat, chosen: bool): (EntryState, Option<PassphraseEntryMsg>)
    requires pageCounter < s.choicePage.factory.Count()
  {
    var s1 := s.(showPlainPassphrase := false, choicePage := s.choicePage.SetPageCounter(pageCounter));
    if !chosen then (s1, None) else Apply(s1, ActionAt(s, pageCounter))
  }

  /** Every event keeps the state valid: bounded passphrase, consistent category, index in range. */
  lemma StepKeepsValid(s: EntryState, pageCounter: nat, chosen: bool)
    requires s.Valid() && pageCounter < s.choicePage.factory.Count()
    ensures Step(s, pageCounter, chosen).0.Valid()
  {
    if chosen {
      ActionOrigin(s.choicePage.factory, pageCounter);
    }
  }

  /**
   * Messages: CANCEL/DELETE on an empty passphrase cancels, ENTER
   * confirms, and nothing else returns a message. Every event hides a
   * shown passphrase, and only SHOW shows it.
   */
  lemma StepMessages(s: EntryState, pageCounter: nat, chosen: bool)
    requires pageCounter < s.choicePage.factory.Count()
    ensures var (s', msg) := Step(s, pageCounter, chosen);
      && (msg == Some(Cancelled) <==> chosen && ActionAt(s, pageCounter).CancelOrDelete? && s.textbox == [])
      && (msg == Some(Confirmed) <==> chosen && ActionAt(s, pageCounter).Enter?)
      && (s'.showPlainPassphrase <==> chosen && ActionAt(s, pageCounter).Show?)
  {
  }

  /**
   * The passphrase changes only by CANCEL/DELETE, which deletes its last
   * character, or by a character, which is appended unless the passphrase
   * already has 50 characters.
   */
  lemma StepEditsPassphrase(s: EntryState, pageCounter: nat, chosen: bool)
    requires pageCounter < s.choicePage.factory.Count()
    ensures var s' := Step(s, pageCounter, chosen).0;
      && (chosen && ActionAt(s, pageCounter).CancelOrDelete? ==> s'.textbox == DeletedLast(s.textbox))
      && (chosen && ActionAt(s, pageCounter).Character? ==>
            s'.textbox == Appended(s.textbox, MAX_PASSPHRASE_LENGTH, ActionAt(s, pageCounter).ch))
      && (!chosen || !(ActionAt(s, pageCounter).CancelOrDelete? || ActionAt(s, pageCounter).Character?) ==>
            s'.textbox == s.textbox)
  {
  }

  /**
   * Moving between the menu and the categories: a category remembers the
   * menu position it was opened from and starts at its first character;
   * BACK returns to the menu at that position; deleting the last
   * character re-shows the menu at CANCEL/DELETE, now reading CANCEL.
   */
  lemma StepNavigates(s: EntryState, pageCounter: nat)
    requires pageCounter < s.choicePage.factory.Count()
    ensures var s' := Step(s, pageCounter, true).0;
      && (ActionAt(s, pageCounter).Category? ==>
            && s'.menuPosition == pageCounter && s'.currentCategory == ActionAt(s, pageCounter).category
            && s'.choicePage.factory.currentCategory == ActionAt(s, pageCounter).category
            && s'.choicePage.pageCounter == 0)
      && (ActionAt(s, pageCounter).Menu? ==>
            && s'.currentCategory == ChoiceCategory.Menu && s'.menuPosition == s.menuPosition
            && s'.choicePage.pageCounter == s.menuPosition)
      && (ActionAt(s, pageCounter).CancelOrDelete? && |s.textbox| == 1 ==>
            && s'.textbox == [] && s'.menuPosition == CANCEL_DELETE_INDEX
            && s'.choicePage.pageCounter == CANCEL_DELETE_INDEX
            && s'.choicePage.factory.Get(CANCEL_DELETE_INDEX).0.text == "CANCEL")
  {
    if ActionAt(s, pageCounter).CancelOrDelete? && |s.textbox| == 1 {
      MenuItems(ChoiceFactoryPassphrase(ChoiceCategory.Menu, true), CANCEL_DELETE_INDEX);
    }
  }

  /**
   * Typing SPACE from the menu of a fresh entry types the space but keeps
   * the menu built for an empty passphrase: its item 1 still reads CANCEL,
   * although choosing it now deletes. The menu is rebuilt only when it is
   * shown again.
   */
  lemma SpaceFromFreshMenu()
    ensures var s' := Step(InitialState(), SPACE_INDEX, true).0;
      && s'.textbox == " "
      && s'.choicePage.factory.Get(CANCEL_DELETE_INDEX).0.text == "CANCEL"
      && ActionAt(s', CANCEL_DELETE_INDEX).CancelOrDelete?
      && Step(s', CANCEL_DELETE_INDEX, true).0.textbox == []
  {
    var s' := Step(InitialState(), SPACE_INDEX, true).0;
    MenuItems(s'.choicePage.factory, CANCEL_DELETE_INDEX);
  }

  // ---------------------------------------------------------------------
  // The entry component
  // ---------------------------------------------------------------------

  class PassphraseEntry {
    var choicePage: ChoicePage<ChoiceFactoryPassphrase>
    /** The text of the passphrase line. */
    var passphraseDots: string
    var showPlainPassphrase: bool
    var textbox: string
    var currentCategory: ChoiceCategory
    /** Position in the menu to return to. */
    var menuPosition: nat

    ghost function State(): EntryState
      reads this
    {
      EntryState(choicePage, showPlainPassphrase, textbox, currentCategory, menuPosition)
    }

    ghost predicate Valid()
      reads this
    {
      State().Valid() && passphraseDots == DotsText(textbox, showPlainPassphrase)
    }

    constructor ()
      ensures Valid() && State() == InitialState() && passphraseDots == []
    {
      choicePage := ChoicePage.New(ChoiceFactoryPassphrase(ChoiceCategory.Menu, true))
        .WithCarousel(true)
        .WithInitialPageCounter(LOWERCASE_INDEX);
      passphraseDots := [];
      showPlainPassphrase := false;
      textbox := [];
      currentCategory := ChoiceCategory.Menu;
      menuPosition := 0;
    }

    /** Rebuilds the passphrase line: the passphrase, or as many '*' as it has characters. */
    method UpdatePassphraseDots()
      modifies this`passphraseDots
      ensures passphraseDots == DotsText(textbox, showPlainPassphrase)
    {
      if showPlainPassphrase {
        passphraseDots := textbox;
      } else {
        var dots := "";
        for i := 0 to |textbox|
          invariant dots == Mask(i)
        {
          dots := dots + "*";
        }
        passphraseDots := dots;
      }
    }

    method AppendChar(ch: char)
      modifies this`textbox
      ensures textbox == Appended(old(textbox), MAX_PASSPHRASE_LENGTH, ch)
    {
      textbox := Appended(textbox, MAX_PASSPHRASE_LENGTH, ch);
    }

    method DeleteLastDigit()
      modifies this`textbox
      ensures textbox == DeletedLast(old(textbox))
    {
      textbox := DeletedLast(textbox);
    }

    /** Shows the menu at the remembered position. */
    method ShowMenuPage()
      modifies this`choicePage
      ensures choicePage == old(State()).MenuPage()
    {
      var menuChoices := ChoiceFactoryPassphrase(ChoiceCategory.Menu, IsEmpty());
      choicePage := choicePage.Reset(menuChoices, Some(menuPosition), true);
    }

    /** Shows the current category from its first character. */
    method ShowCategoryPage()
      modifies this`choicePage
      ensures choicePage == old(State()).CategoryPage()
    {
      var categoryChoices := ChoiceFactoryPassphrase(currentCategory, IsEmpty());
      choicePage := choicePage.Reset(categoryChoices, Some(0), true);
    }

    function Passphrase(): string
      reads this
    {
      textbox
    }

    predicate IsEmpty()
      reads this
    {
      textbox == []
    }

    predicate IsFull()
      reads this
    {
      |textbox| >= MAX_PASSPHRASE_LENGTH
    }

    /** Carries out the action of the chosen item, once a shown passphrase is hidden. */
    method ApplyAction(action: PassphraseAction) returns (msg: Option<PassphraseEntryMsg>)
      requires passphraseDots == DotsText(textbox, showPlainPassphrase)
      modifies this
      ensures passphraseDots == DotsText(textbox, showPlainPassphrase)
      ensures (State(), msg) == Apply(old(State()), action)
    {
      match action {
        case CancelOrDelete =>
          if IsEmpty() {
            return Some(Cancelled);
          }
          DeleteLastDigit();
          UpdatePassphraseDots();
          if IsEmpty() {
            menuPosition := CANCEL_DELETE_INDEX;
            ShowMenuPage();
          }
        case Enter =>
          return Some(Confirmed);
        case Show =>
          showPlainPassphrase := true;
          UpdatePassphraseDots();
        case Category(category) =>
          menuPosition := choicePage.PageIndex();
          currentCategory := category;
          ShowCategoryPage();
        case Menu =>
          currentCategory := ChoiceCategory.Menu;
          ShowMenuPage();
        case Character(ch) =>
          if !IsFull() {
            AppendChar(ch);
            UpdatePassphraseDots();
          }
      }
      return None;
    }

    /**
     * Handles one event. The choice page handles it first and is left at
     * `pageCounter`; when its item was `chosen`, the item's action is
     * carried out.
     */
    method Event(pageCounter: nat, chosen: bool) returns (msg: Option<PassphraseEntryMsg>)
      requires Valid() && pageCounter < choicePage.factory.Count()
      modifies this
      ensures Valid()
      ensures (State(), msg) == Step(old(State()), pageCounter, chosen)
    {
      StepKeepsValid(State(), pageCounter, chosen);
      ghost var s0 := State();
      if showPlainPassphrase {
        showPlainPassphrase := false;
        UpdatePassphraseDots();
      }
      // The choice page's own handling of the event.
      choicePage := choicePage.SetPageCounter(pageCounter);
      if !chosen {
        return None;
      }
      var (_, action) := choicePage.factory.Get(choicePage.PageIndex());
      assert action == ActionAt(s0, pageCounter);
      msg := ApplyAction(action);
    }
  }
}
