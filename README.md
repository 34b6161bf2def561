# Trezor Model R flows and input screens, in Dafny

This project models the navigation and text-entry layer of the Trezor
Model R user interface, together with two small pieces from the firmware
around it.

- **Pagination** (`pages.dfy`, after `flow_pages.rs`). A `Page` is a list of
  text operations that is too long for the screen. It is split into
  sub-pages by asking a layout engine where each sub-page overflows.
  `FlowPages` is the lazy list of pages a flow shows, built on demand by a
  factory function. Across the flow it sums the sub-page counts for the
  scrollbar.
- **Flow** (`navigation.dfy`, after `flow.rs`). A `Flow` holds the logical
  page counter, the current page and its sub-page cursor, the title, the
  scrollbar and the button layout. A button trigger either pages within
  the current page, or moves between pages (previous, next, first, last),
  or ends the flow with `Confirmed`, `ConfirmedIndex`, `Cancelled` or
  `Info`.
- **Choice items** (`choice_items.dfy`, after `choice_item.rs`). These are the
  entries of a horizontal choice carousel: text, optional icon, font, a
  button layout, and the width arithmetic that decides whether an item fits.
- **Entry screens** (`passphrase.dfy`, `pin.dfy`, `wordlist.dfy`,
  `simple_choice.dfy`, `number_input.dfy`). Each one pairs a choice factory
  (the items the carousel shows, and the action behind each item) with an
  entry state machine. The machine edits a text box, switches factories
  and returns a message.
  - Each stateful entry is a class whose fields follow the source struct.
  - Each one is also given a pure transition function `Step` over an
    `EntryState` value.
  - The class's `Event` method is proved to move exactly as `Step` says.
  - The properties of the entry are lemmas about `Step`.
  - `choice_common.dfy` holds the collaborators these share: the choice
    page, as the value an entry resets and moves, and the text-box edits.
- **Show more** (`show_more.dfy`, after `show_more.rs`). A cancel / confirm /
  info screen.
- **Device variant** (`device_variant.dfy`, after `device_variant.c`). It reads
  the colour and the Bitcoin-only flag from the one-time-programmable flash
  block.
- **Hello world** (`hello_world.dfy`, after `hello_world.py`). It builds the
  greeting text that the example app returns.

The text layout engine is a parameter. It is a function from content,
bounds and character offset to "fits" or "overflows after n characters",
and it is required to make progress (`TextLayout.Paginates`): an overflow
consumes at least one character. An engine that overflows after zero
characters makes the sub-page counting loop of `page_count`
(`core/embed/rust/src/ui/model_tr/component/flow_pages.rs:311-326`) run
forever; the model does not cover it. Under that assumption the model
proves these properties:

- Sub-page counting terminates and counts the restart chain.
- Changing to sub-page `k` lands on the start of that sub-page, and on
  the start of the last sub-page when `k` is too large.
- The button layout of a page follows its position among its sub-pages.

After a move within a page, the scrollbar is set to
`page_counter + sub_page` (`core/embed/rust/src/ui/model_tr/component/flow.rs:158-162`). This repeats a
position as soon as an earlier page has several sub-pages. `Flow` keeps
the position as written; see "## Findings".

## Model

| member | source | states |
|---|---|---|
| Pages.Restarts | core/embed/rust/src/ui/model_tr/component/flow_pages.rs:302-326 | the offsets at which the sub-pages of a page start: the first is the starting offset, none is smaller, and there are at most as many as characters left plus one |
| Pages.RestartChain | core/embed/rust/src/ui/model_tr/component/flow_pages.rs:315-325 | every sub-page but the last overflows, the next one starts where the previous one stopped (offset plus processed characters, strictly increasing), and the last one fits |
| Pages.SubPageCountBounds | core/embed/rust/src/ui/model_tr/component/flow_pages.rs:302-332 | a page has at least one sub-page and at most one more than it has characters |
| Pages.OffsetAfterFollowsChain | core/embed/rust/src/ui/model_tr/component/flow_pages.rs:334-359 | the offset `change_page(k)` reaches is the start of sub-page `min(k, count - 1)` of the restart chain |
| Pages.PaginationComplete | core/embed/rust/src/ui/model_tr/component/flow_pages.rs:334-359 | laying out from the offset of sub-page `k` fits exactly when `k` is the last sub-page |
| Pages.Page.constructor | core/embed/rust/src/ui/model_tr/component/flow_pages.rs:107-136 | a new page has no ops, no title, the given buttons and font, sub-page 0 of 1, and character offset 0 |
| Pages.Page.Build | core/embed/rust/src/ui/model_tr/component/flow_pages.rs:59-61 | a page rebuilt from its contents by the page factory starts at sub-page 0 of 1 at offset 0 |
| Pages.Page.WithTitle | core/embed/rust/src/ui/model_tr/component/flow_pages.rs:151-154 | sets the title and nothing else |
| Pages.Page.WithNewItem | core/embed/rust/src/ui/model_tr/component/flow_pages.rs:227-232 | appends the op while fewer than the capacity are held; a full page keeps its ops |
| Pages.Page.SetCharOffset | core/embed/rust/src/ui/model_tr/component/flow_pages.rs:286-288 | sets the character offset and nothing else |
| Pages.Page.CountPages | core/embed/rust/src/ui/model_tr/component/flow_pages.rs:302-332 | the loop returns the length of the restart chain from offset 0 (one plus the number of overflows) and leaves the offset at 0 |
| Pages.Page.ChangePage | core/embed/rust/src/ui/model_tr/component/flow_pages.rs:334-359 | the loop leaves the offset at the start of the requested sub-page, or of the last one when the content fits earlier |
| Pages.Page.Place | core/embed/rust/src/ui/model_tr/component/flow_pages.rs:161-165 | returns the bounds, stores them, sets the sub-page count for them, leaves the current sub-page and resets the offset to 0 |
| Pages.Page.BtnLayout | core/embed/rust/src/ui/model_tr/component/flow_pages.rs:167-191 | with a next sub-page the middle button is hidden and the right one is the wide down arrow; the left one is the narrow up arrow on the last of several sub-pages, the wide one in between, and the page's own otherwise |
| Pages.Page.GoToPrevPage | core/embed/rust/src/ui/model_tr/component/flow_pages.rs:209-211 | moves one sub-page back and changes nothing else |
| Pages.Page.GoToNextPage | core/embed/rust/src/ui/model_tr/component/flow_pages.rs:213-215 | moves one sub-page forward and changes nothing else |
| Pages.SingleSubPageKeepsLayout | core/embed/rust/src/ui/model_tr/component/flow_pages.rs:167-191 | a page with a single sub-page shows exactly its own buttons |
| Pages.FlowPages.Get | core/embed/rust/src/ui/model_tr/component/flow_pages.rs:59-61 | returns a fresh page holding the factory's contents for that index |
| Pages.FlowPages.SubPagesBefore | core/embed/rust/src/ui/model_tr/component/flow_pages.rs:76-84 | the sum of the sub-page counts of the pages before `i` is at least `i` |
| Pages.FlowPages.ScrollbarPageIndex | core/embed/rust/src/ui/model_tr/component/flow_pages.rs:76-84 | the loop places each earlier page and sums their sub-page counts |
| Pages.FlowPages.ScrollbarPageCount | core/embed/rust/src/ui/model_tr/component/flow_pages.rs:70-72 | the total is the scrollbar index after the last page |
| Pages.SubPagesBeforeSplit | core/embed/rust/src/ui/model_tr/component/flow_pages.rs:76-84 | the scrollbar index grows by at least one per page |
| Pages.SubPagesBeforeIsIndexIff | core/embed/rust/src/ui/model_tr/component/flow_pages.rs:76-84 | the scrollbar index of page `i` equals `i` exactly when every earlier page has one sub-page |
| Navigation.ActionKinds | core/embed/rust/src/ui/model_tr/component/flow.rs:243-275 | an action either moves between pages, ends the flow with a message, or does nothing, never two of these; Confirm returns the page index exactly when asked to |
| Navigation.PageTargetInRange | core/embed/rust/src/ui/model_tr/component/flow.rs:115-137 | on a flow whose pages only offer moves that exist, every page move stays within the flow |
| Navigation.InnerScrollbarIntendedInRange | core/embed/rust/src/ui/model_tr/component/flow.rs:90-95 | the scrollbar position of sub-page `i` of page `p`, counted as intended, lies within the positions of page `p` |
| Navigation.InnerScrollbarIntendedInjective | core/embed/rust/src/ui/model_tr/component/flow.rs:90-95 | counted as intended, no two sub-pages of the flow share a scrollbar position |
| Navigation.InnerScrollbarAsWrittenAgreesIff | core/embed/rust/src/ui/model_tr/component/flow.rs:158-162 | the position after a move within a page is never past the intended one, and equals it exactly when every earlier page has one sub-page |
| Navigation.TwoSubPageFlow | core/embed/rust/src/ui/model_tr/component/flow.rs:158-162 | a flow of three pages, each holding a two-character text that its layout engine splits after one character; it is a valid flow |
| Navigation.ScrollbarStallsExample | core/embed/rust/src/ui/model_tr/component/flow.rs:158-162 | on that flow, moving to the second sub-page of page 1 puts the scrollbar at 2, the position of page 1's first sub-page, instead of 3 |
| Navigation.Flow.constructor | core/embed/rust/src/ui/model_tr/component/flow.rs:47-64 | a new flow stands at page 0 with a fresh copy of it, no title, no buttons yet and does not return indices |
| Navigation.Flow.WithCommonTitle | core/embed/rust/src/ui/model_tr/component/flow.rs:68-71 | sets the common title |
| Navigation.Flow.WithReturnConfirmedIndex | core/embed/rust/src/ui/model_tr/component/flow.rs:74-77 | makes Confirm return the page index |
| Navigation.Flow.ChangeCurrentPage | core/embed/rust/src/ui/model_tr/component/flow.rs:82-96 | builds a fresh current page for the page counter, takes its title when the flow has one, and moves the scrollbar to the sum of the earlier pages' sub-pages |
| Navigation.Flow.SetButtons | core/embed/rust/src/ui/model_tr/component/flow.rs:149-154 | shows the current page's button layout |
| Navigation.Flow.Update | core/embed/rust/src/ui/model_tr/component/flow.rs:99-107 | optionally rebuilds the current page, then places it in the content area and shows its buttons; the page counter is kept |
| Navigation.Flow.GoToPrevPage | core/embed/rust/src/ui/model_tr/component/flow.rs:116-119 | the page counter decreases by one and the new page is shown from its start; the title is taken from the new page when the flow has one, the scrollbar moves to the page's first sub-page and keeps its size |
| Navigation.Flow.GoToNextPage | core/embed/rust/src/ui/model_tr/component/flow.rs:122-125 | the page counter increases by one and the new page is shown from its start; title and scrollbar follow as for the previous page |
| Navigation.Flow.GoToFirstPage | core/embed/rust/src/ui/model_tr/component/flow.rs:128-131 | the page counter becomes 0, the first page is shown from its start and the scrollbar returns to 0; title as for the previous page |
| Navigation.Flow.GoToLastPage | core/embed/rust/src/ui/model_tr/component/flow.rs:134-137 | the page counter becomes the last page, shown from its start; title and scrollbar follow as for the previous page |
| Navigation.Flow.UpdateAfterCurrentChoiceInnerChange | core/embed/rust/src/ui/model_tr/component/flow.rs:158-166 | keeps the page, title and content area, sets the scrollbar to page counter plus sub-page as written, re-places the page and shows its buttons |
| Navigation.Flow.EventConsumedByCurrentChoice | core/embed/rust/src/ui/model_tr/component/flow.rs:169-181 | Left with an earlier sub-page or Right with a later one moves within the page, keeps page, title and content area, and reports the event consumed; anything else changes nothing |
| Navigation.Flow.Place | core/embed/rust/src/ui/model_tr/component/flow.rs:191-224 | stores the content area, sizes the scrollbar to all sub-pages of the flow at position 0, places the current page and shows its buttons; the page, title and index flag are kept |
| Navigation.Flow.Event | core/embed/rust/src/ui/model_tr/component/flow.rs:227-276 | paging within the page comes first, returns nothing and changes only the sub-page and the scrollbar position; otherwise the page's action moves between pages and returns nothing, Cancel, Confirm and Info return their message without moving, and Select, custom actions and unassigned buttons change nothing |
| ChoiceItems.ChoiceItem.New | core/embed/rust/src/ui/model_tr/component/input_methods/choice_item.rs:34-45 | a new item has the text and buttons given, no icon and the choice-item font |
| ChoiceItems.ChoiceItem.WithIcon | core/embed/rust/src/ui/model_tr/component/input_methods/choice_item.rs:47-51 | sets the icon and nothing else |
| ChoiceItems.ChoiceItem.WithFont | core/embed/rust/src/ui/model_tr/component/input_methods/choice_item.rs:53-56 | sets the font and nothing else |
| ChoiceItems.ChoiceItem.PaintLeft | core/embed/rust/src/ui/model_tr/component/input_methods/choice_item.rs:209-225 | reports the side width exactly when the item fits, whether or not incomplete items are drawn |
| ChoiceItems.ChoiceItem.PaintRight | core/embed/rust/src/ui/model_tr/component/input_methods/choice_item.rs:227-242 | as on the left |
| ChoiceItems.ChoiceItem.SetLeftBtn | core/embed/rust/src/ui/model_tr/component/input_methods/choice_item.rs:145-148 | replaces the left button only |
| ChoiceItems.ChoiceItem.SetMiddleBtn | core/embed/rust/src/ui/model_tr/component/input_methods/choice_item.rs:150-153 | replaces the middle button only |
| ChoiceItems.ChoiceItem.SetRightBtn | core/embed/rust/src/ui/model_tr/component/input_methods/choice_item.rs:155-158 | replaces the right button only |
| ChoiceItems.ChoiceItem.SetText | core/embed/rust/src/ui/model_tr/component/input_methods/choice_item.rs:160-162 | replaces the text only |
| ChoiceItems.CenterWidthCoversSide | core/embed/rust/src/ui/model_tr/component/input_methods/choice_item.rs:82-88 | with an icon, the centred width is the side width (the icon) plus padding plus the text width; without one the two widths are equal; the centred width is never the smaller one |
| ChoiceItems.PaintSidesAgree | core/embed/rust/src/ui/model_tr/component/input_methods/choice_item.rs:91-93 | an item that fits an area fits any wider one, and whether incomplete items are drawn does not change what is reported |
| ChoiceItems.SetButtonsAreIndependent | core/embed/rust/src/ui/model_tr/component/input_methods/choice_item.rs:145-158 | setting one button slot leaves the other two unchanged |
| ChoiceCommon.ChoicePage.New | core/embed/rust/src/ui/model_tr/component/input_methods/passphrase.rs:240-242 | a new choice page stands at item 0 without carousel or incomplete items |
| ChoiceCommon.ChoicePage.Reset | core/embed/rust/src/ui/model_tr/component/input_methods/passphrase.rs:276-287 | shows the new factory and moves to the given index, or stays where it is |
| ChoiceCommon.Appended | core/embed/rust/src/ui/model_tr/component/input_methods/passphrase.rs:267-269 | appending to a text box with room adds the character at the end; a full box is unchanged |
| ChoiceCommon.DeletedLast | core/embed/rust/src/ui/model_tr/component/input_methods/passphrase.rs:271-273 | deleting removes exactly the last character; an empty box stays empty |
| ChoiceCommon.DeleteUndoesAppend | core/embed/rust/src/ui/model_tr/component/input_methods/passphrase.rs:267-273 | deleting right after appending restores the text |
| ChoiceCommon.Mask | core/embed/rust/src/ui/model_tr/component/input_methods/passphrase.rs:255-259 | `n` asterisks |
| ChoiceCommon.MaskPrefix | core/embed/rust/src/ui/model_tr/component/input_methods/passphrase.rs:255-259 | the mask of a shorter secret is a prefix of the mask of a longer one |
| Passphrase.GetCategoryFromMenu | core/embed/rust/src/ui/model_tr/component/input_methods/passphrase.rs:116-125 | menu items 3 to 6 open the lowercase, uppercase, digit and symbol categories, matching their menu actions |
| Passphrase.CountByCategory | core/embed/rust/src/ui/model_tr/component/input_methods/passphrase.rs:128-136 | the menu has 8 items, the categories 27, 27, 11 and 32 counting the way back |
| Passphrase.CharacterItems | core/embed/rust/src/ui/model_tr/component/input_methods/passphrase.rs:139-145 | in a category, an item leads back to the menu exactly at the category length; every earlier item types and shows its character |
| Passphrase.MenuItems | core/embed/rust/src/ui/model_tr/component/input_methods/passphrase.rs:162-189 | menu item 1 reads CANCEL on an empty passphrase and DELETE otherwise; the three action items have a CONFIRM middle button |
| Passphrase.ActionOrigin | core/embed/rust/src/ui/model_tr/component/input_methods/passphrase.rs:211-225 | only the menu offers the actions and categories; only a category offers BACK |
| Passphrase.DotsText | core/embed/rust/src/ui/model_tr/component/input_methods/passphrase.rs:251-265 | the passphrase line shows the passphrase, or as many asterisks as it has characters |
| Passphrase.InitialState | core/embed/rust/src/ui/model_tr/component/input_methods/passphrase.rs:238-249 | the entry starts in the menu at "abc" with an empty passphrase, menu position 0 and nothing shown, and is valid |
| Passphrase.StepKeepsValid | core/embed/rust/src/ui/model_tr/component/input_methods/passphrase.rs:313-365 | every event keeps the passphrase within 50 characters, the category and the index consistent with the choice page |
| Passphrase.StepMessages | core/embed/rust/src/ui/model_tr/component/input_methods/passphrase.rs:313-365 | cancels exactly on CANCEL with an empty passphrase, confirms exactly on ENTER; the passphrase is shown after an event exactly when SHOW was chosen |
| Passphrase.StepEditsPassphrase | core/embed/rust/src/ui/model_tr/component/input_methods/passphrase.rs:322-360 | CANCEL/DELETE deletes the last character, a character is appended unless 50 are typed, and nothing else edits the passphrase |
| Passphrase.StepNavigates | core/embed/rust/src/ui/model_tr/component/input_methods/passphrase.rs:276-287 | a category remembers the menu position and starts at its first character; BACK returns to the menu position; deleting the last character shows the menu at item 1, now reading CANCEL |
| Passphrase.SpaceFromFreshMenu | core/embed/rust/src/ui/model_tr/component/input_methods/passphrase.rs:355-360 | typing SPACE from the fresh menu keeps the menu built for an empty passphrase: item 1 still reads CANCEL although it now deletes |
| Passphrase.PassphraseEntry.constructor | core/embed/rust/src/ui/model_tr/component/input_methods/passphrase.rs:238-249 | the entry starts in its initial state with an empty passphrase line |
| Passphrase.PassphraseEntry.UpdatePassphraseDots | core/embed/rust/src/ui/model_tr/component/input_methods/passphrase.rs:251-265 | the loop builds the line shown for the passphrase |
| Passphrase.PassphraseEntry.AppendChar | core/embed/rust/src/ui/model_tr/component/input_methods/passphrase.rs:267-269 | appends to the text box |
| Passphrase.PassphraseEntry.DeleteLastDigit | core/embed/rust/src/ui/model_tr/component/input_methods/passphrase.rs:271-273 | deletes the last character of the text box |
| Passphrase.PassphraseEntry.ShowMenuPage | core/embed/rust/src/ui/model_tr/component/input_methods/passphrase.rs:276-282 | shows the menu at the remembered position, built for the current emptiness |
| Passphrase.PassphraseEntry.ShowCategoryPage | core/embed/rust/src/ui/model_tr/component/input_methods/passphrase.rs:284-287 | shows the current category from its first item |
| Passphrase.PassphraseEntry.ApplyAction | core/embed/rust/src/ui/model_tr/component/input_methods/passphrase.rs:321-362 | carries out the chosen action as the transition function does, keeping the line in step |
| Passphrase.PassphraseEntry.Event | core/embed/rust/src/ui/model_tr/component/input_methods/passphrase.rs:313-365 | the entry moves by the transition function and stays valid |
| Pin.ChoiceFactoryPin.Count | core/embed/rust/src/ui/model_tr/component/input_methods/pin.rs:86-88 | 13 items, one per entry of the choice table |
| Pin.PinItems | core/embed/rust/src/ui/model_tr/component/input_methods/pin.rs:58-84 | items 0 to 2 are DELETE, SHOW and ENTER with a CONFIRM middle button and their icons; items 3 to 12 are the digits 0 to 9 with the default buttons |
| Pin.HeaderText | core/embed/rust/src/ui/model_tr/component/input_methods/pin.rs:145-158 | the header is the prompt on an empty PIN, the PIN when shown, and otherwise one asterisk per digit |
| Pin.InitialState | core/embed/rust/src/ui/model_tr/component/input_methods/pin.rs:108-124 | the entry starts at the digit 0 with an empty PIN not shown, and is valid |
| Pin.StepKeepsValid | core/embed/rust/src/ui/model_tr/component/input_methods/pin.rs:203-241 | every event keeps the PIN within 50 digits and the index among the 13 items |
| Pin.StepMessages | core/embed/rust/src/ui/model_tr/component/input_methods/pin.rs:203-241 | only ENTER returns a message, Confirmed; the entry never cancels; the PIN is shown after an event exactly when SHOW was chosen |
| Pin.StepEditsPin | core/embed/rust/src/ui/model_tr/component/input_methods/pin.rs:213-237 | DELETE removes the last digit; a digit is appended below 50 digits and the carousel moves to the random index; a full PIN changes nothing; SHOW and ENTER keep the PIN |
| Pin.PinEntry.constructor | core/embed/rust/src/ui/model_tr/component/input_methods/pin.rs:108-124 | the entry starts in its initial state with the prompt in the header and the sub-prompt shown |
| Pin.PinEntry.UpdateHeaderInfo | core/embed/rust/src/ui/model_tr/component/input_methods/pin.rs:145-171 | the loop builds the header, and the sub-prompt is shown exactly on an empty PIN |
| Pin.PinEntry.ApplyChoice | core/embed/rust/src/ui/model_tr/component/input_methods/pin.rs:213-237 | carries out the chosen item as the transition function does; after a digit the index is another digit |
| Pin.PinEntry.Event | core/embed/rust/src/ui/model_tr/component/input_methods/pin.rs:203-241 | the entry moves by the transition function, stays valid, and after a digit stands at a different digit in 3 to 12 |
| Wordlist.FilterPrefix | core/embed/rust/src/ui/model_tr/component/input_methods/wordlist.rs:160-162 | keeps exactly the words starting with the prefix |
| Wordlist.FilterPrefixNarrows | core/embed/rust/src/ui/model_tr/component/input_methods/wordlist.rs:160-162 | narrowing a narrowed list by a longer prefix equals narrowing the whole list by it |
| Wordlist.FilterEmptyPrefix | core/embed/rust/src/ui/model_tr/component/input_methods/wordlist.rs:130-133 | the empty prefix keeps every word |
| Wordlist.LettersFrom | core/embed/rust/src/ui/model_tr/component/input_methods/wordlist.rs:172-175 | keeps exactly the letters with which some word continues the prefix |
| Wordlist.AvailableLetters | core/embed/rust/src/ui/model_tr/component/input_methods/wordlist.rs:172-175 | the letters offered are exactly those of the alphabet that continue the prefix, at most 26 |
| Wordlist.OfferedLetterKeepsAWord | core/embed/rust/src/ui/model_tr/component/input_methods/wordlist.rs:249-256 | choosing an offered letter leaves at least one word |
| Wordlist.ChoiceFactoryWordlist.Count | core/embed/rust/src/ui/model_tr/component/input_methods/wordlist.rs:59-65 | one item per letter or word plus DELETE |
| Wordlist.WordlistItems | core/embed/rust/src/ui/model_tr/component/input_methods/wordlist.rs:78-109 | item 0 is DELETE; later items show the choice before them; among words only the last lacks a right button |
| Wordlist.InitialState | core/embed/rust/src/ui/model_tr/component/input_methods/wordlist.rs:130-149 | the entry starts with the letters of the whole list, at index 1, and is valid |
| Wordlist.UpdateKeepsValid | core/embed/rust/src/ui/model_tr/component/input_methods/wordlist.rs:160-192 | re-narrowing after the text grew, or after restoring the whole list, gives a valid state |
| Wordlist.StepKeepsValid | core/embed/rust/src/ui/model_tr/component/input_methods/wordlist.rs:236-261 | every event keeps the list narrowed by the text, and words offered exactly below ten |
| Wordlist.StepResetsChoices | core/embed/rust/src/ui/model_tr/component/input_methods/wordlist.rs:181-192 | after DELETE or a letter the choices restart at index 1, wrap around exactly for letters, and words are offered exactly when fewer than ten start with the text |
| Wordlist.StepReturnsWord | core/embed/rust/src/ui/model_tr/component/input_methods/wordlist.rs:245-252 | a message comes exactly when a word is chosen; its index names the word the chosen item shows |
| Wordlist.WordOf | core/embed/rust/src/ui/model_tr/component/input_methods/wordlist.rs:217-219 | the word at the index, or the empty word when there is none |
| Wordlist.WordlistEntry.constructor | core/embed/rust/src/ui/model_tr/component/input_methods/wordlist.rs:130-149 | the entry starts in its initial state with only the prompt on the line |
| Wordlist.WordlistEntry.GetCurrentChoices | core/embed/rust/src/ui/model_tr/component/input_methods/wordlist.rs:160-178 | narrows the list and returns words or letters |
| Wordlist.WordlistEntry.UpdateChosenLetters | core/embed/rust/src/ui/model_tr/component/input_methods/wordlist.rs:196-202 | the line is the text followed by the prompt |
| Wordlist.WordlistEntry.Update | core/embed/rust/src/ui/model_tr/component/input_methods/wordlist.rs:181-193 | re-narrows and resets the choice page |
| Wordlist.WordlistEntry.Event | core/embed/rust/src/ui/model_tr/component/input_methods/wordlist.rs:236-261 | the entry moves by the transition function and stays valid |
| SimpleChoice.ChoiceFactorySimple.Count | core/embed/rust/src/ui/model_tr/component/input_methods/simple_choice.rs:37-39 | one item per choice |
| SimpleChoice.SimpleItems | core/embed/rust/src/ui/model_tr/component/input_methods/simple_choice.rs:41-57 | each item shows its string; an arrow is missing exactly at an end of a list that does not wrap around |
| SimpleChoice.SimpleChoice.New | core/embed/rust/src/ui/model_tr/component/input_methods/simple_choice.rs:75-82 | at most 5 choices, standing at the first, returning strings |
| SimpleChoice.SimpleChoice.WithShowIncomplete | core/embed/rust/src/ui/model_tr/component/input_methods/simple_choice.rs:91-94 | shows incomplete items and changes nothing else |
| SimpleChoice.SimpleChoice.WithReturnIndex | core/embed/rust/src/ui/model_tr/component/input_methods/simple_choice.rs:97-100 | asks for indices and changes nothing else |
| SimpleChoice.SimpleChoice.Event | core/embed/rust/src/ui/model_tr/component/input_methods/simple_choice.rs:118-125 | a chosen index comes back as the result index; anything else gives nothing |
| SimpleChoice.ResultIsChosenItem | core/embed/rust/src/ui/model_tr/component/input_methods/simple_choice.rs:103-105 | the returned index names the string the chosen item shows |
| SimpleChoice.ReturnIndexFlag | core/embed/rust/src/ui/model_tr/component/input_methods/simple_choice.rs:75-100 | a new choice returns strings until told to return indices |
| NumberInput.DecimalText | core/embed/rust/src/ui/model_tr/component/input_methods/number_input.rs:28-29 | the text of a number is a non-empty string of decimal digits |
| NumberInput.DecimalRoundTrip | core/embed/rust/src/ui/model_tr/component/input_methods/number_input.rs:28-29 | reading the text back gives the number |
| NumberInput.DecimalTextLength | core/embed/rust/src/ui/model_tr/component/input_methods/number_input.rs:28-29 | a number below 10^k has at most k digits |
| NumberInput.U32TextFits | core/embed/rust/src/ui/model_tr/component/input_methods/number_input.rs:28-29 | every u32 fits the ten-character text |
| NumberInput.ChoiceFactoryNumberInput.Count | core/embed/rust/src/ui/model_tr/component/input_methods/number_input.rs:23-25 | max - min + 1 items |
| NumberInput.NumberItems | core/embed/rust/src/ui/model_tr/component/input_methods/number_input.rs:27-42 | item `i` returns `min + i`, within the range, shows it in decimal; the first item has no left button and the last no right one |
| NumberInput.NumberItemsCoverRange | core/embed/rust/src/ui/model_tr/component/input_methods/number_input.rs:27-42 | every number of the range is returned by exactly one item |
| NumberInput.NumberInput.New | core/embed/rust/src/ui/model_tr/component/input_methods/number_input.rs:53-59 | the input stands at `init - min` |
| NumberInput.NumberInput.Event | core/embed/rust/src/ui/model_tr/component/input_methods/number_input.rs:70-72 | a chosen item gives its number, `min` plus the index |
| NumberInput.StartsAtInitialValue | core/embed/rust/src/ui/model_tr/component/input_methods/number_input.rs:53-59 | choosing at once returns the initial value |
| ShowMore.Event | core/embed/rust/src/ui/model_tr/component/show_more.rs:54-71 | a message comes exactly when a button was triggered |
| ShowMore.MessagesMatchButtons | core/embed/rust/src/ui/model_tr/component/show_more.rs:30-36 | left (the cancel icon) cancels, middle (CONFIRM) confirms, right ("i") asks for info, and no two buttons give the same message |
| DeviceVariant.DeviceVariant.constructor | core/embed/lib/device_variant.c:4-6 | before init the colour is 0, not Bitcoin-only, not present |
| DeviceVariant.DeviceVariant.Variant0x01 | core/embed/lib/device_variant.c:8-12 | colour from byte 1, Bitcoin-only exactly when byte 2 is 1, present |
| DeviceVariant.DeviceVariant.Init | core/embed/lib/device_variant.c:14-29 | a version 0x01 block sets all three; a failed read or another version changes nothing |
| DeviceVariant.DeviceVariant.GetColor | core/embed/lib/device_variant.c:31 | returns the colour |
| DeviceVariant.DeviceVariant.GetBtconly | core/embed/lib/device_variant.c:33 | returns the Bitcoin-only flag |
| DeviceVariant.DeviceVariant.Present | core/embed/lib/device_variant.c:35 | returns whether a variant was read |
| HelloWorld.Greeting | core/src/apps/misc/hello_world.py:25 | one greeting line is the name and 8 more characters |
| HelloWorld.Repeat | core/src/apps/misc/hello_world.py:25 | `n` copies of a string have `n` times its length |
| HelloWorld.RepeatAt | core/src/apps/misc/hello_world.py:25 | copy `k` of the repetition is the string itself |
| HelloWorld.GetTextFromMsg | core/src/apps/misc/hello_world.py:24-25 | an amount of zero or less gives the empty text; otherwise the length is amount times (name length + 8) |
| HelloWorld.TextIsGreetings | core/src/apps/misc/hello_world.py:24-25 | every line of the text is the greeting |
| HelloWorld.HelloWorld | core/src/apps/misc/hello_world.py:11-21 | the response carries the text whether or not it was shown first |

## Left out

- Painting, fonts' glyph metrics, and the geometry inside `place` are left
  out: the title and button-row split, and the scrollbar's own drawing.
  Widths come from a `Metrics` parameter, and the content area is taken as
  given.
- The text layout engine (`core/embed/rust/src/ui/component/text/mod.rs` and the layout
  code it names) is not part of this model. It is the `Engine` parameter.
  The engine is not given the page's font or text style, so two pages
  that differ only in font paginate alike under one flow's engine.
  `with_line_breaking`, the text-building helpers of `Page`, `i16`
  widths and the `STRING_LEN` bound on texts are left out.
- Event context effects are left out: `ctx.set_page_count`, repaint
  requests, title events and debug tracing (`trace.rs`).
  `Flow.go_to_page_relative` is left out because nothing in the flow
  calls it.
- `frame.rs`, `mod.rs`, the display panel driver `LX154A2411.c`, and the
  message class `TxOutputType.py` are not part of this model. Neither is
  `flash.h`.
- `DeviceVariant`: `FLASH_OTP_BLOCK_SIZE` is taken to be 32. The flash read
  is a parameter, either the block or `None` when the read fails.
- `ChoicePage` (`choice.rs`) is not part of this model. It is reduced to its
  factory, current index, carousel and incomplete flags. The index an entry
  receives as chosen is an event parameter, and the carousel's scrolling,
  animation and `with_only_one_item` are left out.
- `TextBox` is not part of this model. Appending to a full box is taken
  to leave it unchanged, and deleting from an empty box is taken to do
  nothing.
- Choice-item setters (`set_left_btn` and the others) update an item in
  place in the source. They are modelled as functions returning the
  updated value, because every caller uses a local item.
- `Pages.Page.WithNewItem`: a push to a full page keeps the old items,
  as a release build does. In a debug-UI build the source panics there,
  and that panic is not modelled.
- `Navigation.PageTargetInRange`: the range property holds only for flows
  whose pages offer `PrevPage` only after the first page and `NextPage`
  only before the last. The source relies on the flow's author for that;
  `PrevPage` on page 0 would underflow the `usize` page counter
  (`core/embed/rust/src/ui/model_tr/component/flow.rs:117`), and `NextPage`
  on the last page would ask the factory for a page past the end.
- `Wordlist`: the BIP-39 and SLIP-39 word lists and their types are a
  parameter. The entry requires a list of at least ten words, as both
  real lists are.
- `Pin.StepKeepsValid`: the random digit shown after an append is a
  parameter. It is required to be another digit, as the random source
  promises.
- `NumberInput.ChoiceFactoryNumberInput.Count`: the model excludes the
  range from 0 to `u32::MAX`. There, `max - min + 1` overflows u32 in the
  source.
- `NumberInput.NumberInput.New`: requires `min <= init_value <= max`. The
  source subtracts without checking.
- `HelloWorld.HelloWorld`: the confirmation dialog is left out, and so is
  the user refusing it. The model returns the text the app builds.

## Findings

| source | as written | input that shows it | evidently intended | confidence | as-written member | corrected member |
|---|---|---|---|---|---|---|
| core/embed/rust/src/ui/model_tr/component/flow.rs:158-162 | after a move within the current page the scrollbar is set to `page_counter + inner_page` | three pages of two sub-pages each: moving to the second sub-page of page 1 gives 2, the position already shown for page 1's first sub-page | `scrollbar_page_index(page_counter) + inner_page`, which gives 3 | not executed | Navigation.ScrollbarStallsExample | Navigation.InnerScrollbarIntendedInjective |
