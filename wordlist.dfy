/**
 * Mnemonic word entry (BIP-39 or SLIP-39): the user picks letters until
 * fewer than ten words of the wordlist start with what was typed, and then
 * picks the word itself. Item 0 always deletes the last letter.
 *
 * The wordlist is data the entry is given: a sequence of words, narrowed by
 * prefix; its letters are offered in alphabetical order.
 */
module Wordlist {
  import opened Wrappers
  import opened Buttons
  import opened ChoiceItems
  import opened ChoiceCommon

  datatype WordlistEntryMsg = WordIndex(index: nat)

  const MAX_WORD_LENGTH: nat := 10
  const MAX_LETTERS_LENGTH: nat := 26
  /** Words are offered once fewer than this many are left. */
  const OFFER_WORDS_THRESHOLD: nat := 10
  const DELETE_INDEX: nat := 0
  /** Where every new set of choices starts: just after DELETE. */
  const INITIAL_PAGE_COUNTER: nat := 1
  const PROMPT: string := "_"
  const ALPHABET: string := "abcdefghijklmnopqrstuvwxyz"

  datatype WordlistType = Bip39 | Slip39

  // ---------------------------------------------------------------------
  // The wordlist
  // ---------------------------------------------------------------------

  /** The words of `words` that start with `prefix`, in their order. */
  function FilterPrefix(words: seq<string>, prefix: string): (r: seq<string>)
    ensures forall w :: w in r <==> w in words && prefix <= w
    ensures |r| <= |words|
  {
    if words == [] then []
    else
      var rest := FilterPrefix(words[1..], prefix);
      assert forall w :: w in words <==> w == words[0] || w in words[1..];
      if prefix <= words[0] then [words[0]] + rest else rest
  }

  /** Narrowing an already narrowed list by a longer prefix is narrowing the original list by it. */
  lemma {:induction false} FilterPrefixNarrows(words: seq<string>, prefix: string, longer: string)
    requires prefix <= longer
    ensures FilterPrefix(FilterPrefix(words, prefix), longer) == FilterPrefix(words, longer)
    decreases |words|
  {
    if words != [] {
      FilterPrefixNarrows(words[1..], prefix, longer);
      if longer <= words[0] {
        assert prefix <= words[0] by {
          assert words[0][..|prefix|] == longer[..|prefix|];
        }
      }
    }
  }

  /** The empty prefix keeps every word. */
  lemma {:induction false} FilterEmptyPrefix(words: seq<string>)
    ensures FilterPrefix(words, "") == words
    decreases |words|
  {
    if words != [] {
      FilterEmptyPrefix(words[1..]);
      assert [words[0]] + words[1..] == words;
    }
  }

  /** Whether some word of `words` continues `prefix` with `c`. */
  predicate Continues(words: seq<string>, prefix: string, c: char)
  {
    exists w :: w in words && prefix + [c] <= w
  }

  /** The letters of `letters`, in order, with which some word continues `prefix`. */
  function LettersFrom(words: seq<string>, prefix: string, letters: string): (r: string)
    ensures forall c :: c in r <==> c in letters && Continues(words, prefix, c)
    ensures |r| <= |letters|
  {
    if letters == [] then []
    else
      var rest := LettersFrom(words, prefix, letters[1..]);
      assert forall c :: c in letters <==> c == letters[0] || c in letters[1..];
      if Continues(words, prefix, letters[0]) then [letters[0]] + rest else rest
  }

  /** The letters that may follow `prefix`: at most the 26 of the alphabet, in order. */
  function AvailableLetters(words: seq<string>, prefix: string): (r: string)
    ensures forall c :: c in r <==> c in ALPHABET && Continues(words, prefix, c)
    ensures |r| <= MAX_LETTERS_LENGTH
  {
    LettersFrom(words, prefix, ALPHABET)
  }

  /**
   * A letter that was offered leads to at least one word: narrowing by the
   * prefix and the letter keeps the word that continued it.
   */
  lemma OfferedLetterKeepsAWord(words: seq<string>, prefix: string, c: char)
    requires c in AvailableLetters(words, prefix)
    ensures FilterPrefix(words, prefix + [c]) != []
  {
    var w :| w in words && prefix + [c] <= w;
    assert w in FilterPrefix(words, prefix + [c]);
  }

  // ---------------------------------------------------------------------
  // The factory
  // ---------------------------------------------------------------------

  /** Either letters or words are offered, after DELETE. */
  datatype ChoiceFactoryWordlist = Letters(letterChoices: string) | Words(wordChoices: seq<string>)
  {
    /** The number of items, DELETE included. */
    function Count(): (n: nat)
      ensures n >= 1
      ensures Letters? ==> n == |letterChoices| + 1
      ensures Words? ==> n == |wordChoices| + 1
    {
      match this
      case Letters(letterChoices) => |letterChoices| + 1
      case Words(wordChoices) => |wordChoices| + 1
    }

    function Get(choiceIndex: nat): ChoiceItem
      requires choiceIndex < Count()
    {
      match this
      case Letters(letterChoices) =>
        if choiceIndex == DELETE_INDEX then
          ChoiceItem.New("DELETE", ArrowArmedArrow("CONFIRM")).WithIcon(IconDelete)
        else
          ChoiceItem.New([letterChoices[choiceIndex - 1]], DefaultThreeIcons())
      case Words(wordChoices) =>
        if choiceIndex == DELETE_INDEX then
          ChoiceItem.New("DELETE", NoneArmedArrow("CONFIRM")).WithIcon(IconDelete)
        else
          var item := ChoiceItem.New(wordChoices[choiceIndex - 1], DefaultThreeIcons());
          if choiceIndex == Count() - 1 then item.SetRightBtn(None) else item
    }
  }

  /**
   * Item 0 is DELETE; every later item shows the choice before it; among
   * words only the last item has no right button, since words do not wrap
   * around.
   */
  lemma WordlistItems(f: ChoiceFactoryWordlist, i: nat)
    requires i < f.Count()
    ensures i == DELETE_INDEX ==> f.Get(i).text == "DELETE" && f.Get(i).icon == Some(IconDelete)
    ensures 0 < i && f.Letters? ==> f.Get(i).text == [f.letterChoices[i - 1]] && f.Get(i).btnLayout == DefaultThreeIcons()
    ensures 0 < i && f.Words? ==> f.Get(i).text == f.wordChoices[i - 1]
    ensures 0 < i && f.Words? ==> (f.Get(i).btnLayout.btnRight == None <==> i == f.Count() - 1)
  {
  }

  // ---------------------------------------------------------------------
  // The entry's state and its transition function
  // ---------------------------------------------------------------------

  datatype EntryState = EntryState(
    choicePage: ChoicePage<ChoiceFactoryWordlist>,
    letterChoices: string,
    textbox: string,
    offerWords: bool,
    wordsList: seq<string>)
  {
    /**
     * The list holds the words starting with what was typed; words are
     * offered exactly when fewer than ten are left, and otherwise the
     * letters that continue them.
     */
    ghost predicate Valid(allWords: seq<string>)
    {
      && |textbox| <= MAX_WORD_LENGTH
      && wordsList == FilterPrefix(allWords, textbox)
      && (offerWords <==> |wordsList| < OFFER_WORDS_THRESHOLD)
      && (offerWords ==> choicePage.factory == Words(wordsList))
      && (!offerWords ==>
            && letterChoices == AvailableLetters(wordsList, textbox)
            && choicePage.factory == Letters(letterChoices))
    }
  }

  /** The entry as it starts: letters of the whole wordlist, at the first letter. */
  function InitialState(allWords: seq<string>): (s: EntryState)
    requires |allWords| >= OFFER_WORDS_THRESHOLD
    ensures s.Valid(allWords)
  {
    FilterEmptyPrefix(allWords);
    var letterChoices := AvailableLetters(allWords, "");
    EntryState(
      ChoicePage.New(Letters(letterChoices)).WithIncomplete(true).WithCarousel(true).WithInitialPageCounter(INITIAL_PAGE_COUNTER),
      letterChoices, [], false, allWords)
  }

  /**
   * Narrows the list by what was typed, and offers its words when fewer
   * than ten are left, or else the letters that continue them.
   */
  function CurrentChoices(s: EntryState): (EntryState, ChoiceFactoryWordlist)
  {
    var wordsList := FilterPrefix(s.wordsList, s.textbox);
    if |wordsList| < OFFER_WORDS_THRESHOLD then
      (s.(wordsList := wordsList, offerWords := true), Words(wordsList))
    else
      var letterChoices := AvailableLetters(wordsList, s.textbox);
      (s.(wordsList := wordsList, offerWords := false, letterChoices := letterChoices), Letters(letterChoices))
  }

  /** The new choices, shown from the first one after DELETE; only letters wrap around. */
  function Refreshed(s: EntryState): EntryState
  {
    var (s1, choices) := CurrentChoices(s);
    s1.(choicePage := s1.choicePage.Reset(choices, Some(INITIAL_PAGE_COUNTER), !s1.offerWords))
  }

  /**
   * One event: the choice page is left at `pageCounter`; when its item was
   * `chosen`, DELETE removes the last letter and narrows the whole
   * wordlist again, a word returns its index, and a letter is appended.
   */
  function Step(allWords: seq<string>, s: EntryState, pageCounter: nat, chosen: bool): (EntryState, Option<WordlistEntryMsg>)
    requires s.Valid(allWords) && pageCounter < s.choicePage.factory.Count()
  {
    var s1 := s.(choicePage := s.choicePage.SetPageCounter(pageCounter));
    if !chosen then (s1, None)
    else if pageCounter == DELETE_INDEX then
      (Refreshed(s1.(textbox := DeletedLast(s.textbox), wordsList := allWords)), None)
    else if s.offerWords then (s1, Some(WordIndex(pageCounter - 1)))
    else (Refreshed(s1.(textbox := Appended(s.textbox, MAX_WORD_LENGTH, s.letterChoices[pageCounter - 1]))), None)
  }

  /** Narrowing the list of a valid state by a longer prefix yields a valid state. */
  lemma UpdateKeepsValid(allWords: seq<string>, s: EntryState, typed: string)
    requires |typed| <= MAX_WORD_LENGTH
    requires exists prefix :: prefix <= typed && s.wordsList == FilterPrefix(allWords, prefix)
    ensures Refreshed(s.(textbox := typed)).Valid(allWords)
  {
    var prefix :| prefix <= typed && s.wordsList == FilterPrefix(allWords, prefix);
    FilterPrefixNarrows(allWords, prefix, typed);
  }

  /** Every event keeps the list, the offer and the choices in agreement with what was typed. */
  lemma StepKeepsValid(allWords: seq<string>, s: EntryState, pageCounter: nat, chosen: bool)
    requires s.Valid(allWords) && pageCounter < s.choicePage.factory.Count()
    ensures Step(allWords, s, pageCounter, chosen).0.Valid(allWords)
  {
    var s1 := s.(choicePage := s.choicePage.SetPageCounter(pageCounter));
    if chosen && pageCounter == DELETE_INDEX {
      FilterEmptyPrefix(allWords);
      UpdateKeepsValid(allWords, s1.(wordsList := allWords), DeletedLast(s.textbox));
    } else if chosen && !s.offerWords {
      var typed := Appended(s.textbox, MAX_WORD_LENGTH, s.letterChoices[pageCounter - 1]);
      assert s.textbox <= typed;
      UpdateKeepsValid(allWords, s1, typed);
    }
  }

  /**
   * After DELETE or a letter the choices restart at index 1, wrap around
   * exactly when letters are offered, and words are offered exactly when
   * fewer than ten words start with the new text.
   */
  lemma StepResetsChoices(allWords: seq<string>, s: EntryState, pageCounter: nat)
    requires s.Valid(allWords) && pageCounter < s.choicePage.factory.Count()
    requires pageCounter == DELETE_INDEX || !s.offerWords
    ensures var s' := Step(allWords, s, pageCounter, true).0;
      && s'.choicePage.pageCounter == INITIAL_PAGE_COUNTER
      && s'.choicePage.isCarousel == !s'.offerWords
      && (s'.offerWords <==> |FilterPrefix(allWords, s'.textbox)| < OFFER_WORDS_THRESHOLD)
      && (pageCounter == DELETE_INDEX ==> s'.textbox == DeletedLast(s.textbox))
      && (pageCounter != DELETE_INDEX ==>
            s'.textbox == Appended(s.textbox, MAX_WORD_LENGTH, s.letterChoices[pageCounter - 1]))
  {
    StepKeepsValid(allWords, s, pageCounter, true);
  }

  /**
   * A message is returned exactly when a word is chosen; it carries the
   * word's index in the list, and that word is the text of the chosen item.
   */
  lemma StepReturnsWord(allWords: seq<string>, s: EntryState, pageCounter: nat, chosen: bool)
    requires s.Valid(allWords) && pageCounter < s.choicePage.factory.Count()
    ensures var (s', msg) := Step(allWords, s, pageCounter, chosen);
      && (msg.Some? <==> chosen && pageCounter != DELETE_INDEX && s.offerWords)
      && (msg.Some? ==>
            && msg.value.index < |s'.wordsList|
            && WordOf(s'.wordsList, msg.value.index) == s.choicePage.factory.Get(pageCounter).text)
  {
  }

  /** The word at `index` of the list, or the empty word when there is none. */
  function WordOf(wordsList: seq<string>, index: nat): (word: string)
    ensures index < |wordsList| ==> word == wordsList[index]
    ensures |wordsList| <= index ==> word == ""
  {
    if index < |wordsList| then wordsList[index] else ""
  }

  // ---------------------------------------------------------------------
  // The entry component
  // ---------------------------------------------------------------------

  class WordlistEntry {
    var choicePage: ChoicePage<ChoiceFactoryWordlist>
    /** The line above the choices: what was typed, then the prompt. */
    var chosenLetters: string
    var letterChoices: string
    var textbox: string
    var offerWords: bool
    var wordsList: seq<string>
    const wordlistType: WordlistType
    /** The whole wordlist of `wordlistType`. */
    const freshWordlist: seq<string>

    ghost function State(): EntryState
      reads this
    {
      EntryState(choicePage, letterChoices, textbox, offerWords, wordsList)
    }

    ghost predicate Valid()
      reads this
    {
      State().Valid(freshWordlist) && chosenLetters == textbox + PROMPT
    }

    /** An entry over `freshWordlist`, the words of `wordlistType`. */
    constructor (wordlistType: WordlistType, freshWordlist: seq<string>)
      requires |freshWordlist| >= OFFER_WORDS_THRESHOLD
      ensures Valid() && State() == InitialState(freshWordlist) && chosenLetters == PROMPT
      ensures this.wordlistType == wordlistType && this.freshWordlist == freshWordlist
    {
      FilterEmptyPrefix(freshWordlist);
      var letters := AvailableLetters(freshWordlist, "");
      choicePage := ChoicePage.New(Letters(letters)).WithIncomplete(true).WithCarousel(true)
        .WithInitialPageCounter(INITIAL_PAGE_COUNTER);
      chosenLetters := PROMPT;
      letterChoices := letters;
      textbox := [];
      offerWords := false;
      wordsList := freshWordlist;
      this.wordlistType := wordlistType;
      this.freshWordlist := freshWordlist;
    }

    /** Narrows the list and returns the choices to offer. */
    method GetCurrentChoices() returns (choices: ChoiceFactoryWordlist)
      modifies this`wordsList, this`offerWords, this`letterChoices
      ensures (State(), choices) == CurrentChoices(old(State()))
    {
      wordsList := FilterPrefix(wordsList, textbox);
      if |wordsList| < OFFER_WORDS_THRESHOLD {
        offerWords := true;
        choices := Words(wordsList);
      } else {
        offerWords := false;
        letterChoices := AvailableLetters(wordsList, textbox);
        choices := Letters(letterChoices);
      }
    }

    method UpdateChosenLetters()
      modifies this`chosenLetters
      ensures chosenLetters == textbox + PROMPT
    {
      chosenLetters := textbox + PROMPT;
    }

    /** Rebuilds the line and the choices after the text changed. */
    method Update()
      modifies this
      ensures State() == Refreshed(old(State())) && chosenLetters == textbox + PROMPT
    {
      UpdateChosenLetters();
      var newChoices := GetCurrentChoices();
      choicePage := choicePage.Reset(newChoices, Some(INITIAL_PAGE_COUNTER), !offerWords);
    }

    /** The word at `index` of the current list, or the empty word. */
    function WordByIndex(index: nat): string
      reads this
    {
      WordOf(wordsList, index)
    }

    /**
     * Handles one event. The choice page handles it first and is left at
     * `pageCounter`; when its item was `chosen`, it is carried out.
     */
    method Event(pageCounter: nat, chosen: bool) returns (msg: Option<WordlistEntryMsg>)
      requires Valid() && pageCounter < choicePage.factory.Count()
      modifies this
      ensures Valid()
      ensures (State(), msg) == Step(freshWordlist, old(State()), pageCounter, chosen)
    {
      StepKeepsValid(freshWordlist, State(), pageCounter, chosen);
      // The choice page's own handling of the event.
      choicePage := choicePage.SetPageCounter(pageCounter);
      if !chosen {
        return None;
      }
      if pageCounter == DELETE_INDEX {
        textbox := DeletedLast(textbox);
        wordsList := freshWordlist;
        Update();
      } else {
        var index := pageCounter - 1;
        if offerWords {
          return Some(WordIndex(index));
        } else {
          var newLetter := letterChoices[index];
          textbox := Appended(textbox, MAX_WORD_LENGTH, newLetter);
          Update();
        }
      }
      return None;
    }
  }
}
