/**
 * Simple choice: up to five strings on a choice page; choosing one returns
 * its index, which the caller turns back into the string.
 */
module SimpleChoice {
  import opened Wrappers
  import opened Buttons
  import opened ChoiceItems
  import opened ChoiceCommon

  datatype SimpleChoiceMsg = ResultIndex(index: nat)

  /** At most this many choices. */
  const MAX_LENGTH: nat := 5

  datatype ChoiceFactorySimple = ChoiceFactorySimple(choices: seq<string>, carousel: bool)
  {
    function Count(): (n: nat)
      ensures n == |choices|
    {
      |choices|
    }

    /**
     * The item shows its string; without carousel the first item cannot go
     * left and the last cannot go right.
     */
    function Get(choiceIndex: nat): ChoiceItem
      requires choiceIndex < Count()
    {
      var item := ChoiceItem.New(choices[choiceIndex], DefaultThreeIcons());
      if carousel then item
      else
        var first := if choiceIndex == 0 then item.SetLeftBtn(None) else item;
        if choiceIndex == Count() - 1 then first.SetRightBtn(None) else first
    }
  }

  /**
   * Every item shows its own string with SELECT in the middle; an arrow is
   * missing exactly at an end of a list that does not wrap around.
   */
  lemma SimpleItems(f: ChoiceFactorySimple, i: nat)
    requires i < f.Count()
    ensures f.Get(i).text == f.choices[i] && f.Get(i).icon == None
    ensures f.Get(i).btnLayout.btnMiddle == Some(SelectIcon)
    ensures f.Get(i).btnLayout.btnLeft == None <==> !f.carousel && i == 0
    ensures f.Get(i).btnLayout.btnRight == None <==> !f.carousel && i == f.Count() - 1
    ensures f.Get(i).btnLayout.btnLeft != None ==> f.Get(i).btnLayout.btnLeft == Some(LeftArrowIcon)
    ensures f.Get(i).btnLayout.btnRight != None ==> f.Get(i).btnLayout.btnRight == Some(RightArrowIcon)
  {
  }

  datatype SimpleChoice = SimpleChoice(choices: seq<string>, choicePage: ChoicePage<ChoiceFactorySimple>, returnIndex: bool)
  {
    /** A choice over `choices`, at the first one, returning the string unless told otherwise. */
    static function New(choices: seq<string>, carousel: bool): (c: SimpleChoice)
      requires |choices| <= MAX_LENGTH
      ensures c.choices == choices && !c.returnIndex
      ensures c.choicePage.factory == ChoiceFactorySimple(choices, carousel)
      ensures c.choicePage.isCarousel == carousel && c.choicePage.pageCounter == 0 && !c.choicePage.showIncomplete
    {
      SimpleChoice(choices, ChoicePage.New(ChoiceFactorySimple(choices, carousel)).WithCarousel(carousel), false)
    }

    /** Shows choices even when they do not fit entirely. */
    function WithShowIncomplete(): (c: SimpleChoice)
      ensures c.choicePage.showIncomplete
      ensures c.choices == choices && c.returnIndex == returnIndex
      ensures c.choicePage.factory == choicePage.factory && c.choicePage.pageCounter == choicePage.pageCounter
    {
      this.(choicePage := choicePage.WithIncomplete(true))
    }

    /** The caller wants the index of the choice rather than its string. */
    function WithReturnIndex(): (c: SimpleChoice)
      ensures c.returnIndex
      ensures c.choices == choices && c.choicePage == choicePage
    {
      this.(returnIndex := true)
    }

    function ResultByIndex(index: nat): string
      requires index < |choices|
    {
      choices[index]
    }

    /** The choice page reports the chosen index, or nothing (`chosen`); a choice returns its index. */
    function Event(chosen: Option<nat>): (msg: Option<SimpleChoiceMsg>)
      ensures msg.Some? <==> chosen.Some?
      ensures msg.Some? ==> msg.value.index == chosen.value
    {
      match chosen
      case Some(pageCounter) => Some(ResultIndex(pageCounter))
      case None => None
    }
  }

  /** The index an event returns names the string that the chosen item shows. */
  lemma ResultIsChosenItem(c: SimpleChoice, i: nat)
    requires c.choicePage.factory.choices == c.choices && i < |c.choices|
    ensures c.Event(Some(i)) == Some(ResultIndex(i))
    ensures c.ResultByIndex(c.Event(Some(i)).value.index) == c.choicePage.factory.Get(i).text
  {
  }

  /** A new choice returns strings until asked for indices; asking does not touch the choices. */
  lemma ReturnIndexFlag(choices: seq<string>, carousel: bool)
    requires |choices| <= MAX_LENGTH
    ensures !SimpleChoice.New(choices, carousel).returnIndex
    ensures SimpleChoice.New(choices, carousel).WithReturnIndex().returnIndex
    ensures SimpleChoice.New(choices, carousel).WithReturnIndex().choices == choices
  {
  }
}
