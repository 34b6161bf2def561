/**
 * Number input: a choice page over the unsigned 32-bit numbers from `min`
 * to `max`; choosing an item returns its number.
 */
module NumberInput {
  import opened Wrappers
  import opened Buttons
  import opened ChoiceItems
  import opened ChoiceCommon

  newtype u32 = x: int | 0 <= x < 0x1_0000_0000

  /** The decimal digits of `n`, most significant first, without leading zeros. */
  function DecimalText(n: nat): (s: string)
    ensures 1 <= |s|
    ensures forall i :: 0 <= i < |s| ==> '0' <= s[i] <= '9'
    decreases n
  {
    var digit := ['0' + (n % 10) as char];
    if n < 10 then digit else DecimalText(n / 10) + digit
  }

  /** The number a string of decimal digits denotes. */
  function DecimalValue(s: string): nat
    requires forall i :: 0 <= i < |s| ==> '0' <= s[i] <= '9'
  {
    if s == [] then 0 else 10 * DecimalValue(s[..|s| - 1]) + (s[|s| - 1] - '0') as nat
  }

  /** Reading the text back gives the number. */
  lemma {:induction false} DecimalRoundTrip(n: nat)
    ensures DecimalValue(DecimalText(n)) == n
    decreases n
  {
    var s := DecimalText(n);
    if n >= 10 {
      DecimalRoundTrip(n / 10);
      assert s[..|s| - 1] == DecimalText(n / 10);
    }
  }

  /** A number below 10^k has at most k digits, so every u32 fits the ten-character text. */
  lemma {:induction false} DecimalTextLength(n: nat, k: nat, bound: nat)
    requires 1 <= k && bound == Pow10(k) && n < bound
    ensures |DecimalText(n)| <= k
    decreases k
  {
    if n >= 10 {
      assert Pow10(1) == 10;
      DecimalTextLength(n / 10, k - 1, Pow10(k - 1));
    }
  }

  function Pow10(k: nat): nat
  {
    if k == 0 then 1 else 10 * Pow10(k - 1)
  }

  /** Every u32 prints with at most ten digits. */
  lemma U32TextFits(n: u32)
    ensures |DecimalText(n as nat)| <= 10
  {
    assert Pow10(10) == 10_000_000_000;
    DecimalTextLength(n as nat, 10, Pow10(10));
  }

  /**
   * The numbers from `min` to `max`. The count `max - min + 1` is a u32,
   * so a range spanning every u32 value is excluded.
   */
  datatype ChoiceFactoryNumberInput = ChoiceFactoryNumberInput(min: u32, max: u32)
  {
    ghost predicate Valid()
    {
      min <= max && (max as int) - (min as int) < 0xFFFF_FFFF
    }

    function Count(): (n: nat)
      requires Valid()
      ensures n == (max as int) - (min as int) + 1
    {
      (max - min + 1) as nat
    }

    /** The item for `choiceIndex` shows the number `min + choiceIndex` and returns it. */
    function Get(choiceIndex: nat): (ChoiceItem, u32)
      requires Valid() && choiceIndex < Count()
    {
      var num := min + choiceIndex as u32;
      var item := ChoiceItem.New(DecimalText(num as nat), DefaultThreeIcons());
      var first := if choiceIndex == 0 then item.SetLeftBtn(None) else item;
      var last := if choiceIndex == Count() - 1 then first.SetRightBtn(None) else first;
      (last, num)
    }
  }

  /**
   * Item `i` returns `min + i` and shows it in decimal; the first item
   * cannot go left and the last cannot go right, as the numbers do not wrap
   * around.
   */
  lemma NumberItems(f: ChoiceFactoryNumberInput, i: nat)
    requires f.Valid() && i < f.Count()
    ensures f.Get(i).1 as int == f.min as int + i
    ensures f.min <= f.Get(i).1 <= f.max
    ensures DecimalValue(f.Get(i).0.text) == f.Get(i).1 as nat
    ensures f.Get(i).0.btnLayout.btnLeft == None <==> i == 0
    ensures f.Get(i).0.btnLayout.btnRight == None <==> i == f.Count() - 1
  {
    DecimalRoundTrip(f.Get(i).1 as nat);
  }

  /** Each number in the range is returned by exactly one item. */
  lemma NumberItemsCoverRange(f: ChoiceFactoryNumberInput, v: u32)
    requires f.Valid() && f.min <= v <= f.max
    ensures (v - f.min) as nat < f.Count() && f.Get((v - f.min) as nat).1 == v
    ensures forall i :: 0 <= i < f.Count() && f.Get(i).1 == v ==> i == (v - f.min) as nat
  {
  }

  datatype NumberInput = NumberInput(choicePage: ChoicePage<ChoiceFactoryNumberInput>, min: u32)
  {
    /** An input over `min` to `max` that stands at `initValue`. */
    static function New(min: u32, max: u32, initValue: u32): (input: NumberInput)
      requires min <= initValue <= max && (max as int) - (min as int) < 0xFFFF_FFFF
      ensures input.min == min && input.choicePage.factory == ChoiceFactoryNumberInput(min, max)
      ensures input.choicePage.factory.Valid()
      ensures input.choicePage.pageCounter == (initValue - min) as nat
    {
      var choices := ChoiceFactoryNumberInput(min, max);
      var initialPage := initValue - min;
      NumberInput(ChoicePage.New(choices).WithInitialPageCounter(initialPage as nat), min)
    }

    /** The choice page reports the chosen index, or nothing; a choice returns its number. */
    function Event(chosen: Option<nat>): (msg: Option<u32>)
      requires choicePage.factory.Valid()
      requires chosen.Some? ==> chosen.value < choicePage.factory.Count()
      ensures msg.Some? <==> chosen.Some?
      ensures msg.Some? ==> msg.value as int == choicePage.factory.min as int + chosen.value
    {
      match chosen
      case Some(i) => Some(choicePage.factory.Get(i).1)
      case None => None
    }
  }

  /** A new input stands at the item of its initial value: choosing at once returns that value. */
  lemma StartsAtInitialValue(min: u32, max: u32, initValue: u32)
    requires min <= initValue <= max && (max as int) - (min as int) < 0xFFFF_FFFF
    ensures var input := NumberInput.New(min, max, initValue);
      && input.choicePage.pageCounter < input.choicePage.factory.Count()
      && input.Event(Some(input.choicePage.pageCounter)) == Some(initValue)
  {
  }
}
