/**
 * The "hello world" example app: the device greets `name` `amount` times
 * and returns the text it built.
 */
module HelloWorld {
  datatype HelloWorldRequest = HelloWorldRequest(name: string, amount: int, showDisplay: bool)
  datatype HelloWorldResponse = HelloWorldResponse(text: string)

  /** One greeting line. */
  function Greeting(name: string): (line: string)
    ensures |line| == |name| + 8
  {
    "Hello " + name + "!\n"
  }

  /** `s` repeated `n` times. */
  function Repeat(s: string, n: nat): (r: string)
    ensures |r| == n * |s|
  {
    if n == 0 then "" else Repeat(s, n - 1) + s
  }

  /** The `k`-th copy of `s` in the repetition is `s` itself. */
  lemma {:induction false} RepeatAt(s: string, n: nat, k: nat)
    requires k < n
    ensures k * |s| + |s| <= n * |s|
    ensures Repeat(s, n)[k * |s| .. k * |s| + |s|] == s
    decreases n
  {
    var prefix := Repeat(s, n - 1);
    assert Repeat(s, n) == prefix + s;
    if k < n - 1 {
      RepeatAt(s, n - 1, k);
      assert Repeat(s, n)[k * |s| .. k * |s| + |s|] == prefix[k * |s| .. k * |s| + |s|];
    } else {
      assert k * |s| == |prefix|;
    }
  }

  /**
   * The greeting repeated `amount` times; as with a string multiplied by a
   * number, an amount of zero or less gives the empty text.
   */
  function GetTextFromMsg(msg: HelloWorldRequest): (text: string)
    ensures msg.amount <= 0 ==> text == ""
    ensures msg.amount >= 0 ==> |text| == msg.amount * (|msg.name| + 8)
  {
    if msg.amount <= 0 then "" else Repeat(Greeting(msg.name), msg.amount)
  }

  /** Every line of the text is the greeting, in order. */
  lemma TextIsGreetings(msg: HelloWorldRequest, k: nat)
    requires k < msg.amount
    ensures var line := |msg.name| + 8;
      GetTextFromMsg(msg)[k * line .. k * line + line] == Greeting(msg.name)
  {
    RepeatAt(Greeting(msg.name), msg.amount, k);
  }

  /** The response carries the text, whether or not it was shown for confirmation first. */
  function HelloWorld(msg: HelloWorldRequest): (response: HelloWorldResponse)
    ensures response.text == GetTextFromMsg(msg.(showDisplay := false))
    ensures response.text == GetTextFromMsg(msg.(showDisplay := true))
  {
    HelloWorldResponse(GetTextFromMsg(msg))
  }
}
