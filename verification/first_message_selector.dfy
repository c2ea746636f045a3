/**
 * The opening-message picker (src/components/chat/FirstMessageSelector.tsx):
 * the user cycles through a character's opening messages with a previous and
 * a next button, and validates the one shown, which is handed to `onSelect`.
 */
module FirstMessageSelector {
  import opened Wrappers

  datatype FirstMessage = FirstMessage(content: string)

  const NoContentText: string := "No message content"

  /** `goToNext`: the last index wraps round to 0, any other moves up by one. */
  function Next(i: int, n: int): int {
    if i == n - 1 then 0 else i + 1
  }

  /** `goToPrevious`: index 0 wraps round to the last, any other moves down by one. */
  function Previous(i: int, n: int): int {
    if i == 0 then n - 1 else i - 1
  }

  /** Both steps keep an index inside a non-empty list, and each undoes the other. */
  lemma StepsStayInRangeAndInvert(i: int, n: int)
    requires 0 <= i < n
    ensures 0 <= Next(i, n) < n && 0 <= Previous(i, n) < n
    ensures Previous(Next(i, n), n) == i && Next(Previous(i, n), n) == i
  {
  }

  /** `k` presses of next move the index `k` places round the cycle. */
  function NextTimes(i: int, n: int, k: nat): int
    decreases k
  {
    if k == 0 then i else Next(NextTimes(i, n, k - 1), n)
  }

  lemma {:induction false} NextTimesIsRotation(i: int, n: int, k: nat)
    requires 0 <= i < n
    ensures NextTimes(i, n, k) == (i + k) % n
    decreases k
  {
    if k > 0 {
      NextTimesIsRotation(i, n, k - 1);
      var q := (i + k - 1) / n;
      var j := (i + k - 1) % n;
      if j == n - 1 {
        ModUnique(i + k, n, q + 1, 0);
      } else {
        ModUnique(i + k, n, q, j + 1);
      }
    }
  }

  /** Euclidean division is unique: a quotient and a remainder in range are the ones `/` and `%` give. */
  lemma ModUnique(a: int, n: int, q: int, r: int)
    requires n > 0 && 0 <= r < n && a == q * n + r
    ensures a % n == r
  {
    var q' := a / n;
    var r' := a % n;
    assert (q - q') * n == r' - r;
    if q > q' {
      MulAtLeast(q - q', n);
    } else if q < q' {
      MulAtLeast(q' - q, n);
    }
  }

  lemma MulAtLeast(x: int, n: int)
    requires x >= 1 && n > 0
    ensures x * n >= n
  {
  }

  /** After `n` presses of next the original message is shown again. */
  lemma FullCycle(i: int, n: int)
    requires 0 <= i < n
    ensures NextTimes(i, n, n) == i
  {
    NextTimesIsRotation(i, n, n);
    ModUnique(i + n, n, 1, i);
  }

  /** The component renders nothing for an empty list. */
  predicate Renders(firstMessages: seq<FirstMessage>) {
    |firstMessages| > 0
  }

  /** The "i of n" counter and both arrow buttons appear only when there is a choice. */
  predicate ShowsNavigation(firstMessages: seq<FirstMessage>) {
    |firstMessages| > 1
  }

  /**
   * An empty list shows nothing, a single message is shown without counter or
   * arrows, and the arrows never appear without a message to show.
   */
  lemma RenderConditions(firstMessages: seq<FirstMessage>)
    ensures !Renders(firstMessages) <==> firstMessages == []
    ensures |firstMessages| == 1 ==> Renders(firstMessages) && !ShowsNavigation(firstMessages)
    ensures ShowsNavigation(firstMessages) ==> Renders(firstMessages)
  {
  }

  class FirstMessageSelector {
    /** The `firstMessages` prop, which the parent may replace. */
    var firstMessages: seq<FirstMessage>
    var isLoading: bool
    var selectedIndex: int
    /** The contents handed to `onSelect`, in order. */
    var selections: seq<string>

    /** `firstMessages[selectedIndex]`, undefined outside the list. */
    function CurrentMessage(): (m: Option<FirstMessage>)
      reads this
      ensures m.Some? <==> 0 <= selectedIndex < |firstMessages|
    {
      if 0 <= selectedIndex < |firstMessages| then Some(firstMessages[selectedIndex]) else None
    }

    /** The text shown: `currentMessage?.content || 'No message content'`. */
    function ShownText(): (t: string)
      reads this
      ensures t != ""
    {
      var m := CurrentMessage();
      if m.Some? && m.value.content != "" then m.value.content else NoContentText
    }

    constructor(firstMessages: seq<FirstMessage>, isLoading: bool)
      ensures this.firstMessages == firstMessages && this.isLoading == isLoading
      ensures selectedIndex == 0 && selections == []
    {
      this.firstMessages := firstMessages;
      this.isLoading := isLoading;
      selectedIndex := 0;
      selections := [];
    }

    /** A re-render with new props: the selected index is kept as it is. */
    method SetProps(firstMessages: seq<FirstMessage>, isLoading: bool)
      modifies this
      ensures this.firstMessages == firstMessages && this.isLoading == isLoading
      ensures selectedIndex == old(selectedIndex) && selections == old(selections)
    {
      this.firstMessages := firstMessages;
      this.isLoading := isLoading;
    }

    method GoToPrevious()
      modifies this
      ensures selectedIndex == Previous(old(selectedIndex), |firstMessages|)
      ensures firstMessages == old(firstMessages) && isLoading == old(isLoading) && selections == old(selections)
    {
      selectedIndex := if selectedIndex == 0 then |firstMessages| - 1 else selectedIndex - 1;
    }

    method GoToNext()
      modifies this
      ensures selectedIndex == Next(old(selectedIndex), |firstMessages|)
      ensures firstMessages == old(firstMessages) && isLoading == old(isLoading) && selections == old(selections)
    {
      selectedIndex := if selectedIndex == |firstMessages| - 1 then 0 else selectedIndex + 1;
    }

    /**
     * `handleValidate`: `onSelect` gets the shown message's content, but only
     * when a message is shown and nothing is loading.
     */
    method HandleValidate()
      modifies this
      ensures CurrentMessage().Some? && !isLoading ==> selections == old(selections) + [CurrentMessage().value.content]
      ensures CurrentMessage().None? || isLoading ==> selections == old(selections)
      ensures firstMessages == old(firstMessages) && isLoading == old(isLoading) && selectedIndex == old(selectedIndex)
    {
      var currentMessage := CurrentMessage();
      if currentMessage.Some? && !isLoading {
        selections := selections + [currentMessage.value.content];
      }
    }
  }

  /** With a fixed non-empty list, any sequence of presses from a valid index keeps a message selected. */
  lemma {:induction false} SelectionStaysValid(n: int, i: int, presses: seq<bool>)
    requires 0 <= i < n
    ensures 0 <= Pressed(i, n, presses) < n
    decreases |presses|
  {
    if presses != [] {
      StepsStayInRangeAndInvert(i, n);
      SelectionStaysValid(n, if presses[0] then Next(i, n) else Previous(i, n), presses[1..]);
    }
  }

  /** The index after a sequence of presses, `true` for next and `false` for previous. */
  function Pressed(i: int, n: int, presses: seq<bool>): int
    decreases |presses|
  {
    if presses == [] then i else Pressed(if presses[0] then Next(i, n) else Previous(i, n), n, presses[1..])
  }
}
