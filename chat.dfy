/**
 * The "start a business" chat page: the log, the text box, the typing
 * indicator and the pending replies as the fields of one object, and the
 * page's event handlers as its methods. The firing of a reply timer is an
 * explicit step, `Deliver`; the clock reading that the page uses as a
 * message id is a parameter.
 */
module Chat {
  import opened Text
  import opened Responder
  import opened ChatLog

  class Conversation {
    var messages: seq<Message>
    var inputValue: string
    var isTyping: bool
    /** The user messages whose reply timer is running, oldest first. */
    var pending: seq<string>

    ghost predicate Valid()
      reads this
    {
      WellFormed(messages, isTyping, pending)
    }

    /** The page after its mount effect: the greeting alone, an empty box, no indicator. */
    constructor ()
      ensures Valid()
      ensures messages == [GreetingMessage] && inputValue == "" && !isTyping && pending == []
    {
      messages := [GreetingMessage];
      inputValue := "";
      isTyping := false;
      pending := [];
      new;
      assert messages[1..] == [];
    }

    /** Typing into the text box. */
    method SetInput(v: string)
      requires Valid()
      modifies this`inputValue
      ensures Valid() && inputValue == v
    {
      inputValue := v;
    }

    /** Whether the send button is enabled: the box holds a non-space character and no reply is on its way. */
    function SendEnabled(): (e: bool)
      reads this
      ensures e <==> Trim(inputValue) != [] && !isTyping
    {
      BlankIffTrimEmpty(inputValue);
      !IsBlank(inputValue) && !isTyping
    }

    /**
     * Sending `message` at clock reading `now`: a blank message changes
     * nothing; otherwise the untrimmed message is logged, the box is cleared,
     * the indicator is shown and its reply is queued.
     */
    method Send(message: string, now: nat)
      requires Valid()
      modifies this
      ensures Valid()
      ensures IsBlank(message) ==>
        messages == old(messages) && inputValue == old(inputValue) &&
        isTyping == old(isTyping) && pending == old(pending)
      ensures !IsBlank(message) ==>
        messages == old(messages) + [UserMessage(now, message)] && inputValue == "" &&
        isTyping && pending == old(pending) + [message]
    {
      if IsBlank(message) {
        return;
      }
      var log, queue := messages + [UserMessage(now, message)], pending + [message];
      SendWellFormed(messages, isTyping, pending, now, message);
      messages, inputValue, isTyping, pending := log, "", true, queue;
    }

    /**
     * A click on the send button, which can only be clicked while it is
     * enabled: sends what is in the box.
     */
    method SendInput(now: nat)
      requires Valid()
      requires SendEnabled()
      modifies this
      ensures Valid()
      ensures messages == old(messages) + [UserMessage(now, old(inputValue))] && inputValue == "" &&
        isTyping && pending == old(pending) + [old(inputValue)]
    {
      Send(inputValue, now);
    }

    /** Clicking a suggestion chip sends its label, whatever is in the box. */
    method ClickSuggestion(suggestion: string, now: nat)
      requires Valid()
      modifies this
      ensures Valid()
      ensures IsBlank(suggestion) ==>
        messages == old(messages) && inputValue == old(inputValue) &&
        isTyping == old(isTyping) && pending == old(pending)
      ensures !IsBlank(suggestion) ==>
        messages == old(messages) + [UserMessage(now, suggestion)] && inputValue == "" &&
        isTyping && pending == old(pending) + [suggestion]
    {
      Send(suggestion, now);
    }

    /** A key press in the box: Enter without Shift sends what is in the box, any other key does nothing here. */
    method KeyPress(key: string, shiftKey: bool, now: nat)
      requires Valid()
      modifies this
      ensures Valid()
      ensures key != "Enter" || shiftKey || IsBlank(old(inputValue)) ==>
        messages == old(messages) && inputValue == old(inputValue) &&
        isTyping == old(isTyping) && pending == old(pending)
      ensures key == "Enter" && !shiftKey && !IsBlank(old(inputValue)) ==>
        messages == old(messages) + [UserMessage(now, old(inputValue))] && inputValue == "" &&
        isTyping && pending == old(pending) + [old(inputValue)]
    {
      if key == "Enter" && !shiftKey {
        Send(inputValue, now);
      }
    }

    /**
     * The oldest running timer fires at clock reading `now`: the indicator is
     * hidden and the reply to the oldest unanswered message is logged.
     */
    method Deliver(now: nat)
      requires Valid()
      requires pending != []
      modifies this
      ensures Valid()
      ensures messages == old(messages) + [BotMessage(now, Respond(old(pending)[0]))]
      ensures pending == old(pending)[1..] && !isTyping && inputValue == old(inputValue)
    {
      var log, queue := messages + [BotMessage(now, Respond(pending[0]))], pending[1..];
      DeliverWellFormed(messages, isTyping, pending, now);
      messages, isTyping, pending := log, false, queue;
    }
  }

  /**
   * Clicking a non-blank chip on the fresh page and letting its timer fire
   * logs the label and then the reply to it; with `ExampleHomemadeSnacks`,
   * clicking "Homemade Snacks" logs the food reply.
   */
  method ChipThenReply(chip: string, clicked: nat, fired: nat) returns (c: Conversation)
    requires !IsBlank(chip)
    ensures c.Valid()
    ensures c.messages == [GreetingMessage, UserMessage(clicked, chip), BotMessage(fired, Respond(chip))]
    ensures !c.isTyping && c.pending == [] && c.inputValue == ""
  {
    c := new Conversation();
    c.ClickSuggestion(chip, clicked);
    assert c.messages == [GreetingMessage, UserMessage(clicked, chip)] && c.pending == [chip];
    c.Deliver(fired);
  }

  /** Clicking a chip leaves the same state as typing its label and pressing Enter. */
  method TypedEqualsClicked(typed: Conversation, clicked: Conversation, chip: string, now: nat)
    requires typed != clicked && typed.Valid() && clicked.Valid()
    requires typed.messages == clicked.messages && typed.isTyping == clicked.isTyping
    requires typed.pending == clicked.pending && !IsBlank(chip)
    modifies typed, clicked
    ensures typed.messages == clicked.messages && typed.isTyping == clicked.isTyping
    ensures typed.pending == clicked.pending && typed.inputValue == clicked.inputValue
  {
    typed.SetInput(chip);
    typed.KeyPress("Enter", false, now);
    clicked.ClickSuggestion(chip, now);
  }

  /** No chip under any reply is blank, so clicking any of them sends it. */
  lemma ChipsNotBlank()
    ensures forall r: Reply, i :: 0 <= i < |Suggestions(r)| ==> !IsBlank(Suggestions(r)[i])
  {
    forall r: Reply, i | 0 <= i < |Suggestions(r)| ensures !IsBlank(Suggestions(r)[i]) {
      var chip := Suggestions(r)[i];
      assert chip[0] in "ABDFHINOPRST";
    }
  }

  /**
   * Nothing stops a second send while a reply is on its way: after two sends
   * and one timer, the indicator is hidden and the send button can be enabled
   * although the second reply is still queued.
   */
  method SecondSendScenario() returns (c: Conversation)
    ensures c.Valid()
    ensures |c.messages| == 4 && !c.isTyping && c.pending == ["food"]
  {
    c := new Conversation();
    assert !IsJsSpace("fashion"[0]);
    assert !IsJsSpace("food"[0]);
    c.Send("fashion", 1000);
    c.Send("food", 1200);
    c.Deliver(2500);
  }
}
