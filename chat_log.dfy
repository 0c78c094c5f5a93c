/**
 * The message log of the "start a business" chat and the queue of replies
 * whose timer has been started but has not fired yet, with the invariant
 * that ties the two together. Every timer has the same delay, so the
 * replies fire in the order in which the messages were sent: a first-in
 * first-out queue.
 */
module ChatLog {
  import opened Text
  import opened Responder

  /** A message of the log; a bot message carries the reply it shows. */
  datatype Message =
    | UserMessage(id: nat, content: string)
    | BotMessage(id: nat, reply: Reply)

  /** The greeting the page shows once it has mounted. */
  const GreetingMessage: Message := BotMessage(1, Greeting)

  /** The contents of the user messages of `ms`, in order. */
  function Asked(ms: seq<Message>): (u: seq<string>)
    ensures |u| <= |ms|
  {
    if ms == [] then []
    else
      var last := ms[|ms| - 1];
      Asked(ms[..|ms| - 1]) + (if last.UserMessage? then [last.content] else [])
  }

  /** The replies of the bot messages of `ms`, in order. */
  function Answered(ms: seq<Message>): (b: seq<Reply>)
    ensures |b| <= |ms|
  {
    if ms == [] then []
    else
      var last := ms[|ms| - 1];
      Answered(ms[..|ms| - 1]) + (if last.BotMessage? then [last.reply] else [])
  }

  lemma AskedAppend(ms: seq<Message>, m: Message)
    ensures Asked(ms + [m]) == Asked(ms) + (if m.UserMessage? then [m.content] else [])
    ensures Answered(ms + [m]) == Answered(ms) + (if m.BotMessage? then [m.reply] else [])
  {
    assert (ms + [m])[..|ms|] == ms;
  }

  /** The replies `respond` gives to the messages `u`, in order. */
  ghost function Replies(u: seq<string>, respond: string -> Reply): (b: seq<Reply>)
    ensures |b| == |u|
  {
    if u == [] then [] else Replies(u[..|u| - 1], respond) + [respond(u[|u| - 1])]
  }

  /** Replies are given message by message. */
  lemma {:induction false} RepliesAt(u: seq<string>, respond: string -> Reply, i: nat)
    requires i < |u|
    ensures Replies(u, respond)[i] == respond(u[i])
    decreases |u|
  {
    if i < |u| - 1 {
      RepliesAt(u[..|u| - 1], respond, i);
    }
  }

  /**
   * What the user messages `u`, the bot replies `b` and the queue of waiting
   * replies agree on: the bot has answered the first user messages in order,
   * with the replies `respond` gives to them, and the queue holds the user
   * messages that are still unanswered. The responder is a parameter so that
   * the lemmas about the log hold whatever the replies are; the page state
   * uses `Respond`.
   */
  ghost predicate Answers(u: seq<string>, b: seq<Reply>, pending: seq<string>, respond: string -> Reply)
  {
    |b| <= |u| && b == Replies(u[..|b|], respond) && pending == u[|b|..]
  }

  /** Each answered message has its own reply, and the queue is the rest of the messages. */
  lemma AnswersMeans(u: seq<string>, b: seq<Reply>, pending: seq<string>, respond: string -> Reply)
    requires Answers(u, b, pending, respond)
    ensures |b| + |pending| == |u|
    ensures forall i :: 0 <= i < |b| ==> b[i] == respond(u[i])
    ensures forall i :: 0 <= i < |pending| ==> pending[i] == u[|b| + i]
  {
    forall i | 0 <= i < |b| ensures b[i] == respond(u[i]) {
      RepliesAt(u[..|b|], respond, i);
    }
  }

  /** A new user message goes to the back of the queue. */
  lemma AnswersAsk(u: seq<string>, b: seq<Reply>, pending: seq<string>, respond: string -> Reply, message: string)
    requires Answers(u, b, pending, respond)
    ensures Answers(u + [message], b, pending + [message], respond)
  {
    var u' := u + [message];
    assert u'[..|b|] == u[..|b|];
    assert u'[|b|..] == u[|b|..] + [message];
  }

  /** The reply to the head of the queue answers it and takes it off the queue. */
  lemma AnswersReply(u: seq<string>, b: seq<Reply>, pending: seq<string>, respond: string -> Reply)
    requires Answers(u, b, pending, respond)
    requires pending != []
    ensures Answers(u, b + [respond(pending[0])], pending[1..], respond)
  {
    var k := |b| + 1;
    assert u[|b|] == pending[0];
    assert u[..k][..|b|] == u[..|b|];
    assert Replies(u[..k], respond) == b + [respond(pending[0])];
    assert u[k..] == pending[1..];
  }

  /**
   * No prefix of the log holds more bot replies than user messages: a reply
   * never comes before the message it answers.
   */
  predicate RepliesFollow(ms: seq<Message>)
  {
    ms == [] || (RepliesFollow(ms[..|ms| - 1]) && |Answered(ms)| <= |Asked(ms)|)
  }

  /** Appending keeps replies after their messages exactly when the whole log still has no more replies than messages. */
  lemma RepliesFollowAppend(ms: seq<Message>, m: Message)
    ensures RepliesFollow(ms + [m]) <==> RepliesFollow(ms) && |Answered(ms + [m])| <= |Asked(ms + [m])|
  {
    assert (ms + [m])[..|ms|] == ms;
  }

  /** `RepliesFollow` says of every prefix that it holds no more replies than messages. */
  lemma {:induction false} RepliesFollowPrefixes(ms: seq<Message>, k: nat)
    requires RepliesFollow(ms) && k <= |ms|
    ensures |Answered(ms[..k])| <= |Asked(ms[..k])|
    decreases |ms|
  {
    if k == |ms| {
      assert ms[..k] == ms;
    } else {
      var front := ms[..|ms| - 1];
      assert front[..k] == ms[..k];
      RepliesFollowPrefixes(front, k);
    }
  }

  /** The log after the greeting agrees with the queue of waiting replies, and every reply follows its message. */
  ghost predicate Consistent(log: seq<Message>, pending: seq<string>, respond: string -> Reply)
  {
    Answers(Asked(log), Answered(log), pending, respond) && RepliesFollow(log)
  }

  /** Appending a user message puts it at the back of the queue. */
  lemma SendKeeps(log: seq<Message>, pending: seq<string>, respond: string -> Reply, id: nat, message: string)
    requires Consistent(log, pending, respond)
    ensures Consistent(log + [UserMessage(id, message)], pending + [message], respond)
  {
    AskedAppend(log, UserMessage(id, message));
    AnswersAsk(Asked(log), Answered(log), pending, respond, message);
    RepliesFollowAppend(log, UserMessage(id, message));
  }

  /** Appending the reply to the head of the queue answers it and removes it from the queue. */
  lemma DeliverKeeps(log: seq<Message>, pending: seq<string>, respond: string -> Reply, id: nat, reply: Reply)
    requires Consistent(log, pending, respond)
    requires pending != [] && reply == respond(pending[0])
    ensures Consistent(log + [BotMessage(id, reply)], pending[1..], respond)
  {
    var m := BotMessage(id, reply);
    AskedAppend(log, m);
    assert Asked(log + [m]) == Asked(log);
    AnswersReply(Asked(log), Answered(log), pending, respond);
    AnsweredOrPending(log, pending, respond);
    RepliesFollowAppend(log, m);
  }

  /** In a consistent state every user message has been answered or is waiting, never both. */
  lemma AnsweredOrPending(log: seq<Message>, pending: seq<string>, respond: string -> Reply)
    requires Consistent(log, pending, respond)
    ensures |Answered(log)| + |pending| == |Asked(log)|
  {
  }

  /** No user message of `ms` is blank. */
  predicate NoBlankMessages(ms: seq<Message>) {
    forall i :: 0 <= i < |ms| && ms[i].UserMessage? ==> !IsBlank(ms[i].content)
  }

  /**
   * A well-formed page state: the greeting comes first, no user message is
   * blank, the rest of the log agrees with the queue, and the indicator is
   * only shown while a reply is queued.
   */
  ghost predicate WellFormed(messages: seq<Message>, isTyping: bool, pending: seq<string>)
  {
    |messages| >= 1 && messages[0] == GreetingMessage && NoBlankMessages(messages) &&
    Consistent(messages[1..], pending, Respond) && (isTyping ==> pending != [])
  }

  /** Appending to the log keeps its first message and appends to the rest. */
  lemma AppendAfterGreeting(messages: seq<Message>, m: Message)
    requires |messages| >= 1
    ensures (messages + [m])[0] == messages[0] && (messages + [m])[1..] == messages[1..] + [m]
  {
  }

  /** Logging a user message and queueing its reply keeps the state well-formed. */
  lemma SendWellFormed(messages: seq<Message>, isTyping: bool, pending: seq<string>, id: nat, message: string)
    requires WellFormed(messages, isTyping, pending)
    requires !IsBlank(message)
    ensures WellFormed(messages + [UserMessage(id, message)], true, pending + [message])
  {
    SendKeeps(messages[1..], pending, Respond, id, message);
    AppendAfterGreeting(messages, UserMessage(id, message));
  }

  /** Logging the reply to the head of the queue and hiding the indicator keeps the state well-formed. */
  lemma DeliverWellFormed(messages: seq<Message>, isTyping: bool, pending: seq<string>, id: nat)
    requires WellFormed(messages, isTyping, pending)
    requires pending != []
    ensures WellFormed(messages + [BotMessage(id, Respond(pending[0]))], false, pending[1..])
  {
    var reply := Respond(pending[0]);
    assert reply == (Respond)(pending[0]);
    DeliverKeeps(messages[1..], pending, Respond, id, reply);
    AppendAfterGreeting(messages, BotMessage(id, reply));
  }

  /** A log that shows a reply before the message it answers is never well-formed. */
  lemma ReplyBeforeMessageRejected(r: Reply, replyId: nat, messageId: nat, x: string, isTyping: bool, pending: seq<string>)
    ensures !WellFormed([GreetingMessage, BotMessage(replyId, r), UserMessage(messageId, x)], isTyping, pending)
  {
    var log := [BotMessage(replyId, r), UserMessage(messageId, x)];
    assert [GreetingMessage, BotMessage(replyId, r), UserMessage(messageId, x)][1..] == log;
    assert log[..1] == [BotMessage(replyId, r)];
    assert Answered([BotMessage(replyId, r)]) == [r] by {
      assert [BotMessage(replyId, r)][..0] == [];
    }
    assert Asked([BotMessage(replyId, r)]) == [] by {
      assert [BotMessage(replyId, r)][..0] == [];
    }
    assert !RepliesFollow(log[..1]);
    assert !RepliesFollow(log);
    assert !Consistent(log, pending, Respond);
  }

  /** A blank user message is never part of a well-formed log. */
  lemma BlankMessageRejected(id: nat, x: string, isTyping: bool, pending: seq<string>)
    requires IsBlank(x)
    ensures !WellFormed([GreetingMessage, UserMessage(id, x)], isTyping, pending)
  {
    assert [GreetingMessage, UserMessage(id, x)][1].UserMessage?;
  }
}
