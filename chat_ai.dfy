/**
 * The chat screen: a transcript that opens with the assistant's greeting, the
 * input box, and the send handler that adds one user turn and, when the call
 * settles, one assistant turn.
 */
module ChatAI {
  import opened Types
  import Text
  import Gemini

  datatype Role = User | Ai

  datatype Message = Message(role: Role, text: string)

  const GreetingText := "Hello! I'm Chef Gemini. I can help you with recipes from any of the 195 countries. What are we cooking today?"
  const FallbackText := "Sorry, I'm having trouble connecting to my global kitchen right now."

  function Greeting(): Message
  {
    Message(Ai, GreetingText)
  }

  /** The role the `i`-th message of a well-formed transcript has: the greeting, then user and assistant in turn. */
  function RoleAt(i: nat): Role
  {
    if i % 2 == 1 then User else Ai
  }

  /**
   * The shape every transcript keeps: the greeting first, then user and assistant
   * messages alternating, each user message non-blank; a user message is still
   * unanswered exactly when a reply is loading.
   */
  predicate WellFormed(messages: seq<Message>, loading: bool)
  {
    |messages| >= 1 && messages[0] == Greeting()
    && (forall i :: 0 <= i < |messages| ==> messages[i].role == RoleAt(i))
    && (forall i :: 0 <= i < |messages| && messages[i].role == User ==> !Text.IsBlank(messages[i].text))
    && (loading <==> |messages| % 2 == 0)
  }

  /** Once nothing is loading, every user message is followed by the assistant's answer. */
  lemma {:induction false} EveryQuestionAnswered(messages: seq<Message>, i: nat)
    requires WellFormed(messages, false) && i < |messages| && messages[i].role == User
    ensures i + 1 < |messages| && messages[i + 1].role == Ai
  {
    assert i % 2 == 1;
    assert RoleAt(i + 1) == Ai;
  }

  /** An accepted question keeps the shape and leaves it waiting for an answer. */
  lemma AskKeepsShape(messages: seq<Message>, text: string)
    requires WellFormed(messages, false) && !Text.IsBlank(text)
    ensures WellFormed(messages + [Message(User, text)], true)
  {
    var m := messages + [Message(User, text)];
    assert |messages| % 2 == 1;
    forall i | 0 <= i < |m| ensures m[i].role == RoleAt(i) {
      if i < |messages| {
        assert m[i] == messages[i];
      }
    }
  }

  /** An answer keeps the shape and ends the wait. */
  lemma AnswerKeepsShape(messages: seq<Message>, text: string)
    requires WellFormed(messages, true)
    ensures WellFormed(messages + [Message(Ai, text)], false)
  {
    var m := messages + [Message(Ai, text)];
    assert |messages| % 2 == 0;
    forall i | 0 <= i < |m| ensures m[i].role == RoleAt(i) {
      if i < |messages| {
        assert m[i] == messages[i];
      }
    }
  }

  /** The assistant's turn for a settled call: the reply text, or the fixed apology when the call threw. */
  function AnswerText(reply: Gemini.ChatReply): (t: string)
    ensures Gemini.ChatWithAI(reply).Ok? ==> t == Gemini.ChatWithAI(reply).value
    ensures Gemini.ChatWithAI(reply).Err? ==> t == FallbackText
  {
    match Gemini.ChatWithAI(reply)
    case Ok(text) => text
    case Err(_) => FallbackText
  }

  /** A failed call and a reply that happens to be the apology look the same in the transcript. */
  lemma FallbackIndistinguishable(e: Failure)
    ensures AnswerText(Gemini.ChatThrew(e)) == AnswerText(Gemini.Answered(FallbackText))
  {
  }

  /** The chat component's state. */
  class ChatPanel {
    var messages: seq<Message>
    var input: string
    var isLoading: bool

    predicate Valid()
      reads this
    {
      WellFormed(messages, isLoading)
    }

    constructor ()
      ensures messages == [Greeting()] && input == "" && !isLoading
      ensures Valid()
    {
      messages := [Greeting()];
      input := "";
      isLoading := false;
    }

    /** Typing in the input box. */
    method SetInput(v: string)
      modifies this
      ensures input == v && messages == old(messages) && isLoading == old(isLoading)
    {
      input := v;
    }

    /**
     * `handleSend` up to its await. A blank input, or a reply still loading, makes it
     * return with nothing changed. Otherwise the untrimmed input becomes a user turn,
     * the box is cleared, loading starts, and the input is sent without a context.
     */
    method BeginSend() returns (request: Option<Gemini.ChatRequest>)
      requires Valid()
      modifies this
      ensures Valid()
      ensures request.None? <==> Text.IsBlank(old(input)) || old(isLoading)
      ensures request.None? ==> messages == old(messages) && input == old(input) && isLoading == old(isLoading)
      ensures request.Some? ==>
        messages == old(messages) + [Message(User, old(input))] && input == "" && isLoading
        && request.value == Gemini.ChatRequestFor(old(input), None)
    {
      if Text.Trim(input) == "" || isLoading {
        request := None;
      } else {
        var userMsg := input;
        AskKeepsShape(messages, userMsg);
        input := "";
        messages := messages + [Message(User, userMsg)];
        isLoading := true;
        request := Some(Gemini.ChatRequestFor(userMsg, None));
      }
    }

    /** `handleSend` after its await: append the assistant's turn and stop loading. */
    method FinishSend(reply: Gemini.ChatReply)
      requires Valid() && isLoading
      modifies this
      ensures Valid() && !isLoading
      ensures messages == old(messages) + [Message(Ai, AnswerText(reply))]
      ensures input == old(input)
    {
      AnswerKeepsShape(messages, AnswerText(reply));
      messages := messages + [Message(Ai, AnswerText(reply))];
      isLoading := false;
    }

    /** `handleSend` as one step: the transcript grows by a question and its answer, or not at all. */
    method HandleSend(reply: Gemini.ChatReply)
      requires Valid()
      modifies this
      ensures Valid() && isLoading == old(isLoading)
      ensures Text.IsBlank(old(input)) || old(isLoading) ==> messages == old(messages) && input == old(input)
      ensures !Text.IsBlank(old(input)) && !old(isLoading) ==>
        messages == old(messages) + [Message(User, old(input)), Message(Ai, AnswerText(reply))] && input == ""
    {
      var request := BeginSend();
      if request.Some? {
        FinishSend(reply);
      }
    }
  }
}
