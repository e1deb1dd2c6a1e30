/** The Messages page (social-versity/src/pages/Messages.jsx): the conversation list and the
    chat log of the open conversation. */
module Messages {
  import Text

  /** A conversation in the inbox (an entry of the mock `messages` array). */
  datatype Conversation = Conversation(
    id: string,
    senderId: string,
    senderName: string,
    content: string,
    timestamp: string,
    unread: bool)

  /** One bubble of the chat log. */
  datatype ChatMessage = ChatMessage(id: int, sender: string, text: string, time: string)

  /** The log's ids are 1, 2, …, n in order. */
  predicate IdsSequential(history: seq<ChatMessage>) {
    forall i :: 0 <= i < |history| ==> history[i].id == i + 1
  }

  /** No two messages share an id. */
  predicate IdsUnique(history: seq<ChatMessage>) {
    forall i, j :: 0 <= i < j < |history| ==> history[i].id != history[j].id
  }

  /** The three messages the log starts with. */
  const InitialHistory: seq<ChatMessage> := [
    ChatMessage(1, "them", "Hey! Are you going to the hackathon?", "9:30 AM"),
    ChatMessage(2, "me", "Yeah, I just registered! Do you have a team yet?", "9:32 AM"),
    ChatMessage(3, "them", "Not yet, still looking for a designer.", "9:33 AM")
  ]

  lemma InitialHistorySequential()
    ensures IdsSequential(InitialHistory)
  {
  }

  /** `[...chatHistory, newMessage]` for a reply; `time` stands for the locale-formatted clock. */
  function Sent(history: seq<ChatMessage>, replyText: string, time: string): (r: seq<ChatMessage>)
    ensures |r| == |history| + 1 && r[..|history|] == history
    ensures r[|history|] == ChatMessage(|history| + 1, "me", replyText, time)
  {
    history + [ChatMessage(|history| + 1, "me", replyText, time)]
  }

  /** Sending keeps the ids 1..n sequential, hence unique. */
  lemma SendKeepsIdsSequential(history: seq<ChatMessage>, replyText: string, time: string)
    requires IdsSequential(history)
    ensures IdsSequential(Sent(history, replyText, time))
    ensures IdsUnique(Sent(history, replyText, time))
  {
    var r := Sent(history, replyText, time);
    forall i | 0 <= i < |r| ensures r[i].id == i + 1 {
      if i < |history| {
        assert r[i] == r[..|history|][i];
      }
    }
  }

  /** Without the sequential-id invariant, `length + 1` can repeat an id already in the log. */
  lemma LengthIdCanCollide()
    ensures !IdsUnique(Sent([ChatMessage(2, "them", "hi", "")], "yo", ""))
  {
    var r := Sent([ChatMessage(2, "them", "hi", "")], "yo", "");
    assert r[0].id == 2 && r[1].id == 2;
  }

  class MessagesPage {
    var activeChat: Conversation
    var replyText: string
    var chatHistory: seq<ChatMessage>

    ghost predicate Valid()
      reads this
    {
      IdsSequential(chatHistory)
    }

    constructor (conversations: seq<Conversation>)
      requires |conversations| > 0
      ensures Valid()
      ensures activeChat == conversations[0] && replyText == "" && chatHistory == InitialHistory
    {
      activeChat := conversations[0];
      replyText := "";
      chatHistory := InitialHistory;
    }

    /** `handleSend`: a blank reply is ignored; otherwise it is appended under the next id and
        the input is cleared. */
    method HandleSend(time: string)
      requires Valid()
      modifies this`chatHistory, this`replyText
      ensures Valid()
      ensures Text.IsBlank(old(replyText)) ==> chatHistory == old(chatHistory) && replyText == old(replyText)
      ensures !Text.IsBlank(old(replyText)) ==>
        chatHistory == Sent(old(chatHistory), old(replyText), time) && replyText == ""
    {
      if Text.IsBlank(replyText) {
        return;
      }
      SendKeepsIdsSequential(chatHistory, replyText, time);
      chatHistory := chatHistory + [ChatMessage(|chatHistory| + 1, "me", replyText, time)];
      replyText := "";
    }

    /** Clicking a conversation in the inbox: `setActiveChat(msg)`. */
    method SelectChat(conversation: Conversation)
      modifies this`activeChat
      ensures activeChat == conversation
    {
      activeChat := conversation;
    }
  }
}
