/**
 * The chat screen (src/pages/Chat/Chat.tsx): a dictionary from chat id to
 * chat, the selected chat with its messages and status, and the handlers
 * that send a message, act on the selected chat from the settings menu and
 * unblock it. `window.confirm` is a boolean input and `Date.now()` an
 * integer one; the dictionary stored in `localStorage` is given to the
 * constructor, and the writes back to it are left out.
 */
module Chat {
  import opened Optional
  import Text
  import Listing

  datatype Status = Active | Closed | Blocked

  /** A message; `timestamp` is the time in milliseconds. */
  datatype Message = Message(id: string, senderId: string, content: string, kind: string, timestamp: int)

  /** A conversation; `timestamp` is the time of its last message in milliseconds. */
  datatype Chat = Chat(
    id: string,
    companyId: string,
    companyName: string,
    jobTitle: string,
    messages: seq<Message>,
    lastMessage: string,
    timestamp: int,
    status: Status)

  /** The settings actions `handleChatAction` takes. */
  datatype Action = Delete | Clear | Share | Close | Block

  const CurrentUser := "currentUser"

  /** The search box over the chat list: company name or job title, ignoring case. */
  predicate MatchesQuery(c: Chat, q: string) {
    Text.IncludesIgnoringCase(c.companyName, q) || Text.IncludesIgnoringCase(c.jobTitle, q)
  }

  /** Newest first: the comparator `b.timestamp - a.timestamp` as a key. */
  function Recency(c: Chat): real {
    -(c.timestamp as real)
  }

  /** `Object.values(chats).sort(...).filter(...)`, from the values in the
      order the object enumerates them. */
  function ChatList(values: seq<Chat>, q: string): seq<Chat> {
    Listing.Keep(Listing.SortBy(values, Recency), c => MatchesQuery(c, q))
  }

  /** The list shows exactly the chats that match the search, newest first. */
  lemma ChatListOrder(values: seq<Chat>, q: string)
    ensures var r := ChatList(values, q);
      (forall c :: c in r <==> c in values && MatchesQuery(c, q)) &&
      (forall i, j :: 0 <= i < j < |r| ==> r[j].timestamp <= r[i].timestamp)
  {
    var sorted := Listing.SortBy(values, Recency);
    Listing.SortByCorrect(values, Recency);
    Listing.KeepMembers(sorted, c => MatchesQuery(c, q));
    Listing.KeepSorted(sorted, c => MatchesQuery(c, q), Recency);
    forall c
      ensures c in sorted <==> c in values
    {
      assert c in sorted <==> c in multiset(sorted);
    }
  }

  /** An empty search lists every chat. */
  lemma EmptySearchListsAll(values: seq<Chat>)
    ensures forall c :: c in ChatList(values, "") <==> c in values
  {
    ChatListOrder(values, "");
    forall c | c in values
      ensures MatchesQuery(c, "")
    {
      Text.EmptyIsIncluded(Text.ToLower(c.companyName));
    }
  }

  class ChatPage {
    var chats: map<string, Chat>
    var selectedChat: Option<string>
    var showSettings: bool
    var messages: seq<Message>
    var newMessage: string
    var searchQuery: string
    var showShareModal: bool
    var chatStatus: Status

    /** A selected chat exists, and the page's copies of its messages and
        status agree with the dictionary. */
    ghost predicate Valid()
      reads this
    {
      selectedChat.Some? ==>
        selectedChat.value in chats &&
        messages == chats[selectedChat.value].messages &&
        chatStatus == chats[selectedChat.value].status
    }

    /** The stored dictionary is loaded; a chat id in the route that names a
        stored chat selects it. */
    constructor (stored: map<string, Chat>, routeId: Option<string>)
      ensures Valid() && chats == stored
      ensures selectedChat == if routeId.Some? && routeId.value in stored then routeId else None
      ensures selectedChat.None? ==> messages == [] && chatStatus == Active
      ensures !showSettings && newMessage == "" && searchQuery == "" && !showShareModal
    {
      chats := stored;
      showSettings := false;
      newMessage := "";
      searchQuery := "";
      showShareModal := false;
      if routeId.Some? && routeId.value in stored {
        selectedChat := routeId;
        messages := stored[routeId.value].messages;
        chatStatus := stored[routeId.value].status;
      } else {
        selectedChat := None;
        messages := [];
        chatStatus := Active;
      }
    }

    /** The send form is shown only for an active chat. */
    predicate SendFormShown()
      reads this
    {
      selectedChat.Some? && chatStatus == Active
    }

    /** A click on a chat in the list. */
    method SelectChat(id: string)
      requires Valid() && id in chats
      modifies this`selectedChat, this`messages, this`chatStatus
      ensures Valid() && selectedChat == Some(id) && chats == old(chats)
      ensures messages == chats[id].messages && chatStatus == chats[id].status
      ensures newMessage == old(newMessage) && showSettings == old(showSettings)
    {
      selectedChat := Some(id);
      messages := chats[id].messages;
      chatStatus := chats[id].status;
    }

    method SetNewMessage(text: string)
      requires Valid()
      modifies this`newMessage
      ensures Valid() && newMessage == text
      ensures chats == old(chats) && selectedChat == old(selectedChat) && messages == old(messages)
    {
      newMessage := text;
    }

    /** `handleSendMessage` at time `now`: nothing happens for a blank input
        or without a selected chat; otherwise the message is appended to the
        selected chat, which also takes it as its last message and time, and
        the input is cleared. */
    method HandleSendMessage(now: int) returns (sent: bool)
      requires Valid()
      modifies this`messages, this`chats, this`newMessage
      ensures Valid()
      ensures sent <==> Text.Trim(old(newMessage)) != "" && old(selectedChat).Some?
      ensures !sent ==> chats == old(chats) && messages == old(messages) && newMessage == old(newMessage)
      ensures sent ==>
        var id := old(selectedChat).value;
        var m := Message(Text.Show(now), CurrentUser, old(newMessage), "text", now);
        selectedChat == old(selectedChat) && messages == old(messages) + [m] &&
        chats == old(chats)[id := old(chats)[id].(messages := messages, lastMessage := old(newMessage), timestamp := now)] &&
        newMessage == ""
      ensures selectedChat == old(selectedChat) && chatStatus == old(chatStatus)
    {
      if Text.Trim(newMessage) == "" || selectedChat.None? {
        return false;
      }
      var id := selectedChat.value;
      var m := Message(Text.Show(now), CurrentUser, newMessage, "text", now);
      messages := messages + [m];
      chats := chats[id := chats[id].(messages := messages, lastMessage := newMessage, timestamp := now)];
      newMessage := "";
      sent := true;
    }

    /** `handleChatAction(action)` with `confirmed` the answer to the
        confirmation dialog, which only delete, clear and block ask for.
        Without a selected chat nothing happens; otherwise the settings menu
        closes. */
    method HandleChatAction(action: Action, confirmed: bool)
      requires Valid()
      modifies this`chats, this`selectedChat, this`messages, this`chatStatus,
               this`showShareModal, this`showSettings
      ensures Valid()
      ensures old(selectedChat).None? ==>
        chats == old(chats) && selectedChat == None && messages == old(messages) &&
        showSettings == old(showSettings) && showShareModal == old(showShareModal) && chatStatus == old(chatStatus)
      ensures old(selectedChat).Some? ==>
        var id := old(selectedChat).value;
        !showSettings &&
        match action
        case Delete =>
          chatStatus == old(chatStatus) &&
          if confirmed then chats == old(chats) - {id} && selectedChat == None && messages == []
          else chats == old(chats) && selectedChat == old(selectedChat) && messages == old(messages)
        case Clear =>
          selectedChat == old(selectedChat) && chatStatus == old(chatStatus) &&
          if confirmed then chats == old(chats)[id := old(chats)[id].(messages := [])] && messages == []
          else chats == old(chats) && messages == old(messages)
        case Block =>
          selectedChat == old(selectedChat) && messages == old(messages) &&
          if confirmed then chats == old(chats)[id := old(chats)[id].(status := Blocked)] && chatStatus == Blocked
          else chats == old(chats) && chatStatus == old(chatStatus)
        case Share =>
          chats == old(chats) && selectedChat == old(selectedChat) && messages == old(messages) &&
          chatStatus == old(chatStatus) && showShareModal
        case Close =>
          selectedChat == old(selectedChat) && messages == old(messages) &&
          chats == old(chats)[id := old(chats)[id].(status := Closed)] && chatStatus == Closed
      ensures action != Share ==> showShareModal == old(showShareModal)
      ensures newMessage == old(newMessage)
    {
      if selectedChat.None? {
        return;
      }
      var id := selectedChat.value;
      match action {
        case Delete =>
          if confirmed {
            chats := chats - {id};
            selectedChat := None;
            messages := [];
          }
        case Clear =>
          if confirmed {
            chats := chats[id := chats[id].(messages := [])];
            messages := [];
          }
        case Block =>
          if confirmed {
            chats := chats[id := chats[id].(status := Blocked)];
            chatStatus := Blocked;
          }
        case Share =>
          showShareModal := true;
        case Close =>
          chats := chats[id := chats[id].(status := Closed)];
          chatStatus := Closed;
      }
      showSettings := false;
    }

    /** The unblock button, shown in place of the send form for a blocked chat. */
    method Unblock()
      requires Valid() && selectedChat.Some? && chatStatus == Blocked
      modifies this`chats, this`chatStatus
      ensures Valid() && SendFormShown()
      ensures selectedChat == old(selectedChat) && messages == old(messages)
      ensures chats == old(chats)[selectedChat.value := old(chats)[selectedChat.value].(status := Active)]
    {
      var id := selectedChat.value;
      chats := chats[id := chats[id].(status := Active)];
      chatStatus := Active;
    }
  }
}
