/** The chat page's state and the handlers that change it: the access-key
    gate, sending a message, logging out, and the two socket listeners. */
module ChatPage {
  import opened Text
  import opened Chat
  import Seqs

  /** The shared access key and the message shown when another is entered. */
  const AccessKey: string := "TEAM2024"
  const InvalidKey: string := "Invalid access key. Please check and try again."

  /** The access key is accepted when it matches after trimming. */
  predicate KeyAccepted(key: string)
    ensures key == AccessKey ==> KeyAccepted(key)
    ensures KeyAccepted(key) ==> |key| >= |AccessKey|
  {
    TrimNoop(AccessKey);
    TrimCut(key);
    Trim(key) == AccessKey
  }

  /** A key is accepted exactly when it is the access key with nothing but
      whitespace around it. */
  lemma KeyAcceptedIff(key: string)
    ensures KeyAccepted(key) <==>
            exists a, b :: AllSpace(a) && AllSpace(b) && key == a + AccessKey + b
  {
    if KeyAccepted(key) {
      TrimCut(key);
      var lo :| CutFrom(key, lo, Trim(key));
      var a, b := key[..lo], key[lo + |AccessKey|..];
      assert key == a + AccessKey + b;
    }
    if exists a, b :: AllSpace(a) && AllSpace(b) && key == a + AccessKey + b {
      var a, b :| AllSpace(a) && AllSpace(b) && key == a + AccessKey + b;
      TrimPadding(a, AccessKey, b);
      TrimNoop(AccessKey);
    }
  }

  /** A client socket: its id is absent until the connection is made. */
  datatype Socket = Socket(id: Option<string>)

  /** What the page sends to the server. */
  datatype Emit = EmitChat(msg: ChatPayload) | EmitTyping(data: TypingPayload)

  /** Whether `sendMessage` sends anything: a message that is not blank, a
      chosen name, and a socket. */
  predicate CanSend(message: string, isUsernameSet: bool, socket: Option<Socket>)
    ensures CanSend(message, isUsernameSet, socket) <==>
              (exists i :: 0 <= i < |message| && !IsSpace(message[i])) && isUsernameSet && socket.Some?
  {
    TrimEmptyIff(message);
    Trim(message) != [] && isUsernameSet && socket.Some?
  }

  /** What `sendMessage` emits when it sends: the trimmed message with the
      name, the time and the socket id, then the end of typing. */
  function Outgoing(message: string, username: string, now: int, socket: Socket): (r: seq<Emit>)
    ensures |r| == 2 && r[0].EmitChat? && r[1] == EmitTyping(TypingPayload(username, false))
    ensures r[0].msg.text == Trim(message) && r[0].msg.senderId == socket.id
    ensures r[0].msg.sender == username && r[0].msg.timestamp == now
  {
    [EmitChat(ChatPayload(Trim(message), username, now, socket.id)), EmitTyping(TypingPayload(username, false))]
  }

  /** The sent text is never blank and never has whitespace at either end. */
  lemma OutgoingText(message: string, username: string, now: int, socket: Socket)
    requires Trim(message) != []
    ensures var t := Outgoing(message, username, now, socket)[0].msg.text;
            t != [] && !IsSpace(t[0]) && !IsSpace(t[|t| - 1]) && Trim(t) == t
  {
    TrimIdempotent(message);
  }

  /** A message received back from the server is marked as one's own when
      this client sent it from the socket it still holds. */
  lemma EchoIsOwn(prev: seq<Message>, message: string, username: string, now: int, socket: Socket, id: string)
    ensures var sent := Outgoing(message, username, now, socket)[0].msg;
            Receive(prev, sent, id, socket.id)[|prev|].isOwn
  {
  }

  class Page {
    var isAuthenticated: bool
    var accessKey: string
    var authError: string
    var message: string
    var messages: seq<Message>
    var username: string
    var isUsernameSet: bool
    var isTyping: bool
    var typingUsers: seq<string>
    /** The socket, shared by the page's handlers; absent before connecting
        and after logging out. */
    var socket: Option<Socket>

    /** The page as first shown: locked, empty, unconnected. */
    constructor ()
      ensures !isAuthenticated && accessKey == "" && authError == ""
      ensures message == "" && messages == [] && username == "" && !isUsernameSet
      ensures !isTyping && typingUsers == [] && socket == None
    {
      isAuthenticated, accessKey, authError := false, "", "";
      message, messages, username, isUsernameSet := "", [], "", false;
      isTyping, typingUsers, socket := false, [], None;
    }

    /** This client's socket id, if it has a socket with one. */
    function SelfId(): (r: Option<string>)
      reads this
      ensures r.Some? ==> socket.Some? && socket.value.id == r
      ensures socket.Some? ==> r == socket.value.id
    {
      if socket.Some? then socket.value.id else None
    }

    /** `verifyAccessKey`: an accepted key unlocks the page and clears the
        error; any other key shows the error and clears the input. */
    method VerifyAccessKey()
      modifies this`isAuthenticated, this`authError, this`accessKey
      ensures KeyAccepted(old(accessKey)) ==>
                isAuthenticated && authError == "" && accessKey == old(accessKey)
      ensures !KeyAccepted(old(accessKey)) ==>
                isAuthenticated == old(isAuthenticated) && authError == InvalidKey && accessKey == ""
    {
      if Trim(accessKey) == AccessKey {
        isAuthenticated := true;
        authError := "";
      } else {
        authError := InvalidKey;
        accessKey := "";
      }
    }

    /** `sendMessage(now)`: when sending is allowed, emits the message and
        the end of typing, clears the input and stops typing; otherwise does
        nothing. */
    method SendMessage(now: int) returns (sent: seq<Emit>)
      modifies this`message, this`isTyping
      ensures CanSend(old(message), isUsernameSet, socket) ==>
                sent == Outgoing(old(message), username, now, socket.value)
                && message == "" && !isTyping
      ensures !CanSend(old(message), isUsernameSet, socket) ==>
                sent == [] && message == old(message) && isTyping == old(isTyping)
    {
      var text := Trim(message);
      if text != [] && isUsernameSet && socket.Some? {
        var s := socket.value;
        sent := [EmitChat(ChatPayload(text, username, now, s.id))];
        message := "";
        sent := sent + [EmitTyping(TypingPayload(username, false))];
        isTyping := false;
      } else {
        sent := [];
      }
    }

    /** `logout`: back to the locked, empty page; the socket, if any, is
        disconnected and dropped (`disconnected` says whether there was one).
        The error text and the typing flag are left as they were. */
    method Logout() returns (disconnected: bool)
      modifies this
      ensures disconnected <==> old(socket).Some?
      ensures !isAuthenticated && !isUsernameSet && accessKey == "" && username == ""
      ensures messages == [] && message == "" && typingUsers == [] && socket == None
      ensures authError == old(authError) && isTyping == old(isTyping)
    {
      isAuthenticated := false;
      isUsernameSet := false;
      accessKey := "";
      username := "";
      messages := [];
      message := "";
      typingUsers := [];
      disconnected := socket.Some?;
      if socket.Some? {
        socket := None;
      }
    }

    /** The `chat message` listener; `id` is the clock's reading as text. */
    method OnChatMessage(data: ChatPayload, id: string)
      modifies this`messages
      ensures messages == Receive(old(messages), data, id, SelfId())
      ensures messages[|old(messages)|].isOwn <==> data.senderId == SelfId()
    {
      messages := messages + [Message(id, data.text, data.sender, data.timestamp, data.senderId == SelfId())];
    }

    /** The `typing` listener. */
    method OnTyping(data: TypingPayload)
      modifies this`typingUsers
      ensures typingUsers == UpdateTyping(old(typingUsers), data)
      ensures Seqs.Distinct(old(typingUsers)) ==> Seqs.Distinct(typingUsers)
    {
      if Seqs.Distinct(typingUsers) {
        TypingDistinct(typingUsers, data);
      }
      typingUsers := UpdateTyping(typingUsers, data);
    }
  }
}
