/** The chat page's pure logic: the typing list, the message list, how
    consecutive messages are grouped on screen, and the typing indicator. */
module Chat {
  import opened Seqs

  datatype Option<T> = None | Some(value: T)

  /** A message as the page keeps it. `id` is the receiving clock's reading
      as text; `timestamp` is the send time in milliseconds since the epoch. */
  datatype Message = Message(id: string, text: string, sender: string, timestamp: int, isOwn: bool)

  /** The "chat message" payload. `senderId` is the sending socket's id,
      absent when that socket had none yet. */
  datatype ChatPayload = ChatPayload(text: string, sender: string, timestamp: int, senderId: Option<string>)

  /** The "typing" payload. */
  datatype TypingPayload = TypingPayload(username: string, isTyping: bool)

  /** The `typing` listener's updater: a start adds the name once, at the
      end; a stop removes every copy of it. */
  function UpdateTyping(prev: seq<string>, data: TypingPayload): (r: seq<string>)
    ensures forall u :: u in r <==> (u in prev && u != data.username) || (data.isTyping && u == data.username)
    ensures data.isTyping ==> |prev| <= |r| <= |prev| + 1 && r[..|prev|] == prev
    ensures data.isTyping && data.username in prev ==> r == prev
    ensures !data.isTyping ==> |r| <= |prev|
  {
    if data.isTyping then
      (if data.username in prev then prev else prev + [data.username])
    else
      assert forall u :: u in RemoveAll(prev, data.username) <==> u in prev && u != data.username by {
        forall u ensures u in RemoveAll(prev, data.username) <==> u in prev && u != data.username {
          RemoveAllMember(prev, data.username, u);
        }
      }
      RemoveAll(prev, data.username)
  }

  /** A repeated start changes nothing. */
  lemma TypingStartIdempotent(prev: seq<string>, name: string)
    ensures var start := TypingPayload(name, true);
            UpdateTyping(UpdateTyping(prev, start), start) == UpdateTyping(prev, start)
  {
  }

  /** A repeated stop changes nothing more. */
  lemma TypingStopIdempotent(prev: seq<string>, name: string)
    ensures var stop := TypingPayload(name, false);
            UpdateTyping(UpdateTyping(prev, stop), stop) == UpdateTyping(prev, stop)
  {
    RemoveAllIdempotent(prev, name);
  }

  /** Updates never put a name in the list twice. */
  lemma TypingDistinct(prev: seq<string>, data: TypingPayload)
    requires Distinct(prev)
    ensures Distinct(UpdateTyping(prev, data))
  {
    if data.isTyping {
      if data.username !in prev {
        DistinctAppend(prev, data.username);
      }
    } else {
      RemoveAllDistinct(prev, data.username);
    }
  }

  /** A stop keeps the other names in the order they started typing. */
  lemma TypingStopKeepsOrder(a: seq<string>, b: seq<string>, name: string)
    ensures var stop := TypingPayload(name, false);
            UpdateTyping(a + b, stop) == UpdateTyping(a, stop) + UpdateTyping(b, stop)
  {
    RemoveAllConcat(a, b, name);
  }

  /** A start followed by a stop for a name not shown restores the list. */
  lemma TypingRoundTrip(prev: seq<string>, name: string)
    requires name !in prev
    ensures UpdateTyping(UpdateTyping(prev, TypingPayload(name, true)), TypingPayload(name, false)) == prev
  {
    RemoveAllConcat(prev, [name], name);
    RemoveAllAbsent(prev, name);
    assert RemoveAll([name], name) == [];
  }

  /** The `chat message` listener's updater: one message appended, marked as
      own exactly when the payload's sender id equals this client's socket id
      (two absent ids are equal). */
  function Receive(prev: seq<Message>, data: ChatPayload, id: string, self: Option<string>): (r: seq<Message>)
    ensures |r| == |prev| + 1 && r[..|prev|] == prev
    ensures r[|prev|].isOwn <==> data.senderId == self
    ensures r[|prev|].text == data.text && r[|prev|].sender == data.sender
    ensures r[|prev|].timestamp == data.timestamp && r[|prev|].id == id
  {
    prev + [Message(id, data.text, data.sender, data.timestamp, data.senderId == self)]
  }

  /** Five minutes, in milliseconds: a longer pause between two messages of
      the same sender shows the earlier one's time. */
  const GroupGap: int := 300000

  /** The sender's avatar and name are shown on the first message and
      whenever the sender changes. */
  predicate ShowAvatar(msgs: seq<Message>, i: nat)
    requires i < |msgs|
    ensures i == 0 ==> ShowAvatar(msgs, i)
    ensures !ShowAvatar(msgs, i) ==> 0 < i && msgs[i - 1].sender == msgs[i].sender
    ensures 0 < i && msgs[i - 1].sender == msgs[i].sender ==> !ShowAvatar(msgs, i)
  {
    i == 0 || msgs[i - 1].sender != msgs[i].sender
  }

  /** The time is shown on the last message, before a change of sender, and
      before a pause longer than `GroupGap`. */
  predicate ShowTimestamp(msgs: seq<Message>, i: nat)
    requires i < |msgs|
    ensures i == |msgs| - 1 ==> ShowTimestamp(msgs, i)
    ensures !ShowTimestamp(msgs, i) ==>
              i + 1 < |msgs| && msgs[i + 1].sender == msgs[i].sender
              && msgs[i + 1].timestamp <= msgs[i].timestamp + GroupGap
    ensures (i + 1 < |msgs| && msgs[i + 1].sender == msgs[i].sender
             && msgs[i + 1].timestamp - msgs[i].timestamp <= GroupGap) ==> !ShowTimestamp(msgs, i)
  {
    i == |msgs| - 1 || msgs[i + 1].sender != msgs[i].sender
    || msgs[i + 1].timestamp - msgs[i].timestamp > GroupGap
  }

  /** The message that opens the group `i` belongs to: the nearest message
      at or before `i` showing an avatar. Everything between it and `i` has
      the same sender and shows none. */
  function GroupStart(msgs: seq<Message>, i: nat): (j: nat)
    requires i < |msgs|
    ensures j <= i && ShowAvatar(msgs, j)
    ensures forall k :: j < k <= i ==> !ShowAvatar(msgs, k)
    ensures forall k :: j <= k <= i ==> msgs[k].sender == msgs[i].sender
  {
    if ShowAvatar(msgs, i) then i else GroupStart(msgs, i - 1)
  }

  /** The message whose time stands for `i`: the nearest message at or
      after `i` showing a time. It has the same sender, nothing between shows
      a time, and it is at most `GroupGap` per message later than `i`. */
  function NextStamp(msgs: seq<Message>, i: nat): (j: nat)
    requires i < |msgs|
    ensures i <= j < |msgs| && ShowTimestamp(msgs, j)
    ensures forall k :: i <= k < j ==> !ShowTimestamp(msgs, k)
    ensures forall k :: i <= k <= j ==> msgs[k].sender == msgs[i].sender
    ensures msgs[j].timestamp - msgs[i].timestamp <= GroupGap * (j - i)
    decreases |msgs| - i
  {
    if ShowTimestamp(msgs, i) then i else NextStamp(msgs, i + 1)
  }

  /** Messages arriving later never change an avatar already decided. */
  lemma AvatarStable(msgs: seq<Message>, more: seq<Message>, i: nat)
    requires i < |msgs|
    ensures ShowAvatar(msgs + more, i) == ShowAvatar(msgs, i)
  {
    if i > 0 {
      assert (msgs + more)[i - 1] == msgs[i - 1];
    }
  }

  /** Messages arriving later can change only the last message's time flag. */
  lemma StampStable(msgs: seq<Message>, more: seq<Message>, i: nat)
    requires i + 1 < |msgs|
    ensures ShowTimestamp(msgs + more, i) == ShowTimestamp(msgs, i)
  {
    assert (msgs + more)[i + 1] == msgs[i + 1];
  }

  /** In a run of messages from one sender, each at most `GroupGap` after
      the one before, only the first shows an avatar and only the last shows
      its time. */
  lemma OneSenderRun(msgs: seq<Message>, lo: nat, hi: nat)
    requires lo <= hi < |msgs|
    requires forall k :: lo <= k <= hi ==> msgs[k].sender == msgs[lo].sender
    requires forall k :: lo <= k < hi ==> msgs[k + 1].timestamp - msgs[k].timestamp <= GroupGap
    ensures forall k :: lo < k <= hi ==> !ShowAvatar(msgs, k)
    ensures forall k :: lo <= k < hi ==> !ShowTimestamp(msgs, k)
  {
  }

  /** Where an avatar opens a new group, the previous group shows its time. */
  lemma AvatarAfterStamp(msgs: seq<Message>, i: nat)
    requires 0 < i < |msgs| && ShowAvatar(msgs, i)
    ensures ShowTimestamp(msgs, i - 1)
  {
  }

  /** The total number of characters in `names`. */
  function TotalLength(names: seq<string>): nat {
    if names == [] then 0 else |names[0]| + TotalLength(names[1..])
  }

  /** `names.join(", ")`: every name once, with a two-character separator
      between neighbours. */
  function JoinComma(names: seq<string>): (r: string)
    ensures names != [] ==> |r| == TotalLength(names) + 2 * (|names| - 1)
    ensures names != [] ==> r[..|names[0]|] == names[0]
  {
    if |names| == 0 then ""
    else if |names| == 1 then names[0]
    else names[0] + ", " + JoinComma(names[1..])
  }

  /** Adding a name at the end adds a separator and that name. */
  lemma {:induction false} JoinSnoc(names: seq<string>, x: string)
    requires names != []
    ensures JoinComma(names + [x]) == JoinComma(names) + ", " + x
  {
    var s := names + [x];
    assert s[1..] == names[1..] + [x];
    if |names| > 1 {
      JoinSnoc(names[1..], x);
    } else {
      assert s == [names[0], x];
      assert s[1..] == [x];
    }
  }

  /** The typing indicator: nothing when no one types, "X is typing..." for
      one name, and "A, B and C are typing..." for several. */
  function TypingLabel(users: seq<string>): (r: Option<string>)
    ensures r.None? <==> users == []
  {
    if |users| == 0 then None
    else if |users| == 1 then Some(users[0] + " is typing...")
    else Some(JoinComma(users[..|users| - 1]) + " and " + users[|users| - 1] + " are typing...")
  }

  /** An English list of two or more names, built from the front: "A and B",
      "A, B and C". */
  function NameList(names: seq<string>): string
    requires |names| >= 2
  {
    if |names| == 2 then names[0] + " and " + names[1]
    else names[0] + ", " + NameList(names[1..])
  }

  /** Several names are listed with commas and a final "and". */
  lemma TypingLabelMany(users: seq<string>)
    requires |users| >= 2
    ensures TypingLabel(users) == Some(NameList(users) + " are typing...")
  {
    JoinAnd(users);
  }

  /** One name gives the singular form. */
  lemma TypingLabelOne(name: string)
    ensures TypingLabel([name]) == Some(name + " is typing...")
  {
  }

  lemma {:induction false} JoinAnd(names: seq<string>)
    requires |names| >= 2
    ensures JoinComma(names[..|names| - 1]) + " and " + names[|names| - 1] == NameList(names)
  {
    var n := |names|;
    var last := names[n - 1];
    if n == 2 {
      assert names[..1] == [names[0]];
    } else {
      var init := names[..n - 1];
      var tail := names[1..];
      assert init[1..] == tail[..|tail| - 1];
      assert tail[|tail| - 1] == last;
      JoinAnd(tail);
      var j := JoinComma(tail[..|tail| - 1]);
      calc {
        JoinComma(init) + " and " + last;
        (names[0] + ", " + j) + " and " + last;
        names[0] + ", " + (j + " and " + last);
        names[0] + ", " + NameList(tail);
      }
    }
  }
}
