/**
 * The private conversation between the signed-in user and the user picked from the
 * friends list: the messages either of them sent to the other, oldest first; sending
 * validates the text, and users see edit and delete controls on what they sent.
 */
module DirectMessages {
  import opened Wrappers
  import opened Strings
  import opened Listing
  import opened Validation
  import opened Db

  /** A message sent by one of the two users to the other. */
  predicate InConversation(m: DirectMessage, me: string, other: string) {
    (m.senderId == me && m.receiverId == other) || (m.senderId == other && m.receiverId == me)
  }

  /** The conversation query: both directions, in ascending order of `created_at`. */
  function Conversation(rows: seq<DirectMessage>, me: string, other: string): seq<DirectMessage> {
    SortBy(Filter(rows, (m: DirectMessage) => InConversation(m, me, other)), (m: DirectMessage) => m.createdAt)
  }

  /** The conversation holds exactly the messages between the two users, each once, oldest first. */
  lemma ConversationShape(rows: seq<DirectMessage>, me: string, other: string)
    ensures multiset(Conversation(rows, me, other)) == multiset(Filter(rows, (m: DirectMessage) => InConversation(m, me, other)))
    ensures SortedBy(Conversation(rows, me, other), (m: DirectMessage) => m.createdAt)
    ensures forall i :: 0 <= i < |rows| && InConversation(rows[i], me, other) ==> rows[i] in Conversation(rows, me, other)
    ensures forall m :: m in Conversation(rows, me, other) ==> m in rows && InConversation(m, me, other)
  {
    var mine := Filter(rows, (m: DirectMessage) => InConversation(m, me, other));
    SortByPermutation(mine, (m: DirectMessage) => m.createdAt);
    SortBySorted(mine, (m: DirectMessage) => m.createdAt);
    var c := Conversation(rows, me, other);
    forall i | 0 <= i < |rows| && InConversation(rows[i], me, other) ensures rows[i] in c {
      assert rows[i] in multiset(mine);
    }
    forall m | m in c ensures m in rows && InConversation(m, me, other) {
      assert m in multiset(c);
    }
  }

  /** Both users see the same conversation. */
  lemma ConversationSymmetric(rows: seq<DirectMessage>, a: string, b: string)
    ensures Conversation(rows, a, b) == Conversation(rows, b, a)
  {
    FilterSame(rows, (m: DirectMessage) => InConversation(m, a, b), (m: DirectMessage) => InConversation(m, b, a));
  }

  /**
   * `.update({ content, is_edited: true }).eq("id", id)` on `direct_messages`: the rows with
   * that id get the new content and the edited flag, and nothing else changes.
   */
  function EditDirectMessage(rows: seq<DirectMessage>, id: string, content: string): (r: seq<DirectMessage>)
    ensures |r| == |rows|
    ensures forall i :: 0 <= i < |rows| && rows[i].id != id ==> r[i] == rows[i]
    ensures forall i :: 0 <= i < |rows| && rows[i].id == id ==>
      r[i] == DirectMessage(id, rows[i].senderId, rows[i].receiverId, content, Some(true), rows[i].isRead, rows[i].createdAt)
  {
    if rows == [] then []
    else
      [if rows[0].id == id then rows[0].(content := content, isEdited := Some(true)) else rows[0]]
      + EditDirectMessage(rows[1..], id, content)
  }

  /** Editing keeps every message in the conversation it was in. */
  lemma {:induction false} EditKeepsConversations(rows: seq<DirectMessage>, id: string, content: string, me: string, other: string)
    ensures |Filter(EditDirectMessage(rows, id, content), (m: DirectMessage) => InConversation(m, me, other))|
         == |Filter(rows, (m: DirectMessage) => InConversation(m, me, other))|
  {
    if rows != [] {
      EditKeepsConversations(rows[1..], id, content, me, other);
      assert EditDirectMessage(rows, id, content)[1..] == EditDirectMessage(rows[1..], id, content);
    }
  }

  /** What sending the current text does. */
  datatype SendAction = Ignore | Invalid(issue: Issue) | EditMessage(id: string, content: string) | Post(content: string)

  /**
   * The decision `sendMessage` takes: nothing for blank text, without a selected user or
   * without a signed-in user; the message rule otherwise, and the trimmed text is what
   * gets written.
   */
  function Decide(message: string, selectedUserId: Option<string>, currentUserId: Option<string>,
                  editingId: Option<string>): (a: SendAction)
    ensures a == Ignore <==> Trim(message) == "" || selectedUserId.None? || selectedUserId.value == "" || currentUserId.None? || currentUserId.value == ""
    ensures a.Invalid? ==> a.issue == TooLong(5000) && JsLength(Trim(message)) > 5000
    ensures a.EditMessage? || a.Post? ==> a.content == Trim(message) && 1 <= JsLength(a.content) <= 5000
    ensures a.EditMessage? <==> !a.Ignore? && !a.Invalid? && editingId.Some?
    ensures a.EditMessage? ==> a.id == editingId.value
  {
    if Trim(message) == "" || selectedUserId.None? || selectedUserId.value == "" || currentUserId.None? || currentUserId.value == "" then Ignore
    else
      match ValidateMessage(message)
      case Err(e) =>
        assert JsLength(Trim(message)) > 0 by {
          assert |Trim(message)| > 0;
        }
        Invalid(e)
      case Ok(c) => if editingId.Some? then EditMessage(editingId.value, c) else Post(c)
  }

  predicate Writes(a: SendAction) {
    a.EditMessage? || a.Post?
  }

  /** Text within the limits is written trimmed: surrounding white space never reaches the table. */
  lemma PaddedTextTrimmed(pad: string, text: string, other: string, me: string)
    requires AllSpace(pad) && other != "" && me != ""
    requires text != [] && !IsSpace(text[0]) && !IsSpace(text[|text| - 1]) && JsLength(text) <= 5000
    ensures Decide(pad + text + pad, Some(other), Some(me), None) == Post(text)
  {
    TrimPadded(pad, text, pad);
    assert Trim(pad + text + pad) == text;
  }

  /** The message rows after a write: the edited message, or a new one from `me` to `other`. */
  function Written(a: SendAction, rows: seq<DirectMessage>, me: string, other: string, newId: string, now: int): seq<DirectMessage>
    requires Writes(a)
  {
    if a.EditMessage? then EditDirectMessage(rows, a.id, a.content)
    else rows + [DirectMessage(newId, me, other, a.content, None, None, now)]
  }

  /** Edit and delete controls show on the messages the current user sent. */
  predicate ShowControls(msg: DirectMessage, currentUserId: Option<string>)
    ensures ShowControls(msg, currentUserId) <==> currentUserId == Some(msg.senderId)
  {
    currentUserId.Some? && msg.senderId == currentUserId.value
  }

  /** A posted message joins the conversation and carries its sender's controls. */
  lemma PostJoinsConversation(rows: seq<DirectMessage>, content: string, me: string, other: string, newId: string, now: int)
    ensures var msg := DirectMessage(newId, me, other, content, None, None, now);
      msg in Conversation(Written(Post(content), rows, me, other, newId, now), me, other)
      && msg in Conversation(Written(Post(content), rows, me, other, newId, now), other, me)
      && ShowControls(msg, Some(me)) && (other != me ==> !ShowControls(msg, Some(other)))
  {
    var msg := DirectMessage(newId, me, other, content, None, None, now);
    var all := rows + [msg];
    assert all[|rows|] == msg;
    ConversationShape(all, me, other);
    ConversationSymmetric(all, me, other);
  }

  class DirectMessagesScreen {
    const db: Database
    const selectedUserId: Option<string>
    var messages: seq<DirectMessage>
    var message: string
    var editingId: Option<string>
    var currentUserId: Option<string>

    constructor (db: Database, selectedUserId: Option<string>, currentUserId: Option<string>)
      ensures this.db == db && this.selectedUserId == selectedUserId && this.currentUserId == currentUserId
      ensures messages == [] && message == "" && editingId == None
    {
      this.db, this.selectedUserId, this.currentUserId := db, selectedUserId, currentUserId;
      messages, message, editingId := [], "", None;
    }

    /** `loadMessages`: the conversation with the selected user, when both users are known. */
    method LoadMessages()
      modifies this`messages
      ensures Chosen() ==> messages == Conversation(db.directMessages, currentUserId.value, selectedUserId.value)
      ensures !Chosen() ==> messages == old(messages)
    {
      if Chosen() {
        messages := Conversation(db.directMessages, currentUserId.value, selectedUserId.value);
      }
    }

    predicate Chosen()
      reads this
    {
      selectedUserId.Some? && selectedUserId.value != "" && currentUserId.Some? && currentUserId.value != ""
    }

    /**
     * `sendMessage`: `newId` and `now` are the new row's id and time and `writeFails` the
     * outcome of the write; after a successful write the text is cleared and the
     * conversation is loaded again.
     */
    method SendMessage(newId: string, now: int, writeFails: bool) returns (action: SendAction)
      modifies this`message, this`editingId, this`messages, db`directMessages
      ensures action == Decide(old(message), selectedUserId, currentUserId, old(editingId))
      ensures Writes(action) && !writeFails ==>
        && db.directMessages == Written(action, old(db.directMessages), currentUserId.value, selectedUserId.value, newId, now)
        && message == "" && editingId == None
        && (Chosen() ==> messages == Conversation(db.directMessages, currentUserId.value, selectedUserId.value))
      ensures !Writes(action) || writeFails ==>
        db.directMessages == old(db.directMessages) && message == old(message)
        && editingId == old(editingId) && messages == old(messages)
    {
      action := Decide(message, selectedUserId, currentUserId, editingId);
      if writeFails || !Writes(action) {
        return;
      }
      db.directMessages := Written(action, db.directMessages, currentUserId.value, selectedUserId.value, newId, now);
      editingId := None;
      message := "";
      LoadMessages();
    }

    /** `deleteMessage`: removes the message with that id; on success the conversation is loaded again. */
    method DeleteMessage(id: string, deleteFails: bool)
      modifies this`messages, db`directMessages
      ensures deleteFails ==> db.directMessages == old(db.directMessages) && messages == old(messages)
      ensures !deleteFails ==>
        db.directMessages == DeleteId(old(db.directMessages), id, (m: DirectMessage) => m.id)
        && (Chosen() ==> messages == Conversation(db.directMessages, currentUserId.value, selectedUserId.value))
        && (!Chosen() ==> messages == old(messages))
    {
      if deleteFails {
        return;
      }
      db.directMessages := DeleteId(db.directMessages, id, (m: DirectMessage) => m.id);
      LoadMessages();
    }

    /** `startEdit`: the message's text goes into the input and its id is remembered. */
    method StartEdit(msg: DirectMessage)
      modifies this`editingId, this`message
      ensures editingId == Some(msg.id) && message == msg.content
    {
      editingId, message := Some(msg.id), msg.content;
    }
  }
}
