/**
 * The channels panel: anyone signed in creates a channel and joins it as its owner; only
 * the owner posts and edits in it, and users see edit and delete controls on their own
 * messages.
 */
module Channels {
  import opened Wrappers
  import opened Strings
  import opened Db

  /** What sending the current text does in the selected channel. */
  datatype SendAction = Ignore | NotOwner | EditMessage(id: string, content: string) | Post(content: string)

  /**
   * The decision `sendMessage` takes: nothing for blank text or without a channel or
   * user, a refusal unless the user is the channel's owner as loaded, and otherwise an
   * edit or a new message with the text as typed.
   */
  function Decide(message: string, selected: Option<string>, currentUserId: Option<string>,
                  channelOwnerId: Option<string>, editingId: Option<string>): (a: SendAction)
    ensures a == Ignore <==> Trim(message) == "" || selected.None? || currentUserId.None?
    ensures a == NotOwner <==> a != Ignore && currentUserId != channelOwnerId
    ensures a.EditMessage? || a.Post? ==> currentUserId.Some? && currentUserId == channelOwnerId && selected.Some?
    ensures a.EditMessage? || a.Post? ==> a.content == message && Trim(message) != ""
    ensures a.EditMessage? <==> a != Ignore && a != NotOwner && editingId.Some?
  {
    if Trim(message) == "" || selected.None? || currentUserId.None? then Ignore
    else if currentUserId != channelOwnerId then NotOwner
    else if editingId.Some? then EditMessage(editingId.value, message)
    else Post(message)
  }

  /** Someone who is not the owner is refused, whatever the text and the editing state. */
  lemma NonOwnerRefused(message: string, channel: string, user: string, owner: Option<string>, editingId: Option<string>)
    requires Trim(message) != "" && owner != Some(user)
    ensures Decide(message, Some(channel), Some(user), owner, editingId) == NotOwner
  {
  }

  predicate Writes(a: SendAction) {
    a.EditMessage? || a.Post?
  }

  /** Edit and delete controls show on the current user's own messages. */
  predicate ShowControls(msg: RoomMessage, currentUserId: Option<string>)
    ensures ShowControls(msg, currentUserId) <==> currentUserId == Some(msg.userId)
  {
    currentUserId.Some? && msg.userId == currentUserId.value
  }

  /** The composer shows when the current user is the owner as loaded (also when both are unknown). */
  predicate ShowComposer(currentUserId: Option<string>, channelOwnerId: Option<string>)
    ensures currentUserId.Some? ==> (ShowComposer(currentUserId, channelOwnerId) <==> channelOwnerId == currentUserId)
    ensures currentUserId.None? ==> (ShowComposer(currentUserId, channelOwnerId) <==> channelOwnerId.None?)
  {
    currentUserId == channelOwnerId
  }

  /** Whenever the composer shows for a signed-in user, a send from it is not refused. */
  lemma ComposerMatchesSend(message: string, channel: string, user: string, owner: Option<string>, editingId: Option<string>)
    requires ShowComposer(Some(user), owner) && Trim(message) != ""
    ensures Decide(message, Some(channel), Some(user), owner, editingId) != NotOwner
    ensures Decide(message, Some(channel), Some(user), owner, editingId) != Ignore
  {
  }

  class ChannelsScreen {
    const db: Database
    var selectedChannel: Option<string>
    var messages: seq<RoomMessage>
    var message: string
    var newChannelName: string
    var newChannelDesc: string
    var showCreateForm: bool
    var editingId: Option<string>
    var currentUserId: Option<string>
    var channelOwnerId: Option<string>

    constructor (db: Database, currentUserId: Option<string>)
      ensures this.db == db && this.currentUserId == currentUserId
      ensures selectedChannel == None && messages == [] && message == "" && newChannelName == ""
      ensures newChannelDesc == "" && !showCreateForm && editingId == None && channelOwnerId == None
    {
      this.db, this.currentUserId := db, currentUserId;
      selectedChannel, messages, message := None, [], "";
      newChannelName, newChannelDesc, showCreateForm := "", "", false;
      editingId, channelOwnerId := None, None;
    }

    /**
     * Selecting a channel loads its messages and its owner; an owner that cannot be
     * loaded leaves the previous one in place.
     */
    method SelectChannel(id: string)
      modifies this`selectedChannel, this`messages, this`channelOwnerId
      ensures selectedChannel == Some(id) && messages == RoomHistory(db.channelMessages, id)
      ensures var row := Single(db.channels, (c: Room) => c.id == id);
        channelOwnerId == if row.Some? then Some(row.value.ownerId) else old(channelOwnerId)
    {
      selectedChannel := Some(id);
      messages := RoomHistory(db.channelMessages, id);
      var row := Single(db.channels, (c: Room) => c.id == id);
      if row.Some? {
        channelOwnerId := Some(row.value.ownerId);
      }
    }

    /**
     * `createChannel` for the signed-in `user`: the channel (id `channelId`, time `now`) is
     * owned by the creator, who is then added as a member (id `memberId`). `insertFails` and
     * `joinFails` are the outcomes of the two inserts; only the first one is checked.
     */
    method CreateChannel(user: Option<string>, channelId: string, memberId: string, now: int,
                         insertFails: bool, joinFails: bool) returns (created: bool)
      modifies this`newChannelName, this`newChannelDesc, this`showCreateForm, db`channels, db`channelMembers
      ensures created <==> Trim(old(newChannelName)) != "" && user.Some? && !insertFails
      ensures created ==>
        && db.channels == old(db.channels) + [Room(channelId, old(newChannelName), Some(old(newChannelDesc)), user.value, now)]
        && db.channelMembers == old(db.channelMembers) + (if joinFails then [] else [ChannelMember(memberId, channelId, user.value)])
        && newChannelName == "" && newChannelDesc == "" && !showCreateForm
      ensures !created ==> unchanged(db) && unchanged(this)
    {
      if Trim(newChannelName) == "" {
        return false;
      }
      if user.None? || insertFails {
        return false;
      }
      db.channels := db.channels + [Room(channelId, newChannelName, Some(newChannelDesc), user.value, now)];
      if !joinFails {
        db.channelMembers := db.channelMembers + [ChannelMember(memberId, channelId, user.value)];
      }
      newChannelName, newChannelDesc, showCreateForm := "", "", false;
      created := true;
    }

    /**
     * `sendMessage`: `newId` and `now` are the new row's id and time and `writeFails` the
     * outcome of the write; after a successful write the text is cleared and the messages
     * are loaded again.
     */
    method SendMessage(newId: string, now: int, writeFails: bool) returns (action: SendAction)
      modifies this`message, this`editingId, this`messages, db`channelMessages
      ensures action == Decide(old(message), selectedChannel, currentUserId, channelOwnerId, old(editingId))
      ensures Writes(action) && !writeFails ==>
        && db.channelMessages == SaveMessage(old(db.channelMessages), old(editingId), action.content, selectedChannel.value, currentUserId.value, newId, now)
        && message == "" && editingId == None
        && messages == RoomHistory(db.channelMessages, selectedChannel.value)
      ensures !Writes(action) || writeFails ==>
        db.channelMessages == old(db.channelMessages) && message == old(message)
        && editingId == old(editingId) && messages == old(messages)
    {
      action := Decide(message, selectedChannel, currentUserId, channelOwnerId, editingId);
      if writeFails || !Writes(action) {
        return;
      }
      Save(action.content, newId, now);
    }

    /**
     * The successful write of `sendMessage`: the edit or the new message, then the text
     * cleared, editing ended and the messages loaded again.
     */
    method Save(content: string, newId: string, now: int)
      requires selectedChannel.Some? && currentUserId.Some?
      modifies this`message, this`editingId, this`messages, db`channelMessages
      ensures db.channelMessages == SaveMessage(old(db.channelMessages), old(editingId), content, selectedChannel.value, currentUserId.value, newId, now)
      ensures message == "" && editingId == None
      ensures messages == RoomHistory(db.channelMessages, selectedChannel.value)
    {
      var channel := selectedChannel.value;
      var rows := SaveMessage(db.channelMessages, editingId, content, channel, currentUserId.value, newId, now);
      db.channelMessages := rows;
      if editingId.Some? {
        editingId := None;
      }
      message := "";
      messages := RoomHistory(rows, channel);
    }

    /** `deleteMessage`: removes the message with that id; on success the messages are loaded again. */
    method DeleteMessage(id: string, deleteFails: bool)
      modifies this`messages, db`channelMessages
      ensures deleteFails ==> db.channelMessages == old(db.channelMessages) && messages == old(messages)
      ensures !deleteFails ==>
        db.channelMessages == DeleteId(old(db.channelMessages), id, (m: RoomMessage) => m.id)
        && (selectedChannel.Some? ==> messages == RoomHistory(db.channelMessages, selectedChannel.value))
        && (selectedChannel.None? ==> messages == old(messages))
    {
      if deleteFails {
        return;
      }
      db.channelMessages := DeleteId(db.channelMessages, id, (m: RoomMessage) => m.id);
      if selectedChannel.Some? {
        messages := RoomHistory(db.channelMessages, selectedChannel.value);
      }
    }

    /** `startEdit`: the message's text goes into the input and its id is remembered. */
    method StartEdit(msg: RoomMessage)
      modifies this`editingId, this`message
      ensures editingId == Some(msg.id) && message == msg.content
    {
      editingId, message := Some(msg.id), msg.content;
    }
  }
}
