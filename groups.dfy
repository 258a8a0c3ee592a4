/**
 * The groups panel: anyone signed in creates a group and joins it as its administrator,
 * and every signed-in user posts in the selected group; users see edit and delete
 * controls on their own messages.
 */
module Groups {
  import opened Wrappers
  import opened Strings
  import opened Db

  /** What sending the current text does in the selected group. */
  datatype SendAction = Ignore | EditMessage(id: string, content: string) | Post(content: string)

  /**
   * The decision `sendMessage` takes: nothing for blank text or without a group or user,
   * otherwise an edit of the message being edited or a new message, with the text as
   * typed. Unlike channels there is no owner check.
   */
  function Decide(message: string, selected: Option<string>, currentUserId: Option<string>,
                  editingId: Option<string>): (a: SendAction)
    ensures a == Ignore <==> Trim(message) == "" || selected.None? || currentUserId.None?
    ensures a.EditMessage? <==> a != Ignore && editingId.Some?
    ensures a.EditMessage? ==> a.id == editingId.value
    ensures a != Ignore ==> a.content == message
  {
    if Trim(message) == "" || selected.None? || currentUserId.None? then Ignore
    else if editingId.Some? then EditMessage(editingId.value, message)
    else Post(message)
  }

  /** Edit and delete controls show on the current user's own messages. */
  predicate ShowControls(msg: RoomMessage, currentUserId: Option<string>)
    ensures ShowControls(msg, currentUserId) <==> currentUserId == Some(msg.userId)
  {
    currentUserId.Some? && msg.userId == currentUserId.value
  }

  /** A new message is posted under the poster's id, so its author sees controls on it. */
  lemma OwnPostHasControls(rows: seq<RoomMessage>, content: string, group: string, user: string, newId: string, now: int)
    ensures var saved := SaveMessage(rows, None, content, group, user, newId, now);
      saved[|saved| - 1].id == newId && ShowControls(saved[|saved| - 1], Some(user))
  {
  }

  class GroupsScreen {
    const db: Database
    var selectedGroup: Option<string>
    var messages: seq<RoomMessage>
    var message: string
    var newGroupName: string
    var newGroupDesc: string
    var showCreateForm: bool
    var editingId: Option<string>
    var currentUserId: Option<string>

    constructor (db: Database, currentUserId: Option<string>)
      ensures this.db == db && this.currentUserId == currentUserId
      ensures selectedGroup == None && messages == [] && message == "" && newGroupName == ""
      ensures newGroupDesc == "" && !showCreateForm && editingId == None
    {
      this.db, this.currentUserId := db, currentUserId;
      selectedGroup, messages, message := None, [], "";
      newGroupName, newGroupDesc, showCreateForm := "", "", false;
      editingId := None;
    }

    /** Selecting a group loads its messages, oldest first. */
    method SelectGroup(id: string)
      modifies this`selectedGroup, this`messages
      ensures selectedGroup == Some(id) && messages == RoomHistory(db.groupMessages, id)
    {
      selectedGroup := Some(id);
      messages := RoomHistory(db.groupMessages, id);
    }

    /**
     * `createGroup` for the signed-in `user`: the group (id `groupId`, time `now`) is owned
     * by the creator, who is then added as an administrator (id `memberId`). `insertFails`
     * and `joinFails` are the outcomes of the two inserts; only the first one is checked.
     */
    method CreateGroup(user: Option<string>, groupId: string, memberId: string, now: int,
                       insertFails: bool, joinFails: bool) returns (created: bool)
      modifies this`newGroupName, this`newGroupDesc, this`showCreateForm, db`groups, db`groupMembers
      ensures created <==> Trim(old(newGroupName)) != "" && user.Some? && !insertFails
      ensures created ==>
        && db.groups == old(db.groups) + [Room(groupId, old(newGroupName), Some(old(newGroupDesc)), user.value, now)]
        && db.groupMembers == old(db.groupMembers) + (if joinFails then [] else [GroupMember(memberId, groupId, user.value, Some(true))])
        && newGroupName == "" && newGroupDesc == "" && !showCreateForm
      ensures !created ==> unchanged(db) && unchanged(this)
    {
      if Trim(newGroupName) == "" {
        return false;
      }
      if user.None? || insertFails {
        return false;
      }
      db.groups := db.groups + [Room(groupId, newGroupName, Some(newGroupDesc), user.value, now)];
      if !joinFails {
        db.groupMembers := db.groupMembers + [GroupMember(memberId, groupId, user.value, Some(true))];
      }
      newGroupName, newGroupDesc, showCreateForm := "", "", false;
      created := true;
    }

    /**
     * `sendMessage`: `newId` and `now` are the new row's id and time and `writeFails` the
     * outcome of the write; after a successful write the text is cleared and the messages
     * are loaded again.
     */
    method SendMessage(newId: string, now: int, writeFails: bool) returns (action: SendAction)
      modifies this`message, this`editingId, this`messages, db`groupMessages
      ensures action == Decide(old(message), selectedGroup, currentUserId, old(editingId))
      ensures action != Ignore && !writeFails ==>
        && db.groupMessages == SaveMessage(old(db.groupMessages), old(editingId), action.content, selectedGroup.value, currentUserId.value, newId, now)
        && message == "" && editingId == None
        && messages == RoomHistory(db.groupMessages, selectedGroup.value)
      ensures action == Ignore || writeFails ==>
        db.groupMessages == old(db.groupMessages) && message == old(message)
        && editingId == old(editingId) && messages == old(messages)
    {
      action := Decide(message, selectedGroup, currentUserId, editingId);
      if writeFails || action == Ignore {
        return;
      }
      var group := selectedGroup.value;
      var rows := SaveMessage(db.groupMessages, editingId, action.content, group, currentUserId.value, newId, now);
      db.groupMessages := rows;
      editingId := None;
      message := "";
      messages := RoomHistory(rows, group);
    }

    /** `deleteMessage`: removes the message with that id; on success the messages are loaded again. */
    method DeleteMessage(id: string, deleteFails: bool)
      modifies this`messages, db`groupMessages
      ensures deleteFails ==> db.groupMessages == old(db.groupMessages) && messages == old(messages)
      ensures !deleteFails ==>
        db.groupMessages == DeleteId(old(db.groupMessages), id, (m: RoomMessage) => m.id)
        && (selectedGroup.Some? ==> messages == RoomHistory(db.groupMessages, selectedGroup.value))
        && (selectedGroup.None? ==> messages == old(messages))
    {
      if deleteFails {
        return;
      }
      db.groupMessages := DeleteId(db.groupMessages, id, (m: RoomMessage) => m.id);
      if selectedGroup.Some? {
        messages := RoomHistory(db.groupMessages, selectedGroup.value);
      }
    }

    /** `startEdit`: the message's text goes into the input and its id is remembered. */
    method StartEdit(msg: RoomMessage)
      modifies this`editingId, this`message
      ensures editingId == Some(msg.id) && message == msg.content
    {
      editingId, message := Some(msg.id), msg.content;
    }
  }
}
