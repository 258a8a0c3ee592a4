/**
 * The saved-messages panel: the user's bookmarks, newest first, each shown with the
 * message it points at, which is looked up in the table its type tag names.
 */
module SavedMessages {
  import opened Wrappers
  import opened Listing
  import opened Db

  /** The message tables a bookmark can point into. */
  datatype Table = ChannelMessages | GroupMessages | DirectMessagesTable

  /** The table a bookmark's `message_type` selects: anything but "channel" or "group" is private. */
  function TableFor(messageType: string): (t: Table)
    ensures t == ChannelMessages <==> messageType == "channel"
    ensures t == GroupMessages <==> messageType == "group"
    ensures t == DirectMessagesTable <==> messageType != "channel" && messageType != "group"
  {
    if messageType == "channel" then ChannelMessages
    else if messageType == "group" then GroupMessages
    else DirectMessagesTable
  }

  /** The label shown beside a bookmark. */
  function Label(messageType: string): string {
    if messageType == "channel" then "کانال" else if messageType == "group" then "گروه" else "خصوصی"
  }

  datatype Icon = Radio | Users | User

  /** The icon shown beside a bookmark (`getIcon`). */
  function IconFor(messageType: string): Icon {
    match messageType
    case "channel" => Radio
    case "group" => Users
    case _ => User
  }

  /** Label, icon and lookup always pick the same one of the three kinds. */
  lemma DispatchAgrees(messageType: string)
    ensures TableFor(messageType) == ChannelMessages <==> Label(messageType) == "کانال" && IconFor(messageType) == Radio
    ensures TableFor(messageType) == GroupMessages <==> Label(messageType) == "گروه" && IconFor(messageType) == Users
    ensures TableFor(messageType) == DirectMessagesTable <==> Label(messageType) == "خصوصی" && IconFor(messageType) == User
  {
  }

  /** The message a bookmark points at. */
  datatype Resolved = InChannel(room: RoomMessage) | InGroup(room: RoomMessage) | Direct(direct: DirectMessage)

  /**
   * The lookup `.eq("id", message_id).single()` in the table the type selects: a message
   * is found iff exactly one row of that table has the bookmarked id, and it is that row.
   */
  function Resolve(saved: SavedMessage, channelMessages: seq<RoomMessage>, groupMessages: seq<RoomMessage>,
                   directMessages: seq<DirectMessage>): (r: Option<Resolved>)
    ensures r.Some? && r.value.InChannel? ==>
      TableFor(saved.messageType) == ChannelMessages && r.value.room in channelMessages && r.value.room.id == saved.messageId
    ensures r.Some? && r.value.InGroup? ==>
      TableFor(saved.messageType) == GroupMessages && r.value.room in groupMessages && r.value.room.id == saved.messageId
    ensures r.Some? && r.value.Direct? ==>
      TableFor(saved.messageType) == DirectMessagesTable && r.value.direct in directMessages && r.value.direct.id == saved.messageId
    ensures TableFor(saved.messageType) == ChannelMessages ==>
      (r.Some? <==> |Filter(channelMessages, (m: RoomMessage) => m.id == saved.messageId)| == 1)
    ensures TableFor(saved.messageType) == GroupMessages ==>
      (r.Some? <==> |Filter(groupMessages, (m: RoomMessage) => m.id == saved.messageId)| == 1)
    ensures TableFor(saved.messageType) == DirectMessagesTable ==>
      (r.Some? <==> |Filter(directMessages, (m: DirectMessage) => m.id == saved.messageId)| == 1)
  {
    match TableFor(saved.messageType)
    case ChannelMessages =>
      var m := Single(channelMessages, (m: RoomMessage) => m.id == saved.messageId);
      if m.Some? then Some(InChannel(m.value)) else None
    case GroupMessages =>
      var m := Single(groupMessages, (m: RoomMessage) => m.id == saved.messageId);
      if m.Some? then Some(InGroup(m.value)) else None
    case DirectMessagesTable =>
      var m := Single(directMessages, (m: DirectMessage) => m.id == saved.messageId);
      if m.Some? then Some(Direct(m.value)) else None
  }

  /** A channel bookmark whose id exactly one channel message has resolves to that message. */
  lemma UniqueChannelRowResolves(saved: SavedMessage, channelMessages: seq<RoomMessage>, groupMessages: seq<RoomMessage>,
                                 directMessages: seq<DirectMessage>, k: nat)
    requires saved.messageType == "channel" && k < |channelMessages| && channelMessages[k].id == saved.messageId
    requires forall i :: 0 <= i < |channelMessages| && i != k ==> channelMessages[i].id != saved.messageId
    ensures Resolve(saved, channelMessages, groupMessages, directMessages) == Some(InChannel(channelMessages[k]))
  {
    FilterOnlyOne(channelMessages, (m: RoomMessage) => m.id == saved.messageId, k);
  }

  /** A group bookmark whose id exactly one group message has resolves to that message. */
  lemma UniqueGroupRowResolves(saved: SavedMessage, channelMessages: seq<RoomMessage>, groupMessages: seq<RoomMessage>,
                               directMessages: seq<DirectMessage>, k: nat)
    requires saved.messageType == "group" && k < |groupMessages| && groupMessages[k].id == saved.messageId
    requires forall i :: 0 <= i < |groupMessages| && i != k ==> groupMessages[i].id != saved.messageId
    ensures Resolve(saved, channelMessages, groupMessages, directMessages) == Some(InGroup(groupMessages[k]))
  {
    FilterOnlyOne(groupMessages, (m: RoomMessage) => m.id == saved.messageId, k);
  }

  /** Any other bookmark whose id exactly one direct message has resolves to that message. */
  lemma UniqueDirectRowResolves(saved: SavedMessage, channelMessages: seq<RoomMessage>, groupMessages: seq<RoomMessage>,
                                directMessages: seq<DirectMessage>, k: nat)
    requires saved.messageType != "channel" && saved.messageType != "group"
    requires k < |directMessages| && directMessages[k].id == saved.messageId
    requires forall i :: 0 <= i < |directMessages| && i != k ==> directMessages[i].id != saved.messageId
    ensures Resolve(saved, channelMessages, groupMessages, directMessages) == Some(Direct(directMessages[k]))
  {
    FilterOnlyOne(directMessages, (m: DirectMessage) => m.id == saved.messageId, k);
  }

  /** A group bookmark never shows a channel message, even one with the same id. */
  lemma GroupTagIgnoresChannels(saved: SavedMessage, channelMessages: seq<RoomMessage>, other: seq<RoomMessage>,
                                groupMessages: seq<RoomMessage>, directMessages: seq<DirectMessage>)
    requires saved.messageType == "group"
    ensures Resolve(saved, channelMessages, groupMessages, directMessages) == Resolve(saved, other, groupMessages, directMessages)
  {
  }

  /** The user's bookmarks, as `.eq("user_id", me).order("saved_at", { ascending: false })` returns them. */
  function SavedBy(rows: seq<SavedMessage>, me: string): seq<SavedMessage> {
    SortBy(Filter(rows, (s: SavedMessage) => s.userId == me), (s: SavedMessage) => -s.savedAt)
  }

  /** The list holds exactly the user's bookmarks, each once, newest first. */
  lemma SavedByShape(rows: seq<SavedMessage>, me: string)
    ensures multiset(SavedBy(rows, me)) == multiset(Filter(rows, (s: SavedMessage) => s.userId == me))
    ensures forall i, j :: 0 <= i < j < |SavedBy(rows, me)| ==> SavedBy(rows, me)[i].savedAt >= SavedBy(rows, me)[j].savedAt
    ensures forall s :: s in SavedBy(rows, me) ==> s in rows && s.userId == me
  {
    var mine := Filter(rows, (s: SavedMessage) => s.userId == me);
    SortByPermutation(mine, (s: SavedMessage) => -s.savedAt);
    SortBySorted(mine, (s: SavedMessage) => -s.savedAt);
    forall s | s in SavedBy(rows, me) ensures s in rows && s.userId == me {
      assert s in multiset(SavedBy(rows, me));
    }
  }

  /** Each bookmark paired with the message it points at, if that message is found. */
  function WithMessages(saved: seq<SavedMessage>, channelMessages: seq<RoomMessage>, groupMessages: seq<RoomMessage>,
                        directMessages: seq<DirectMessage>): (r: seq<(SavedMessage, Option<Resolved>)>)
    ensures |r| == |saved|
    ensures forall i :: 0 <= i < |saved| ==>
      r[i] == (saved[i], Resolve(saved[i], channelMessages, groupMessages, directMessages))
  {
    if saved == [] then []
    else
      [(saved[0], Resolve(saved[0], channelMessages, groupMessages, directMessages))]
      + WithMessages(saved[1..], channelMessages, groupMessages, directMessages)
  }

  class SavedMessagesScreen {
    const db: Database
    var savedMessages: seq<(SavedMessage, Option<Resolved>)>

    constructor (db: Database)
      ensures this.db == db && savedMessages == []
    {
      this.db := db;
      savedMessages := [];
    }

    /** `loadSavedMessages` for the signed-in `user`; without one nothing is loaded. */
    method Load(user: Option<string>)
      modifies this`savedMessages
      ensures user.Some? ==>
        savedMessages == WithMessages(SavedBy(db.savedMessages, user.value), db.channelMessages, db.groupMessages, db.directMessages)
      ensures user.None? ==> savedMessages == old(savedMessages)
    {
      if user.Some? {
        savedMessages := WithMessages(SavedBy(db.savedMessages, user.value), db.channelMessages, db.groupMessages, db.directMessages);
      }
    }

    /** `unsaveMessage`: deletes the bookmark; the list is loaded again only when the delete succeeded. */
    method Unsave(id: string, deleteFails: bool, user: Option<string>)
      modifies this`savedMessages, db`savedMessages
      ensures deleteFails ==> db.savedMessages == old(db.savedMessages) && savedMessages == old(savedMessages)
      ensures !deleteFails ==> db.savedMessages == DeleteId(old(db.savedMessages), id, (s: SavedMessage) => s.id)
      ensures !deleteFails && user.Some? ==>
        savedMessages == WithMessages(SavedBy(db.savedMessages, user.value), db.channelMessages, db.groupMessages, db.directMessages)
      ensures !deleteFails && user.None? ==> savedMessages == old(savedMessages)
    {
      if !deleteFails {
        db.savedMessages := DeleteId(db.savedMessages, id, (s: SavedMessage) => s.id);
        Load(user);
      }
    }
  }

  /** After an unsave the bookmark is gone from the list. */
  lemma UnsavedNotListed(rows: seq<SavedMessage>, id: string, me: string)
    ensures forall s :: s in SavedBy(DeleteId(rows, id, (s: SavedMessage) => s.id), me) ==> s.id != id
  {
    SavedByShape(DeleteId(rows, id, (s: SavedMessage) => s.id), me);
  }
}
