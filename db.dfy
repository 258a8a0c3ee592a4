/**
 * The application's tables, held in memory. Each table is the sequence of its rows in
 * insertion order; a row's fields follow the generated table types (nullable columns are
 * `Option`s, timestamps are clock values). Rows are written by the handlers in the other
 * modules, which also take the clock, the ids the database would generate and the
 * outcome of a write as parameters.
 */
module Db {
  import opened Wrappers
  import opened ExamScoring
  import opened Listing

  datatype Profile = Profile(
    id: string, fullName: string, username: Option<string>, birthDate: Option<string>,
    grade: Option<string>, field: Option<string>, points: Option<int>, examsTaken: Option<int>)

  /** The `answers` column: the server stores the answer list, the exam page its answer record. */
  datatype StoredAnswers = AnswerList(values: seq<Value>) | AnswerRecord(byIndex: map<nat, string>)

  datatype ExamRow = ExamRow(
    id: string, userId: string, title: string, questions: seq<Question>, answers: StoredAnswers,
    score: Option<int>, pointsAwarded: Option<int>, completedAt: int)

  /** A row of `channels` or of `groups`. */
  datatype Room = Room(id: string, name: string, description: Option<string>, ownerId: string, createdAt: int)

  datatype ChannelMember = ChannelMember(id: string, channelId: string, userId: string)

  datatype GroupMember = GroupMember(id: string, groupId: string, userId: string, isAdmin: Option<bool>)

  /** A row of `channel_messages` (`roomId` is `channel_id`) or of `group_messages` (`group_id`). */
  datatype RoomMessage = RoomMessage(
    id: string, roomId: string, userId: string, content: string, isEdited: Option<bool>, createdAt: int)

  datatype DirectMessage = DirectMessage(
    id: string, senderId: string, receiverId: string, content: string,
    isEdited: Option<bool>, isRead: Option<bool>, createdAt: int)

  datatype FriendRequest = FriendRequest(id: string, senderId: string, receiverId: string, status: string, createdAt: int)

  datatype Friendship = Friendship(id: string, userId: string, friendId: string)

  datatype SavedMessage = SavedMessage(id: string, userId: string, messageId: string, messageType: string, savedAt: int)

  datatype StudyPlan = StudyPlan(
    id: string, userId: string, title: string, description: Option<string>,
    startDate: string, endDate: string, subjects: Option<seq<string>>, createdAt: int)

  datatype PageView = PageView(id: string, pagePath: string, userId: Option<string>, viewedAt: int)

  datatype StudyBook = StudyBook(
    id: string, title: string, subject: string, grade: string, content: string, bookType: string, field: Option<string>)

  datatype Solution = Solution(
    id: string, grade: string, subject: string, pageNumber: int, questionNumber: int, solution: string, field: Option<string>)

  class Database {
    var profiles: seq<Profile>
    var exams: seq<ExamRow>
    var channels: seq<Room>
    var channelMembers: seq<ChannelMember>
    var channelMessages: seq<RoomMessage>
    var groups: seq<Room>
    var groupMembers: seq<GroupMember>
    var groupMessages: seq<RoomMessage>
    var directMessages: seq<DirectMessage>
    var friendRequests: seq<FriendRequest>
    var friendships: seq<Friendship>
    var savedMessages: seq<SavedMessage>
    var studyPlans: seq<StudyPlan>
    var pageViews: seq<PageView>
    var studyBooks: seq<StudyBook>
    var solutions: seq<Solution>

    /** An empty database. */
    constructor ()
      ensures profiles == [] && exams == [] && channels == [] && channelMembers == []
      ensures channelMessages == [] && groups == [] && groupMembers == [] && groupMessages == []
      ensures directMessages == [] && friendRequests == [] && friendships == [] && savedMessages == []
      ensures studyPlans == [] && pageViews == [] && studyBooks == [] && solutions == []
    {
      profiles, exams, channels, channelMembers := [], [], [], [];
      channelMessages, groups, groupMembers, groupMessages := [], [], [], [];
      directMessages, friendRequests, friendships, savedMessages := [], [], [], [];
      studyPlans, pageViews, studyBooks, solutions := [], [], [], [];
    }
  }

  /** `.delete().eq("id", id)`: every row with that id goes, the others stay in order. */
  function DeleteId<T>(rows: seq<T>, id: string, idOf: T -> string): (r: seq<T>)
    ensures forall i :: 0 <= i < |r| ==> idOf(r[i]) != id && r[i] in rows
    ensures forall i :: 0 <= i < |rows| && idOf(rows[i]) != id ==> rows[i] in r
  {
    Filter(rows, row => idOf(row) != id)
  }

  /** Deleting an id that no row has changes nothing. */
  lemma DeleteAbsentId<T>(rows: seq<T>, id: string, idOf: T -> string)
    requires forall i :: 0 <= i < |rows| ==> idOf(rows[i]) != id
    ensures DeleteId(rows, id, idOf) == rows
  {
    FilterAll(rows, row => idOf(row) != id);
  }

  /**
   * `.update({ content, is_edited: true }).eq("id", id)` on a message table: the rows with
   * that id get the new content and the edited flag, and nothing else changes.
   */
  function EditRoomMessage(rows: seq<RoomMessage>, id: string, content: string): (r: seq<RoomMessage>)
    ensures |r| == |rows|
    ensures forall i :: 0 <= i < |rows| && rows[i].id != id ==> r[i] == rows[i]
    ensures forall i :: 0 <= i < |rows| && rows[i].id == id ==>
      r[i] == RoomMessage(id, rows[i].roomId, rows[i].userId, content, Some(true), rows[i].createdAt)
  {
    if rows == [] then []
    else
      [if rows[0].id == id then rows[0].(content := content, isEdited := Some(true)) else rows[0]]
      + EditRoomMessage(rows[1..], id, content)
  }

  /** `.single()`: the one row that matches, or nothing when none or several match. */
  function Single<T>(rows: seq<T>, pick: T -> bool): (r: Option<T>)
    ensures r.Some? <==> |Filter(rows, pick)| == 1
    ensures r.Some? ==> r.value in rows && pick(r.value)
  {
    var found := Filter(rows, pick);
    if |found| == 1 then Some(found[0]) else None
  }

  /** The profile `.eq("id", userId).single()` finds. */
  function ProfileOf(rows: seq<Profile>, userId: string): Option<Profile> {
    Single(rows, (p: Profile) => p.id == userId)
  }

  /**
   * `.select().eq(room column, roomId).order("created_at", { ascending: true })` on a
   * message table.
   */
  function RoomHistory(rows: seq<RoomMessage>, roomId: string): seq<RoomMessage> {
    SortBy(Filter(rows, (m: RoomMessage) => m.roomId == roomId), (m: RoomMessage) => m.createdAt)
  }

  /** A room's history holds the room's messages, each once, oldest first. */
  lemma RoomHistoryShape(rows: seq<RoomMessage>, roomId: string)
    ensures multiset(RoomHistory(rows, roomId)) == multiset(Filter(rows, (m: RoomMessage) => m.roomId == roomId))
    ensures SortedBy(RoomHistory(rows, roomId), (m: RoomMessage) => m.createdAt)
    ensures forall i :: 0 <= i < |RoomHistory(rows, roomId)| ==> RoomHistory(rows, roomId)[i].roomId == roomId
  {
    var mine := Filter(rows, (m: RoomMessage) => m.roomId == roomId);
    var h := RoomHistory(rows, roomId);
    SortByPermutation(mine, (m: RoomMessage) => m.createdAt);
    SortBySorted(mine, (m: RoomMessage) => m.createdAt);
    forall i | 0 <= i < |h| ensures h[i].roomId == roomId {
      assert h[i] in multiset(h);
      assert h[i] in mine;
    }
  }

  /**
   * The message rows after the composer is sent: with an id being edited, that message
   * takes the new text and is marked edited; otherwise a new message is appended.
   */
  function SaveMessage(rows: seq<RoomMessage>, editingId: Option<string>, content: string,
                       roomId: string, userId: string, newId: string, now: int): seq<RoomMessage>
  {
    if editingId.Some? then EditRoomMessage(rows, editingId.value, content)
    else rows + [RoomMessage(newId, roomId, userId, content, None, now)]
  }

  /** A message appended to the table shows up in its room's history. */
  lemma PostedInHistory(rows: seq<RoomMessage>, msg: RoomMessage)
    ensures msg in RoomHistory(rows + [msg], msg.roomId)
  {
    var all := rows + [msg];
    var mine := Filter(all, (m: RoomMessage) => m.roomId == msg.roomId);
    assert all[|rows|] == msg;
    assert msg in mine;
    SortByPermutation(mine, (m: RoomMessage) => m.createdAt);
    assert msg in multiset(RoomHistory(all, msg.roomId));
  }
}
