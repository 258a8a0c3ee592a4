/**
 * Friend requests: a signed-in user asks for a friendship by username, the receiver
 * accepts or rejects pending requests, and each user sees their pending requests and
 * their friends.
 */
module Friends {
  import opened Wrappers
  import opened Strings
  import opened Listing
  import opened Db

  /** The status a new request gets from the column default, the one the pending query looks for. */
  const DefaultStatus := "pending"

  /** The unique-violation code the database reports for a repeated request. */
  const UniqueViolation := "23505"

  /** The requests waiting for `me`: sent to me and still pending. */
  function PendingFor(rows: seq<FriendRequest>, me: string): (r: seq<FriendRequest>)
    ensures forall i :: 0 <= i < |r| ==> r[i] in rows && r[i].receiverId == me && r[i].status == "pending"
    ensures forall i :: 0 <= i < |rows| && rows[i].receiverId == me && rows[i].status == "pending" ==> rows[i] in r
  {
    Filter(rows, (q: FriendRequest) => q.receiverId == me && q.status == "pending")
  }

  /** The friendship rows whose `user_id` is `me`. */
  function FriendsOf(rows: seq<Friendship>, me: string): (r: seq<Friendship>)
    ensures forall i :: 0 <= i < |r| ==> r[i] in rows && r[i].userId == me
    ensures forall i :: 0 <= i < |rows| && rows[i].userId == me ==> rows[i] in r
  {
    Filter(rows, (f: Friendship) => f.userId == me)
  }

  /** How sending a request ends. */
  datatype RequestOutcome =
    | Ignored
    | NotSignedIn
    | UserNotFound
    | SelfRequest
    | AlreadySent
    | InsertFailed(code: string)
    | Sent(receiverId: string)

  /** The profiles whose username is the trimmed input. */
  function Named(profiles: seq<Profile>, username: string): seq<Profile> {
    Filter(profiles, (p: Profile) => p.username == Some(Trim(username)))
  }

  /**
   * Who the request goes to, or why none is sent, before the insert is tried. A request
   * is sent only when exactly one profile has the username and it is not the sender's;
   * "not found" means no profile, or several, has it.
   */
  function Target(username: string, user: Option<string>, profiles: seq<Profile>): (r: RequestOutcome)
    ensures r.Sent? || r == Ignored || r == NotSignedIn || r == UserNotFound || r == SelfRequest
    ensures r == Ignored <==> Trim(username) == ""
    ensures r == NotSignedIn <==> Trim(username) != "" && user.None?
    ensures r.Sent? ==> user.Some? && r.receiverId != user.value
    ensures r.Sent? || r == SelfRequest ==> |Named(profiles, username)| == 1
    ensures r.Sent? ==> exists p :: p in profiles && p.id == r.receiverId && p.username == Some(Trim(username))
    ensures r == SelfRequest ==> user.Some? && exists p :: p in profiles && p.id == user.value && p.username == Some(Trim(username))
    ensures r == UserNotFound <==> Trim(username) != "" && user.Some? && |Named(profiles, username)| != 1
  {
    if Trim(username) == "" then Ignored
    else if user.None? then NotSignedIn
    else
      var target := Single(profiles, (p: Profile) => p.username == Some(Trim(username)));
      assert target.Some? <==> |Named(profiles, username)| == 1;
      if target.None? then UserNotFound
      else if target.value.id == user.value then SelfRequest
      else Sent(target.value.id)
  }

  /** The outcome once the insert has answered with `insertError` (a database error code). */
  function Outcome(target: RequestOutcome, insertError: Option<string>): (r: RequestOutcome)
    ensures !target.Sent? ==> r == target
    ensures target.Sent? ==> (r == target <==> insertError.None?)
    ensures target.Sent? && insertError.Some? ==>
      (r == AlreadySent <==> insertError.value == UniqueViolation)
      && (r.InsertFailed? <==> insertError.value != UniqueViolation)
      && (r.InsertFailed? ==> r.code == insertError.value)
  {
    if !target.Sent? || insertError.None? then target
    else if insertError.value == UniqueViolation then AlreadySent
    else InsertFailed(insertError.value)
  }

  /** A user whose username is their own never sends themselves a request. */
  lemma OwnUsernameRefused(username: string, me: Profile, profiles: seq<Profile>, k: nat)
    requires Trim(username) != "" && k < |profiles| && profiles[k] == me
    requires me.username == Some(Trim(username))
    requires forall i :: 0 <= i < |profiles| && i != k ==> profiles[i].username != Some(Trim(username))
    ensures Target(username, Some(me.id), profiles) == SelfRequest
  {
    FilterOnlyOne(profiles, (p: Profile) => p.username == Some(Trim(username)), k);
  }

  /** A username that exactly one other user has sends the request to that user. */
  lemma OtherUsernameSent(username: string, me: string, target: Profile, profiles: seq<Profile>, k: nat)
    requires Trim(username) != "" && k < |profiles| && profiles[k] == target && target.id != me
    requires target.username == Some(Trim(username))
    requires forall i :: 0 <= i < |profiles| && i != k ==> profiles[i].username != Some(Trim(username))
    ensures Target(username, Some(me), profiles) == Sent(target.id)
  {
    FilterOnlyOne(profiles, (p: Profile) => p.username == Some(Trim(username)), k);
  }

  /** A username nobody has yields "not found". */
  lemma UnknownUsernameRefused(username: string, user: string, profiles: seq<Profile>)
    requires Trim(username) != ""
    requires forall i :: 0 <= i < |profiles| ==> profiles[i].username != Some(Trim(username))
    ensures Target(username, Some(user), profiles) == UserNotFound
  {
    FilterNone(profiles, (p: Profile) => p.username == Some(Trim(username)));
  }

  /** `.update({ status }).eq("id", id)` on `friend_requests`. */
  function SetStatus(rows: seq<FriendRequest>, id: string, status: string): (r: seq<FriendRequest>)
    ensures |r| == |rows|
    ensures forall i :: 0 <= i < |rows| && rows[i].id != id ==> r[i] == rows[i]
    ensures forall i :: 0 <= i < |rows| && rows[i].id == id ==> r[i] == rows[i].(status := status)
  {
    if rows == [] then []
    else [if rows[0].id == id then rows[0].(status := status) else rows[0]] + SetStatus(rows[1..], id, status)
  }

  /** A handled request leaves everyone's pending list, and the other pending requests stay. */
  lemma HandledLeavesPending(rows: seq<FriendRequest>, id: string, accept: bool, me: string)
    ensures var after := SetStatus(rows, id, if accept then "accepted" else "rejected");
      (forall q :: q in PendingFor(after, me) ==> q.id != id)
      && (forall q :: q in PendingFor(rows, me) && q.id != id ==> q in PendingFor(after, me))
  {
    var status := if accept then "accepted" else "rejected";
    var after := SetStatus(rows, id, status);
    forall q | q in PendingFor(after, me) ensures q.id != id {
      var i :| 0 <= i < |after| && after[i] == q;
      assert q.status == "pending";
    }
    forall q | q in PendingFor(rows, me) && q.id != id ensures q in PendingFor(after, me) {
      var i :| 0 <= i < |rows| && rows[i] == q;
      assert after[i] == q;
    }
  }

  class FriendsScreen {
    const db: Database
    var username: string
    var friendRequests: seq<FriendRequest>
    var friends: seq<Friendship>

    constructor (db: Database)
      ensures this.db == db && username == "" && friendRequests == [] && friends == []
    {
      this.db := db;
      username, friendRequests, friends := "", [], [];
    }

    /** `loadFriendRequests` and `loadFriends` for the signed-in `user`. */
    method Load(user: Option<string>)
      modifies this`friendRequests, this`friends
      ensures user.Some? ==>
        friendRequests == PendingFor(db.friendRequests, user.value) && friends == FriendsOf(db.friendships, user.value)
      ensures user.None? ==> friendRequests == old(friendRequests) && friends == old(friends)
    {
      if user.Some? {
        friendRequests := PendingFor(db.friendRequests, user.value);
        friends := FriendsOf(db.friendships, user.value);
      }
    }

    /**
     * `sendFriendRequest` for the signed-in `user`: `newId` and `now` are the new row's id
     * and time and `insertError` the insert's error code, if any. Only a request that is
     * sent clears the input.
     */
    method SendFriendRequest(user: Option<string>, newId: string, now: int, insertError: Option<string>)
      returns (outcome: RequestOutcome)
      modifies this`username, db`friendRequests
      ensures outcome == Outcome(Target(old(username), user, db.profiles), insertError)
      ensures outcome.Sent? ==>
        db.friendRequests == old(db.friendRequests) + [FriendRequest(newId, user.value, outcome.receiverId, DefaultStatus, now)]
        && username == ""
      ensures !outcome.Sent? ==> db.friendRequests == old(db.friendRequests) && username == old(username)
    {
      var target := Target(username, user, db.profiles);
      outcome := Outcome(target, insertError);
      if outcome.Sent? {
        db.friendRequests := db.friendRequests + [FriendRequest(newId, user.value, outcome.receiverId, DefaultStatus, now)];
        username := "";
      }
    }

    /**
     * `handleRequest`: sets the request's status and reports whether the friendship
     * routine is then called, which happens only for an accepted request whose update
     * succeeded; the lists are then loaded again for `user`.
     */
    method HandleRequest(requestId: string, accept: bool, updateFails: bool, user: Option<string>)
      returns (createFriendship: bool)
      modifies db`friendRequests, this`friendRequests, this`friends
      ensures createFriendship <==> accept && !updateFails
      ensures updateFails ==>
        db.friendRequests == old(db.friendRequests) && friendRequests == old(friendRequests) && friends == old(friends)
      ensures !updateFails ==>
        db.friendRequests == SetStatus(old(db.friendRequests), requestId, if accept then "accepted" else "rejected")
        && (user.Some? ==>
              friendRequests == PendingFor(db.friendRequests, user.value) && friends == FriendsOf(db.friendships, user.value))
        && (user.None? ==> friendRequests == old(friendRequests) && friends == old(friends))
    {
      if updateFails {
        return false;
      }
      db.friendRequests := SetStatus(db.friendRequests, requestId, if accept then "accepted" else "rejected");
      createFriendship := accept;
      Load(user);
    }
  }
}
