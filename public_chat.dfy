/**
 * The public chat page: one public group, where a message starting with `!` is also a
 * question to the assistant, and where users edit and delete their own messages.
 */
module PublicChat {
  import opened Wrappers
  import opened Strings
  import opened Validation
  import opened Db
  import AiGroupChat

  /** What sending the current input does. */
  datatype SendAction =
    | Ignore                            // blank input, or no public group found
    | Invalid(issue: Issue)             // the input breaks the message rule
    | NoUser                            // nobody is signed in
    | EmptyPrompt                       // `!` with nothing after it
    | AskAi(prompt: string)             // post the raw input, then ask the assistant
    | EditMessage(id: string, content: string)
    | Post(content: string)

  /**
   * The decision `sendMessage` takes, in the order of its checks: the length rule before
   * the user, the user before the command, and a command before an edit.
   */
  function Decide(input: string, publicGroupId: Option<string>, user: Option<string>, editingId: Option<string>): (a: SendAction)
    ensures a == Ignore <==> Trim(input) == "" || publicGroupId.None?
    ensures a.Invalid? <==> a != Ignore && JsLength(Trim(input)) > 5000
    ensures a.Invalid? ==> a.issue == TooLong(5000)
    ensures a == NoUser <==> a != Ignore && !a.Invalid? && user.None?
    ensures a == EmptyPrompt || a.AskAi? <==>
      a != Ignore && !a.Invalid? && user.Some? && StartsWith(Trim(input), "!")
    ensures a.AskAi? ==> a.prompt != "" && a.prompt == Trim(Trim(input)[1..])
    ensures a.EditMessage? <==>
      a != Ignore && !a.Invalid? && user.Some? && !StartsWith(Trim(input), "!") && editingId.Some?
    ensures a.EditMessage? ==> a.id == editingId.value
    ensures a.EditMessage? || a.Post? ==> a.content == Trim(input) && 1 <= JsLength(a.content) <= 5000
  {
    if Trim(input) == "" || publicGroupId.None? then Ignore
    else
      var validated := ValidateMessage(input);
      if validated.Err? then
        assert JsLength(Trim(input)) > 0 by {
          assert |Trim(input)| > 0;
        }
        Invalid(validated.error)
      else if user.None? then NoUser
      else if StartsWith(Trim(input), "!") then
        var prompt := Trim(Trim(input)[1..]);
        if prompt == "" then EmptyPrompt else AskAi(prompt)
      else if editingId.Some? then EditMessage(editingId.value, validated.value)
      else Post(validated.value)
  }

  /** White-space-only input does nothing. */
  lemma BlankInputIgnored(input: string, publicGroupId: Option<string>, user: Option<string>, editingId: Option<string>)
    requires AllSpace(input)
    ensures Decide(input, publicGroupId, user, editingId) == Ignore
  {
    TrimEmptyIff(input);
  }

  /** The message rule comes first: an assistant command of more than 5000 characters is refused too. */
  lemma LongCommandRefused(input: string, group: string, user: Option<string>, editingId: Option<string>)
    requires StartsWith(Trim(input), "!") && JsLength(Trim(input)) > 5000
    ensures Decide(input, Some(group), user, editingId) == Invalid(TooLong(5000))
  {
  }

  /**
   * A command is never an edit, even while a message is being edited; its prompt is the
   * text after `!`, trimmed, and is never empty.
   */
  lemma CommandIsNotEdit(input: string, group: string, user: string, editingId: Option<string>)
    requires ValidateMessage(input).Ok? && StartsWith(Trim(input), "!")
    ensures !Decide(input, Some(group), Some(user), editingId).EditMessage?
    ensures !Decide(input, Some(group), Some(user), editingId).Post?
    ensures Decide(input, Some(group), Some(user), editingId).AskAi? ==>
      var prompt := Decide(input, Some(group), Some(user), editingId).prompt;
      prompt != "" && prompt == Trim(Trim(input)[1..])
  {
  }

  /** Edits and posts carry the validated text: trimmed, 1 to 5000 characters. */
  lemma WrittenContentValidated(input: string, group: string, user: string, editingId: Option<string>)
    ensures var action := Decide(input, Some(group), Some(user), editingId);
      (action.EditMessage? || action.Post?) ==>
        action.content == Trim(input) && 1 <= JsLength(action.content) <= 5000
        && !StartsWith(action.content, "!")
  {
  }

  /** Edit and delete controls: on one's own messages, never on the assistant's. */
  predicate ShowControls(msg: RoomMessage, profileId: Option<string>)
    ensures ShowControls(msg, profileId) <==> profileId == Some(msg.userId) && msg.userId != AiGroupChat.AiUserId
  {
    profileId.Some? && msg.userId == profileId.value && msg.userId != AiGroupChat.AiUserId
  }

  /** No one gets controls on another user's message or on an assistant message. */
  lemma ControlsOnlyOnOwn(msg: RoomMessage, profileId: Option<string>)
    ensures ShowControls(msg, profileId) ==> profileId == Some(msg.userId)
    ensures msg.userId == AiGroupChat.AiUserId ==> !ShowControls(msg, profileId)
  {
  }

  class ChatScreen {
    const db: Database
    var messageInput: string
    var editingId: Option<string>
    var publicGroupId: Option<string>
    var profileId: Option<string>

    constructor (db: Database, publicGroupId: Option<string>, profileId: Option<string>)
      ensures this.db == db && this.publicGroupId == publicGroupId && this.profileId == profileId
      ensures messageInput == "" && editingId == None
    {
      this.db := db;
      this.publicGroupId, this.profileId := publicGroupId, profileId;
      messageInput, editingId := "", None;
    }

    /**
     * `sendMessage` for the signed-in `user`: `newId` and `now` are the new row's id and
     * time. For a command it returns the prompt handed to the assistant function, whose
     * answer arrives as a message of its own.
     */
    method SendMessage(user: Option<string>, newId: string, now: int) returns (action: SendAction)
      modifies this`messageInput, this`editingId, db`groupMessages
      ensures action == Decide(old(messageInput), publicGroupId, user, old(editingId))
      ensures action.AskAi? ==>
        db.groupMessages == old(db.groupMessages) + [RoomMessage(newId, publicGroupId.value, user.value, old(messageInput), None, now)]
        && messageInput == "" && editingId == old(editingId)
      ensures action.EditMessage? ==>
        db.groupMessages == EditRoomMessage(old(db.groupMessages), action.id, action.content)
        && messageInput == "" && editingId == None
      ensures action.Post? ==>
        db.groupMessages == old(db.groupMessages) + [RoomMessage(newId, publicGroupId.value, user.value, action.content, None, now)]
        && messageInput == "" && editingId == None
      ensures !(action.AskAi? || action.EditMessage? || action.Post?) ==>
        db.groupMessages == old(db.groupMessages) && messageInput == old(messageInput) && editingId == old(editingId)
    {
      action := Decide(messageInput, publicGroupId, user, editingId);
      match action {
        case AskAi(prompt) =>
          db.groupMessages := db.groupMessages + [RoomMessage(newId, publicGroupId.value, user.value, messageInput, None, now)];
          messageInput := "";
        case EditMessage(id, content) =>
          db.groupMessages := EditRoomMessage(db.groupMessages, id, content);
          editingId := None;
          messageInput := "";
        case Post(content) =>
          db.groupMessages := db.groupMessages + [RoomMessage(newId, publicGroupId.value, user.value, content, None, now)];
          messageInput := "";
        case _ =>
      }
    }

    /** `deleteMessage`: removes the message with that id. */
    method DeleteMessage(id: string)
      modifies db`groupMessages
      ensures db.groupMessages == DeleteId(old(db.groupMessages), id, (m: RoomMessage) => m.id)
    {
      db.groupMessages := DeleteId(db.groupMessages, id, (m: RoomMessage) => m.id);
    }

    /** `startEdit`: the message's text goes into the input and its id is remembered. */
    method StartEdit(msg: RoomMessage)
      modifies this`editingId, this`messageInput
      ensures editingId == Some(msg.id) && messageInput == msg.content
    {
      editingId, messageInput := Some(msg.id), msg.content;
    }
  }
}
