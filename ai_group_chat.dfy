/**
 * The `ai-group-chat` server function: a signed-in member of a group sends a prompt, the
 * function asks the language model, and posts the reply into the group as the assistant.
 * Its checks run in a fixed order, each ending the request with its own status.
 */
module AiGroupChat {
  import opened Wrappers
  import opened Strings
  import opened Listing
  import opened Db

  /** The author id of every assistant message. */
  const AiUserId := "00000000-0000-0000-0000-000000000000"

  /** A JSON field of the request body; `Absent` when the field is missing. */
  datatype Json = Absent | JNull | JBool(b: bool) | JNum(n: int) | JStr(s: string) | JObject

  /** JavaScript truthiness. */
  predicate Truthy(j: Json) {
    match j
    case Absent => false
    case JNull => false
    case JBool(b) => b
    case JNum(n) => n != 0
    case JStr(s) => s != ""
    case JObject => true
  }

  /** The body's `prompt`, `groupId` and the `userId` the page also sends. */
  datatype ChatBody = ChatBody(prompt: Json, groupId: Json, userId: Json)

  /**
   * The HTTP request: the `Authorization` header and the body, `None` when `await
   * req.json()` or its destructuring throws (a body that is not JSON, or JSON `null`).
   */
  datatype ChatRequest = ChatRequest(authorization: Option<string>, body: Option<ChatBody>)

  /** What the model gateway answered: a reply, or a failure status. */
  datatype Upstream = Reply(text: string) | Status(code: int)

  datatype ChatResponse = Answered(response: string) | Failed(status: int)

  /** The untrimmed prompt check: a string of 1 to 2000 characters. */
  predicate PromptOk(prompt: Json) {
    Truthy(prompt) && prompt.JStr? && 1 <= JsLength(prompt.s) <= 2000
  }

  /** `.single()` on the caller's membership rows: a member has exactly one. */
  predicate IsMember(members: seq<GroupMember>, groupId: Json, userId: string) {
    groupId.JStr? && |Filter(members, (m: GroupMember) => m.groupId == groupId.s && m.userId == userId)| == 1
  }

  /**
   * The checks before the model is asked, in order: the status that ends the request, if
   * any. A body that cannot be read throws, which the handler answers with 500.
   */
  function Guard(req: ChatRequest, authUser: Option<string>, members: seq<GroupMember>): (r: Option<int>)
    ensures r == None <==>
      req.authorization.Some? && req.authorization.value != "" && authUser.Some? && req.body.Some?
      && PromptOk(req.body.value.prompt) && Truthy(req.body.value.groupId)
      && IsMember(members, req.body.value.groupId, authUser.value)
    ensures r.Some? ==> r.value in {401, 400, 403, 500}
    ensures r == Some(500) <==>
      req.authorization.Some? && req.authorization.value != "" && authUser.Some? && req.body.None?
  {
    if req.authorization.None? || req.authorization.value == "" then Some(401)
    else if authUser.None? then Some(401)
    else if req.body.None? then Some(500)
    else if !PromptOk(req.body.value.prompt) then Some(400)
    else if !Truthy(req.body.value.groupId) then Some(400)
    else if !IsMember(members, req.body.value.groupId, authUser.value) then Some(403)
    else None
  }

  /**
   * The status the function answers with, given the key, the gateway and the insert
   * outcome: the reply exactly when every check passes, the key is set, the gateway
   * answers and the insert succeeds.
   */
  function Outcome(req: ChatRequest, authUser: Option<string>, members: seq<GroupMember>,
                   apiKey: Option<string>, upstream: Upstream, insertFails: bool): (r: ChatResponse)
    ensures r.Answered? <==>
      Guard(req, authUser, members) == None && apiKey.Some? && apiKey.value != "" && upstream.Reply? && !insertFails
    ensures r.Answered? ==> r.response == upstream.text
    ensures r.Failed? ==> r.status in {400, 401, 402, 403, 429, 500}
  {
    var guard := Guard(req, authUser, members);
    if guard.Some? then Failed(guard.value)
    else if apiKey.None? || apiKey.value == "" then Failed(500)
    else match upstream
      case Status(code) => Failed(if code == 429 then 429 else if code == 402 then 402 else 500)
      case Reply(text) => if insertFails then Failed(500) else Answered(text)
  }

  /** The message posted for a reply. */
  function AiMessage(id: string, groupId: string, reply: string, now: int): (m: RoomMessage)
    ensures m.userId == AiUserId && m.roomId == groupId && m.content == "🤖 " + reply
  {
    RoomMessage(id, groupId, AiUserId, "🤖 " + reply, None, now)
  }

  /**
   * The handler. `authUser` is whom the token names; `apiKey` the configured key; `upstream`
   * the gateway's answer and `insertFails` the outcome of the insert, which runs with the
   * service key and therefore sees every group. `newId` and `now` are the new row's id
   * and time.
   */
  method Handle(db: Database, req: ChatRequest, authUser: Option<string>, apiKey: Option<string>,
                upstream: Upstream, insertFails: bool, newId: string, now: int)
    returns (resp: ChatResponse)
    modifies db`groupMessages
    ensures resp == Outcome(req, authUser, old(db.groupMembers), apiKey, upstream, insertFails)
    ensures resp.Answered? <==> |db.groupMessages| == |old(db.groupMessages)| + 1
    ensures resp.Answered? ==>
      db.groupMessages == old(db.groupMessages) + [AiMessage(newId, req.body.value.groupId.s, upstream.text, now)]
    ensures !resp.Answered? ==> db.groupMessages == old(db.groupMessages)
  {
    if req.authorization.None? || req.authorization.value == "" {
      return Failed(401);
    }
    if authUser.None? {
      return Failed(401);
    }
    if req.body.None? {
      return Failed(500);
    }
    var prompt, groupId := req.body.value.prompt, req.body.value.groupId;
    if !Truthy(prompt) || !prompt.JStr? || JsLength(prompt.s) > 2000 || JsLength(prompt.s) < 1 {
      return Failed(400);
    }
    if !Truthy(groupId) {
      return Failed(400);
    }
    // The membership query matches no row unless `groupId` is a string.
    var membership := if groupId.JStr? then Filter(db.groupMembers,
      (m: GroupMember) => m.groupId == groupId.s && m.userId == authUser.value) else [];
    if |membership| != 1 {
      return Failed(403);
    }
    if apiKey.None? || apiKey.value == "" {
      return Failed(500);
    }
    match upstream {
      case Status(code) =>
        if code == 429 {
          return Failed(429);
        }
        if code == 402 {
          return Failed(402);
        }
        return Failed(500);
      case Reply(aiResponse) =>
        if insertFails {
          return Failed(500);
        }
        db.groupMessages := db.groupMessages + [AiMessage(newId, groupId.s, aiResponse, now)];
        return Answered(aiResponse);
    }
  }

  /** Without an `Authorization` header the answer is 401, whatever else the request holds. */
  lemma NoHeaderFirst(req: ChatRequest, authUser: Option<string>, members: seq<GroupMember>,
                      apiKey: Option<string>, upstream: Upstream, insertFails: bool)
    requires req.authorization.None?
    ensures Outcome(req, authUser, members, apiKey, upstream, insertFails) == Failed(401)
  {
  }

  /** A token that names no user is answered with 401 before the prompt is looked at. */
  lemma BadTokenBeforePrompt(req: ChatRequest, members: seq<GroupMember>,
                             apiKey: Option<string>, upstream: Upstream, insertFails: bool)
    requires req.authorization.Some?
    ensures Outcome(req, None, members, apiKey, upstream, insertFails) == Failed(401)
  {
  }

  /** A body that cannot be read is answered with 500 once the caller is known. */
  lemma UnreadableBodyFails(auth: string, user: string, members: seq<GroupMember>,
                            apiKey: Option<string>, upstream: Upstream, insertFails: bool)
    requires auth != ""
    ensures Outcome(ChatRequest(Some(auth), None), Some(user), members, apiKey, upstream, insertFails) == Failed(500)
  {
  }

  /** An invalid prompt from a signed-in caller is answered with 400, member or not. */
  lemma BadPromptBeforeMembership(req: ChatRequest, user: string, members: seq<GroupMember>,
                                  apiKey: Option<string>, upstream: Upstream, insertFails: bool)
    requires req.authorization.Some? && req.authorization.value != "" && req.body.Some?
    requires !req.body.value.prompt.JStr? || JsLength(req.body.value.prompt.s) == 0 || JsLength(req.body.value.prompt.s) > 2000
    ensures Outcome(req, Some(user), members, apiKey, upstream, insertFails) == Failed(400)
  {
  }

  /**
   * A 400 for a missing group and a 403 for a non-member are decided before the model is
   * asked: they do not depend on the key, the gateway or the insert.
   */
  lemma GroupChecksBeforeModel(req: ChatRequest, user: string, members: seq<GroupMember>,
                               apiKey1: Option<string>, upstream1: Upstream, insertFails1: bool,
                               apiKey2: Option<string>, upstream2: Upstream, insertFails2: bool)
    requires req.authorization.Some? && req.authorization.value != "" && req.body.Some?
    requires PromptOk(req.body.value.prompt)
    requires !Truthy(req.body.value.groupId) || !IsMember(members, req.body.value.groupId, user)
    ensures Outcome(req, Some(user), members, apiKey1, upstream1, insertFails1)
         == Outcome(req, Some(user), members, apiKey2, upstream2, insertFails2)
    ensures Outcome(req, Some(user), members, apiKey1, upstream1, insertFails1)
         == Failed(if Truthy(req.body.value.groupId) then 403 else 400)
  {
  }

  /** The caller is the token's user: a `userId` in the body changes nothing. */
  lemma BodyUserIgnored(req: ChatRequest, forged: Json, authUser: Option<string>, members: seq<GroupMember>,
                        apiKey: Option<string>, upstream: Upstream, insertFails: bool)
    requires req.body.Some?
    ensures Outcome(req.(body := Some(req.body.value.(userId := forged))), authUser, members, apiKey, upstream, insertFails)
         == Outcome(req, authUser, members, apiKey, upstream, insertFails)
  {
  }

  /** Past the checks, gateway status 429 and 402 are passed on and any other failure is a 500. */
  lemma UpstreamStatusMapping(req: ChatRequest, authUser: Option<string>, members: seq<GroupMember>,
                              apiKey: Option<string>, code: int, insertFails: bool)
    requires Guard(req, authUser, members) == None && apiKey.Some? && apiKey.value != ""
    ensures var r := Outcome(req, authUser, members, apiKey, Status(code), insertFails);
      && (code == 429 ==> r == Failed(429))
      && (code == 402 ==> r == Failed(402))
      && (code != 429 && code != 402 ==> r == Failed(500))
  {
  }

  /** Without a configured key the function fails with 500 once the checks pass. */
  lemma MissingKeyFails(req: ChatRequest, authUser: Option<string>, members: seq<GroupMember>,
                        upstream: Upstream, insertFails: bool)
    requires Guard(req, authUser, members) == None
    ensures Outcome(req, authUser, members, None, upstream, insertFails) == Failed(500)
  {
  }
}
