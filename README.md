# A verified model of the study app's rules

The application is a Persian-language study app: users take generated exams and collect
points and levels, chat in channels, groups, a public group with an assistant, and
private conversations, keep friends, bookmarks and study plans, and browse booklets and
step-by-step solutions. Its backend is a hosted Postgres database with server functions.

This project models the rule-bearing part of that app in Dafny:

- exam scoring, shared by the `submit-exam` server function and the exam page;
- the level and achievement arithmetic of the progress page;
- the input validators, including the prompt-injection screen;
- the guards of the `ai-group-chat` server function;
- the handlers of the chat screens (public chat, channels, groups, direct messages, friends, saved messages);
- the study-plan and profile forms;
- the book and solution list filters;
- page-view tracking.

The database is the class `Db.Database`, with one sequence of rows per table. Each
screen is a class that holds its component state and a reference to the database, and
its handlers are methods that state the new rows and the new state. The decisions a
handler takes (which branch, which error) are pure functions returning an action, and the
lemmas beside them state the app's rules.

Inputs from outside the code are parameters of the handlers:

- the signed-in user;
- new row ids and the clock;
- whether a database write fails;
- the language model's reply.

Ordering by a timestamp column is a stable insertion sort on an integer key. JavaScript
string lengths are counted in UTF-16 code units. `Math.round` is exact half-up rounding.

## Model

| member | source | states |
|---|---|---|
| Strings.TrimEmptyIff | src/lib/validation.ts:7-8 | `trim` yields the empty string iff the text is white space only |
| Strings.TrimIdempotent | src/lib/validation.ts:7 | trimming twice is trimming once |
| Strings.TrimPadded | src/lib/validation.ts:7 | white-space padding is removed and the text between is kept intact |
| Strings.JsLengthConcat | src/lib/validation.ts:8-9 | the JavaScript length of a concatenation is the sum of the lengths |
| Strings.ContainsIff | src/pages/StudyBooks.tsx:42-45 | `includes` holds iff the term occurs at some position of the text |
| Strings.ParseIntOfNatToString | src/pages/StepByStep.tsx:33 | `parseInt` (`Strings.ParseInt`) reads back the decimal rendering of every natural number |
| StepByStep.LettersAreNotANumber | src/pages/StepByStep.tsx:33 | `Strings.ParseInt` of letters is `NaN`: leading white space is skipped, and a text without a leading digit has no value |
| Listing.Filter | src/pages/StudyBooks.tsx:42-45 | `filter` keeps exactly the elements that satisfy the predicate, and no more than there were |
| Listing.FilterIsSubsequence | src/pages/StudyBooks.tsx:42-45 | `filter` keeps the order of what it keeps |
| Listing.SortByPermutation | src/components/chat/Channels.tsx:99 | `ORDER BY` returns the same rows, rearranged |
| Listing.SortBySorted | src/components/chat/Channels.tsx:99 | `ORDER BY` returns the rows in ascending order of the key |
| Listing.Dedup | src/pages/StudyBooks.tsx:48 | `[...new Set(xs)]` holds every value of the list once and nothing else |
| Listing.DedupPrefix | src/pages/StudyBooks.tsx:48 | the distinct values of a prefix come first, in the order of first occurrence |
| Listing.NumberedOptions | src/pages/StudyBooks.tsx:47 | the options are the decimal renderings of 1 to n, in order |
| Validation.CheckLength | src/lib/validation.ts:4-33 | the shared trim-then-length rule: accepted iff the trimmed text's length is within the window, the accepted value is the trimmed text, and a rejection is "too short" or "too long" |
| Validation.CheckLengthIdempotent | src/lib/validation.ts:7 | validating an accepted value again accepts it unchanged |
| Validation.ValidateMessage | src/lib/validation.ts:4-10 | a message is accepted iff its trimmed length is 1..5000, and the accepted content is the trimmed text |
| Validation.BlankMessageRejected | src/lib/validation.ts:8 | white-space-only content is rejected as too short |
| Validation.LongMessageRejected | src/lib/validation.ts:9 | content whose trimmed form is longer than 5000 is rejected as too long |
| Validation.MessageIdempotent | src/lib/validation.ts:4-10 | re-validating an accepted message gives the same message |
| Validation.ValidateUsername | src/lib/validation.ts:13-18 | accepted iff the trimmed name has length 3..30 and only `[a-zA-Z0-9_]` characters; the value is the trimmed name |
| Validation.UsernameShape | src/lib/validation.ts:13-18 | an accepted username has 3..30 characters and no white space |
| Validation.UsernameIdempotent | src/lib/validation.ts:14 | re-validating an accepted username gives the same username |
| Validation.ValidateName | src/lib/validation.ts:21-27 | channel and group names share one rule: trimmed length 3..100 |
| Validation.ValidateDescription | src/lib/validation.ts:30-33 | a description is accepted iff its trimmed length is at most 500 |
| Validation.BlankDescriptionAccepted | src/lib/validation.ts:30-33 | an empty or blank description is accepted, as the empty string |
| AiValidation.TestIff | src/lib/ai-validation.ts:19-24 | a pattern's `test` succeeds iff the pattern matches from some position of the text |
| AiValidation.AnyTestIff | src/lib/ai-validation.ts:27 | `patterns.some(test)` holds iff one of the patterns' tests succeeds |
| AiValidation.SuspiciousIff | src/lib/ai-validation.ts:17-28 | `containsSuspiciousPatterns` (`AiValidation.ContainsSuspiciousPatterns`) holds for a text iff one of the six patterns matches it |
| AiValidation.SpaceRun | src/lib/ai-validation.ts:19-24 | `\s+` consumes any non-empty run of white space before the rest of the pattern |
| AiValidation.SystemPromptSuspicious | src/lib/ai-validation.ts:20 | every text containing "system prompt" is suspicious |
| AiValidation.ShoutedIgnoreSuspicious | src/lib/ai-validation.ts:19 | "IGNORE   previous instructions" is suspicious: the match ignores case and accepts a run of spaces |
| AiValidation.ValidatePrompt | src/lib/ai-validation.ts:4-14 | a prompt is accepted iff its trimmed length is 1..2000 and the trimmed text is not suspicious; a prompt of valid length that is suspicious is rejected as suspicious |
| AiValidation.SystemPromptRejected | src/lib/ai-validation.ts:10-13 | a prompt of valid length that contains "system prompt" is rejected |
| AiValidation.ValidateContent | src/lib/ai-validation.ts:31-37 | content is accepted iff its trimmed length is 1..10000 |
| AiValidation.ValidateQuestion | src/lib/ai-validation.ts:39-50 | accepted iff the trimmed question is 1..1000 long and the context, when present, is at most 5000 long after trimming; both come back trimmed |
| AiValidation.ValidateAiMessage | src/lib/ai-validation.ts:52-58 | a message is accepted iff its trimmed length is 1..2000 |
| ExamScoring.CorrectCount | supabase/functions/submit-exam/index.ts:72-77 | the number of correct answers never exceeds the number of questions |
| ExamScoring.CorrectCountIsSize | supabase/functions/submit-exam/index.ts:72-77 | the count equals the number of indices whose answer equals the question's correct answer |
| ExamScoring.AllCorrectIff | supabase/functions/submit-exam/index.ts:72-77 | the count equals the number of questions iff every answer is correct |
| ExamScoring.UnansweredNeverCounts | src/pages/Exam.tsx:57-62 | an unanswered question is never counted as correct |
| ExamScoring.Percentage | supabase/functions/submit-exam/index.ts:79 | the percentage is `100·c/n` rounded half-up, and it is at most 100 |
| ExamScoring.PerfectIsHundred | supabase/functions/submit-exam/index.ts:79 | all answers correct gives 100 |
| ExamScoring.HundredIsPerfect | supabase/functions/submit-exam/index.ts:79 | with fewer than 200 questions, 100 means every answer is correct |
| ExamScoring.HundredWithoutPerfect | supabase/functions/submit-exam/index.ts:79 | with 201 questions, 200 correct answers already round to 100 |
| ExamScoring.PercentageMonotone | supabase/functions/submit-exam/index.ts:79 | more correct answers never lower the percentage |
| ExamScoring.Bonus | supabase/functions/submit-exam/index.ts:83-87 | the bonus is exclusive: 10 iff the percentage is at least 100, 5 iff it is 80..99, otherwise 0 |
| ExamScoring.PointsAwarded | supabase/functions/submit-exam/index.ts:81-87 | the points are `c + 20` iff the percentage is 100, `c + 15` iff it is 80 to 99, and `c + 10` otherwise |
| ExamScoring.PointsBounds | supabase/functions/submit-exam/index.ts:82-87 | the points are `10 + c` plus at most 10, so they lie in 10..n+20 |
| ExamScoring.PerfectPoints | supabase/functions/submit-exam/index.ts:82-87 | a perfect exam earns n + 20 points |
| ExamScoring.PointsMonotone | supabase/functions/submit-exam/index.ts:82-87 | more correct answers always earn strictly more points |
| ExamScoring.TwoQuestionExample | src/pages/Exam.tsx:68-76 | for two questions, one correct answer scores 50% and 11 points, and two score 100% and 22 points |
| SubmitExam.CountCorrect | supabase/functions/submit-exam/index.ts:72-77 | the counting loop computes the number of correct answers |
| SubmitExam.Rejection | supabase/functions/submit-exam/index.ts:30-69 | a request passes the checks iff it has a non-empty header, a known user, a body with a non-empty question list and an answer list of the same length; a refusal is 401 exactly for a missing header or user, and otherwise 400 or 500 |
| SubmitExam.SubmitOutcome | supabase/functions/submit-exam/index.ts:22-147 | the exam is scored iff the checks pass and neither the insert nor the points routine fails; a score reports the server's own count, the question count, the rounded percentage (at most 100) and `c + 10` to `c + 20` points; failures are 400, 401 or 500 |
| SubmitExam.BadQuestionsRejected | supabase/functions/submit-exam/index.ts:57-62 | a missing or empty question list is answered with 400 |
| SubmitExam.BadAnswersRejected | supabase/functions/submit-exam/index.ts:64-69 | missing answers, or answers whose number differs from the questions', are answered with 400 |
| SubmitExam.ExamTitle | supabase/functions/submit-exam/index.ts:96 | the given title, or a dated default when it is missing or empty |
| SubmitExam.ExamRecord | supabase/functions/submit-exam/index.ts:92-104 | the stored row belongs to the caller and holds the questions, the answers, the recomputed percentage and points |
| SubmitExam.HandleSubmit | supabase/functions/submit-exam/index.ts:22-138 | the response follows the checks; after the checks pass and the insert succeeds, exactly one exam row is added and the points routine is called with its points and id; otherwise nothing is written |
| SubmitExam.ResponseMatchesRecord | supabase/functions/submit-exam/index.ts:92-101 | a successful response carries the stored row's score and points, the correct count and the number of questions, with the score in 0..100 and the points in 10..n+20 |
| SubmitExam.ClaimedScoreIgnored | supabase/functions/submit-exam/index.ts:16-20 | a score claimed by the client never changes the response |
| ExamPage.ClientAnswered | src/pages/Exam.tsx:57-62 | the page's answer record read per question: missing entries are unanswered, the others are the chosen option |
| ExamPage.ClientPercentage | src/pages/Exam.tsx:68 | the page's percentage is missing (`NaN`, stored as `NULL`) exactly for an empty exam, and otherwise at most 100 |
| ExamPage.ClientPoints | src/pages/Exam.tsx:70-76 | the page awards `10 + c` plus at most 10 points, for an empty exam too |
| ExamPage.EmptyExamEarnsBase | src/pages/Exam.tsx:68-76 | an empty exam stores no percentage and earns the base 10 points |
| ExamPage.ClientAgreesWithServer | src/pages/Exam.tsx:68-76 | when every question is answered the same way, the page and the server count the same correct answers and give the same percentage and points |
| ExamPage.CreditExam | src/pages/Exam.tsx:96-102 | only the user's rows change: points become the points read plus the award, and exams taken the number read plus one, a missing value counting as 0 |
| ExamPage.CreditExamUnique | src/pages/Exam.tsx:90-102 | for a user with one profile row, points grow by exactly the award and exams taken by exactly one, and nothing else changes |
| ExamPage.ExamScreen.GenerateExam | src/pages/Exam.tsx:22-54 | blank content is refused before the generator is asked; a generated exam replaces the current one, and a failure keeps it |
| ExamPage.ExamScreen.SelectOption | src/pages/Exam.tsx:235 | once results are shown the answers no longer change; otherwise the option is recorded for that question |
| ExamPage.ExamScreen.Score | src/pages/Exam.tsx:57-62 | the counting loop computes the number of correct answers of the answer record |
| ExamPage.ExamScreen.SubmitExam | src/pages/Exam.tsx:56-104 | the score counts the chosen options equal to the correct answers, an empty exam included (no percentage, 10 points); without a user nothing is written; otherwise one exam row with the percentage and points, the profile counters credited, and the results shown |
| ExamPage.ExamScreen.NewExam | src/pages/Exam.tsx:276-280 | the exam, the answers and the results flag are reset |
| Progress.PointsToNextLevel | src/pages/Progress.tsx:48 | the next level is a multiple of 100 at least 100 and less than 200 points ahead |
| Progress.RemainingPoints | src/pages/Progress.tsx:98 | the points left are 100 at a multiple of 100 and `200 - points mod 100` otherwise, always 100..199 |
| Progress.ProgressPercentage | src/pages/Progress.tsx:49 | the progress bar is `points mod 100`, in 0..99 for non-negative points |
| Progress.Achievements | src/pages/Progress.tsx:158-200 | the four flags are: an exam taken, five exams taken, 100 points, 500 points; five exams imply the first, 500 points imply 100 |
| Progress.AchievementsMonotone | src/pages/Progress.tsx:166-171 | more exams and more points never turn an achievement off |
| Progress.ExamKeepsAchievements | src/pages/Progress.tsx:166-171 | after the exam page credits an exam, every achievement shown before is still shown |
| AiGroupChat.Guard | supabase/functions/ai-group-chat/index.ts:16-70 | a request passes iff it has a header, a known user, a readable body, a valid prompt, a group id and the caller's membership; failures are 401, 400, 403, and 500 exactly for an unreadable body from a known caller |
| AiGroupChat.Outcome | supabase/functions/ai-group-chat/index.ts:14-149 | the reply is returned iff the checks pass, the key is set, the gateway answers and the insert succeeds, and it is the gateway's text; failures are 400, 401, 402, 403, 429 or 500 |
| AiGroupChat.AiMessage | supabase/functions/ai-group-chat/index.ts:126-132 | the assistant's message is in the requested group, from the assistant's id, with the robot prefix before the reply |
| AiGroupChat.Handle | supabase/functions/ai-group-chat/index.ts:14-149 | the response follows the guards and the gateway; a success adds exactly one message, the assistant's, and every other outcome writes nothing |
| AiGroupChat.NoHeaderFirst | supabase/functions/ai-group-chat/index.ts:16-22 | without an `Authorization` header the answer is 401, whatever else the request holds |
| AiGroupChat.UnreadableBodyFails | supabase/functions/ai-group-chat/index.ts:38-39 | a body that is not JSON, or is `null`, makes the destructuring throw, which the handler answers with 500 once the caller is known |
| AiGroupChat.BadTokenBeforePrompt | supabase/functions/ai-group-chat/index.ts:30-36 | an unknown token is 401 before the prompt is checked |
| AiGroupChat.BadPromptBeforeMembership | supabase/functions/ai-group-chat/index.ts:43-48 | a prompt that is not a string of 1..2000 characters is 400, member or not |
| AiGroupChat.GroupChecksBeforeModel | supabase/functions/ai-group-chat/index.ts:50-70 | a missing group is 400 and a non-member 403, decided before the key, the gateway or the insert matter |
| AiGroupChat.BodyUserIgnored | supabase/functions/ai-group-chat/index.ts:38-39 | a user id in the body never changes the outcome |
| AiGroupChat.UpstreamStatusMapping | supabase/functions/ai-group-chat/index.ts:99-115 | gateway status 429 and 402 are passed on, any other failure is 500 |
| AiGroupChat.MissingKeyFails | supabase/functions/ai-group-chat/index.ts:72-75 | without a configured key the answer is 500 |
| PublicChat.Decide | src/pages/Chat.tsx:125-190 | nothing happens iff the input is blank or there is no public group; the message rule is checked before the user; a `!` command from a signed-in user asks the assistant with the trimmed rest, or is refused when that is empty; otherwise an edit iff an id is being edited, carrying the trimmed text |
| PublicChat.ShowControls | src/pages/Chat.tsx:266-267 | controls show iff the message is the viewer's own and not the assistant's |
| PublicChat.BlankInputIgnored | src/pages/Chat.tsx:126 | white-space-only input does nothing |
| PublicChat.LongCommandRefused | src/pages/Chat.tsx:129 | an over-long `!` command is refused by the message rule |
| PublicChat.CommandIsNotEdit | src/pages/Chat.tsx:134-143 | a `!` command is never an edit or a plain post, and its prompt is the rest of the text, trimmed and non-empty |
| PublicChat.WrittenContentValidated | src/pages/Chat.tsx:177-188 | edits and posts carry the trimmed text of 1..5000 characters |
| PublicChat.ControlsOnlyOnOwn | src/pages/Chat.tsx:266-267 | controls show only on the viewer's own messages and never on the assistant's |
| PublicChat.ChatScreen.SendMessage | src/pages/Chat.tsx:125-199 | a command posts the raw input and keeps the edit state; an edit updates the message and ends editing; a post adds one trimmed message to the public group; every other outcome writes nothing |
| PublicChat.ChatScreen.DeleteMessage | src/pages/Chat.tsx:201-208 | the message with that id is removed |
| PublicChat.ChatScreen.StartEdit | src/pages/Chat.tsx:210-213 | the input holds the message's text and its id is being edited |
| Db.DeleteId | src/components/chat/Channels.tsx:213-218 | the rows with the id are removed and every other row stays |
| Db.DeleteAbsentId | src/components/chat/Channels.tsx:213-218 | deleting an id that no row has changes nothing |
| Db.EditRoomMessage | src/components/chat/Channels.tsx:184-191 | the rows with the id get the new content and the edited flag; the others are unchanged |
| Db.Single | src/components/chat/Channels.tsx:71-83 | `.single()` yields a row iff exactly one row matches, and that row matches |
| Db.RoomHistoryShape | src/components/chat/Channels.tsx:85-99 | the loaded messages (`Db.RoomHistory`) are the room's messages, each once, oldest first |
| Db.PostedInHistory | src/components/chat/Channels.tsx:193-197 | a message added to a room shows up in the room's history |
| Channels.Decide | src/components/chat/Channels.tsx:170-197 | nothing happens iff the text is blank or no channel or user is known; otherwise a refusal iff the user is not the owner as loaded; only the owner writes, a write carries the untrimmed text, and it is an edit iff an id is being edited |
| Channels.NonOwnerRefused | src/components/chat/Channels.tsx:174-181 | anyone but the owner is refused |
| Channels.ShowControls | src/components/chat/Channels.tsx:298 | controls show iff the message is the current user's |
| Channels.ShowComposer | src/components/chat/Channels.tsx:321 | the composer shows iff the current user is the owner as loaded, and also when both are unknown |
| Channels.ComposerMatchesSend | src/components/chat/Channels.tsx:321 | whoever sees the composer is not refused |
| Channels.ChannelsScreen.SelectChannel | src/components/chat/Channels.tsx:43-99 | the channel's messages are loaded and its owner is set when found |
| Channels.ChannelsScreen.CreateChannel | src/components/chat/Channels.tsx:127-168 | a blank name does nothing; the channel is owned by the creator, who then joins as a member, and the form is cleared |
| Channels.ChannelsScreen.SendMessage | src/components/chat/Channels.tsx:170-211 | the owner's edit or new message is written and the messages reloaded; a refusal or a failed write leaves everything |
| Channels.ChannelsScreen.DeleteMessage | src/components/chat/Channels.tsx:213-229 | the message is removed and the messages reloaded, unless the delete fails |
| Channels.ChannelsScreen.StartEdit | src/components/chat/Channels.tsx:231-234 | the input holds the message's text and its id is being edited |
| Groups.Decide | src/components/chat/Groups.tsx:155-175 | anyone signed in writes when a group is selected and the text is not blank; an edit iff an id is being edited |
| Groups.ShowControls | src/components/chat/Groups.tsx:280 | controls show iff the message is the current user's |
| Groups.OwnPostHasControls | src/components/chat/Groups.tsx:280 | a new message carries its author's id, so its author sees its controls |
| Groups.GroupsScreen.SelectGroup | src/components/chat/Groups.tsx:69-83 | the group's messages are loaded, oldest first |
| Groups.GroupsScreen.CreateGroup | src/components/chat/Groups.tsx:111-153 | a blank name does nothing; the group is owned by the creator, who then joins as an administrator |
| Groups.GroupsScreen.SendMessage | src/components/chat/Groups.tsx:155-186 | the edit or new message is written and the messages reloaded; a failed write leaves everything |
| Groups.GroupsScreen.DeleteMessage | src/components/chat/Groups.tsx:188-204 | the message is removed and the messages reloaded, unless the delete fails |
| Groups.GroupsScreen.StartEdit | src/components/chat/Groups.tsx:206-209 | the input holds the message's text and its id is being edited |
| DirectMessages.ConversationShape | src/components/chat/DirectMessages.tsx:45-64 | the conversation (`DirectMessages.Conversation`) is exactly the messages between the two users, each once, oldest first |
| DirectMessages.ConversationSymmetric | src/components/chat/DirectMessages.tsx:58-59 | both users see the same conversation |
| DirectMessages.EditDirectMessage | src/components/chat/DirectMessages.tsx:94-101 | the rows with the id get the new content and the edited flag; the others are unchanged |
| DirectMessages.EditKeepsConversations | src/components/chat/DirectMessages.tsx:94-101 | an edit keeps every conversation's size |
| DirectMessages.Decide | src/components/chat/DirectMessages.tsx:87-107 | nothing without text, a selected user or a signed-in user (an empty id counts as none); otherwise the message rule, and a write carries the trimmed text |
| DirectMessages.ShowControls | src/components/chat/DirectMessages.tsx:183 | controls show iff the current user sent the message |
| DirectMessages.PaddedTextTrimmed | src/components/chat/DirectMessages.tsx:92 | white space around a message never reaches the table |
| DirectMessages.PostJoinsConversation | src/components/chat/DirectMessages.tsx:103-107 | a sent message is in both users' conversation and only its sender sees its controls |
| DirectMessages.DirectMessagesScreen.LoadMessages | src/components/chat/DirectMessages.tsx:45-64 | with both users known the conversation is loaded; otherwise nothing |
| DirectMessages.DirectMessagesScreen.SendMessage | src/components/chat/DirectMessages.tsx:87-121 | the validated edit or new message from me to the selected user is written and the conversation reloaded |
| DirectMessages.DirectMessagesScreen.DeleteMessage | src/components/chat/DirectMessages.tsx:123-139 | the message is removed and the conversation reloaded, unless the delete fails |
| DirectMessages.DirectMessagesScreen.StartEdit | src/components/chat/DirectMessages.tsx:141-144 | the input holds the message's text and its id is being edited |
| Friends.PendingFor | src/components/chat/Friends.tsx:48-49 | the pending list is exactly the requests to me with status "pending" |
| Friends.FriendsOf | src/components/chat/Friends.tsx:67 | the friends list is exactly the friendship rows of mine |
| Friends.Target | src/components/chat/Friends.tsx:74-95 | nothing for a blank name; "not signed in" iff no user; "not found" iff not exactly one profile has the name; otherwise the request goes to that profile, or is refused when it is the sender's |
| Friends.Outcome | src/components/chat/Friends.tsx:102-107 | code 23505 is reported as "already sent" and other codes pass through |
| Friends.OwnUsernameRefused | src/components/chat/Friends.tsx:93-95 | a user asking for their own unique username is refused |
| Friends.OtherUsernameSent | src/components/chat/Friends.tsx:84-100 | a username that exactly one other profile has sends the request to that profile |
| Friends.UnknownUsernameRefused | src/components/chat/Friends.tsx:89-91 | an unknown username is reported as not found |
| Friends.SetStatus | src/components/chat/Friends.tsx:127-130 | only the request with the id gets the new status |
| Friends.HandledLeavesPending | src/components/chat/Friends.tsx:127-143 | a handled request leaves the pending list, and the other pending requests stay |
| Friends.FriendsScreen.Load | src/components/chat/Friends.tsx:36-72 | the pending requests and the friends of the signed-in user are loaded |
| Friends.FriendsScreen.SendFriendRequest | src/components/chat/Friends.tsx:74-123 | a request from me to the target is inserted and the input cleared only when it is sent |
| Friends.FriendsScreen.HandleRequest | src/components/chat/Friends.tsx:125-152 | the status is set; the friendship routine is called only for an accept whose update succeeded |
| SavedMessages.TableFor | src/components/chat/SavedMessages.tsx:40-61 | "channel" looks in channel messages, "group" in group messages, anything else in direct messages |
| SavedMessages.DispatchAgrees | src/components/chat/SavedMessages.tsx:82-91 | the label, the icon and the lookup always pick the same kind |
| SavedMessages.Resolve | src/components/chat/SavedMessages.tsx:38-63 | a message is found iff exactly one row of the table the type selects has the bookmarked id, and it has that id and comes from that table |
| SavedMessages.UniqueChannelRowResolves | src/components/chat/SavedMessages.tsx:40-46 | a channel bookmark whose id one channel message has resolves to that message |
| SavedMessages.UniqueGroupRowResolves | src/components/chat/SavedMessages.tsx:47-53 | a group bookmark whose id one group message has resolves to that message |
| SavedMessages.UniqueDirectRowResolves | src/components/chat/SavedMessages.tsx:54-61 | any other bookmark whose id one direct message has resolves to that message |
| SavedMessages.GroupTagIgnoresChannels | src/components/chat/SavedMessages.tsx:47-53 | a group bookmark never shows a channel message |
| SavedMessages.SavedByShape | src/components/chat/SavedMessages.tsx:29-33 | the list is exactly my bookmarks, each once, newest first |
| SavedMessages.WithMessages | src/components/chat/SavedMessages.tsx:37-64 | each bookmark is paired with the message it points at |
| SavedMessages.SavedMessagesScreen.Load | src/components/chat/SavedMessages.tsx:25-68 | my bookmarks with their messages are loaded; without a user nothing is |
| SavedMessages.SavedMessagesScreen.Unsave | src/components/chat/SavedMessages.tsx:70-80 | the bookmark is deleted and the list reloaded only when the delete succeeds |
| SavedMessages.UnsavedNotListed | src/components/chat/SavedMessages.tsx:70-80 | after an unsave the bookmark is no longer listed |
| StudyPlans.PlansOfShape | src/pages/StudyPlan.tsx:40-44 | the listing is exactly my plans, each once, newest first |
| StudyPlans.NewPlan | src/pages/StudyPlan.tsx:69-76 | a new plan belongs to the user, holds the form's fields and has no subjects |
| StudyPlans.StudyPlanScreen.LoadPlans | src/pages/StudyPlan.tsx:35-53 | my plans are loaded; without a user nothing is |
| StudyPlans.StudyPlanScreen.HandleCreate | src/pages/StudyPlan.tsx:55-98 | refused iff a title or date is empty; a created plan is inserted, the form cleared and hidden, and the plans reloaded |
| StudyPlans.StudyPlanScreen.HandleDelete | src/pages/StudyPlan.tsx:100-117 | the plan is removed and the plans reloaded, unless the delete fails |
| StudyPlans.CreatedPlanListed | src/pages/StudyPlan.tsx:69-90 | a created plan shows up in its owner's listing |
| ProfilePage.OrEmpty | src/pages/Profile.tsx:49-55 | a missing field loads as the empty string |
| ProfilePage.NullIfEmpty | src/pages/Profile.tsx:78-80 | an empty field is saved as missing |
| ProfilePage.NullRoundTrip | src/pages/Profile.tsx:49-81 | saving a field and loading it back gives the field |
| ProfilePage.Saved | src/pages/Profile.tsx:73-82 | the name and username are written as typed, the optional fields as missing when empty; the id and the counters are not written |
| ProfilePage.SaveLoadRoundTrip | src/pages/Profile.tsx:49-81 | loading after saving a form shows the same five values |
| ProfilePage.SaveLoadedForm | src/pages/Profile.tsx:49-81 | saving the loaded form unchanged stores the same profile |
| ProfilePage.UpdateProfile | src/pages/Profile.tsx:73-82 | only the user's own row changes |
| ProfilePage.UpdateKeepsIds | src/pages/Profile.tsx:73-82 | the user's own rows after the update are exactly their rows before it, each saved with the form |
| ProfilePage.ReloadAfterSave | src/pages/Profile.tsx:73-90 | for a user with one profile row, the reload after a save shows the saved form |
| ProfilePage.ProfileScreen.LoadProfile | src/pages/Profile.tsx:32-64 | without a user the page goes to sign-in; a found profile fills the form; otherwise the form stays |
| ProfilePage.ProfileScreen.HandleSave | src/pages/Profile.tsx:66-100 | the user's row is updated with the form, and the reloaded form is the saved one |
| PdfBooks.FilteredBooksIff | src/pages/StudyBooksWithPDF.tsx:70-75 | a booklet is listed iff its title or subject contains the search, ignoring case, and the grade filter is empty or its grade |
| PdfBooks.FilteredBooksInOrder | src/pages/StudyBooksWithPDF.tsx:70 | the list keeps the catalogue's order |
| PdfBooks.NoFilterListsAll | src/pages/StudyBooksWithPDF.tsx:70-75 | an empty search with no grade lists everything |
| PdfBooks.CatalogueGrades | src/pages/StudyBooksWithPDF.tsx:14-68 | every booklet of the catalogue has one of the grades "1".."9" |
| PdfBooks.SelectedGradeOnly | src/pages/StudyBooksWithPDF.tsx:73 | with a grade selected, every listed booklet has that grade |
| StudyBooks.BooksQuery | src/pages/StudyBooks.tsx:21-34 | the grade and subject conditions apply only when selected |
| StudyBooks.NoSelectionLoadsAll | src/pages/StudyBooks.tsx:23-31 | without selections the whole table is loaded |
| StudyBooks.FilteredBooks | src/pages/StudyBooks.tsx:42-45 | a book is listed iff its title or subject contains the search, ignoring case |
| StudyBooks.FilteredBooksInOrder | src/pages/StudyBooks.tsx:42-45 | the search keeps the loaded order |
| StudyBooks.GradeOptionsExact | src/pages/StudyBooks.tsx:47 | the grade options are "1" to "12" |
| StudyBooks.SubjectsShape | src/pages/StudyBooks.tsx:48 | each loaded book's subject is offered exactly once, and nothing else is |
| StudyBooks.SubjectsFirstOccurrence | src/pages/StudyBooks.tsx:48 | subjects appear in the order of their first occurrence |
| StepByStep.PageConditionOf | src/pages/StepByStep.tsx:32-34 | an empty page field places no condition; otherwise the condition is `parseInt` of it, or not a number |
| StepByStep.SolutionsQuery | src/pages/StepByStep.tsx:22-40 | the database refuses the query iff the page field is not a number or its number does not fit the 32-bit column |
| StepByStep.LoadedSolutionsShape | src/pages/StepByStep.tsx:22-44 | when the query is accepted, the loaded solutions are exactly those matching the grade, subject and page conditions that are set, each once, in page order |
| StepByStep.NonNumericPageKeepsList | src/pages/StepByStep.tsx:32-39 | any page field that `parseInt` reads as `NaN` keeps the list as it was |
| StepByStep.OutOfRangePageKeepsList | src/pages/StepByStep.tsx:32-39 | a page number beyond the 32-bit column, such as 3000000000, keeps the list as it was |
| StepByStep.PageNumberParsed | src/pages/StepByStep.tsx:33 | a page field holding the decimal rendering of a number selects exactly that page |
| StepByStep.FilteredSolutions | src/pages/StepByStep.tsx:46-48 | a solution is listed iff its subject contains the search, ignoring case |
| StepByStep.SearchIgnoresSolutionText | src/pages/StepByStep.tsx:46-48 | the solution text never decides the search |
| StepByStep.FilteredSolutionsInOrder | src/pages/StepByStep.tsx:46-48 | the search keeps the page order |
| StepByStep.SubjectsFirstOccurrence | src/pages/StepByStep.tsx:51 | the subjects of a prefix of the solutions are a prefix of all subjects, so each subject is offered in the order of its first occurrence |
| StepByStep.Subjects | src/pages/StepByStep.tsx:51 | each loaded solution's subject is offered exactly once, and nothing else is |
| PageViews.ExcludedByPrefix | src/hooks/usePageView.ts:11-20 | any path beginning with "/profile", "/admin" or "/auth" is excluded, so "/authx" is too |
| PageViews.ExamPageTracked | src/hooks/usePageView.ts:18 | the exam page `/exam` is tracked |
| PageViews.TrackPageView | src/hooks/usePageView.ts:8-33 | a row is added iff the path is not excluded and a user is signed in, with the user and the exact path; only the page-view table changes |

## Left out

- Network and realtime: sessions, `functions.invoke`, the calls to the language-model gateway and the realtime subscriptions are not modelled. Their results are parameters, and the reloads they trigger are the handlers' own reloads.
- Presentation: loading flags, toasts, navigation and the rendered markup are not modelled. Errors appear as results, not as messages on screen.
- Database routines and policies whose bodies are not in the source: `award_exam_points`, `create_friendship`, `is_group_member` and row-level security. The handlers report the calls to these routines; their effects and any authorization they add are not modelled.
- The other AI server functions (answer, summarize, consultation, image analysis, exam generator, study planner). They only forward prompts, with the same 429/402/500 mapping as `ai-group-chat`.
- The assistant call of the public chat. `PublicChat.ChatScreen.SendMessage` returns the prompt it would send; what the function then does is `AiGroupChat.Handle`.
- Saving a bookmark. The source shown only removes bookmarks, so there is no rule for saving or toggling one.
- The default status of a new friend request is a column default that is not in the source. It is taken as "pending", the status the pending list selects.
- Dates are opaque strings and integer clock values. `toLocaleDateString` is not modelled, so the default exam title uses a `today` parameter.
- ExamScoring.Percentage: `Math.round` on a floating-point quotient is modelled as exact half-up rounding. The floating-point result may differ at exact halves.
- ExamScoring.HundredIsPerfect: "100 iff every answer is correct" holds only for fewer than 200 questions. Rounding makes 199 of 200 score 100, and `HundredWithoutPerfect` shows the same for 200 of 201. The handlers keep the source's formula.
- Strings.FoldCase: `toLowerCase` and the `/i` flag are modelled as ASCII case folding. This is exact for the patterns and for the Persian text of the app, which has no case.
- AiValidation: the six patterns are modelled by a small matcher over words, alternatives, white-space runs and `.*`. It is not a general regular-expression engine.
- SubmitExam: the request body is a record with optional fields. A question list or answer list that is present but not an array is represented as missing.
- A question without `correct_answer` is not modelled. Every question carries a correct answer.
- ExamScoring.Value: answers and correct answers are `null`, integers or strings. JSON booleans, fractional numbers, arrays and objects are not modelled, nor is the fact that `===` never holds between two parsed arrays or objects. The generator and the exam page produce only strings.
- Ordering: `ORDER BY` is a stable sort on an integer timestamp. The database does not promise an order among equal keys. `NULL` timestamps are not modelled.
- StepByStep.SolutionsQuery: a page field that `parseInt` reads as `NaN`, or whose number lies outside the range of a 32-bit `integer` column, is modelled as a query the database refuses, which leaves the list unchanged. The column's type is not in the source; it is taken as `integer`, the type the generated row type's `number` stands for here.
- SubmitExam: a `null` element of `examQuestions` makes the counting loop throw, which the function answers with 500. The model's question list has no null elements, so this 500 is not modelled.
- The CORS preflight: an `OPTIONS` request to either server function is answered with an empty response carrying the CORS headers, before any check. The model has no request method and covers only the other requests.
- Reads never fail in the model; writes fail only where the source looks at the error. Writes whose error the source ignores (profile counters after an exam, every public-chat write, joining one's own channel or group) always succeed, except the join, whose outcome is a parameter the handler ignores.
- Channel and group lists (`loadChannels`, `loadGroups`), the current-user lookup and the public-group lookup are not modelled. They are plain reads, and their results are constructor parameters or fields.
