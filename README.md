# klh study-group platform — a Dafny model of its core logic

This project models the logic of the klh study-group platform:

- the socket chat server and its message store;
- the chat page's event handling, typing indicator and avatar rule;
- the study-group endpoints (find-or-create, join, list, members);
- the account endpoints (register, login, profile, skills) and the token middleware;
- the questionnaire endpoints and the prediction service's input and output contract;
- the two quiz pages: the interest quiz's tally and the career quiz's answer flow, phases, group cache and join handling.

Databases, sockets, HTTP, bcrypt and jwt are not modelled as code. They appear as follows:

- Stored collections are sequences. A collection whose ids the database assigns keeps `id == index`.
- A write that can fail takes an outcome parameter: `WriteOutcome`, `storeOk`, or `readFailure`.
- `bcrypt.hash`, `bcrypt.compare`, `jwt.sign` and `jwt.verify` are function-typed parameters.
- The prediction service's classifier is a function parameter.
- Replies the client waits for are explicit events, such as `SubmitReply`, `JoinReply` and a fetch completion.
- The client's 2000 ms typing timer becomes a timer handle. Its expiry is an explicit `TimerExpired(handle)` event.
- An Express handler's response is a `Reply(status, body)` value.

Modules, one per source file plus shared ones:

| module | models |
|---|---|
| `Common` | `Option`, `Result`, object ids, replies, JavaScript truthiness of an optional string |
| `Text` | `trim` with the ECMAScript white-space set, `split` on one character (empty pieces kept), `join`, `includes`, ASCII case mapping, decimal rendering |
| `MessageStore` | the `Message` collection; the per-group read ordered by `createdAt` |
| `ChatServer` | the `join_room`, `send_message` and `disconnect` socket handlers |
| `MessageController` | `sendMessage` and `getMessages` |
| `ChatClient` | the chat page's reducers for server events; `getAvatar` |
| `ChatComposer` | the chat page's `sendMessage` and `handleInput` with its typing timer |
| `GroupSchema` | the `domain` and `level` enums of the study-group schema |
| `Users` | the `User` collection, `findOne`, `findById`, `$addToSet` and skill updates |
| `GroupController` | `joinOrCreateGroup`, `getGroups`, `joinGroup` and `getGroupMembers` |
| `AuthMiddleware` | `verifyToken` |
| `UserController` | `register`, `login`, `getProfile` and `updateSkills` |
| `MlService` | the `/predict` input range and class map |
| `QuestionnaireController` | `submitQuestionnaire` and `getUserQuestionnaire` |
| `InterestQuiz` | the seven-question quiz: tables, `getResult`, and the page's answer flow |
| `CareerQuiz` | the five-question quiz: tables, phases, `handleNext`, the group cache, `handleJoin`'s follow-up |

## Model

| member | source | states |
|---|---|---|
| ChatServer.Joined | server/server.js:25-27 | The joined socket is in the group's room afterwards. Every other room keeps its members. |
| ChatServer.JoinIdempotent | server/server.js:25-27 | Joining the same room twice gives the same membership as joining once. |
| ChatServer.InboxAppend | server/server.js:39 | A broadcast adds its message to the end of the inbox of each recipient, and of no other socket. |
| ChatServer.SocketServer.JoinRoom | server/server.js:25-27 | The socket enters the room of `groupId`. Nothing is broadcast, stored or logged. |
| ChatServer.SocketServer.SendMessage | server/server.js:29-44 | The stored record has exactly the payload's group, sender and content. It is broadcast after the write, to the sockets in that room only, the sender included if joined. A failed write stores and broadcasts nothing and only logs the error. Rooms never change. |
| ChatServer.Left | server/server.js:46-48 | After a socket leaves, every room has lost that socket and kept all its others. |
| ChatServer.LeftSocketMissesBroadcast | server/server.js:39-48 | A socket that has left gets nothing from a later broadcast to any room. |
| ChatServer.SocketServer.Disconnect | server/server.js:46-48 | socket.io removes the socket from every room, and the handler only logs. Messages and broadcasts stay as they were. |
| MessageStore.MessageCollection.Create | server/controllers/messageController.js:10-14 | On success exactly one record is appended in the next id slot, and the record is returned. On failure nothing is stored and the error is returned. |
| MessageStore.ByGroup | server/controllers/messageController.js:27 | Only messages of the group, all taken from the log. |
| MessageStore.ByGroupCount | server/controllers/messageController.js:27 | Each message of the group appears as often as in the log. Messages of other groups do not appear. |
| MessageStore.ByGroupAppend | server/controllers/messageController.js:27 | Appending to the log extends the group's filter exactly when the new message belongs to that group. |
| MessageStore.Insert | server/controllers/messageController.js:29 | Inserting into an ascending list keeps it ascending and adds exactly that message. |
| MessageStore.SortByCreatedAt | server/controllers/messageController.js:29 | The result is ascending in `createdAt` and is a permutation of its input. |
| MessageStore.History | server/controllers/messageController.js:27-29 | The history is oldest first and a permutation of the group's messages. |
| MessageStore.HistoryExact | server/controllers/messageController.js:27-29 | A message is in the history iff it is in the log and of that group, with its stored multiplicity. |
| MessageStore.HistoryAfterAppend | server/controllers/messageController.js:27-29 | A new message leaves every other group's history unchanged and adds exactly itself to its own group's. |
| MessageController.SendMessage | server/controllers/messageController.js:5-21 | The sender is always the authenticated user, and group and content come from the body. Success appends one record and replies 201 with it. A failure stores nothing and replies 500 with the error message. |
| MessageController.GetMessages | server/controllers/messageController.js:25-36 | A 200 reply is ascending by `createdAt`. As a multiset it equals the group's messages in the log, so none of another group appears. A read failure gives 500 with the error message. |
| ChatClient.SetOnline | client/src/components/Chat.jsx:326-327 | Only members with that id change, and only in `isOnline`. Length, order and all other members are kept. |
| ChatClient.RemoveName | client/src/components/Chat.jsx:334 | The name disappears and every other name stays. A list without the name comes back unchanged. In a duplicate-free list, exactly the entry equal to the name is cut out and the others keep their order. A duplicate-free list stays duplicate-free. |
| ChatClient.Typing | client/src/components/Chat.jsx:331-335 | Other names keep their membership. The named user is listed iff typing. Starting adds the name at the end only if absent. Stopping is exactly the order-keeping removal `RemoveName`. No duplicates are introduced. |
| ChatClient.Apply | client/src/components/Chat.jsx:321-336 | Each event changes one list only. `room:history` replaces the messages and `room:members` the members. `chat:message` and `system:message` append one message, the latter forced to type "system". Online and offline events change `isOnline` only on matching members. The client's own typing events are ignored. |
| ChatClient.TypingStaysDuplicateFree | client/src/components/Chat.jsx:329-335 | After any sequence of events, a duplicate-free typing list is still duplicate-free. |
| ChatClient.MessagesOnlyGrow | client/src/components/Chat.jsx:322-323 | Without `room:history`, messages already on the page keep their places and new ones only come after them. |
| ChatClient.FirstLettersOfSplit | client/src/components/Chat.jsx:44 | The first letters of the pieces of `split(" ")` are exactly the characters that start a word. |
| ChatClient.InitialsAreWordStarts | client/src/components/Chat.jsx:44 | The initials have at most 2 characters: the upper-cased first characters of the first two words. |
| ChatClient.AvatarColor | client/src/components/Chat.jsx:45-46 | An empty name has no colour. Any other name gets one of the six palette colours. |
| ChatComposer.SendGuard | client/src/components/Chat.jsx:346-347 | Nothing is sent iff the input is blank. Otherwise the trimmed input is sent, non-empty and without white space at either end. |
| ChatComposer.Composer.constructor | client/src/components/Chat.jsx:287-296 | The composer starts with no socket, not connected, empty input, not typing, no timer and nothing emitted. |
| ChatComposer.Composer.Mount | client/src/components/Chat.jsx:308-310 | The socket exists from mount on, before any connection, and nothing is emitted yet. |
| ChatComposer.Composer.Connect | client/src/components/Chat.jsx:312-317 | Each connection marks the page connected and emits exactly one join for its room and user. |
| ChatComposer.Composer.Disconnected | client/src/components/Chat.jsx:319 | Only the connected flag drops. The socket stays, so later sends and typing still emit. |
| ChatComposer.Composer.HandleInput | client/src/components/Chat.jsx:362-378 | The input is recorded. With a socket, "typing" is emitted only when the flag goes from false to true, and every keystroke replaces the pending timer with a fresh one. |
| ChatComposer.Composer.TimerExpired | client/src/components/Chat.jsx:372-377 | A replaced timer does nothing. The pending one clears the flag and emits "typing stopped". |
| ChatComposer.Composer.SendMessage | client/src/components/Chat.jsx:345-359 | Blank input, or no socket, emits and changes nothing. Otherwise it emits the trimmed chat message, then "typing stopped", and clears the input and the flag. |
| GroupSchema.ParseDomain | server/models/chatBot.js:5-9 | Accepted iff the text is "AI", "ML" or "Cyber", and the result names that text. |
| GroupSchema.ParseLevel | server/models/chatBot.js:10-14 | Accepted iff the text is "Beginner", "Intermediate" or "Advanced", and the result names that text. |
| GroupSchema.DomainRoundTrip | server/models/chatBot.js:5-9 | A domain's name parses back to that domain. |
| GroupSchema.LevelRoundTrip | server/models/chatBot.js:10-14 | A level's name parses back to that level. |
| Users.FindById | server/controllers/userController.js:88 | A found user is in the table with that id. None means no user has it. |
| Users.FindByEmail | server/controllers/userController.js:15 | A found user is in the table with that e-mail. None means no user has it. |
| Users.AddToSet | server/controllers/groupController.js:36-38 | The new skill is present afterwards and nothing else is added. It is appended only when absent, and skills already there are kept in order. |
| Users.UpdateSkillsOf | server/controllers/userController.js:107-111 | Only the users with that id change, and only in `skills`. |
| Users.UserTable.Create | server/controllers/userController.js:22-26 | Exactly one user is appended, with the next id and an empty skill list. |
| Users.UserTable.AddSkill | server/controllers/groupController.js:33-40 | The user's skills become the set-like addition of the skill. A missing user leaves the table unchanged. |
| Users.UserTable.SetSkills | server/controllers/userController.js:107-111 | Only that user's skills are replaced. |
| GroupController.FindGroup | server/controllers/groupController.js:12 | The result is the first group with that domain and level, or None when no group has them. |
| GroupController.FindGroupAfterUpdate | server/controllers/groupController.js:24-30 | Changing the members of the group found keeps the same group found. |
| GroupController.FindGroupAfterCreate | server/controllers/groupController.js:12-21 | A group created because none matched is the group found next time. |
| GroupController.BuildFilter | server/controllers/groupController.js:57-59 | A field is in the filter iff its query parameter is present and non-empty, and then it has that value. |
| GroupController.FindAll | server/controllers/groupController.js:61 | A group is in the result iff it matches the filter, and no group appears more often than in the collection. |
| GroupController.FindAllEmptyFilter | server/controllers/groupController.js:57-61 | An empty filter returns every group, in order. |
| GroupController.GetGroups | server/controllers/groupController.js:53-68 | The reply is 200 with exactly the groups matching the supplied parameters. With neither parameter it lists every group. |
| GroupController.ExistingMembersIff | server/controllers/groupController.js:102-103 | The ids kept are exactly the members whose user exists. |
| GroupController.ExistingMembersAppend | server/controllers/groupController.js:102-103 | Adding one member id adds it to the kept ids, at the end, exactly when its user exists. |
| GroupController.Populate | server/controllers/groupController.js:102-103 | The i-th entry is the id, name and e-mail of the i-th member whose user exists, so order is kept and only missing users are dropped. When every member exists, the entries follow the member list one for one. |
| GroupController.PopulateAppend | server/controllers/groupController.js:102-103 | Populating a list with one more id adds that user's entry, at the end, when the user exists. |
| GroupController.GetGroupMembers | server/controllers/groupController.js:100-113 | An unknown group gives 404. Otherwise 200 with, in member order, the entry of every member whose user exists. |
| GroupController.JoinedMemberIsListedLast | server/controllers/groupController.js:88-109 | After a join appends an existing user, the member list is the previous one followed by that user's entry. |
| GroupController.GroupCollection.JoinOrCreate | server/controllers/groupController.js:6-50 | A group with empty members is created only when none exists for the pair. A member gets 400 "Already joined this group" and nothing changes. Otherwise the user is appended to the members and the skill is added set-like. Enum violations reply 500. Uniqueness per pair and duplicate-free members are preserved. After a 200 the group found for the pair contains the user. |
| GroupController.GroupCollection.JoinGroup | server/controllers/groupController.js:72-96 | An unknown id gives 404 and a member gets 400, both changing nothing. Otherwise the user is appended to that group's members, and skills are not touched. |
| UserController.Register | server/controllers/userController.js:7-40 | A missing or empty field gives 400 before the table is read, and a taken e-mail gives 400. Both leave the table unchanged. Otherwise exactly one user is added, storing the hash and not the password, and the 201 reply has no password. E-mails stay unique. |
| UserController.Login | server/controllers/userController.js:44-82 | Missing fields give 400. An unknown e-mail and a wrong password give the identical 400 "Invalid credentials". On success the token is signed over `{ id }` alone for "1h", skills default to the empty list, and there is no password. |
| UserController.FindByEmailAfterAppend | server/controllers/userController.js:15 | A user whose e-mail was free is the one found after it is added to the table. |
| UserController.LoginAfterRegister | server/controllers/userController.js:20-66 | After registering, logging in with the same password returns 200 with the new user's token, whenever compare accepts a password against its own hash. |
| UserController.GetProfile | server/controllers/userController.js:86-99 | The reply is 404 iff no user has the id. Otherwise it is the user without the password. |
| UserController.UpdateSkills | server/controllers/userController.js:103-121 | Only the user's `skills` are replaced. The reply has the updated user without the password, or null for an unknown id. E-mails stay unique. |
| AuthMiddleware.ExtractToken | server/middleware/authMiddleware.js:10 | There is no token iff the header has no space. A token contains no space. |
| AuthMiddleware.TokenIsSecondWord | server/middleware/authMiddleware.js:10 | The token is the second space-separated word, whatever follows it. |
| AuthMiddleware.Exchange.VerifyToken | server/middleware/authMiddleware.js:3-19 | A missing or empty header gives 401 "Access denied". A header with no space, an empty token, or a token that does not verify gives 400 "Invalid token". In every error case `next` is not called. On success `req.user` is the decoded payload and `next` is called exactly once. |
| MlService.InterestOf | ml-service/main.py:24-28 | Classes 0, 1 and 2 map to AI, ML and Cyber. Every other class has no name. |
| MlService.Predict | ml-service/main.py:31-54 | The request succeeds iff all five scores are 1 to 3 and the class has a name. The field is that class's name. |
| QuestionnaireController.PayloadOf | server/controllers/questionnaireController.js:22-28 | `Q`i is the score of answer i. |
| QuestionnaireController.Submit | server/controllers/questionnaireController.js:6-45 | Missing answers, or any count but five, give 400 with no store write and no service call. The store write comes before the service call. Any failure gives 500 "Prediction failed". Success maps the class number and field, and appends "%" to the confidence. |
| QuestionnaireController.OutOfRangeScoreFails | server/controllers/questionnaireController.js:16-44 | A score outside 1 to 3 ends in 500 "Prediction failed", after the answers were stored. |
| QuestionnaireController.FindByUser | server/controllers/questionnaireController.js:51-53 | A found questionnaire belongs to the user. None means the user has none. |
| QuestionnaireController.GetUserQuestionnaire | server/controllers/questionnaireController.js:49-63 | A read failure gives 500. Otherwise the reply is 404 iff the user has no questionnaire. When the user has one, the reply is 200 with the first the lookup finds. A 200 reply returns one of the user's questionnaires. |
| QuestionnaireController.ReadBackAfterSubmit | server/controllers/questionnaireController.js:16-19 | After a stored submission, reading back succeeds. A user's first submission is the one returned. |
| InterestQuiz.DomainQuestionTagsAreKeys | client/src/components/Questions.jsx:6-74 | Every option tag of questions 1 to 6 is a key of the tally. |
| InterestQuiz.LevelQuestionTagsAreLevels | client/src/components/Questions.jsx:75-84 | The tags of question 7 are exactly the three group levels. |
| InterestQuiz.MlTaggedIff | client/src/components/Questions.jsx:87-92 | The ML filter holds iff the tag contains "ML" or "AI". |
| InterestQuiz.MlCount | client/src/components/Questions.jsx:90-92 | The ML count is at most the number of answers, and zero iff no answer is ML-tagged. |
| InterestQuiz.CountTagAbsent | client/src/components/Questions.jsx:104-106 | A tag no answer carries counts zero. |
| InterestQuiz.FirstMax | client/src/components/Questions.jsx:108-109 | The result has the largest count, and every earlier position has a strictly smaller one. This is the entry a stable descending sort puts first. |
| InterestQuiz.Outcome | client/src/components/Questions.jsx:89-129 | `isML` holds iff at least three answers are ML-tagged. The top domain is the label of the first key with the largest count. The level is the seventh answer's tag, or "Beginner". |
| InterestQuiz.NoDomainTagGivesFirstLabel | client/src/components/Questions.jsx:108-109 | With no domain tag among the answers, the top domain is the first key's label. |
| InterestQuiz.FullQuizLevelIsGroupLevel | client/src/components/Questions.jsx:127 | After a full quiz answered from the table, the level is a study-group level. |
| InterestQuiz.TallyAnswers | client/src/components/Questions.jsx:95-106 | After the `forEach`, every key of the map holds the number of answers whose tag is exactly that key. |
| InterestQuiz.GetResult | client/src/components/Questions.jsx:89-129 | The loop that tallies into the key map computes exactly `Outcome`. |
| InterestQuiz.Quiz.constructor | client/src/components/Questions.jsx:134-138 | The quiz starts at question 1 with no answers, no selection and no result. |
| InterestQuiz.Quiz.Select | client/src/components/Questions.jsx:144 | Only the selection changes. |
| InterestQuiz.Quiz.HandleNext | client/src/components/Questions.jsx:146-162 | With no selection it does nothing. Otherwise the answers grow by exactly the selection. Before the last question it advances and clears the selection. After the seventh answer the result is `Outcome` of all answers. |
| InterestQuiz.Quiz.HandleRestart | client/src/components/Questions.jsx:164-170 | Every piece of quiz state returns to its initial value. |
| CareerQuiz.ScoresInServiceRange | client/src/components/CareerQuiz.jsx:10-61 | Every option score is in the range 1 to 3 that the prediction service accepts. |
| CareerQuiz.GetPhaseStatus | client/src/components/CareerQuiz.jsx:256-261 | When done, the status is done. Otherwise it is active iff `current` is in the range, done iff past it, and inactive iff before it. |
| CareerQuiz.OneActivePhase | client/src/components/CareerQuiz.jsx:87-91 | While running, exactly one phase is active, all earlier ones are done and all later ones inactive. When done, every phase is done. |
| CareerQuiz.FullListIsAccepted | client/src/components/CareerQuiz.jsx:203-223 | Five in-order answers with table scores pass the server's validation and, when the service knows the class, get a 200. |
| CareerQuiz.DomainLabel | client/src/components/CareerQuiz.jsx:69-73 | Exactly the three domain tags have a label. |
| CareerQuiz.FirstText | client/src/components/CareerQuiz.jsx:240-244 | The result is the first present, non-empty text, else the fallback. |
| CareerQuiz.JoinFollowUp | client/src/components/CareerQuiz.jsx:150-170 | Success navigates to the room. An error message containing "already" in any case also navigates. Any other error alerts the message, or the fallback text when there is none. |
| CareerQuiz.StartsWithAlready | client/src/components/CareerQuiz.jsx:162 | A message starting with "Already" passes the case-insensitive "already" test. |
| CareerQuiz.AlreadyJoinedNavigates | client/src/components/CareerQuiz.jsx:160-163 | The server's "Already joined this group" rejection sends the user to the room. |
| CareerQuiz.Quiz.constructor | client/src/components/CareerQuiz.jsx:101-114 | The quiz starts at question 1 with no answers, no result, no cached groups, the "Beginner" tab and no error. |
| CareerQuiz.Quiz.Select | client/src/components/CareerQuiz.jsx:517 | Only the selection changes, to an option of the current question. |
| CareerQuiz.Quiz.HandleNext | client/src/components/CareerQuiz.jsx:200-248 | With no selection it does nothing. Otherwise it appends `{ questionId: "Q"+(current+1), score }`, and before the last question it advances and clears the selection. The last answer submits exactly five answers Q1..Q5 in order. Success sets the result and done, then fetches the domain's groups for all three levels. Failure shows the message, else the error, else the fallback text. |
| CareerQuiz.Quiz.FetchCompleted | client/src/components/CareerQuiz.jsx:120-132 | The level's list is cached, and an empty one is cached when the request failed. Nothing else changes. |
| CareerQuiz.Quiz.HandleLevelTab | client/src/components/CareerQuiz.jsx:142-147 | The tab always becomes active. A fetch is made iff no list, not even an empty one, is cached for the level and a result with a tag exists. |
| CareerQuiz.Quiz.HandleRestart | client/src/components/CareerQuiz.jsx:250-254 | All quiz state returns to its initial value. |

## Left out

- The socket.io transport, the `connection` bookkeeping and the `console` logging, except the error and disconnect logs `ChatServer` records. Leaving every room on disconnect is socket.io's own behaviour; the model performs it in `Disconnect` beside the handler's log.
- The `populate("sender", "name")` of `getMessages`. Records are returned with the sender id.
- MessageStore.SortByCreatedAt: the database's order among messages with equal `createdAt` is unspecified. The model uses a stable sort, so its contract states only order and permutation.
- Generic 500 catch branches that arise only from database or library failures. The model has no failure parameter for them:
  - `register` when hashing or creation throws;
  - `login`, `getProfile` and `updateSkills` on a database error;
  - `joinOrCreateGroup`, `getGroups`, `joinGroup` and `getGroupMembers` on a database error or a malformed id (cast error).
- Failures are modelled for the message write and read, the questionnaire store and read, the prediction request, and enum validation on group creation.
- GroupController.GroupCollection.JoinOrCreate: mongoose's exact validation message is not modelled. The 500 carries a fixed text.
- Case mapping covers ASCII letters only.
- ChatClient.Initials and ChatClient.AvatarColor index characters, not UTF-16 code units. This covers `w[0]`, `slice(0, 2)` and `charCodeAt(0)`. For a character outside the Basic Multilingual Plane, the source takes half a surrogate pair and the model takes the whole character.
- Users.UserTable.Create: a new user's skills start as the empty list. This is what a mongoose array field holds by default; the mongoose `User` schema the controller uses is not part of this model.
- AuthMiddleware.Exchange.VerifyToken: treating an empty token as rejected is `jwt.verify`'s documented behaviour, built into the model. Every other token's outcome is the `verify` parameter.
- Floating point is not modelled: the quiz progress percentages, `parseFloat(confidence)`, and the service's probability rounding. The confidence is carried as text, and the server appends "%" to it.
- Display only, and not modelled: `formatTime`, date dividers, all rendering and styles, and the auto-scroll effect.
- Not modelled: the `room:leave` emit on unmount.
- Loading flags: the `joinLoading`, `groupsLoading` and `quizLoading` spinners, and the interest quiz's 900 ms wait.
- Option labels, question texts and the domain descriptions. Only tags and scores affect the logic.
- `handleCreateAndJoin` in the career quiz is not part of this model. Only `handleJoin`'s follow-up is modelled.
- Keys inherited through the object prototype are not modelled in `domainMap` and the label lookups. The tags of the tables never collide with them.
- Request bodies whose elements lack fields are not modelled, such as an answer without `score` or a skills field that is not a list.
- The XGBoost classifier is a function parameter, and `predict_proba` is not modelled.
- The chat page emits `room:join` and `chat:message` while the server listens for `join_room` and `send_message`. The two sides are therefore kept as separate models and are not connected.
- Interleaving across `await`s is not modelled. Each handler runs to completion, so `UniqueKeys` in `joinOrCreateGroup` holds only for sequential requests.
- The express routing and server bootstrap.
- The SQL strings of `server/models/userModel.js`. The user table is modelled as the mongoose-style collection the controller uses.
