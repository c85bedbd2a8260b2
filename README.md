# Geta: a verified model of the back ends, the chat and the client session

Geta is a small social platform for entrepreneurs, suppliers and collaborators.
Users register, log in, keep a profile, post publications, search, and chat in
real time. The repository holds two back ends that offer the same features:

- a Node/Express back end over PostgreSQL, with a Socket.IO chat server;
- an ASP.NET back end over Entity Framework.

It also holds a Vue front end with Pinia stores.

This project models in Dafny the parts of these that decide what a request
answers, what is stored, and what a client sees. It then proves properties of
that model.

**Node back end**

- `NodeDb`: the tables (`usuarios`, `perfis`, `publicacoes`, `conversations`, `conversation_participants`, `messages`) are fields of a `Database` class, one `seq` per table. Each `SERIAL` sequence is an id counter.
- `ChatQueries`: the chat queries.
- `ChatSocket`: the Socket.IO chat server. It keeps the presence map and room memberships, and records every emitted event in an outbox.
- `AuthRoutes`, `PublicationRoutes`, `ProfileRoutes`, `SearchRoutes`: the REST controllers.
- `VerifyToken` and `SocketAuth`: the JWT middlewares. `Jwt` holds the token payload.

**ASP.NET back end**

- `ApiDb`: the entities and the database context, with a class `AppDb`.
- `ApiDtos`: the data-annotation validation of the DTOs.
- `ApiAuth`, `ApiChat`, `ApiPublications`, `ApiProfile`, `ApiSearch`: the controllers.

**Front end**

- `Router`: the route table and its navigation guard.
- `SocketClient`: the socket service, a class `SocketService`.
- `ChatClient`: the chat store, a class `ChatStore`.
- `AuthClient`: the authentication store, a class `AuthStore`, with the browser's `localStorage` as a map.

**Shared helpers**

- `Wrappers` (Option and Result), `Text` (trim, split, substring, `parseInt`), `Seqs` (filter, count, stable sort, paging) and `Http` (responses).

**How the model is built**

- SQL queries and LINQ queries are pure functions over the table sequences. Row order follows storage order, and `ORDER BY` is a stable sort.
- Operations that write are methods on the database classes. Each one states the whole new state of every table and counter.
- The stores and the socket service are classes whose fields the methods update in place. Each method is specified by a pure transition function on a state datatype, and the properties are proved about those functions.
- Opaque primitives are function parameters:
  - bcrypt hashing and comparison;
  - `jwt.sign` and `jwt.verify`;
  - `TokenService.CreateToken`;
  - PostgreSQL `ILIKE`;
  - the `[EmailAddress]` and `[Url]` format checks;
  - the server replies the client stores receive.
- The current time is a parameter. A failing database call is a boolean or fault parameter wherever the code handles the failure.

## Model

| member | source | states |
|---|---|---|
| NodeDb.Database.constructor | geta_app/backend/test_db.js:13-15 | a fresh database: every table empty (the connection test allows `usuarios` to be empty) and every id counter at 1; the schema itself is not part of this model |
| NodeDb.ChatName | geta_app/backend/controllers/authController.js:38-40 | the corrected chat name reads `nome_completo`, which every insert fills, so it is never NULL |
| NodeDb.ChatNameAsWritten | geta_app/backend/controllers/chat/chatController.js:8 | the chat name as written: the `nome` column, which may be NULL |
| NodeDb.FindUsuario | geta_app/backend/controllers/profileController.js:49-60 | the row found by `WHERE u.id = $1` has that id and comes from the table; there is none exactly when no row has the id |
| NodeDb.FindUsuarioByEmail | geta_app/backend/controllers/authController.js:80-86 | `rows[0]` of `WHERE email = $1` has that email; there is none exactly when no row has it |
| NodeDb.FindPerfil | geta_app/backend/controllers/profileController.js:89-96 | the profile found for a user is owned by that user; there is none exactly when the user owns no profile |
| NodeDb.FindPublicacao | geta_app/backend/controllers/publicationController.js:97-104 | the publication found has the id; there is none exactly when no row has it |
| NodeDb.FindConversation | geta_app/backend/controllers/chat/chatController.js:153-164 | the conversation found has the id; there is none exactly when no row has it |
| ChatQueries.IsConversationParticipant | geta_app/backend/controllers/chat/chatController.js:54-66 | true exactly when the (conversation, user) pair is in `conversation_participants` |
| ChatQueries.MemberInfos | geta_app/backend/controllers/chat/chatController.js:8-11 | the participant objects are exactly the members of the conversation that have a user row, less the excluded user, each with that user's id, chat name (`ChatName`, corrected: see Findings) and email |
| ChatQueries.Aggregate | geta_app/backend/controllers/chat/chatController.js:8 | `json_agg` over no rows is NULL; otherwise it is the rows themselves |
| ChatQueries.Latest | geta_app/backend/controllers/chat/chatController.js:12-17 | none exactly for no messages; otherwise a message of the list that no other message postdates |
| ChatQueries.MessagesOf | geta_app/backend/controllers/chat/chatController.js:12-17 | exactly the messages of the conversation |
| ChatQueries.JoinRows | geta_app/backend/controllers/chat/chatController.js:18-20 | as many rows as the user has memberships whose conversation exists; each such conversation's summary is among them, and every row is the summary of one of them |
| ChatQueries.GetUserConversations | geta_app/backend/controllers/chat/chatController.js:4-30 | the rows are ordered by last message time, newest first, with conversations without messages last (`DESC NULLS LAST`) |
| ChatQueries.UserConversationsAreTheirs | geta_app/backend/controllers/chat/chatController.js:18-20 | a conversation is listed for a user exactly when the conversation exists and the user is one of its members |
| ChatQueries.UserConversationRowContents | geta_app/backend/controllers/chat/chatController.js:7-17 | a row never lists the caller among the participants; it has a last message exactly when the conversation has messages; that message is the latest, and its time is the latest time |
| ChatQueries.MessageLessConversationsLast | geta_app/backend/controllers/chat/chatController.js:21 | a conversation without messages is never listed before one with messages |
| ChatQueries.MessageViews | geta_app/backend/controllers/chat/chatController.js:36-40 | each view is a message of the conversation joined with its sender; every message whose sender exists appears, with the sender's chat name |
| ChatQueries.GetConversationMessages | geta_app/backend/controllers/chat/chatController.js:33-51 | fails exactly for a negative limit or offset; otherwise the window of the conversation's messages, newest first, that starts after `offset` of them: min(`limit`, what is left) messages, none when `offset` passes the end |
| ChatQueries.NextPageContinues | geta_app/backend/controllers/chat/chatController.js:41-42 | the page after a page of `a` messages continues it exactly: the two together are the page of `a + b` messages, with no message skipped or repeated |
| ChatQueries.ConversationMessagesBelong | geta_app/backend/controllers/chat/chatController.js:38-40 | every message returned is a message of the requested conversation, with its id and content |
| ChatQueries.DefaultPageIsComplete | geta_app/backend/controllers/chat/chatController.js:33-42 | with the default page (50, 0) and no more than 50 messages, every message whose sender exists is returned |
| ChatQueries.CommonConversation | geta_app/backend/controllers/chat/chatController.js:107-115 | the conversation found comes from a scanned membership of the first user and has the second user as a member; there is none exactly when no scanned membership of the first user is shared by the second |
| ChatQueries.FindExistingConversation | geta_app/backend/controllers/chat/chatController.js:103-131 | none for a list that does not have two ids; for a pair, a conversation both belong to, and none exactly when they share none |
| ChatQueries.GroupConversationFoundForPair | geta_app/backend/controllers/chat/chatController.js:108-113 | the `HAVING` clause does not check that the conversation has exactly the pair: a three-person conversation is returned for two of its members |
| ChatQueries.GetConversationDetails | geta_app/backend/controllers/chat/chatController.js:151-169 | none exactly when the conversation does not exist; otherwise the details carry its id |
| ChatQueries.DetailsListEveryMember | geta_app/backend/controllers/chat/chatController.js:154-160 | every member with a user row is among the participants of the details, the caller included |
| ChatQueries.Memberships | geta_app/backend/controllers/chat/chatController.js:84-89 | one participant row per id, in list order, all for the new conversation |
| ChatQueries.CreateConversation | geta_app/backend/controllers/chat/chatController.js:69-100 | the transaction succeeds exactly when no insert fails. A commit adds one conversation with the next id and one membership per id. A rollback leaves both tables as they were but spends the sequence value. No other table changes |
| ChatQueries.CreatedConversationMembers | geta_app/backend/controllers/chat/chatController.js:84-89 | every listed user is a participant of the conversation just created |
| ChatQueries.SaveMessage | geta_app/backend/controllers/chat/chatController.js:134-148 | a successful insert appends exactly one message with the next id, the sender, the content and the time; a failure changes nothing; no other table changes |
| ChatQueries.SavedMessageIsFresh | geta_app/backend/controllers/chat/chatController.js:136-139 | the id a new message receives is not used by any stored message |
| ChatSocket.WithCreator | geta_app/backend/socket/chatSocket.js:82-84 | the list then holds the creator; it holds exactly the ids given plus the creator; the creator is appended only when absent |
| ChatSocket.WithCreatorIdempotent | geta_app/backend/socket/chatSocket.js:82-84 | adding the creator a second time changes nothing |
| ChatSocket.NotificationsReachOthersOnline | geta_app/backend/socket/chatSocket.js:106-111 | a `new_conversation` goes to a socket exactly when that socket is the presence entry of a listed participant other than the creator |
| ChatSocket.Connected | geta_app/backend/socket/chatSocket.js:14 | after a connection the user maps to the new socket, and every other entry is kept |
| ChatSocket.Disconnected | geta_app/backend/socket/chatSocket.js:124-127 | after a disconnection the user has no entry, and every other entry is kept |
| ChatSocket.StaleDisconnectDropsNewerSocket | geta_app/backend/socket/chatSocket.js:14 | when a user connects twice and the first socket disconnects, the user has no presence entry, although the second socket is still open |
| ChatSocket.ChatServer.constructor | geta_app/backend/socket/chatSocket.js:4-6 | the server starts with an empty presence map, no room memberships and nothing emitted |
| ChatSocket.ChatServer.Connect | geta_app/backend/socket/chatSocket.js:10-14 | the presence map becomes `Connected`; the rooms and the outbox are unchanged |
| ChatSocket.ChatServer.Disconnect | geta_app/backend/socket/chatSocket.js:124-127 | the presence map becomes `Disconnected`; the rooms and the outbox are unchanged |
| ChatSocket.ChatServer.GetConversations | geta_app/backend/socket/chatSocket.js:17-25 | exactly one event, sent to the caller's socket only: 'Erro ao buscar conversas' iff the query throws, else `conversations_list` carrying the caller's conversations |
| ChatSocket.ChatServer.GetMessages | geta_app/backend/socket/chatSocket.js:28-46 | limit and offset default to 50 and 0. A non-member gets an access-denied error and joins no room. A member gets the page and then joins the conversation's room. A failing page query is an error with no room joined, and so is a failing membership check ('Erro ao buscar mensagens' in both cases) |
| ChatSocket.ChatServer.SendMessage | geta_app/backend/socket/chatSocket.js:49-76 | a non-member gets an error and nothing is stored. A member's message is stored first, and then broadcast to the room with the sender's id and chat name. A failed insert is an error, and a failing membership check is 'Erro ao enviar mensagem' with nothing stored. Every broadcast message is in the table. The message counter advances exactly when a message is stored; every other table and counter is unchanged |
| ChatSocket.ChatServer.CreateConversation | geta_app/backend/socket/chatSocket.js:79-116 | the creator joins the list. A pair reuses a conversation both share. Otherwise a new conversation with one membership per id is created, and a failed transaction is an error with nothing stored. The creator gets `conversation_created`, then the other online participants get `new_conversation`. A pair whose lookup of a shared conversation throws gets 'Erro ao criar conversa' with nothing stored. When reading the details throws, the creator gets only that error and nobody is notified, but a new conversation stays stored. The conversation counter advances whenever a new conversation is attempted, a rolled-back one included; every other table and counter is unchanged |
| ChatSocket.ChatServer.Announce | geta_app/backend/socket/chatSocket.js:102-111 | the outbox gains the creator's `conversation_created` followed by exactly the notifications of `NotificationsReachOthersOnline` |
| ChatSocket.ChatServer.LeaveConversation | geta_app/backend/socket/chatSocket.js:119-121 | the socket leaves that conversation's room and nothing else changes |
| Jwt.LoginClaims | geta_app/backend/controllers/authController.js:56 | the tokens the Node back end signs carry `id`, `email` and `tipo_perfil`, and no `userId` |
| AuthRoutes.RegisterCheck | geta_app/backend/controllers/authController.js:13-28 | in order: 400 when a field is missing, 400 for a profile type outside the three allowed, 409 for an email already stored; each iff its condition and the earlier ones pass |
| AuthRoutes.NewUsuario | geta_app/backend/controllers/authController.js:31-42 | the new row stores the bcrypt hash of the password with 10 salt rounds in place of the password, with the body's name, email and profile type; the `nome` column is left NULL |
| AuthRoutes.RegisteredChatNameAsWritten | geta_app/backend/controllers/chat/chatController.js:8 | as written, the chat reads `u.nome`, which `register` never fills: a registered user's chat name is NULL |
| AuthRoutes.RegisteredChatName | geta_app/backend/controllers/authController.js:31-42 | read from `nome_completo`, a registered user's chat name is the non-empty name they registered with |
| AuthRoutes.BaseProfile | geta_app/backend/controllers/authController.js:45-50 | the base profile names only its owner; every content column is NULL |
| AuthRoutes.Register | geta_app/backend/controllers/authController.js:9-68 | the two 400 checks come first and write nothing. A throwing email query then answers 500, whatever it would have found; a stored email answers 409. Otherwise one user and one base profile are inserted together and answered with 201 and a token for `{ id, email, tipo_perfil }`. A store failure rolls back both inserts and answers 500. The user and profile counters advance only on success; no other table or counter changes |
| AuthRoutes.RegisterKeepsEmailsUnique | geta_app/backend/controllers/authController.js:25-28 | a table whose emails are distinct keeps them distinct after a registration |
| AuthRoutes.Login | geta_app/backend/controllers/authController.js:71-104 | 400 iff the email or password is missing; 500 iff the store fails; 401 iff the email is unknown or the password does not match; else 200 with a token for the found row's claims |
| AuthRoutes.FailedLoginsAreIndistinguishable | geta_app/backend/controllers/authController.js:82-93 | an unknown email and a wrong password give the same answer |
| AuthRoutes.FindByEmailAppend | geta_app/backend/controllers/authController.js:80 | a user appended with an email no earlier row has is the one the login lookup finds |
| AuthRoutes.RegisteredUserCanLogIn | geta_app/backend/controllers/authController.js:9-104 | after a registration, a login with the same email and password succeeds with a token for the same claims |
| VerifyToken.BearerToken | geta_app/backend/middleware/verifyToken.js:6-7 | the token is the second space-separated word of a non-empty header; an absent or empty header gives none |
| VerifyToken.Check | geta_app/backend/middleware/verifyToken.js:4-28 | 401 'no token' iff no truthy token; `next()` with the decoded payload iff the token verifies; 401 'expired' iff it is expired; 403 for any other verification error |
| VerifyToken.AnySchemeWordPasses | geta_app/backend/middleware/verifyToken.js:7 | the scheme word is not checked: any word before a valid token passes with that token's payload |
| VerifyToken.SchemeAloneIsNoToken | geta_app/backend/middleware/verifyToken.js:7-11 | a header holding only the scheme word is refused as having no token |
| SocketAuth.HandshakeToken | geta_app/backend/middleware/socketAuth.js:8 | a truthy `auth.token` wins; otherwise it is the second word of the authorization header, or none without a header |
| SocketAuth.AuthenticateBy | geta_app/backend/middleware/socketAuth.js:5-32 | 'Autenticação necessária' iff no token; 'Token inválido' iff the token fails to verify or the query fails; 'Usuário não encontrado' iff the claim is absent or names no row; else the row's id, chat name and email |
| SocketAuth.AuthenticateAsWritten | geta_app/backend/middleware/socketAuth.js:15-22 | the code as written reads the user id from `decoded.userId`: a success requires that claim, and a verified token without it is refused |
| SocketAuth.Authenticate | geta_app/backend/middleware/socketAuth.js:15-27 | reading the `id` claim that the tokens carry, a verified token of an existing user is accepted with that user's row |
| SocketAuth.LoginTokenAtTheHandshake | geta_app/backend/middleware/socketAuth.js:18 | a token issued by `login` is refused by the middleware as written, and accepted by the corrected one with the user's row |
| SocketAuth.AnaIsRefusedAsWritten | geta_app/backend/middleware/socketAuth.js:18-22 | concretely: a registered user with id 1 presenting their login token is refused with 'Usuário não encontrado' |
| SocketAuth.HeaderTokenUsedOnlyWithoutAuthToken | geta_app/backend/middleware/socketAuth.js:8 | the header's token is used only without an `auth.token`, and its scheme word is not checked |
| PublicationRoutes.NewPublication | geta_app/backend/controllers/publicationController.js:14-28 | the caller is the author; `tipo` defaults to 'Necessidade', `status` to 'Aberto' and `tags` to []; the other fields are stored as sent |
| PublicationRoutes.CreatePublication | geta_app/backend/controllers/publicationController.js:4-35 | 400 without a truthy title and description, with nothing written; 500 on a store failure; else one row with the next id, answered with 201. Only the publication table and its counter change |
| PublicationRoutes.ListRows | geta_app/backend/controllers/publicationController.js:41-46 | one row per publication whose author exists (as many rows as such publications), carrying the author's name, and no other rows |
| PublicationRoutes.ListPublications | geta_app/backend/controllers/publicationController.js:38-55 | 500 iff the query throws; otherwise 200 with exactly the joined rows, each as often as the join yields it, newest first |
| PublicationRoutes.ListedIffAuthorExists | geta_app/backend/controllers/publicationController.js:44-46 | a publication is listed exactly when its author's row exists (the inner join drops the others) |
| PublicationRoutes.GetPublicationDetails | geta_app/backend/controllers/publicationController.js:58-83 | 400 iff the id is not numeric; 500 iff the query throws; otherwise 200 iff a row with that id has an author, and 404 when none has (no row, or its author is gone); a reply carries that row and its author's name |
| PublicationRoutes.FindJoined | geta_app/backend/controllers/publicationController.js:66-72 | the joined row has the id and its author's name; there is none exactly when every row with that id lacks an author |
| PublicationRoutes.OwnedTarget | geta_app/backend/controllers/publicationController.js:92-108 | in order: 400 for a non-numeric id, 404 for a missing row, 403 for another owner, each iff its condition; the owner gets the id |
| PublicationRoutes.MissingIsNotForbidden | geta_app/backend/controllers/publicationController.js:102-108 | a missing publication is reported as missing to every caller, never as forbidden |
| PublicationRoutes.Updated | geta_app/backend/controllers/publicationController.js:111-117 | every content column takes the body's value, an absent one included (no defaults on update); id, owner and creation time stay |
| PublicationRoutes.UpdateWhere | geta_app/backend/controllers/publicationController.js:112-114 | rows with the id are rewritten in place and all others kept |
| PublicationRoutes.DeleteWhere | geta_app/backend/controllers/publicationController.js:151 | no row with the id is left, and every other row remains |
| PublicationRoutes.DeleteWhereCounts | geta_app/backend/controllers/publicationController.js:151 | each row with the id disappears, and each other row keeps its multiplicity |
| PublicationRoutes.UpdatePublication | geta_app/backend/controllers/publicationController.js:86-124 | 400 for an unparsable id; then a throwing ownership query is 500 whatever it would have found; then 404 or 403. Only the owner rewrites the row and gets 200 with it; a refusal or a store failure changes nothing. No other table or counter changes |
| PublicationRoutes.DeletePublication | geta_app/backend/controllers/publicationController.js:127-158 | 400 for an unparsable id; then a throwing ownership query is 500 whatever it would have found; then 404 or 403. Only the owner removes the row and gets 204; a refusal or a store failure changes nothing. No other table or counter changes |
| ProfileRoutes.GetMyProfile | geta_app/backend/controllers/profileController.js:4-38 | 500 iff the query throws; 404 iff the caller has no user row; without a profile, the basic fields with `profile_incomplete`; else exactly the user joined with the profile |
| ProfileRoutes.GetUserProfile | geta_app/backend/controllers/profileController.js:41-80 | 400 iff the id does not parse; 500 iff it parses and the query throws; 404 iff no user has it; else the public fields, never the email, with NULL profile columns when there is no profile |
| ProfileRoutes.FindUsuarioIgnoresEmail | geta_app/backend/controllers/profileController.js:49-56 | looking a user up by id finds the same row whatever the emails are |
| ProfileRoutes.PublicProfileIgnoresEmail | geta_app/backend/controllers/profileController.js:62-73 | changing every email leaves the public profile identical |
| ProfileRoutes.Rewritten | geta_app/backend/controllers/profileController.js:106-109 | the UPDATE stores the body's values, an absent one as NULL; `detalhes` defaults to {}; id and owner stay |
| ProfileRoutes.RewriteWhere | geta_app/backend/controllers/profileController.js:106-109 | rows with the id are rewritten in place, all others kept |
| ProfileRoutes.RewriteWhereFindsRewritten | geta_app/backend/controllers/profileController.js:104-109 | after the UPDATE, the caller's profile is their old row rewritten |
| ProfileRoutes.Upsert | geta_app/backend/controllers/profileController.js:89-110 | without a profile, the table gains one row, with the new id and the caller as owner, after the old rows; with one, the row count, every id and every owner stay, and only rows with the found id change |
| ProfileRoutes.UpsertStoresBody | geta_app/backend/controllers/profileController.js:89-110 | after the upsert, the caller has a profile holding exactly the body's values; an existing row keeps its id |
| ProfileRoutes.FindPerfilAppend | geta_app/backend/controllers/profileController.js:96-102 | a profile inserted for a user without one is the one the lookup finds |
| ProfileRoutes.UpsertKeepsOneProfileEach | geta_app/backend/controllers/profileController.js:89-110 | no user gets a second profile; an update keeps the row count and an insert adds one row |
| ProfileRoutes.RewriteWhereKeepsOthers | geta_app/backend/controllers/profileController.js:106-109 | with distinct ids, the UPDATE leaves every other user's profile as it was |
| ProfileRoutes.UpsertLeavesOthers | geta_app/backend/controllers/profileController.js:89-110 | the upsert leaves every other user's profile as it was |
| ProfileRoutes.JoinedProfile | geta_app/backend/controllers/profileController.js:113-122 | a row exactly when both the user and a profile exist, and then it is the two joined |
| ProfileRoutes.UpdatedProfileIsComplete | geta_app/backend/controllers/profileController.js:83-127 | after an update, `getMyProfile` for the same user returns the complete row with the body's values |
| ProfileRoutes.UpdateMyProfile | geta_app/backend/controllers/profileController.js:83-127 | a store failure before the first write is 500 with nothing changed. Otherwise the profile table becomes the upsert, and the answer is the joined row. Only the profile table and its counter change |
| SearchRoutes.UserCandidates | geta_app/backend/controllers/searchController.js:28-29 | the LEFT JOIN gives the user with each profile they own, or the user once with NULL columns when they own none |
| SearchRoutes.UserJoin | geta_app/backend/controllers/searchController.js:28-29 | the joined rows are exactly the candidates of every user |
| SearchRoutes.UserResults | geta_app/backend/controllers/searchController.js:20-41 | as many rows as match the WHERE clause, up to 20, each projected from a matching row; all of them when no more than 20 match |
| SearchRoutes.NameMatchIsCandidate | geta_app/backend/controllers/searchController.js:30-31 | a user whose name matches is a match with every one of their profiles, or alone without one |
| SearchRoutes.PublicationJoin | geta_app/backend/controllers/searchController.js:56-57 | each publication with an existing author, joined with that author, and nothing else |
| SearchRoutes.PublicationRowOf | geta_app/backend/controllers/searchController.js:47-55 | the description is cut to its first 150 characters, NULL stays NULL; id, time and author are kept |
| SearchRoutes.NewestMatches | geta_app/backend/controllers/searchController.js:58-65 | exactly the joined publications that match title, description or a tag, one per matching joined row, newest first |
| SearchRoutes.PublicationResults | geta_app/backend/controllers/searchController.js:46-69 | as many rows as match, up to 20, newest first, each projected from a matching publication |
| SearchRoutes.ProjectionKeepsOrder | geta_app/backend/controllers/searchController.js:55-66 | projecting the first 20 matches keeps them newest first, and every row comes from a match |
| SearchRoutes.PublicationResultsAreTheNewest | geta_app/backend/controllers/searchController.js:65-66 | a matching publication with an author is returned, or all 20 rows are taken and it is no newer than any of them |
| SearchRoutes.PerformSearch | geta_app/backend/controllers/searchController.js:4-78 | 400 iff the term is absent or blank; 500 iff the store fails; else 200, with users searched iff `type` is absent or 'users' and publications iff it is absent or 'publications' |
| SearchRoutes.BlankTermIsRefused | geta_app/backend/controllers/searchController.js:8-10 | a term of spaces only is refused like an absent one |
| SearchRoutes.UnknownTypeSearchesNothing | geta_app/backend/controllers/searchController.js:19-45 | any other `type` returns 200 with both lists empty |
| SearchRoutes.Pattern | geta_app/backend/controllers/searchController.js:12 | the trimmed term between two `%` wildcards |
| Text.Trim | geta_app/backend/controllers/searchController.js:12 | the trim is empty iff the text is blank, and otherwise starts and ends with a non-space |
| Text.TrimIdempotent | geta_app/frontend/src/stores/chatStore.js:93-99 | trimming twice is trimming once, so the content sent is already trimmed |
| Text.SecondWordOfHeader | geta_app/backend/middleware/verifyToken.js:7 | `"<scheme> <token>".split(" ")[1]` is the token |
| Text.ParseInt | geta_app/backend/controllers/publicationController.js:60 | text without a digit is NaN; text starting with a digit is a number, never negative |
| Text.ParseIntShowNat | geta_app/backend/controllers/publicationController.js:60 | a route parameter printed from an id parses back to that id |
| Text.ParseIntWithoutDigits | geta_app/backend/controllers/publicationController.js:60-64 | a parameter that starts with anything other than a digit, a space or a sign is NaN, so the route refuses it |
| Text.Left | geta_app/backend/controllers/searchController.js:55 | `LEFT(s, n)` is the prefix of length min(n, \|s\|) |
| ApiDb.FindUser | Geta.API/Controllers/ProfileController.cs:27-39 | the user found has the id; there is none exactly when no user has it |
| ApiDb.FindUserByEmail | Geta.API/Controllers/AuthController.cs:74 | the first user with the email; there is none exactly when no user has it |
| ApiDb.FindProfileOf | Geta.API/Controllers/ProfileController.cs:55 | the profile found is owned by the user; there is none exactly when the user owns no profile |
| ApiDb.AvatarOf | Geta.API/Controllers/PublicationsController.cs:37 | the avatar is NULL without a profile, else the profile's avatar URL |
| ApiDb.FindPublication | Geta.API/Controllers/PublicationsController.cs:88-102 | the publication found has the id; there is none exactly when no publication has it |
| ApiDb.AppDb.constructor | Geta.API/Entities/User.cs:9-11 | an empty context with every identity counter at 1, as the identity keys of `User`, `Profile` and `Publication` start |
| ApiDtos.RegisterErrors | Geta.API/DTOs/Auth/RegisterDto.cs:7-18 | each field is reported iff its annotations fail: username required, 3 to 50; email required, well-formed, at most 100; password required, 6 to 100; lengths in UTF-16 code units |
| ApiDtos.PasswordBounds | Geta.API/DTOs/Auth/RegisterDto.cs:16-17 | a non-blank password is accepted iff it has 6 to 100 UTF-16 code units |
| ApiDtos.Utf16Length | Geta.API/DTOs/Auth/RegisterDto.cs:16-17 | the length .NET measures: at least one code unit per character and at most two |
| ApiDtos.BmpUtf16Length | Geta.API/DTOs/Auth/RegisterDto.cs:16-17 | for text without characters above U+FFFF, the .NET length is the number of characters |
| ApiDtos.AstralPasswordPasses | Geta.API/DTOs/Auth/RegisterDto.cs:16-17 | a password of three emoji has six code units, so it passes the six-character minimum |
| ApiDtos.OmittedRegisterFieldFails | Geta.API/DTOs/Auth/RegisterDto.cs:7-18 | a registration that omits any field is refused, since the empty default is not accepted |
| ApiDtos.LoginErrors | Geta.API/DTOs/Auth/LoginDto.cs:7-12 | the email is reported iff it is missing or malformed; the password iff it is missing |
| ApiDtos.ShortPasswordPassesLogin | Geta.API/DTOs/Auth/LoginDto.cs:11-12 | login has no length bound: a password too short to register with passes login validation |
| ApiDtos.UpdateProfileErrors | Geta.API/DTOs/Profile/UpdateProfileDto.cs:7-15 | bio reported iff over 500, location iff over 100, avatar iff not a URL or over 255, in UTF-16 code units; all absent is valid |
| ApiDtos.CreatePublicationErrors | Geta.API/DTOs/Publication/CreatePublicationDto.cs:7-9 | valid iff the content is present and not blank; an omitted content is reported |
| ApiAuth.RegisterCheck | Geta.API/Controllers/AuthController.cs:30-41 | in order: 400 validation, 400 username taken, 400 email taken, each iff its condition and the earlier ones pass; none iff all pass |
| ApiAuth.NewUser | Geta.API/Controllers/AuthController.cs:43-48 | the new user has the DTO's username and email and the hash of the password |
| ApiAuth.EmptyProfile | Geta.API/Controllers/AuthController.cs:50-51 | the attached profile belongs to the new user and has every content field null |
| ApiAuth.Register | Geta.API/Controllers/AuthController.cs:30-69 | a refused registration writes nothing; otherwise exactly one user and one empty profile are added, answered with a token and the user's DTO. The publication and message tables and the publication counter are unchanged |
| ApiAuth.RegisterKeepsUnique | Geta.API/Controllers/AuthController.cs:33-41 | registration keeps usernames and emails unique |
| ApiAuth.Login | Geta.API/Controllers/AuthController.cs:71-94 | 400 iff the DTO is invalid; 401 iff the email is unknown or the password fails; else 200 with a token and the found user's DTO |
| ApiAuth.FailedLoginsAreIndistinguishable | Geta.API/Controllers/AuthController.cs:76-79 | an unknown email and a wrong password give the same answer |
| ApiAuth.FindUserByEmailAppend | Geta.API/Controllers/AuthController.cs:74 | a new user with an email no earlier user has is the one the login lookup finds |
| ApiAuth.RegisteredUserCanLogIn | Geta.API/Controllers/AuthController.cs:30-94 | after registering, a login with the same email and password gets the same DTO and a token for the new user |
| ApiChat.Project | Geta.API/Controllers/ChatController.cs:32-40 | the projection fails iff a message has a null receiver; otherwise it maps every message in order |
| ApiChat.ProjectContents | Geta.API/Controllers/ChatController.cs:31-41 | a successful projection holds exactly the images of the messages, in time order when they were |
| ApiChat.GetChatHistoryWith | Geta.API/Controllers/ChatController.cs:22-44 | the history with one contact never fails, and has one entry per message exchanged with the contact |
| ApiChat.HistoryWithProjects | Geta.API/Controllers/ChatController.cs:31-41 | every message selected for one contact has a receiver, so the projection keeps all of them |
| ApiChat.ChatHistoryWithContact | Geta.API/Controllers/ChatController.cs:22-44 | the history with a contact never fails, is oldest first, and holds exactly the messages exchanged with the contact in either direction |
| ApiChat.GetChatHistory | Geta.API/Controllers/ChatController.cs:46-68 | fails iff some message the caller sent has no receiver; otherwise every message the caller sent or received, oldest first |
| ApiChat.NullReceiverFailsHistory | Geta.API/Controllers/ChatController.cs:53-60 | a single message sent to nobody makes the caller's whole history fail |
| ApiChat.Keys | Geta.API/Controllers/ChatController.cs:78-80 | the grouping keys are distinct, and are exactly the counterparts of the caller's messages |
| ApiChat.Group | Geta.API/Controllers/ChatController.cs:80 | a group is exactly the caller's messages with that counterpart |
| ApiChat.LatestChat | Geta.API/Controllers/ChatController.cs:84 | none exactly for an empty group; otherwise a message of the group that no other postdates |
| ApiChat.Unread | Geta.API/Controllers/ChatController.cs:97 | zero iff no unread message from the contact to the caller exists |
| ApiChat.JoinUsers | Geta.API/Controllers/ChatController.cs:86-99 | no more rows than keys, each row for one of the keys |
| ApiChat.JoinUsersRows | Geta.API/Controllers/ChatController.cs:86-99 | the joined rows are exactly the summaries of the keys that name a user; null keys and keys without a user are dropped |
| ApiChat.GetConversations | Geta.API/Controllers/ChatController.cs:71-104 | the summaries are ordered newest last message first |
| ApiChat.JoinedByCounterpart | Geta.API/Controllers/ChatController.cs:78-99 | before sorting, a contact has a joined row iff the caller exchanged a message with them and they have a user row, and that row is the contact's summary |
| ApiChat.SummaryOfCounterpart | Geta.API/Controllers/ChatController.cs:84-97 | a counterpart's summary carries their unread count and the content and time of their latest message with the caller |
| ApiChat.ConversationsByCounterpart | Geta.API/Controllers/ChatController.cs:78-99 | a contact is listed iff the caller exchanged a message with them and they have a user row; the row carries the latest message and the unread count |
| ApiChat.ConversationsHaveDistinctContacts | Geta.API/Controllers/ChatController.cs:80-100 | no contact is listed twice |
| ApiPublications.DtoOf | Geta.API/Controllers/PublicationsController.cs:31-40 | the DTO carries the publication's id, author id, content and times, with the author's username and avatar |
| ApiPublications.Joined | Geta.API/Controllers/PublicationsController.cs:28-30 | exactly one DTO per publication whose author exists, and as many DTOs as such publications |
| ApiPublications.GetPublications | Geta.API/Controllers/PublicationsController.cs:25-44 | always 200, newest first, with exactly the DTOs of the publications that have an author, each once per publication |
| ApiPublications.GetPublication | Geta.API/Controllers/PublicationsController.cs:84-110 | 404 iff no publication has the id (or its author is gone); else 200 with its DTO |
| ApiPublications.NewPublication | Geta.API/Controllers/PublicationsController.cs:53-57 | the new publication has the caller as author and the DTO's content |
| ApiPublications.CreatePublication | Geta.API/Controllers/PublicationsController.cs:46-80 | 400 for an invalid DTO with nothing saved; an author without a user row is a server error with nothing saved; else exactly one publication is added and answered with 201 and its DTO. The user and profile tables and their counters are unchanged |
| ApiPublications.FindPublicationFresh | Geta.API/Controllers/PublicationsController.cs:63-77 | a publication appended with a fresh id is the one found under that id |
| ApiPublications.CreatedIsRetrievable | Geta.API/Controllers/PublicationsController.cs:79 | the location the creation answers with resolves to the same DTO |
| ApiPublications.CreatedIsListed | Geta.API/Controllers/PublicationsController.cs:25-44 | a new publication appears in the listing |
| ApiProfile.GetProfile | Geta.API/Controllers/ProfileController.cs:22-47 | 404 iff no user has the id; else the user's fields, with the profile's fields or nulls without a profile |
| ApiProfile.Overwritten | Geta.API/Controllers/ProfileController.cs:63-66 | the three fields take the DTO's values, null included; `UpdatedAt` is now; id, owner and creation time stay |
| ApiProfile.SaveProfile | Geta.API/Controllers/ProfileController.cs:68-72 | the row with the entity's key is replaced, and the others stay |
| ApiProfile.UpdateProfile | Geta.API/Controllers/ProfileController.cs:49-87 | 400 for an invalid DTO; 404 when the caller has no profile, with nothing created; else the caller's profile is overwritten and 204 is answered. Every other table and counter is unchanged |
| ApiProfile.SaveProfileFinds | Geta.API/Controllers/ProfileController.cs:55-72 | after saving, the caller's profile is the overwritten one |
| ApiProfile.UpdateThenGet | Geta.API/Controllers/ProfileController.cs:22-72 | after an update, `GetProfile` shows exactly the DTO's three fields |
| ApiSearch.Dtos | Geta.API/Controllers/SearchController.cs:32-38 | one DTO per user, in order |
| ApiSearch.SearchUsers | Geta.API/Controllers/SearchController.cs:21-43 | always 200; an absent or blank query finds nobody; at most 10 users, each one whose username contains the query; as many as match up to 10, and all of them when no more than 10 match |
| ApiSearch.SearchForTest | Geta.API.Tests/SearchControllerTests.cs:33-43 | over the four registered names, "test" finds 2 users |
| ApiSearch.SearchForSpecific | Geta.API.Tests/SearchControllerTests.cs:35-43 | "specific" finds 1 user |
| ApiSearch.SearchForNonexistent | Geta.API.Tests/SearchControllerTests.cs:36-43 | "nonexistent" finds nobody |
| ApiSearch.SearchForUser | Geta.API.Tests/SearchControllerTests.cs:34-43 | "user" finds all 4 registered users |
| Router.Routes | geta_app/frontend/src/router/index.js:15-95 | the table in its order: the root redirects to `/dashboard`, then twelve named records, of which only Login and Register are open (proved by Router.OnlyLoginAndRegisterAreOpen) |
| Router.FirstMatch | geta_app/frontend/src/router/index.js:15-95 | the record found is in the table and matches the path; there is none exactly when no record matches |
| Router.Resolve | geta_app/frontend/src/router/index.js:16-19 | a path resolves to no record or to exactly one record of the table, and takes that record's name |
| Router.RequiresAuth | geta_app/frontend/src/router/index.js:105 | true iff some matched record requires authentication |
| Router.Guard | geta_app/frontend/src/router/index.js:103-114 | `/login` iff the route needs a session and there is none; else `/dashboard` iff it is Login or Register with a session; else proceed |
| Router.RootIsDashboard | geta_app/frontend/src/router/index.js:16-37 | `/` lands on the Dashboard route, which needs a session |
| Router.LoginResolves | geta_app/frontend/src/router/index.js:20-25 | `/login` resolves to the Login route |
| Router.DashboardResolves | geta_app/frontend/src/router/index.js:32-37 | `/dashboard` resolves to the Dashboard route |
| Router.LoginIsOpen | geta_app/frontend/src/router/index.js:103-114 | without a session the guard lets `/login` through |
| Router.DashboardProceedsWithSession | geta_app/frontend/src/router/index.js:103-114 | with a session the guard lets `/dashboard` through |
| Router.RedirectTargetsProceed | geta_app/frontend/src/router/index.js:103-114 | no redirect loop: wherever the guard sends the user, it lets them through there |
| Router.OnlyLoginAndRegisterAreOpen | geta_app/frontend/src/router/index.js:20-94 | every named route requires a session except Login and Register |
| Router.OwnProfileWins | geta_app/frontend/src/router/index.js:44-62 | `/profile/me` is the own profile, not a profile with id "me" |
| Router.NewPublicationWins | geta_app/frontend/src/router/index.js:69-81 | `/publications/new` is the editor, not a publication with id "new" |
| Router.ProfileOfUserIsProtected | geta_app/frontend/src/router/index.js:56-62 | any other profile id is the ProfileView route, and without a session it redirects to `/login` |
| Router.UnknownPathProceeds | geta_app/frontend/src/router/index.js:111-112 | a path no record matches is let through, with or without a session |
| SocketClient.IsConnectedIsTheFlag | geta_app/frontend/src/services/socketService.js:60-62 | while the flag agrees with the socket, `isConnected()` is the flag |
| SocketClient.AfterInit | geta_app/frontend/src/services/socketService.js:12-48 | no change with an existing socket or a falsy token; else a new socket, not yet connected, to the configured URL (or the default) with the token and nothing sent; a flag in step with the socket stays in step |
| SocketClient.InitIsIdempotent | geta_app/frontend/src/services/socketService.js:13-15 | once a socket exists, a further `init` with any token changes nothing |
| SocketClient.InitWithoutTokenLeavesNoSocket | geta_app/frontend/src/services/socketService.js:17-23 | without a token there is no socket, and an emit changes nothing |
| SocketClient.AfterConnectEvent | geta_app/frontend/src/services/socketService.js:33-36 | socket.io's `connect` marks the socket connected and, through `init`'s handler, sets the flag |
| SocketClient.AfterDisconnectEvent | geta_app/frontend/src/services/socketService.js:38-41 | socket.io's `disconnect` clears both the socket's state and the flag; the socket is kept |
| SocketClient.AfterDisconnect | geta_app/frontend/src/services/socketService.js:51-57 | afterwards there is no socket and the service is not connected; nothing changes without a socket |
| SocketClient.AfterEmit | geta_app/frontend/src/services/socketService.js:65-71 | an event is sent on the socket iff connected; otherwise it is dropped |
| SocketClient.NoEmitAfterDisconnect | geta_app/frontend/src/services/socketService.js:51-71 | after `disconnect()` nothing can be emitted |
| SocketClient.AfterOn | geta_app/frontend/src/services/socketService.js:74-80 | the listener is appended to the socket; nothing happens without a socket |
| SocketClient.RemoveFirst | geta_app/frontend/src/services/socketService.js:83-88 | `off` removes one occurrence of the listener, as a multiset difference |
| SocketClient.AfterOff | geta_app/frontend/src/services/socketService.js:83-88 | one matching listener is removed, everything else is kept; nothing happens without a socket |
| SocketClient.OffUndoesOn | geta_app/frontend/src/services/socketService.js:74-88 | `off` undoes an `on` of a callback not yet listening for that event |
| SocketClient.SocketService.constructor | geta_app/frontend/src/services/socketService.js:6-9 | no socket and not connected |
| SocketClient.SocketService.IsConnected | geta_app/frontend/src/services/socketService.js:60-62 | true iff the flag is set and a socket exists that is connected |
| SocketClient.SocketService.Init | geta_app/frontend/src/services/socketService.js:12-48 | the new state is `AfterInit` of the old one |
| SocketClient.SocketService.ConnectEvent | geta_app/frontend/src/services/socketService.js:33-36 | the new state is `AfterConnectEvent` of the old one |
| SocketClient.SocketService.DisconnectEvent | geta_app/frontend/src/services/socketService.js:38-41 | the new state is `AfterDisconnectEvent` of the old one |
| SocketClient.SocketService.Disconnect | geta_app/frontend/src/services/socketService.js:51-57 | the new state is `AfterDisconnect` of the old one |
| SocketClient.SocketService.Emit | geta_app/frontend/src/services/socketService.js:65-71 | the new state is `AfterEmit` of the old one |
| SocketClient.SocketService.On | geta_app/frontend/src/services/socketService.js:74-80 | the new state is `AfterOn` of the old one |
| SocketClient.SocketService.Off | geta_app/frontend/src/services/socketService.js:83-88 | the new state is `AfterOff` of the old one |
| ChatClient.FindIndex | geta_app/frontend/src/stores/chatStore.js:133-134 | none iff no conversation has the id; else the first position with it |
| ChatClient.AddIfAbsent | geta_app/frontend/src/stores/chatStore.js:143-146 | the list then has the conversation; it is appended only when its id is new; unique ids stay unique |
| ChatClient.AddIfAbsentIdempotent | geta_app/frontend/src/stores/chatStore.js:156-161 | a repeated conversation event changes nothing |
| ChatClient.LeaveBefore | geta_app/frontend/src/stores/chatStore.js:84-86 | a `leave_conversation` is emitted iff a conversation was active and differs from the new one |
| ChatClient.AppendMessage | geta_app/frontend/src/stores/chatStore.js:125-130 | the message is appended to its conversation's list, which is created when missing; other lists are untouched |
| ChatClient.WithLastMessage | geta_app/frontend/src/stores/chatStore.js:133-137 | only the first conversation with the id takes the message's content and time; ids and creation times stay |
| ChatClient.WithLastMessageKeepsIds | geta_app/frontend/src/stores/chatStore.js:133-137 | unique ids stay unique, and the conversation now sorts by the message's time |
| ChatClient.ActiveList | geta_app/frontend/src/stores/chatStore.js:27-34 | the `activeMessages` getter: empty without an active conversation or its list; else a permutation of its messages, oldest first |
| ChatClient.NewMessageIsListed | geta_app/frontend/src/stores/chatStore.js:121-130 | a message that arrives for the active conversation is among the active messages afterwards |
| ChatClient.Registered | geta_app/frontend/src/stores/chatStore.js:46-51 | registering handlers appends them, in order, to the socket's listeners; nothing happens without a socket |
| ChatClient.AfterClearSocketConnection | geta_app/frontend/src/stores/chatStore.js:55-64 | afterwards there is no socket and the service is not connected; from any state that had a socket or no connected flag, the service is exactly as newly created |
| ChatClient.InitRegistersHandlers | geta_app/frontend/src/stores/chatStore.js:42-52 | with a token, the new socket listens with `init`'s handlers followed by the store's six, and is not yet connected |
| ChatClient.InitWithoutTokenRegistersNothing | geta_app/frontend/src/stores/chatStore.js:42-52 | without a token no handler is registered, and a later `init` with a token leaves the store's handlers unregistered |
| ChatClient.SecondInitDuplicatesHandlers | geta_app/frontend/src/stores/chatStore.js:42-52 | a second `initSocketConnection` registers every handler again, so each store event is handled twice |
| ChatClient.RemoveFirstBefore | geta_app/frontend/src/stores/chatStore.js:56-61 | `off` of a listener in front of the others removes exactly that one |
| ChatClient.ClearUndoesRegistration | geta_app/frontend/src/stores/chatStore.js:42-61 | removing the six handlers from a socket that gained them gives back that socket's listeners |
| ChatClient.ClearAfterInitIsFresh | geta_app/frontend/src/stores/chatStore.js:42-64 | clearing after initialising leaves the service as it was created |
| ChatClient.ChatStore.constructor | geta_app/frontend/src/stores/chatStore.js:5-14 | the initial state has no conversations, no active conversation, no messages, no error, nothing loading |
| ChatClient.ChatStore.SortedConversations | geta_app/frontend/src/stores/chatStore.js:18-24 | a permutation of the list, ordered by last message time (or creation time), newest first |
| ChatClient.ChatStore.HasActiveConversation | geta_app/frontend/src/stores/chatStore.js:37 | true iff the active conversation is set and not 0 (JavaScript truthiness) |
| ChatClient.ChatStore.FetchConversations | geta_app/frontend/src/stores/chatStore.js:67-70 | the conversation spinner is on and `get_conversations` is emitted; nothing else changes |
| ChatClient.ChatStore.SetActiveConversation | geta_app/frontend/src/stores/chatStore.js:82-89 | the id becomes active, after a leave request when switching |
| ChatClient.ChatStore.FetchMessages | geta_app/frontend/src/stores/chatStore.js:73-79 | the page is requested with the default limit 50 and offset 0 when omitted, then the conversation becomes active |
| ChatClient.ChatStore.SendMessage | geta_app/frontend/src/stores/chatStore.js:92-101 | nothing is sent without an active conversation or with blank content; else the trimmed content is sent to the active conversation |
| ChatClient.ChatStore.CreateConversation | geta_app/frontend/src/stores/chatStore.js:104-106 | only the request is emitted; the list changes when the server answers |
| ChatClient.ChatStore.HandleConversationsList | geta_app/frontend/src/stores/chatStore.js:109-112 | the list is replaced and its spinner is off |
| ChatClient.ChatStore.HandleMessagesList | geta_app/frontend/src/stores/chatStore.js:115-118 | that conversation's list is replaced, not merged, and its spinner is off |
| ChatClient.ChatStore.HandleNewMessage | geta_app/frontend/src/stores/chatStore.js:121-138 | the message is appended to its conversation's list (`AppendMessage`) and the first conversation with that id takes it as last message (`WithLastMessage`); nothing else changes |
| ChatClient.ChatStore.HandleConversationCreated | geta_app/frontend/src/stores/chatStore.js:141-153 | the conversation is added if new and made active, and its first page is requested |
| ChatClient.ChatStore.HandleNewConversation | geta_app/frontend/src/stores/chatStore.js:156-162 | the conversation is added if new, and nothing else changes |
| ChatClient.ChatStore.HandleError | geta_app/frontend/src/stores/chatStore.js:165-169 | the message is kept and both spinners stop |
| ChatClient.ChatStore.InitSocketConnection | geta_app/frontend/src/stores/chatStore.js:42-52 | the service's new state is `AfterInitSocketConnection` of the old one |
| ChatClient.ChatStore.ClearSocketConnection | geta_app/frontend/src/stores/chatStore.js:55-64 | the service's new state is `AfterClearSocketConnection` of the old one |
| AuthClient.Stored | geta_app/frontend/src/stores/authStore.js:9 | `getItem(key) \|\| null`: a value iff the key is stored with non-empty text |
| AuthClient.Loaded | geta_app/frontend/src/stores/authStore.js:8-13 | the token and the user are read from the storage, with no error and not loading |
| AuthClient.LoadedIsMirrored | geta_app/frontend/src/stores/authStore.js:8-15 | a freshly loaded store agrees with its storage, and is authenticated iff a non-empty token is stored |
| AuthClient.Put | geta_app/frontend/src/stores/authStore.js:23-30 | a truthy value is stored under the key and a falsy one removed; other keys are untouched |
| AuthClient.WithToken | geta_app/frontend/src/stores/authStore.js:21-31 | the token is set and mirrored into the storage; the user is untouched; agreement with the storage is kept |
| AuthClient.WithUser | geta_app/frontend/src/stores/authStore.js:32-39 | the user is set and mirrored into the storage; the token is untouched; agreement with the storage is kept |
| AuthClient.Begun | geta_app/frontend/src/stores/authStore.js:48-49 | loading is on and the error is cleared, with the session untouched |
| AuthClient.Message | geta_app/frontend/src/stores/authStore.js:59 | the server's message when non-empty, else the fallback |
| AuthClient.LoginFinished | geta_app/frontend/src/stores/authStore.js:50-67 | success stores the returned token; failure sets the error and clears the token, the user and both storage keys; loading ends; agreement with the storage is kept |
| AuthClient.RegisterFinished | geta_app/frontend/src/stores/authStore.js:73-87 | success stores the returned token; failure sets the error and leaves the session and storage as they were; loading ends |
| AuthClient.LoggedOut | geta_app/frontend/src/stores/authStore.js:90-95 | not authenticated, with neither token nor user, in the store or in the storage |
| AuthClient.AcceptedLoginSurvivesReload | geta_app/frontend/src/stores/authStore.js:51-57 | a login answered with a token leaves the user signed in, also after a reload |
| AuthClient.RejectedLoginSignsOut | geta_app/frontend/src/stores/authStore.js:58-64 | a failed login signs the user out, also for the next page load |
| AuthClient.RejectedRegisterKeepsSession | geta_app/frontend/src/stores/authStore.js:80-84 | a failed registration does not end a session that was open |
| AuthClient.AuthStore.constructor | geta_app/frontend/src/stores/authStore.js:8-13 | the state is `Loaded` from the stored map |
| AuthClient.AuthStore.Authenticated | geta_app/frontend/src/stores/authStore.js:15 | true iff the token is present and non-empty |
| AuthClient.AuthStore.SetToken | geta_app/frontend/src/stores/authStore.js:21-31 | the new state is `WithToken` of the old one |
| AuthClient.AuthStore.SetUser | geta_app/frontend/src/stores/authStore.js:32-39 | the new state is `WithUser` of the old one |
| AuthClient.AuthStore.Begin | geta_app/frontend/src/stores/authStore.js:48-49 | the new state is `Begun` of the old one |
| AuthClient.AuthStore.Login | geta_app/frontend/src/stores/authStore.js:47-68 | the new state is `LoginFinished` after `Begun`; the result is true iff the server accepted |
| AuthClient.AuthStore.Register | geta_app/frontend/src/stores/authStore.js:70-88 | the new state is `RegisterFinished` after `Begun`; the result is true iff the server accepted |
| AuthClient.AuthStore.Logout | geta_app/frontend/src/stores/authStore.js:90-95 | the new state is `LoggedOut` of the old one |

## Left out

- Network I/O, the HTTP and Socket.IO transports, logging and `console` output are not modelled. Event delivery is an outbox of emissions.
- Asynchrony and interleaving are not modelled: each request or event handler runs to completion on its own.
- ApiDtos.Utf16Length: text is a sequence of Unicode scalar values, so a .NET string holding an unpaired surrogate (one code unit) cannot be written down.
- Database failures are modelled where the code handles them: a transaction's rollback, a 500 answer (a `storeFails` parameter on every Node handler whose `catch` answers 500, and a `checkFails` parameter where a check query inside the `try` can throw before the write: `register`, `updatePublication` and `deletePublication`), or an error event (every `catch` of the socket handlers in `chatSocket.js`, each taking its own failure input for the query that throws). Connection handling, `client.release()` and the catch-all error handler of `server.js` are left out.
- SQL row order without `ORDER BY` is taken as storage order, and ties under `ORDER BY` keep storage order. PostgreSQL and Entity Framework promise neither.
- A rolled-back transaction still spends its `SERIAL` value (`ChatQueries.CreateConversation`). The Node `register` rollback is modelled without spending the sequence values.
- bcrypt's random salt, JWT signing and verification, and the token service are function parameters. The one-hour expiry is a constant, but time-based expiry is decided by the `verify` parameter.
- `ILIKE`, `[EmailAddress]`, `[Url]` and `isEmail` are parameters. Their exact grammar and collation are not modelled.
- The database collation is not modelled. The ASP.NET back end runs on MySQL (`Program.cs` line 27), whose default collation ignores case and accents in comparisons; the model compares ordinally and case-sensitively.
- ApiSearch.SearchUsers: the `Contains` test is an ordinal, case-sensitive substring test, not the collation's.
- ApiAuth.RegisterCheck: the username and email taken tests are exact; under the collation, registering `Ana` beside `ana` would be refused too.
- ApiAuth.Login: the email lookup is exact; under the collation, `ANA@x` would find the row of `ana@x`.
- ApiDb.FindUserByEmail: the `==` on `Email` is exact, not the collation's comparison.
- White space follows the Unicode character table that `Text.IsSpaceSeparator` lists (category Zs). `Text.IsSpace` is the set that JavaScript's `trim()` removes; `Text.IsWhiteSpace` is the set .NET's `char.IsWhiteSpace` accepts, used by ApiDtos and ApiSearch. A later Unicode version that adds space separators is not followed.
- Integers are unbounded. PostgreSQL `int4` and .NET `int` overflow are not modelled, and ids are plain `int`.
- `req.user.id` is taken as the token's `id` claim, which the Node tokens carry. Tokens issued elsewhere without it are not modelled in the REST routes.
- ChatSocket.ChatServer.GetMessages: an explicit `null` limit (which PostgreSQL reads as no limit) is not modelled; only an omitted limit, which defaults to 50.
- Socket.IO removes a socket from its rooms on disconnection; the model's rooms keep the pairs, which nothing reads after a disconnection.
- The `perfis.usuario_id` and `publicacoes.usuario_id` foreign keys are not enforced: a profile or a publication may name a missing user, and the queries then behave as the joins say. PublicationRoutes.CreatePublication inserts for any caller id without the foreign-key error that a deleted user's token would draw.
- The schema of `usuarios` is not part of this model. The chat queries (`chatController.js` lines 8, 37 and 155) and the socket handshake (`socketAuth.js` line 18) read a column `nome`, which `register` never writes. The model reads the registered `nome_completo` through NodeDb.ChatName (see Findings), keeps `nome` as a nullable column of its own, and shows the as-written read in NodeDb.ChatNameAsWritten. Were `nome` absent from the table, those queries would throw: the chat queries would answer their error event and the handshake 'Token inválido'.
- The ASP.NET `UpdateProfile` concurrency branch (`DbUpdateConcurrencyException`) is not modelled, since no concurrent writer exists in the model.
- ApiPublications.CreatePublication: an author id without a user row, which breaks the foreign key, is modelled as a server error with nothing saved, not as the exception's exact response.
- ApiDtos: only the title of the ASP.NET validation problem is modelled, not the per-field messages of the problem details.
- ApiSearch.SearchUsers: `Take(10)` without `OrderBy` is taken in table order. The binding of a missing `query` as required by the nullable context is not modelled; the code as written is followed: absent and blank queries both give an empty list.
- ProfileRoutes.UpdateMyProfile: a store failure after the first write (the INSERT or UPDATE succeeded, the final SELECT failed) is not modelled; only a failure before any write is.
- SearchRoutes.PerformSearch: `searchController.js` line 8 has an unterminated string literal (`q.trim() === ")`), so the file does not parse as written. `server.js` line 9 loads `routes/search.js`, which loads this controller at its line 2, so as written the whole Node back end fails at start-up and answers no request. The model follows the evident intent, a comparison with the empty string.
- AuthClient: the user object is kept as its JSON text, so `JSON.stringify` and `JSON.parse` are the identity. `JSON.parse` throwing on stored text that is not JSON is not modelled.
- AuthClient.AuthStore.Login and Register: the intermediate `loading = true` state is visible only through `Begun`. The axios call is the reply parameter.
- SocketClient: the `socket.disconnect()` call on the dropped socket and `init`'s return value are not modelled. socket.io's own `connect` and `disconnect` events are separate methods. Callbacks passed to `on` and `off` are identified by a number.
- Router: paths are sequences of segments, and parsing URL strings is not modelled. Matching takes the first record in table order. vue-router ranks routes by specificity, but in this table the static routes come before the parameterised ones, and `OwnProfileWins` and `NewPublicationWins` show the two agree on the overlapping paths. vue-router matches paths case-insensitively by default (`/Login` reaches the login route); the model compares segments exactly.
- The search test (`Geta.API.Tests/SearchControllerTests.cs` line 34) expects 3 users for "user". All four registered names contain "user", and `ApiSearch.SearchForUser` proves the controller returns 4. The test fixture also registers `mainuser` again for every case. This concerns the test's expectation, not the controller, and is not a finding.

## Findings

| source | as written | input that shows it | evidently intended | confidence | as-written member | corrected member |
|---|---|---|---|---|---|---|
| geta_app/backend/middleware/socketAuth.js:18 | the user is looked up by `decoded.userId` | a user registered with id 1 logs in and connects with the token `login` signed, whose payload is `{ id: 1, email, tipo_perfil }`: the lookup binds NULL and the handshake fails with 'Usuário não encontrado' (if `usuarios` has no `nome` column, the query throws instead and the message is 'Token inválido'; the handshake fails either way) | look the user up by the `id` claim, which `register` and `login` put in every token | not executed | SocketAuth.AuthenticateAsWritten | SocketAuth.Authenticate |
| geta_app/backend/controllers/chat/chatController.js:8 | the chat takes every user's name from `u.nome`: the participant lists (lines 8 and 155), the message senders (line 37) and the handshake's user (`socketAuth.js` line 18) | a user registered by `register`, which inserts only `nome_completo` (`authController.js` lines 31-42), joins a conversation: their participant object carries `nome: null` (or, if `usuarios` has no `nome` column, the query throws) | read `nome_completo`, as every other query does | not executed | AuthRoutes.RegisteredChatNameAsWritten | AuthRoutes.RegisteredChatName |
