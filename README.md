# Zeddit post/vote/user store in Dafny

A Dafny model of the data logic behind Zeddit, a small link-and-discussion
board. The repository holds two independent copies of that logic, and the
model keeps them apart:

- **The Express API server** (`server/index.js`). Process-memory `users` and
  `posts` arrays and the `userId` / `postId` counters are the fields of the
  class `Server.Store`. Its methods are the register, create-post,
  delete-post and vote handlers, and each states the whole new state and
  keeps the store invariant `Valid()`. The invariant says:
  - user ids and post ids strictly increase along their lists and stay
    below their counters;
  - user names are unique;
  - each post holds at most one vote per user;
  - a deleted post's id is never handed out again.

  The read-only handlers are functions of the stored sequences:
  - `Server.Login` for `/api/auth/login`;
  - `Server.ListPosts` for `GET /api/posts`;
  - `ServerAuth.Authenticate` for the `authenticateToken` middleware, with
    the JavaScript `split(' ')` that extracts the bearer token.
- **The browser client's own copy** kept in browser storage
  (`src/pages/Home.tsx`, `Register.tsx`, `Login.tsx`, `CreatePost.tsx`).
  The stored lists are values passed in and returned.

The vote records and the array operations both copies run on them are in
the module `Votes`, generic over the user-id type (numbers on the server,
strings in the client). These operations are `reduce` for the score,
`findIndex` / `find` for a user's vote, and overwrite-or-append for voting.
The two copies are never reconciled in the source, and the model does not
relate them. They also differ:
- the client votes on and deletes every post with a matching id;
- the server acts on the first match only.

`GET /api/posts` is written to report the requester's own vote: with a
verifiable token it looks up each post's vote by that user
(server/index.js:78-86). The client highlights exactly that value on the
up and down arrows (src/pages/Home.tsx:78, 87). As written, the lookup
never succeeds (see Findings). The model follows the code in
`Server.ListPosts` and gives the intended behaviour separately as
`Server.ListPostsIntended`.

## Model

| member | source | states |
|---|---|---|
| `Votes.DirectionValue` | server/index.js:134 | the vote value is +1 exactly when `voteType` is "up" and -1 for any other value |
| `Votes.Sum` | server/index.js:74 | the left fold of the vote values is 0 for no votes, and with values of at most 1 in magnitude it lies between minus and plus the number of votes |
| `Votes.UserVote` | src/pages/Home.tsx:65-66 | 0 when no vote is by the user; otherwise the value of the user's first vote |
| `Votes.Upsert` | server/index.js:135-141 | the list keeps its length or grows by one, and grows exactly when the user had no vote; the vote `{u, value}` is in the result; every record keeps its voter, and every record by another user is unchanged |
| `Votes.VoteIndex` | server/index.js:135 | -1 iff no vote is by the user; otherwise the position of the first vote by the user |
| `Votes.UpsertRecordsVote` | server/index.js:135-141 | after the update the user's reported vote is the new value; the user's vote is at its old position if there was one, else appended at the end |
| `Votes.UpsertKeepsOtherVoters` | server/index.js:137-141 | every other user's reported vote is unchanged, and every record by another user keeps its place and content |
| `Votes.UpsertKeepsOnePerUser` | server/index.js:135-141 | at most one vote per user is preserved; the list grows by one exactly when the user had no vote |
| `Votes.UpsertIdempotent` | server/index.js:135-141 | repeating the same vote leaves the vote list as after the first one |
| `Votes.SumUpsert` | src/pages/Home.tsx:33-41 | after a vote the summed score changes by the new value minus the user's previous vote (0 if none) |
| `ServerAuth.Split` | server/index.js:24 | `split` always yields at least one piece |
| `ServerAuth.SplitCount` | server/index.js:24 | `split` yields one more piece than the string has separators |
| `ServerAuth.SplitJoin` | server/index.js:24 | `split` is lossless: joining the pieces with the separator gives the header back, and no piece contains the separator |
| `ServerAuth.BearerToken` | server/index.js:24 | a second word exists iff the header contains a space; it is the text after the first space, up to the next space or the end |
| `ServerAuth.BearerTokenOf` | server/index.js:24 | the second space-separated word of `"Bearer " + t` is `t` when `t` has no space |
| `ServerAuth.Authenticate` | server/index.js:22-37 | 401 iff the header is missing or has no non-empty second word; 403 iff that token fails verification; otherwise the handler runs with the verified payload |
| `ServerAuth.SessionRoundTrip` | server/index.js:24-33 | a token that verifies to the payload it was signed over, sent as `Bearer <token>`, authenticates as exactly that payload |
| `Server.UserIndex` | server/index.js:43 | -1 iff no user has the name; otherwise the first user with it |
| `Server.PostIndex` | server/index.js:112 | -1 iff no post has the parsed id (an unparsable id matches none); otherwise the first post with it |
| `Server.Login` | server/index.js:58-67 | invalid credentials (401) iff no user has the name or the first such user's hash rejects the password; on success the token is signed over exactly `{id, username}` of that user |
| `Server.WrongPasswordRejected` | server/index.js:60-63 | with unique names, an existing name with a password its hash rejects does not log in |
| `Server.LoginAfterRegister` | server/index.js:43-66 | a user appended by registration logs in with a password its hash accepts, and the token carries its new id and name |
| `Server.Format` | server/index.js:72-76 | every stored field is copied; `votes` becomes the number the vote values sum to; `userVote` starts at 0 |
| `Server.FindVote` | server/index.js:84 | `.find` throws exactly when `votes` is a number; on an array of records it finds the user's first vote, or nothing iff the user has none |
| `Server.AttachUserVotes` | server/index.js:83-86 | the `forEach` changes only `userVote`; it throws iff some entry's `votes` is a number, and if the first one is, nothing is changed; without an exception each entry gets the user's vote |
| `Server.ListPosts` | server/index.js:71-92 | one entry per stored post, in stored order, each with the post's fields and `votes` equal to the sum of its vote values; the stored posts are an input and are not changed |
| `Server.ListReportsNoUserVote` | server/index.js:74-89 | every listed entry reports `userVote` 0, whatever the header |
| `Server.ListPostsIntended` | server/index.js:78-86 | the listing with `userVote` set to the verified requester's first vote on each post (0 without a non-empty token that verifies) and every other field as in `ListPosts` |
| `Server.UpVoteScenario` | server/index.js:71-92 | after "alice" registers, logs in, creates post 1 and votes it up, the listing shows score 1 and `userVote` 0, where the intended listing shows 1 |
| `Server.Store.constructor` | server/index.js:11-15 | the store starts empty with both counters at 1 |
| `Server.Store.FindPost` | server/index.js:112 | the scan returns the first index of a post with the id, or -1 |
| `Server.Store.Register` | server/index.js:40-55 | 400 iff the name is taken, leaving users and the counter unchanged; otherwise one user with the old counter as id is appended and the counter increments; names stay unique and ids strictly increase |
| `Server.Store.CreatePost` | server/index.js:95-108 | when authenticated, appends one post at the end with id = old counter (never issued before, even to a deleted post), empty votes and author id and name from the token, and increments the counter; a middleware rejection changes nothing |
| `Server.Store.DeletePost` | server/index.js:111-123 | rejection by the middleware, 404 for an unknown id, then 403 for a non-author, each leaving posts unchanged; otherwise exactly the first post with the id is removed and the rest keep their order |
| `Server.Store.VotePost` | server/index.js:126-143 | 404 for an unknown id with no change; otherwise only the first post with the id changes, its votes updated by overwrite-or-append with +1/-1; at most one vote per user is kept |
| `ClientHome.GetVoteCount` | src/pages/Home.tsx:59-61 | a post without votes counts 0; with votes of at most 1 in magnitude the count lies between minus and plus the number of votes |
| `ClientHome.ShowsDeleteButton` | src/pages/Home.tsx:96 | the button is shown only to a logged-in user, and to a logged-in user iff the user's id is the post's `userId` |
| `ClientHome.DeleteButtonOnlyForAuthor` | src/pages/Home.tsx:96 | at most one user id sees the button on a post, the author's id does, and nobody does when no one is logged in |
| `ClientHome.GetUserVote` | src/pages/Home.tsx:63-67 | 0 with nobody logged in or no vote by the user; otherwise the value of the user's first vote |
| `ClientHome.HandleVote` | src/pages/Home.tsx:25-50 | without authentication the posts are unchanged; otherwise every post with the id (not only the first) gets the overwrite-or-append vote update, and every other post and every other field is unchanged |
| `ClientHome.HandleVoteKeepsOnePerUser` | src/pages/Home.tsx:31-46 | if each post holds at most one vote per user, it still does after a vote |
| `ClientHome.HandleVoteIdempotent` | src/pages/Home.tsx:31-46 | voting the same direction twice leaves the posts as after the first vote |
| `ClientHome.HandleVoteScore` | src/pages/Home.tsx:37-41 | a voted post's count changes by the new value minus the user's previous vote (0 if none), and the user's badge shows the new value |
| `ClientHome.HandleVoteKeepsOtherUsers` | src/pages/Home.tsx:35-43 | another user's badge on every post is unchanged by the vote |
| `ClientHome.HandleDelete` | src/pages/Home.tsx:52-55 | the result holds no post with the id and every other post, without any author check |
| `ClientHome.HandleDeleteConcat` | src/pages/Home.tsx:53 | the filter keeps order: deleting from a concatenation is the concatenation of the deletions |
| `ClientHome.HandleDeleteAbsent` | src/pages/Home.tsx:53 | deleting an id no post has leaves the list unchanged |
| `ClientHome.HandleDeleteIdempotent` | src/pages/Home.tsx:53 | deleting the same id twice is the same as once |
| `ClientRegister.HandleSubmit` | src/pages/Register.tsx:11-30 | a password differing from its confirmation is refused before the name check; an existing name is refused; both leave the list unchanged; otherwise exactly `{username, password}` is appended; unique names are preserved |
| `ClientLogin.FindUser` | src/pages/Login.tsx:16 | finds a stored user with both the name and the password, or none iff there is none |
| `ClientLogin.HandleSubmit` | src/pages/Login.tsx:12-25 | `login` is called iff some stored user has both the name and the password, and it receives the typed name; the stored list is only read |
| `ClientLogin.WrongPasswordRejected` | src/pages/Login.tsx:16-24 | with unique names, an existing name with another password does not log in |
| `ClientLogin.LoginAfterRegister` | src/pages/Login.tsx:15-19 | a user just appended by registration logs in with the same credentials |
| `ClientCreatePost.NewPost` | src/pages/CreatePost.tsx:26-34 | the new post has the clock value as id, no votes (count 0), the entered title and content, the timestamp, and the current user's id and name |
| `ClientCreatePost.HandleSubmit` | src/pages/CreatePost.tsx:18-37 | with no authenticated user nothing is rendered or saved; otherwise exactly one post is appended after the unchanged earlier posts, with the clock value as id, empty votes, the entered title and content, and the current user's id and name |
| `ClientCreatePost.SameMillisecondCollision` | src/pages/CreatePost.tsx:27 | two posts created in the same millisecond get equal ids, and one delete of that id removes both |
| `ClientCreatePost.AuthorSeesDeleteButton` | src/pages/Home.tsx:96 | the delete button shows for the author of a post, and not for another user or for nobody |

## Findings

| source | as written | input that shows it | evidently intended | confidence | as-written member | corrected member |
|---|---|---|---|---|---|---|
| server/index.js:74-89 | `votes` is overwritten with its sum (a number). `.find` on that number throws a TypeError, which the empty catch swallows, so every `userVote` stays 0 | "alice" (id 1) votes post 1 up, then lists with her valid token: `userVote` is 0 | `userVote` is the requester's own vote, 1 here | high; not executed | `Server.ListReportsNoUserVote` (walk-through: `Server.UpVoteScenario`) | `Server.ListPostsIntended` |

## Left out

- Password hashing and comparison (bcrypt) and token signing and verification (JSON Web Tokens) are foreign libraries. The salted hash is a parameter of `Store.Register`. `compare`, `sign` and `verify` are function parameters. Token payloads carry only `{id, username}`; the issued-at field the library adds is not modelled.
- Express, cors, the Vite middleware and `app.listen` are not modelled. Responses are reduced to their status codes plus the login reply and the created post. Message texts are not modelled.
- Request bodies with missing fields (`undefined` names, titles or vote types) are not modelled: every field is a string. A missing `voteType` behaves like any non-"up" value.
- `parseInt` is reduced to "some integer or nothing". Prefix parsing such as "12abc" to 12 is not modelled.
- Scores are unbounded integers. JavaScript numbers are doubles, which are exact for these sums up to 2^53.
- Concurrency is not modelled: each handler runs to completion. The register handler awaits the hash between its name check and its push (server/index.js:43-54), so two interleaved registrations of one name could both succeed. The model treats the handler as atomic.
- The client's browser storage, JSON parsing and serialisation, React state, effects, navigation, toasts, rendering and `src/components/Navbar.tsx` are not modelled. Stored lists are values passed in and returned.
- The client's auth context, including what `login(username)` does with the name, is not part of this model.
- Clocks are parameters: `Date.now()`, the ISO `createdAt` timestamps and date formatting.
- Object aliasing is not modelled. The client's vote write at src/pages/Home.tsx:38 mutates a vote object still shared with the previous state after a shallow array copy. The model uses value semantics, so the previous list is not seen to change.
