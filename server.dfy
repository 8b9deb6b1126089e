/**
 * The Express API's in-memory store: the `users` and `posts` arrays, the
 * `userId` and `postId` counters, and the route handlers over them.
 * Handlers that change the store are methods of `Store`; the login and
 * listing handlers only read it and are functions of the stored sequences.
 * Password hashing and comparison (bcrypt) and token signing and
 * verification (JSON Web Tokens) are parameters.
 */
module Server {
  import opened Wrappers
  import opened Votes
  import opened ServerAuth

  datatype User = User(id: int, username: string, passwordHash: string)

  datatype Post = Post(id: int, title: string, content: string, userId: int, username: string,
                       createdAt: string, votes: seq<Vote<int>>)

  /** `users.find(u => u.username === username)`, as a position: the first user with that name, or -1. */
  function UserIndex(users: seq<User>, username: string): (i: int)
    ensures -1 <= i < |users|
    ensures i == -1 <==> forall j :: 0 <= j < |users| ==> users[j].username != username
    ensures 0 <= i ==> users[i].username == username && forall j :: 0 <= j < i ==> users[j].username != username
  {
    if users == [] then -1
    else if users[0].username == username then 0
    else
      var k := UserIndex(users[1..], username);
      if k == -1 then -1 else k + 1
  }

  /**
   * `posts.findIndex(p => p.id === parseInt(req.params.id))`; an id that does
   * not parse (`NaN`) is `None` and matches no post.
   */
  function PostIndex(posts: seq<Post>, id: Option<int>): (i: int)
    ensures -1 <= i < |posts|
    ensures i == -1 <==> forall j :: 0 <= j < |posts| ==> Some(posts[j].id) != id
    ensures 0 <= i ==> Some(posts[i].id) == id && forall j :: 0 <= j < i ==> Some(posts[j].id) != id
  {
    if posts == [] || id.None? then -1
    else if posts[0].id == id.value then 0
    else
      var k := PostIndex(posts[1..], id);
      if k == -1 then -1 else k + 1
  }

  /** Ids strictly increase along the list and lie in [1, next); names are pairwise distinct. */
  ghost predicate UsersWellFormed(users: seq<User>, next: int)
  {
    && (forall i :: 0 <= i < |users| ==> 1 <= users[i].id < next)
    && (forall i, j :: 0 <= i < j < |users| ==> users[i].id < users[j].id)
    && (forall i, j :: 0 <= i < j < |users| ==> users[i].username != users[j].username)
  }

  /** Ids strictly increase along the list and lie in [1, next); each post holds one vote per user. */
  ghost predicate PostsWellFormed(posts: seq<Post>, next: int)
  {
    && (forall i :: 0 <= i < |posts| ==> 1 <= posts[i].id < next)
    && (forall i, j :: 0 <= i < j < |posts| ==> posts[i].id < posts[j].id)
    && (forall i :: 0 <= i < |posts| ==> OnePerUser(posts[i].votes))
  }

  /** Splicing one post out keeps the list well formed, and every remaining post was there before. */
  lemma SpliceKeepsWellFormed(posts: seq<Post>, next: int, k: nat)
    requires PostsWellFormed(posts, next) && k < |posts|
    ensures PostsWellFormed(posts[..k] + posts[k + 1..], next)
    ensures forall p :: p in posts[..k] + posts[k + 1..] ==> p in posts
  {
  }

  // ---------------------------------------------------------------- login

  datatype LoginReply = InvalidCredentials | LoggedIn(token: string, user: Claims)

  function LoginStatus(r: LoginReply): int
  {
    if r.InvalidCredentials? then 401 else 200
  }

  /**
   * POST /api/auth/login: the first user with the name, if its stored hash
   * accepts the password, gets a token signed over `{ id, username }`.
   */
  function Login(users: seq<User>, username: string, password: string,
                 compare: (string, string) -> bool, sign: Claims -> string): (r: LoginReply)
    ensures r.InvalidCredentials? <==>
              (forall j :: 0 <= j < |users| ==> users[j].username != username)
              || !compare(password, users[UserIndex(users, username)].passwordHash)
    ensures r.LoggedIn? ==>
              var i := UserIndex(users, username);
              && 0 <= i
              && r.user == Claims(users[i].id, users[i].username)
              && r.token == sign(r.user)
              && compare(password, users[i].passwordHash)
  {
    var i := UserIndex(users, username);
    if i == -1 || !compare(password, users[i].passwordHash) then InvalidCredentials
    else
      var user := Claims(users[i].id, users[i].username);
      LoggedIn(sign(user), user)
  }

  /**
   * With unique names, a user whose stored hash rejects the password cannot
   * log in under that name.
   */
  lemma WrongPasswordRejected(users: seq<User>, next: int, k: nat, password: string,
                              compare: (string, string) -> bool, sign: Claims -> string)
    requires UsersWellFormed(users, next)
    requires k < |users| && !compare(password, users[k].passwordHash)
    ensures Login(users, users[k].username, password, compare, sign) == InvalidCredentials
  {
  }

  /**
   * A user appended by registration logs in with any password its hash
   * accepts, and the token carries its new id and name.
   */
  lemma LoginAfterRegister(users: seq<User>, next: int, username: string, hash: string, password: string,
                           compare: (string, string) -> bool, sign: Claims -> string)
    requires UserIndex(users, username) == -1
    requires compare(password, hash)
    ensures Login(users + [User(next, username, hash)], username, password, compare, sign)
            == LoggedIn(sign(Claims(next, username)), Claims(next, username))
  {
    var s := users + [User(next, username, hash)];
    assert s[|users|].username == username;
    assert forall j :: 0 <= j < |users| ==> s[j] == users[j];
  }

  // -------------------------------------------------------------- listing

  /**
   * The `votes` property of a listed post: the handler overwrites the stored
   * array of vote records with the number it sums to.
   */
  datatype VotesField = Count(total: int) | Records(records: seq<Vote<int>>)

  datatype ListedPost = ListedPost(id: int, title: string, content: string, userId: int, username: string,
                                   createdAt: string, votes: VotesField, userVote: int)

  /**
   * `{ ...post, votes: <sum of the values>, userVote: 0 }`: every stored field
   * is copied, and the vote records are replaced by the number they sum to.
   */
  function Format(p: Post): (r: ListedPost)
    ensures && r.id == p.id && r.title == p.title && r.content == p.content
            && r.userId == p.userId && r.username == p.username && r.createdAt == p.createdAt
    ensures r.votes.Count? && r.votes.total == Sum(p.votes)
    ensures r.userVote == 0
  {
    ListedPost(p.id, p.title, p.content, p.userId, p.username, p.createdAt, Count(Sum(p.votes)), 0)
  }

  /** Outcome of calling `.find` on a `votes` property: a number has no `find` and throws a TypeError. */
  datatype Lookup = NotCallable | Found(vote: Option<Vote<int>>)

  /**
   * `post.votes.find(vote => vote.userId === uid)`.  On an array of records
   * (the case the handler was written for, and the one the intended listing
   * below takes) it finds the user's first vote; on the number the handler
   * actually leaves there it throws.
   */
  function FindVote(field: VotesField, uid: int): (r: Lookup)
    ensures r.NotCallable? <==> field.Count?
    ensures field.Records? ==>
              && (r.vote.None? <==> forall j :: 0 <= j < |field.records| ==> field.records[j].userId != uid)
              && (r.vote.Some? ==> r.vote.value.userId == uid && r.vote.value.value == UserVote(field.records, uid))
  {
    match field
    case Count(_) => NotCallable
    case Records(vs) =>
      var i := VoteIndex(vs, uid);
      Found(if i == -1 then None else Some(vs[i]))
  }

  /**
   * `formattedPosts.forEach(...)` writing each post's `userVote`; the pair's
   * second half says whether an exception escaped, in which case the
   * entries after the failing one are left as they were.
   */
  function AttachUserVotes(fs: seq<ListedPost>, uid: int): (r: (seq<ListedPost>, bool))
    ensures |r.0| == |fs|
    ensures forall i :: 0 <= i < |fs| ==> r.0[i].(userVote := fs[i].userVote) == fs[i]
    ensures r.1 <==> exists i :: 0 <= i < |fs| && fs[i].votes.Count?
    ensures fs != [] && fs[0].votes.Count? ==> r.0 == fs
    ensures !r.1 ==> forall i :: 0 <= i < |fs| ==> r.0[i].userVote == UserVote(fs[i].votes.records, uid)
  {
    if fs == [] then ([], false)
    else match FindVote(fs[0].votes, uid)
      case NotCallable => (fs, true)
      case Found(v) =>
        var rest := AttachUserVotes(fs[1..], uid);
        ([fs[0].(userVote := if v.Some? then v.value.value else 0)] + rest.0, rest.1)
  }

  /**
   * GET /api/posts as written: one formatted entry per stored post, then, if
   * an `Authorization` header is present and its token verifies, the
   * `forEach` above; any exception is caught and the formatted list is sent.
   */
  function ListPosts(posts: seq<Post>, header: Option<string>, verify: string -> Option<Claims>): (r: seq<ListedPost>)
    ensures |r| == |posts|
    ensures forall i :: 0 <= i < |posts| ==>
              && r[i].id == posts[i].id && r[i].title == posts[i].title && r[i].content == posts[i].content
              && r[i].userId == posts[i].userId && r[i].username == posts[i].username
              && r[i].createdAt == posts[i].createdAt
              && r[i].votes == Count(Sum(posts[i].votes))
  {
    var formatted := seq(|posts|, i requires 0 <= i < |posts| => Format(posts[i]));
    // `if (req.headers.authorization)`: absent or empty means no lookup
    if header.None? || header.value == "" then formatted
    else
      var token := BearerToken(header.value);
      // `jwt.verify` throws on `undefined` and on "", which the catch swallows
      if token.None? || token.value == "" then formatted
      else match verify(token.value)
        case None => formatted
        case Some(decoded) => AttachUserVotes(formatted, decoded.id).0
  }

  /** Every listed post reports `userVote` 0, whatever the header says. */
  lemma ListReportsNoUserVote(posts: seq<Post>, header: Option<string>, verify: string -> Option<Claims>)
    ensures forall i :: 0 <= i < |posts| ==> ListPosts(posts, header, verify)[i].userVote == 0
  {
  }

  /**
   * GET /api/posts as evidently intended: the requester's vote is looked up
   * in the stored vote records before they are replaced by their sum.
   */
  function ListPostsIntended(posts: seq<Post>, header: Option<string>, verify: string -> Option<Claims>)
    : (r: seq<ListedPost>)
    ensures |r| == |posts|
    ensures forall i :: 0 <= i < |posts| ==> r[i].(userVote := 0) == ListPosts(posts, header, verify)[i]
    ensures forall i :: 0 <= i < |posts| ==>
              r[i].userVote ==
                if header.None? || BearerToken(header.value) in {None, Some("")} then 0
                else match verify(BearerToken(header.value).value)
                  case None => 0
                  case Some(decoded) => UserVote(posts[i].votes, decoded.id)
  {
    var decoded :=
      if header.None? || BearerToken(header.value) in {None, Some("")} then None
      else verify(BearerToken(header.value).value);
    ListReportsNoUserVote(posts, header, verify);
    seq(|posts|, i requires 0 <= i < |posts| =>
      var found := if decoded.None? then None else FindVote(Records(posts[i].votes), decoded.value.id).vote;
      Format(posts[i]).(userVote := if found.Some? then found.value.value else 0))
  }

  /**
   * A walk-through of the API on the handlers as written:
   * "alice" registers and logs in, creates post 1 and votes it up.  The
   * listing shows the score 1 but `userVote` 0, where the intended listing
   * shows 1.
   */
  method UpVoteScenario() returns (listed: seq<ListedPost>, intended: seq<ListedPost>)
    ensures |listed| == 1 && |intended| == 1
    ensures listed[0].id == 1 && listed[0].votes == Count(1) && listed[0].userVote == 0
    ensures intended[0].votes == Count(1) && intended[0].userVote == 1
  {
    var compare := (password: string, hash: string) => hash == "bcrypt:" + password;
    var sign := (c: Claims) => if c == Claims(1, "alice") then "tok" else "other";
    var verify := (t: string) => if t == "tok" then Some(Claims(1, "alice")) else None;
    var store := new Store();
    var registered := store.Register("alice", "bcrypt:pw1");
    assert registered == 201;
    var reply := Login(store.users, "alice", "pw1", compare, sign);
    assert reply == LoggedIn("tok", Claims(1, "alice"));
    var header := Some("Bearer " + reply.token);
    BearerTokenOf("tok");
    var status, created := store.CreatePost(header, verify, "T", "C", "2026-10-15T00:00:00.000Z");
    assert created.value.id == 1;
    status := store.VotePost(header, verify, Some(1), "up");
    assert store.posts[0].votes == [Vote(1, 1)];
    assert Sum(store.posts[0].votes) == 1;
    listed := ListPosts(store.posts, header, verify);
    ListReportsNoUserVote(store.posts, header, verify);
    intended := ListPostsIntended(store.posts, header, verify);
  }

  // ---------------------------------------------------------------- store

  /** The module-level state of the server process. */
  class Store {
    var users: seq<User>
    var posts: seq<Post>
    var nextUserId: int
    var nextPostId: int
    /** Every post id handed out so far, including those of deleted posts. */
    ghost var issuedPostIds: set<int>

    ghost predicate Valid()
      reads this
    {
      && 1 <= nextUserId && 1 <= nextPostId
      && UsersWellFormed(users, nextUserId)
      && PostsWellFormed(posts, nextPostId)
      && (forall x :: x in issuedPostIds ==> 1 <= x < nextPostId)
      && (forall i :: 0 <= i < |posts| ==> posts[i].id in issuedPostIds)
    }

    constructor ()
      ensures Valid()
      ensures users == [] && posts == [] && nextUserId == 1 && nextPostId == 1 && issuedPostIds == {}
    {
      users, posts := [], [];
      nextUserId, nextPostId := 1, 1;
      issuedPostIds := {};
    }

    /** `posts.findIndex(...)` as the handlers run it, scanning from the front. */
    method FindPost(id: Option<int>) returns (i: int)
      ensures i == PostIndex(posts, id)
    {
      i := 0;
      while i < |posts| && Some(posts[i].id) != id
        invariant 0 <= i <= |posts|
        invariant forall j :: 0 <= j < i ==> Some(posts[j].id) != id
      {
        i := i + 1;
      }
      if i == |posts| {
        i := -1;
      }
    }

    /**
     * POST /api/auth/register: 400 if the name is taken; otherwise one user
     * with the current counter as id and the bcrypt hash `hashed` is appended
     * and the counter moves on.
     */
    method Register(username: string, hashed: string) returns (status: int)
      requires Valid()
      modifies this
      ensures Valid()
      ensures posts == old(posts) && nextPostId == old(nextPostId) && issuedPostIds == old(issuedPostIds)
      ensures status == 400 || status == 201
      ensures status == 400 <==> exists j :: 0 <= j < |old(users)| && old(users)[j].username == username
      ensures status == 400 ==> users == old(users) && nextUserId == old(nextUserId)
      ensures status == 201 ==>
                users == old(users) + [User(old(nextUserId), username, hashed)]
                && nextUserId == old(nextUserId) + 1
    {
      if UserIndex(users, username) != -1 {
        return 400;
      }
      var user := User(nextUserId, username, hashed);
      nextUserId := nextUserId + 1;
      users := users + [user];
      status := 201;
    }

    /**
     * POST /api/posts: behind the middleware; appends one post with the
     * current counter as id, no votes, and the author taken from the token.
     */
    method CreatePost(header: Option<string>, verify: string -> Option<Claims>,
                      title: string, content: string, createdAt: string)
      returns (status: int, created: Option<Post>)
      requires Valid()
      modifies this
      ensures Valid()
      ensures users == old(users) && nextUserId == old(nextUserId)
      ensures Authenticate(header, verify).Rejected? ==>
                status == Authenticate(header, verify).status && created == None
                && posts == old(posts) && nextPostId == old(nextPostId) && issuedPostIds == old(issuedPostIds)
      ensures Authenticate(header, verify).Authenticated? ==>
                var user := Authenticate(header, verify).user;
                && status == 201
                && created == Some(Post(old(nextPostId), title, content, user.id, user.username, createdAt, []))
                && posts == old(posts) + [created.value]
                && nextPostId == old(nextPostId) + 1
                && created.value.id !in old(issuedPostIds)
                && issuedPostIds == old(issuedPostIds) + {created.value.id}
    {
      var auth := Authenticate(header, verify);
      if auth.Rejected? {
        return auth.status, None;
      }
      var post := Post(nextPostId, title, content, auth.user.id, auth.user.username, createdAt, []);
      nextPostId := nextPostId + 1;
      posts := posts + [post];
      issuedPostIds := issuedPostIds + {post.id};
      status, created := 201, Some(post);
    }

    /**
     * DELETE /api/posts/:id: behind the middleware; 404 when no post has the
     * id, 403 when the first one with it has another author, and otherwise
     * that post alone is spliced out.
     */
    method DeletePost(header: Option<string>, verify: string -> Option<Claims>, id: Option<int>)
      returns (status: int)
      requires Valid()
      modifies this
      ensures Valid()
      ensures users == old(users) && nextUserId == old(nextUserId)
      ensures nextPostId == old(nextPostId) && issuedPostIds == old(issuedPostIds)
      ensures
        var auth := Authenticate(header, verify);
        var k := PostIndex(old(posts), id);
        if auth.Rejected? then status == auth.status && posts == old(posts)
        else if k == -1 then status == 404 && posts == old(posts)
        else if old(posts)[k].userId != auth.user.id then status == 403 && posts == old(posts)
        else status == 200 && posts == old(posts)[..k] + old(posts)[k + 1..]
    {
      var auth := Authenticate(header, verify);
      if auth.Rejected? {
        return auth.status;
      }
      var k := FindPost(id);
      if k == -1 {
        return 404;
      }
      if posts[k].userId != auth.user.id {
        return 403;
      }
      SpliceKeepsWellFormed(posts, nextPostId, k);
      posts := posts[..k] + posts[k + 1..];
      status := 200;
    }

    /**
     * POST /api/posts/:id/vote: behind the middleware; 404 when no post has
     * the id; otherwise the first post with it gets the requester's vote,
     * +1 for "up" and -1 for anything else, overwriting an earlier one.
     */
    method VotePost(header: Option<string>, verify: string -> Option<Claims>, id: Option<int>, voteType: string)
      returns (status: int)
      requires Valid()
      modifies this
      ensures Valid()
      ensures users == old(users) && nextUserId == old(nextUserId)
      ensures nextPostId == old(nextPostId) && issuedPostIds == old(issuedPostIds)
      ensures
        var auth := Authenticate(header, verify);
        var k := PostIndex(old(posts), id);
        if auth.Rejected? then status == auth.status && posts == old(posts)
        else if k == -1 then status == 404 && posts == old(posts)
        else
          && status == 200
          && posts == old(posts)[k := old(posts)[k].(votes := Upsert(old(posts)[k].votes, auth.user.id,
                                                                       DirectionValue(voteType)))]
    {
      var auth := Authenticate(header, verify);
      if auth.Rejected? {
        return auth.status;
      }
      var k := FindPost(id);
      if k == -1 {
        return 404;
      }
      var value := DirectionValue(voteType);
      var votes := posts[k].votes;
      var existing := VoteIndex(votes, auth.user.id);
      if existing != -1 {
        votes := votes[existing := votes[existing].(value := value)];
      } else {
        votes := votes + [Vote(auth.user.id, value)];
      }
      UpsertKeepsOnePerUser(posts[k].votes, auth.user.id, value);
      posts := posts[k := posts[k].(votes := votes)];
      status := 200;
    }
  }
}
