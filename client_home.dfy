/**
 * The home page of the browser client, which keeps its own copy of the
 * posts in browser storage: voting, deleting, the score and own-vote
 * badges, and when the delete button is offered.  The stored list is a
 * value passed in and returned.
 */
module ClientHome {
  import opened Wrappers
  import opened Votes

  /** The logged-in user as the auth context holds it. */
  datatype ClientUser = ClientUser(id: string, username: string)

  datatype ClientPost = ClientPost(id: int, title: string, content: string, username: string, userId: string,
                                   votes: seq<Vote<string>>, createdAt: string)

  /** `getVoteCount`: the sum of the post's vote values. */
  function GetVoteCount(post: ClientPost): (count: int)
    ensures post.votes == [] ==> count == 0
    ensures (forall j :: 0 <= j < |post.votes| ==> -1 <= post.votes[j].value <= 1) ==>
              -|post.votes| <= count <= |post.votes|
  {
    Sum(post.votes)
  }

  /** `getUserVote`: 0 with nobody logged in, else the value of that user's first vote, or 0. */
  function GetUserVote(user: Option<ClientUser>, post: ClientPost): (v: int)
    ensures user.None? ==> v == 0
    ensures user.Some? && (forall j :: 0 <= j < |post.votes| ==> post.votes[j].userId != user.value.id) ==> v == 0
    ensures user.Some? && VoteIndex(post.votes, user.value.id) != -1 ==>
              exists j :: && 0 <= j < |post.votes| && post.votes[j].userId == user.value.id
                          && v == post.votes[j].value
                          && forall k :: 0 <= k < j ==> post.votes[k].userId != user.value.id
  {
    if user.None? then 0 else UserVote(post.votes, user.value.id)
  }

  /** The trash button is rendered for `user && post.userId === user.id`. */
  function ShowsDeleteButton(user: Option<ClientUser>, post: ClientPost): (shown: bool)
    ensures shown ==> user.Some?
    ensures forall u :: user == Some(u) ==> (shown <==> u.id == post.userId)
  {
    user.Some? && post.userId == user.value.id
  }

  /**
   * The button is offered to exactly one user id per post, its author's,
   * whatever the name, and to nobody when no one is logged in.
   */
  lemma DeleteButtonOnlyForAuthor(post: ClientPost, a: ClientUser, b: ClientUser)
    ensures ShowsDeleteButton(Some(a), post) && ShowsDeleteButton(Some(b), post) ==> a.id == b.id
    ensures ShowsDeleteButton(Some(ClientUser(post.userId, a.username)), post)
    ensures !ShowsDeleteButton(None, post)
  {
  }

  /**
   * `handleVote`: without authentication nothing changes; otherwise every
   * post whose id matches (not only the first) gets the vote, and every
   * other post is returned as it was.
   */
  function HandleVote(posts: seq<ClientPost>, isAuthenticated: bool, user: Option<ClientUser>,
                      postId: int, voteType: string): (r: seq<ClientPost>)
    ensures |r| == |posts|
    ensures !isAuthenticated || user.None? ==> r == posts
    ensures forall i :: 0 <= i < |posts| && posts[i].id != postId ==> r[i] == posts[i]
    ensures isAuthenticated && user.Some? ==>
              forall i :: 0 <= i < |posts| && posts[i].id == postId ==>
                && r[i].votes == Upsert(posts[i].votes, user.value.id, DirectionValue(voteType))
                && r[i].(votes := posts[i].votes) == posts[i]
  {
    if !isAuthenticated then posts
    else
      seq(|posts|, i requires 0 <= i < |posts| =>
        if posts[i].id == postId && user.Some?
        then posts[i].(votes := Upsert(posts[i].votes, user.value.id, DirectionValue(voteType)))
        else posts[i])
  }

  /** Every post keeps at most one vote per user across `handleVote`. */
  lemma HandleVoteKeepsOnePerUser(posts: seq<ClientPost>, isAuthenticated: bool, user: Option<ClientUser>,
                                  postId: int, voteType: string)
    requires forall i :: 0 <= i < |posts| ==> OnePerUser(posts[i].votes)
    ensures var r := HandleVote(posts, isAuthenticated, user, postId, voteType);
            forall i :: 0 <= i < |r| ==> OnePerUser(r[i].votes)
  {
  }

  /** Voting the same way twice leaves the stored posts as after the first vote. */
  lemma HandleVoteIdempotent(posts: seq<ClientPost>, isAuthenticated: bool, user: Option<ClientUser>,
                             postId: int, voteType: string)
    ensures var once := HandleVote(posts, isAuthenticated, user, postId, voteType);
            HandleVote(once, isAuthenticated, user, postId, voteType) == once
  {
    var once := HandleVote(posts, isAuthenticated, user, postId, voteType);
    var twice := HandleVote(once, isAuthenticated, user, postId, voteType);
    if isAuthenticated && user.Some? {
      forall i | 0 <= i < |posts| ensures twice[i] == once[i] {
        if posts[i].id == postId {
          UpsertIdempotent(posts[i].votes, user.value.id, DirectionValue(voteType));
        }
      }
    }
  }

  /**
   * After a vote by `u` on a post, its score moves by the new value minus
   * `u`'s previous vote (0 if none), and `u`'s badge shows the new value.
   */
  lemma HandleVoteScore(posts: seq<ClientPost>, user: ClientUser, postId: int, voteType: string, i: nat)
    requires i < |posts| && posts[i].id == postId
    ensures var r := HandleVote(posts, true, Some(user), postId, voteType);
            && GetVoteCount(r[i]) == GetVoteCount(posts[i]) - GetUserVote(Some(user), posts[i]) + DirectionValue(voteType)
            && GetUserVote(Some(user), r[i]) == DirectionValue(voteType)
  {
    SumUpsert(posts[i].votes, user.id, DirectionValue(voteType));
    UpsertRecordsVote(posts[i].votes, user.id, DirectionValue(voteType));
  }

  /** A vote by `u` leaves every other user's badge on every post as it was. */
  lemma HandleVoteKeepsOtherUsers(posts: seq<ClientPost>, user: ClientUser, postId: int, voteType: string,
                                  other: ClientUser, i: nat)
    requires i < |posts| && other.id != user.id
    ensures GetUserVote(Some(other), HandleVote(posts, true, Some(user), postId, voteType)[i])
            == GetUserVote(Some(other), posts[i])
  {
  }

  /** `handleDelete`: `posts.filter(post => post.id !== postId)`; no author is checked. */
  function HandleDelete(posts: seq<ClientPost>, postId: int): (r: seq<ClientPost>)
    ensures |r| <= |posts|
    ensures forall p :: p in r ==> p in posts && p.id != postId
    ensures forall p :: p in posts && p.id != postId ==> p in r
  {
    if posts == [] then []
    else if posts[0].id != postId then [posts[0]] + HandleDelete(posts[1..], postId)
    else HandleDelete(posts[1..], postId)
  }

  /** The filter keeps order: it works piecewise over a concatenation. */
  lemma {:induction false} HandleDeleteConcat(a: seq<ClientPost>, b: seq<ClientPost>, postId: int)
    ensures HandleDelete(a + b, postId) == HandleDelete(a, postId) + HandleDelete(b, postId)
  {
    if a == [] {
      assert a + b == b;
    } else {
      assert (a + b)[1..] == a[1..] + b;
      HandleDeleteConcat(a[1..], b, postId);
    }
  }

  /** Deleting an id no post has changes nothing. */
  lemma {:induction false} HandleDeleteAbsent(posts: seq<ClientPost>, postId: int)
    requires forall i :: 0 <= i < |posts| ==> posts[i].id != postId
    ensures HandleDelete(posts, postId) == posts
  {
    if posts != [] {
      HandleDeleteAbsent(posts[1..], postId);
    }
  }

  /** After a delete no post with that id is left, so deleting again changes nothing. */
  lemma HandleDeleteIdempotent(posts: seq<ClientPost>, postId: int)
    ensures HandleDelete(HandleDelete(posts, postId), postId) == HandleDelete(posts, postId)
  {
  }
}
