/** The post form of the browser client, appending to the stored post list. */
module ClientCreatePost {
  import opened Wrappers
  import opened ClientHome

  /** The record `handleSubmit` builds; `now` is `Date.now()` and `createdAt` the ISO timestamp. */
  function NewPost(user: ClientUser, title: string, content: string, now: int, createdAt: string): (p: ClientPost)
    ensures p.id == now && p.votes == [] && GetVoteCount(p) == 0
    ensures p.title == title && p.content == content && p.createdAt == createdAt
    ensures p.userId == user.id && p.username == user.username
  {
    ClientPost(now, title, content, user.username, user.id, [], createdAt)
  }

  /**
   * The page renders nothing, so nothing can be submitted, unless a user is
   * authenticated; `handleSubmit` then pushes one new post onto the stored
   * list and saves it.  `None` is "no form was shown".
   */
  method HandleSubmit(posts: seq<ClientPost>, isAuthenticated: bool, user: Option<ClientUser>,
                      title: string, content: string, now: int, createdAt: string)
    returns (saved: Option<seq<ClientPost>>)
    ensures saved.None? <==> !isAuthenticated || user.None?
    ensures saved.Some? ==>
              && |saved.value| == |posts| + 1
              && saved.value[..|posts|] == posts
              && saved.value[|posts|] == ClientPost(now, title, content, user.value.username, user.value.id, [], createdAt)
  {
    if !isAuthenticated || user.None? {
      return None;
    }
    saved := Some(posts + [NewPost(user.value, title, content, now, createdAt)]);
  }

  /**
   * Ids come from the clock, so two posts made in the same millisecond share
   * an id, and one delete of that id removes both.
   */
  lemma SameMillisecondCollision(posts: seq<ClientPost>, u1: ClientUser, t1: string, c1: string, d1: string,
                                 u2: ClientUser, t2: string, c2: string, d2: string, now: int)
    ensures var p1, p2 := NewPost(u1, t1, c1, now, d1), NewPost(u2, t2, c2, now, d2);
            && p1.id == p2.id
            && HandleDelete(posts + [p1, p2], now) == HandleDelete(posts, now)
  {
    var p1, p2 := NewPost(u1, t1, c1, now, d1), NewPost(u2, t2, c2, now, d2);
    HandleDeleteConcat(posts, [p1, p2], now);
    assert [p1, p2][1..] == [p2];
  }

  /** The author of a post made here is offered its delete button; any other user is not. */
  lemma AuthorSeesDeleteButton(user: ClientUser, other: ClientUser, title: string, content: string,
                               now: int, createdAt: string)
    requires other.id != user.id
    ensures ShowsDeleteButton(Some(user), NewPost(user, title, content, now, createdAt))
    ensures !ShowsDeleteButton(Some(other), NewPost(user, title, content, now, createdAt))
    ensures !ShowsDeleteButton(None, NewPost(user, title, content, now, createdAt))
  {
  }
}
