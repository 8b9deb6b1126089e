/**
 * The vote records that both the API server and the browser client keep
 * inside each post, and the array operations both of them run over those
 * records (`reduce` for the score, `findIndex` / `find` for a user's vote,
 * and the overwrite-or-append update).  The user-id type is generic: the
 * server stores numeric ids, the client string ids.
 */
module Votes {

  /** One `{ userId, value }` record. */
  datatype Vote<U> = Vote(userId: U, value: int)

  /** `voteType === 'up' ? 1 : -1`: every direction other than "up" is a down vote. */
  function DirectionValue(voteType: string): (v: int)
    ensures v == 1 || v == -1
    ensures v == 1 <==> voteType == "up"
  {
    if voteType == "up" then 1 else -1
  }

  /** `votes.reduce((sum, vote) => sum + vote.value, 0)`, folded from the left. */
  function Sum<U>(votes: seq<Vote<U>>): (s: int)
    ensures votes == [] ==> s == 0
    ensures (forall j :: 0 <= j < |votes| ==> -1 <= votes[j].value <= 1) ==> -|votes| <= s <= |votes|
  {
    if votes == [] then 0 else Sum(votes[..|votes| - 1]) + votes[|votes| - 1].value
  }

  /** `votes.findIndex(v => v.userId === u)`: the first position holding a vote by `u`, or -1. */
  function VoteIndex<U(==)>(votes: seq<Vote<U>>, u: U): (i: int)
    ensures -1 <= i < |votes|
    ensures i == -1 <==> forall j :: 0 <= j < |votes| ==> votes[j].userId != u
    ensures 0 <= i ==> votes[i].userId == u && forall j :: 0 <= j < i ==> votes[j].userId != u
  {
    if votes == [] then -1
    else if votes[0].userId == u then 0
    else
      var k := VoteIndex(votes[1..], u);
      if k == -1 then -1 else k + 1
  }

  /** `find(v => v.userId === u)`, then its value, or 0 when there is none. */
  function UserVote<U(==)>(votes: seq<Vote<U>>, u: U): (v: int)
    ensures (forall j :: 0 <= j < |votes| ==> votes[j].userId != u) ==> v == 0
    ensures (exists j :: 0 <= j < |votes| && votes[j].userId == u) ==>
              exists j :: && 0 <= j < |votes| && votes[j].userId == u && v == votes[j].value
                          && forall k :: 0 <= k < j ==> votes[k].userId != u
  {
    var i := VoteIndex(votes, u);
    if i == -1 then 0 else votes[i].value
  }

  /** At most one vote per user. */
  ghost predicate OnePerUser<U>(votes: seq<Vote<U>>)
  {
    forall i, j :: 0 <= i < j < |votes| ==> votes[i].userId != votes[j].userId
  }

  /**
   * The vote update both copies perform: the first vote by `u`, if any, gets
   * the new value in place; otherwise one vote is appended.
   */
  function Upsert<U(==)>(votes: seq<Vote<U>>, u: U, value: int): (r: seq<Vote<U>>)
    ensures |r| == |votes| || |r| == |votes| + 1
    ensures Vote(u, value) in r
    ensures forall j :: 0 <= j < |votes| && votes[j].userId != u ==> r[j] == votes[j]
    ensures forall j :: 0 <= j < |votes| ==> r[j].userId == votes[j].userId
    ensures |r| == |votes| + 1 <==> forall j :: 0 <= j < |votes| ==> votes[j].userId != u
  {
    var i := VoteIndex(votes, u);
    if i != -1 then
      var r := votes[i := votes[i].(value := value)];
      assert r[i] == Vote(u, value);
      r
    else votes + [Vote(u, value)]
  }

  /** Two vote lists with the same voters in the same order find the same position. */
  lemma VoteIndexSameVoters<U>(a: seq<Vote<U>>, b: seq<Vote<U>>, u: U)
    requires |a| == |b|
    requires forall j :: 0 <= j < |a| ==> a[j].userId == b[j].userId
    ensures VoteIndex(a, u) == VoteIndex(b, u)
  {
  }

  /** Appending one vote moves the first position of `u` only if `u` had none. */
  lemma VoteIndexAppend<U>(votes: seq<Vote<U>>, x: Vote<U>, u: U)
    ensures VoteIndex(votes + [x], u) ==
            if VoteIndex(votes, u) != -1 then VoteIndex(votes, u)
            else if x.userId == u then |votes| else -1
  {
    var s := votes + [x];
    var i, k := VoteIndex(votes, u), VoteIndex(s, u);
    assert forall j :: 0 <= j < |votes| ==> s[j] == votes[j];
    if i != -1 {
      assert s[i].userId == u;
    } else if x.userId == u {
      assert s[|votes|].userId == u;
    }
  }

  /** After an update by `u`, `u`'s reported vote is the new value. */
  lemma UpsertRecordsVote<U>(votes: seq<Vote<U>>, u: U, value: int)
    ensures UserVote(Upsert(votes, u, value), u) == value
    ensures VoteIndex(Upsert(votes, u, value), u) ==
            if VoteIndex(votes, u) != -1 then VoteIndex(votes, u) else |votes|
  {
  }

  /** An update by `u` leaves every other user's reported vote as it was. */
  lemma UpsertKeepsOtherVoters<U>(votes: seq<Vote<U>>, u: U, value: int, w: U)
    requires w != u
    ensures UserVote(Upsert(votes, u, value), w) == UserVote(votes, w)
    ensures forall j :: 0 <= j < |votes| && votes[j].userId != u ==> Upsert(votes, u, value)[j] == votes[j]
  {
  }

  /** The update never creates a second vote by the same user. */
  lemma UpsertKeepsOnePerUser<U>(votes: seq<Vote<U>>, u: U, value: int)
    requires OnePerUser(votes)
    ensures OnePerUser(Upsert(votes, u, value))
    ensures |Upsert(votes, u, value)| == if VoteIndex(votes, u) != -1 then |votes| else |votes| + 1
  {
  }

  /** Casting the same vote twice has the effect of casting it once. */
  lemma UpsertIdempotent<U>(votes: seq<Vote<U>>, u: U, value: int)
    ensures Upsert(Upsert(votes, u, value), u, value) == Upsert(votes, u, value)
  {
  }

  /** Appending one vote adds its value to the score. */
  lemma SumAppend<U>(votes: seq<Vote<U>>, x: Vote<U>)
    ensures Sum(votes + [x]) == Sum(votes) + x.value
  {
  }

  /** Overwriting one vote changes the score by the difference of the two values. */
  lemma {:induction false} SumUpdate<U>(votes: seq<Vote<U>>, i: nat, x: Vote<U>)
    requires i < |votes|
    ensures Sum(votes[i := x]) == Sum(votes) - votes[i].value + x.value
  {
    var n := |votes|;
    var s := votes[i := x];
    if i == n - 1 {
      assert s[..n - 1] == votes[..n - 1];
    } else {
      assert s[..n - 1] == votes[..n - 1][i := x];
      SumUpdate(votes[..n - 1], i, x);
    }
  }

  /**
   * The score moves by the new value minus the user's previous vote (0 when
   * the user had not voted).
   */
  lemma SumUpsert<U>(votes: seq<Vote<U>>, u: U, value: int)
    ensures Sum(Upsert(votes, u, value)) == Sum(votes) - UserVote(votes, u) + value
  {
    var i := VoteIndex(votes, u);
    if i != -1 {
      SumUpdate(votes, i, votes[i].(value := value));
    } else {
      SumAppend(votes, Vote(u, value));
    }
  }
}
