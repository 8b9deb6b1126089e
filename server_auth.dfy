/**
 * The `authenticateToken` middleware of the API server: the bearer token is
 * the second space-separated word of the `Authorization` header, and the
 * token's signature check is a parameter (`verify`) standing for the JSON
 * Web Token library.
 */
module ServerAuth {
  import opened Wrappers

  /** The token payload `{ id, username }` that login signs and the middleware recovers. */
  datatype Claims = Claims(id: int, username: string)

  /** Either the route handler runs with `req.user`, or the middleware answers with a status. */
  datatype AuthResult = Authenticated(user: Claims) | Rejected(status: int)

  /** JavaScript's `s.split(sep)` for a one-character separator. */
  function Split(s: string, sep: char): (pieces: seq<string>)
    ensures |pieces| >= 1
  {
    if s == [] then [""]
    else
      var rest := Split(s[1..], sep);
      if s[0] == sep then [""] + rest
      else [[s[0]] + rest[0]] + rest[1..]
  }

  /** There is one more piece than there are separators. */
  lemma {:induction false} SplitCount(s: string, sep: char)
    ensures |Split(s, sep)| == 1 + multiset(s)[sep]
  {
    if s != [] {
      assert s == [s[0]] + s[1..];
      SplitCount(s[1..], sep);
    }
  }

  /** `pieces.join(sep)`. */
  function Join(pieces: seq<string>, sep: char): string
    requires |pieces| >= 1
  {
    if |pieces| == 1 then pieces[0] else pieces[0] + [sep] + Join(pieces[1..], sep)
  }

  /** Splitting loses nothing: joining the pieces gives the string back, and no piece holds the separator. */
  lemma {:induction false} SplitJoin(s: string, sep: char)
    ensures Join(Split(s, sep), sep) == s
    ensures forall k :: 0 <= k < |Split(s, sep)| ==> sep !in Split(s, sep)[k]
  {
    if s != [] {
      var rest := Split(s[1..], sep);
      SplitJoin(s[1..], sep);
      if s[0] == sep {
        assert Split(s, sep)[1..] == rest;
      } else {
        var pieces := Split(s, sep);
        assert pieces[1..] == rest[1..];
        if |rest| == 1 {
          assert Join(pieces, sep) == [s[0]] + rest[0];
        } else {
          assert Join(rest, sep) == rest[0] + [sep] + Join(rest[1..], sep);
          assert Join(pieces, sep) == [s[0]] + rest[0] + [sep] + Join(rest[1..], sep);
        }
        assert s == [s[0]] + s[1..];
      }
    }
  }

  /** A string without the separator is a single piece. */
  lemma {:induction false} SplitNoSeparator(s: string, sep: char)
    requires sep !in s
    ensures Split(s, sep) == [s]
  {
    if s != [] {
      SplitNoSeparator(s[1..], sep);
      assert s == [s[0]] + s[1..];
    }
  }

  /** The first piece ends at the first separator. */
  lemma {:induction false} SplitAtFirst(a: string, sep: char, b: string)
    requires sep !in a
    ensures Split(a + [sep] + b, sep) == [a] + Split(b, sep)
  {
    var s := a + [sep] + b;
    if a == [] {
      assert s[1..] == b;
    } else {
      assert s[1..] == a[1..] + [sep] + b;
      SplitAtFirst(a[1..], sep, b);
      assert [a[0]] + a[1..] == a;
    }
  }

  /** The first piece is the longest separator-free prefix. */
  lemma {:induction false} SplitFirstPiece(s: string, sep: char)
    ensures Split(s, sep)[0] <= s && sep !in Split(s, sep)[0]
    ensures |Split(s, sep)[0]| == |s| || s[|Split(s, sep)[0]|] == sep
  {
    if s != [] && s[0] != sep {
      SplitFirstPiece(s[1..], sep);
    }
  }

  /**
   * `authHeader.split(' ')[1]`; `undefined` (fewer than two words) is `None`.
   * The token is the text after the first space, up to the next space or
   * the end of the header.
   */
  function BearerToken(header: string): (token: Option<string>)
    ensures token.Some? <==> ' ' in header
    ensures token.Some? ==>
              exists i :: && 0 <= i < |header| && header[i] == ' ' && ' ' !in header[..i]
                          && token.value <= header[i + 1..] && ' ' !in token.value
                          && (i + 1 + |token.value| == |header| || header[i + 1 + |token.value|] == ' ')
  {
    var words := Split(header, ' ');
    SplitCount(header, ' ');
    if |words| >= 2 then
      var i := |words[0]|;
      SplitFirstPiece(header, ' ');
      assert header == header[..i] + [' '] + header[i + 1..];
      SplitAtFirst(header[..i], ' ', header[i + 1..]);
      SplitFirstPiece(header[i + 1..], ' ');
      Some(words[1])
    else None
  }

  /** The header a client builds, `"Bearer " + token`, yields that token when it has no space. */
  lemma BearerTokenOf(token: string)
    requires ' ' !in token
    ensures BearerToken("Bearer " + token) == Some(token)
  {
    SplitAtFirst("Bearer", ' ', token);
    assert "Bearer " + token == "Bearer" + [' '] + token;
    SplitNoSeparator(token, ' ');
  }

  /**
   * `authenticateToken`: a missing header, or a header without a non-empty
   * second word, is answered 401; a token that fails verification is answered
   * 403; otherwise the handler runs with the verified payload.
   */
  function Authenticate(header: Option<string>, verify: string -> Option<Claims>): (r: AuthResult)
    ensures r.Rejected? ==> r.status == 401 || r.status == 403
    ensures r == Rejected(401) <==> header.None? || BearerToken(header.value) in {None, Some("")}
    ensures r == Rejected(403) <==>
              header.Some? && BearerToken(header.value).Some? && BearerToken(header.value).value != ""
              && verify(BearerToken(header.value).value).None?
    ensures r.Authenticated? ==>
              header.Some? && BearerToken(header.value).Some? && BearerToken(header.value).value != ""
              && verify(BearerToken(header.value).value) == Some(r.user)
  {
    // `authHeader && authHeader.split(' ')[1]`: an empty header is falsy too,
    // and its only word is the empty string, so it falls in the same case.
    var token := if header.None? then None else BearerToken(header.value);
    if token.None? || token.value == "" then Rejected(401)
    else match verify(token.value)
      case None => Rejected(403)
      case Some(user) => Authenticated(user)
  }

  /**
   * A session round trip: a token that verifies to the payload it was signed
   * with, sent as `Bearer <token>`, authenticates as exactly that payload.
   */
  lemma SessionRoundTrip(c: Claims, sign: Claims -> string, verify: string -> Option<Claims>)
    requires verify(sign(c)) == Some(c)
    requires sign(c) != "" && ' ' !in sign(c)
    ensures Authenticate(Some("Bearer " + sign(c)), verify) == Authenticated(c)
  {
    BearerTokenOf(sign(c));
  }
}
