/** The Authorization-header check that guards the transfer route. */
module Auth {
  import opened Common

  /** `s.split(sep)`: the pieces between separators, empty pieces included. */
  function Split(s: string, sep: char): (parts: seq<string>)
    ensures |parts| >= 1
    ensures forall k :: 0 <= k < |parts| ==> sep !in parts[k]
    decreases |s|
  {
    if |s| == 0 then [""]
    else if s[0] == sep then [""] + Split(s[1..], sep)
    else
      var rest := Split(s[1..], sep);
      [[s[0]] + rest[0]] + rest[1..]
  }

  /** `parts.join(sep)`. */
  function Join(parts: seq<string>, sep: char): string
    requires |parts| >= 1
    decreases |parts|
  {
    if |parts| == 1 then parts[0] else parts[0] + [sep] + Join(parts[1..], sep)
  }

  /** Joining the pieces of a split gives back the original string. */
  lemma {:induction false} JoinSplit(s: string, sep: char)
    ensures Join(Split(s, sep), sep) == s
    decreases |s|
  {
    if |s| == 0 {
    } else if s[0] == sep {
      JoinSplit(s[1..], sep);
      assert Split(s, sep)[1..] == Split(s[1..], sep);
      assert s == [sep] + s[1..];
    } else {
      JoinSplit(s[1..], sep);
      var rest := Split(s[1..], sep);
      var parts := Split(s, sep);
      assert parts[0] == [s[0]] + rest[0];
      assert parts[1..] == rest[1..];
      if |rest| == 1 {
        assert Join(parts, sep) == [s[0]] + rest[0];
      } else {
        assert Join(parts, sep) == [s[0]] + rest[0] + [sep] + Join(rest[1..], sep);
        assert Join(rest, sep) == rest[0] + [sep] + Join(rest[1..], sep);
      }
      assert s == [s[0]] + s[1..];
    }
  }

  /** Splitting a separator-free piece followed by a separator and more text yields that
      piece first and then the pieces of the remainder. */
  lemma {:induction false} SplitAfterPiece(piece: string, sep: char, rest: string)
    requires sep !in piece
    ensures Split(piece + [sep] + rest, sep) == [piece] + Split(rest, sep)
    decreases |piece|
  {
    var s := piece + [sep] + rest;
    if |piece| == 0 {
      assert s == [sep] + rest;
      assert s[1..] == rest;
    } else {
      assert s[0] == piece[0];
      assert s[1..] == piece[1..] + [sep] + rest;
      SplitAfterPiece(piece[1..], sep, rest);
      assert [piece[0]] + piece[1..] == piece;
    }
  }

  /** Splitting a separator-free string yields that string alone. */
  lemma {:induction false} SplitPiece(piece: string, sep: char)
    requires sep !in piece
    ensures Split(piece, sep) == [piece]
    decreases |piece|
  {
    if |piece| > 0 {
      SplitPiece(piece[1..], sep);
      assert [piece[0]] + piece[1..] == piece;
    }
  }

  /** Splitting the join of separator-free pieces gives back the pieces. */
  lemma {:induction false} SplitJoin(parts: seq<string>, sep: char)
    requires |parts| >= 1
    requires forall k :: 0 <= k < |parts| ==> sep !in parts[k]
    ensures Split(Join(parts, sep), sep) == parts
    decreases |parts|
  {
    if |parts| == 1 {
      SplitPiece(parts[0], sep);
    } else {
      SplitJoin(parts[1..], sep);
      SplitAfterPiece(parts[0], sep, Join(parts[1..], sep));
      assert [parts[0]] + parts[1..] == parts;
    }
  }

  /** A login session, stored under its id (the bearer token, in the stored form of an id). */
  datatype Session = Session(userId: string)

  /** Either the request may proceed as this user and session, or it is refused. */
  datatype AuthResult = Authenticated(userId: string, sessionId: string) | Denied(code: int, error: string)

  /** The second space-separated field of the header, or `None` when there is no such field
      or it is empty (both are falsy in the source). */
  function TokenField(header: string): Option<string> {
    var parts := Split(header, ' ');
    if |parts| < 2 || parts[1] == "" then None else Some(parts[1])
  }

  /** `verifyToken`: a missing or empty header is 401, a header without a second field is 400,
      a token that is not an object id is 401, a token naming no session is 401, and otherwise
      the user and session come from the session the token names. `isObjectId` stands for the
      database library's id-format check and `canonical` for its conversion of a well-formed
      token to the id it denotes, in the form ids are stored and read back in (so a token in
      upper-case hex finds the session stored under the lower-case id). */
  function VerifyToken(header: Option<string>, sessions: map<string, Session>,
                       isObjectId: string -> bool, canonical: string -> string): (r: AuthResult)
    ensures header.None? || header.value == "" <==> r == Denied(401, "Missing Authorization header")
    ensures r == Denied(400, "Invalid Authorization header format") <==>
      header.Some? && header.value != "" && TokenField(header.value).None?
    ensures r.Authenticated? <==>
      && header.Some? && TokenField(header.value).Some?
      && isObjectId(TokenField(header.value).value)
      && canonical(TokenField(header.value).value) in sessions
    ensures r == Denied(401, "Invalid token") <==>
      && header.Some? && TokenField(header.value).Some?
      && !(isObjectId(TokenField(header.value).value) && canonical(TokenField(header.value).value) in sessions)
    ensures r.Authenticated? ==>
      var id := canonical(TokenField(header.value).value);
      r.userId == sessions[id].userId && r.sessionId == id
    ensures r.Denied? ==> r.code in {400, 401}
  {
    if header.None? || header.value == "" then Denied(401, "Missing Authorization header")
    else
      match TokenField(header.value)
      case None => Denied(400, "Invalid Authorization header format")
      case Some(token) =>
        if !isObjectId(token) then Denied(401, "Invalid token")
        else if canonical(token) !in sessions then Denied(401, "Invalid token")
        else Authenticated(sessions[canonical(token)].userId, canonical(token))
  }

  /** A header made of space-free fields whose second field is a well-formed id of a stored
      session is accepted as that session, whatever the first field and any later ones are. */
  lemma AcceptsSessionToken(fields: seq<string>, sessions: map<string, Session>,
                            isObjectId: string -> bool, canonical: string -> string)
    requires |fields| >= 2 && forall k :: 0 <= k < |fields| ==> ' ' !in fields[k]
    requires fields[1] != "" && isObjectId(fields[1]) && canonical(fields[1]) in sessions
    ensures VerifyToken(Some(Join(fields, ' ')), sessions, isObjectId, canonical)
            == Authenticated(sessions[canonical(fields[1])].userId, canonical(fields[1]))
  {
    var header := Join(fields, ' ');
    SplitJoin(fields, ' ');
    assert header == fields[0] + [' '] + Join(fields[1..], ' ');
    assert header != "";
    assert TokenField(header) == Some(fields[1]);
  }

  /** An accepted header is a scheme, a space and a token denoting a stored session's id, then possibly
      more space-separated text. */
  lemma AcceptedHeaderShape(header: string, sessions: map<string, Session>,
                            isObjectId: string -> bool, canonical: string -> string)
    requires VerifyToken(Some(header), sessions, isObjectId, canonical).Authenticated?
    ensures var parts := Split(header, ' ');
            && |parts| >= 2 && canonical(parts[1]) in sessions && isObjectId(parts[1])
            && header == parts[0] + " " + parts[1] + (if |parts| == 2 then "" else " " + Join(parts[2..], ' '))
  {
    var parts := Split(header, ' ');
    JoinSplit(header, ' ');
    assert Join(parts, ' ') == parts[0] + [' '] + Join(parts[1..], ' ');
    if |parts| > 2 {
      assert parts[1..][1..] == parts[2..];
    }
  }
}
