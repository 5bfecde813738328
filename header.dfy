/**
 * The `authenticate` middleware of the quiz routes: how the Authorization
 * header is classified (missing, malformed, or carrying a token) and how the
 * token is handed to the signature check.
 */
module BearerHeader {
  import opened Wrappers

  const Space: char := ' '
  const Scheme: string := "Bearer"

  /**
   * JavaScript's `String.prototype.split` with a one-character separator:
   * every occurrence of `sep` cuts, and empty pieces (from leading, trailing
   * or doubled separators) are kept.
   */
  function Split(s: string, sep: char): (parts: seq<string>)
    ensures |parts| == multiset(s)[sep] + 1
    ensures forall i :: 0 <= i < |parts| ==> sep !in parts[i]
  {
    if s == [] then [[]]
    else
      var rest := Split(s[1..], sep);
      assert s == [s[0]] + s[1..];
      if s[0] == sep then [[]] + rest
      else [[s[0]] + rest[0]] + rest[1..]
  }

  /** The inverse of Split: glue the pieces back together with `sep`. */
  function Join(parts: seq<string>, sep: char): string
    requires |parts| >= 1
  {
    if |parts| == 1 then parts[0] else parts[0] + [sep] + Join(parts[1..], sep)
  }

  /** Splitting loses nothing: joining the pieces gives back the header. */
  lemma {:induction false} JoinSplit(s: string, sep: char)
    ensures Join(Split(s, sep), sep) == s
  {
    if s != [] {
      var rest := Split(s[1..], sep);
      JoinSplit(s[1..], sep);
      if s[0] != sep && |rest| > 1 {
        assert Join(rest, sep) == rest[0] + [sep] + Join(rest[1..], sep);
      }
    }
  }

  lemma {:induction false} SplitWithoutSeparator(w: string, sep: char)
    requires sep !in w
    ensures Split(w, sep) == [w]
  {
    if w != [] {
      SplitWithoutSeparator(w[1..], sep);
      assert w == [w[0]] + w[1..];
    }
  }

  lemma {:induction false} SplitAtSeparator(w: string, sep: char, t: string)
    requires sep !in w
    ensures Split(w + [sep] + t, sep) == [w] + Split(t, sep)
  {
    var s := w + [sep] + t;
    if w == [] {
      assert s[1..] == t;
    } else {
      assert s[1..] == w[1..] + [sep] + t;
      SplitAtSeparator(w[1..], sep, t);
      assert w == [w[0]] + w[1..];
    }
  }

  /** Pieces free of the separator are exactly what splitting their join returns. */
  lemma {:induction false} SplitJoin(parts: seq<string>, sep: char)
    requires |parts| >= 1
    requires forall i :: 0 <= i < |parts| ==> sep !in parts[i]
    ensures Split(Join(parts, sep), sep) == parts
  {
    if |parts| == 1 {
      SplitWithoutSeparator(parts[0], sep);
    } else {
      SplitAtSeparator(parts[0], sep, Join(parts[1..], sep));
      SplitJoin(parts[1..], sep);
    }
  }

  /** What the middleware makes of the Authorization header before any signature check. */
  datatype HeaderClass = NoToken | InvalidFormat | Token(token: string)

  function Classify(header: Option<string>): (c: HeaderClass)
    ensures c == NoToken <==> header.None? || header.value == []
    ensures c.Token? ==> Space !in c.token
  {
    if header.None? || header.value == [] then NoToken
    else
      var parts := Split(header.value, Space);
      if |parts| != 2 || parts[0] != Scheme then InvalidFormat else Token(parts[1])
  }

  /** Only the scheme, one space and a space-free token yields a token. */
  lemma ClassifiedTokenShape(h: string, t: string)
    requires Classify(Some(h)) == Token(t)
    ensures h == Scheme + [Space] + t && Space !in t
  {
    var parts := Split(h, Space);
    assert |parts| == 2 && parts[0] == Scheme && parts[1] == t;
    JoinSplit(h, Space);
    assert Join(parts, Space) == parts[0] + [Space] + Join(parts[1..], Space);
    assert parts[1..] == [t];
  }

  /** The scheme, one space and any space-free token is accepted with that token. */
  lemma WellFormedHeaderClassified(t: string)
    requires Space !in t
    ensures Classify(Some(Scheme + [Space] + t)) == Token(t)
  {
    var parts: seq<string> := [Scheme, t];
    assert Space !in Scheme;
    assert parts[1..] == [t];
    assert Join(parts, Space) == Scheme + [Space] + t;
    SplitJoin(parts, Space);
  }

  /**
   * A header yields token `t` exactly when it is the scheme, one space and a
   * `t` free of spaces; a double space or a lower-case scheme is refused.
   */
  lemma ClassifyAcceptsExactly(h: string, t: string)
    ensures Classify(Some(h)) == Token(t) <==> h == Scheme + [Space] + t && Space !in t
  {
    if Classify(Some(h)) == Token(t) {
      ClassifiedTokenShape(h, t);
    }
    if h == Scheme + [Space] + t && Space !in t {
      WellFormedHeaderClassified(t);
    }
  }

  datatype AuthFailure = NoTokenProvided | InvalidTokenFormat | InvalidToken
  datatype AuthOutcome<Id> = Rejected(reason: AuthFailure) | Authenticated(userId: Id)

  /**
   * The whole middleware. `verify` stands for the signature check under the
   * server secret followed by reading the payload's `id`; None is a token it
   * throws on.
   */
  function Authenticate<Id>(header: Option<string>, verify: string -> Option<Id>): (a: AuthOutcome<Id>)
    ensures a == Rejected(NoTokenProvided) <==> header.None? || header.value == []
    ensures a == Rejected(InvalidTokenFormat) <==> Classify(header) == InvalidFormat
    ensures a == Rejected(InvalidToken) <==>
              Classify(header).Token? && verify(Classify(header).token).None?
    ensures a.Authenticated? ==>
              Classify(header).Token? && verify(Classify(header).token) == Some(a.userId)
  {
    match Classify(header)
    case NoToken => Rejected(NoTokenProvided)
    case InvalidFormat => Rejected(InvalidTokenFormat)
    case Token(t) =>
      match verify(t)
      case None => Rejected(InvalidToken)
      case Some(id) => Authenticated(id)
  }

  /** A well-formed header reaches the signature check with exactly its second piece. */
  lemma AuthenticateWellFormed<Id>(t: string, verify: string -> Option<Id>)
    requires Space !in t
    ensures Authenticate(Some(Scheme + [Space] + t), verify) ==
              if verify(t).Some? then Authenticated(verify(t).value) else Rejected(InvalidToken)
  {
    WellFormedHeaderClassified(t);
  }
}
