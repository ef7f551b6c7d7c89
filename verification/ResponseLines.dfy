/** Which header lines a response head has, in terms of the headers the user gave. */
module ResponseLines {
  import opened Basics
  import opened Payload
  import opened Decimal
  import opened Framing
  import opened Response

  // ---------------------------------------------------------------- the user's lines

  function Names(hs: seq<Header>): set<Name> {
    set h | h in hs :: h.name
  }

  /** The headers in a class of names that a set of names does not override. */
  function Apart(want: Name -> bool, names: set<Name>): Header -> bool {
    (h: Header) => want(h.name) && h.name !in names
  }

  function Within(want: Name -> bool): Header -> bool {
    (h: Header) => want(h.name)
  }

  /**
    What the user gave in a class of names, in order and with repetitions: the message's own headers whose name is not
    among the extra ones, and then the extra ones.
  */
  function Given(msg: Message, want: Name -> bool): seq<Header> {
    Pick(Apart(want, Names(msg.extra)), msg.own) + Pick(Within(want), msg.extra)
  }

  /** The lines of a head in a class of names. */
  function LinesIn(lines: seq<Header>, want: Name -> bool): seq<Header> {
    Pick(Within(want), lines)
  }

  // ---------------------------------------------------------------- classes of names

  predicate IsFraming(n: Name) {
    n == ContentLength || n == TransferEncoding
  }

  predicate IsConnection(n: Name) {
    n == Connection
  }

  predicate IsDate(n: Name) {
    n == Date
  }

  /** Names that mean nothing to the encoder. */
  predicate IsPlain(n: Name) {
    !IsFraming(n) && !IsConnection(n) && !IsDate(n)
  }

  /** Whether the encoder leaves the framing to the user: an unchunked stream, or a stream that has no body. */
  predicate UserFrames(msg: Message, size: BodySize) {
    if msg.status == 101 then !msg.chunked else size.StreamSize? && (Bodiless(msg.status) || !msg.chunked)
  }

  /** The framing the encoder writes itself. */
  function OwnFraming(msg: Message, size: BodySize): seq<Header> {
    if Bodiless(msg.status) || (size.NoSize? && msg.status != 101) then []
    else if size.StreamSize? || msg.status == 101 then if msg.chunked then [Header(TransferEncoding, S_CHUNKED)] else []
    else [Header(ContentLength, Digits(if size.Sized? then size.len else 0))]
  }

  /** What connection lines tell a reader: their word, and without one the default of the version. */
  function Announced(version: Version, lines: seq<Header>): Option<ConnectionType> {
    if lines == [] then Some(if version.Http10? then Close else KeepAlive)
    else if Says(lines[0].value, S_CLOSE) then Some(Close)
    else if Says(lines[0].value, S_KEEP_ALIVE) then Some(KeepAlive)
    else if Says(lines[0].value, S_UPGRADE) then Some(UpgradeType)
    else None
  }

  // ---------------------------------------------------------------- what the encoder keeps

  /** All names of a class are written, or none is. */
  ghost predicate Uniform(want: Name -> bool, skipLen: bool, kept: bool) {
    forall h: Header :: want(h.name) ==> (Written(h, skipLen) <==> kept)
  }

  lemma {:induction false} WrittenIn(hs: seq<Header>, skipLen: bool, want: Name -> bool, kept: bool)
    requires Uniform(want, skipLen, kept)
    ensures LinesIn(WrittenOf(hs, skipLen), want) == if kept then LinesIn(hs, want) else []
  {
    if hs != [] {
      var before, h := hs[..|hs| - 1], hs[|hs| - 1];
      WrittenIn(before, skipLen, want, kept);
      PickAppend(Within(want), WrittenOf(before, skipLen), if Written(h, skipLen) then [h] else []);
    }
  }

  lemma OverriddenByName(h: Header, extra: seq<Header>)
    ensures Overridden(h, extra) <==> h.name in Names(extra)
  {
    if h.name in Names(extra) {
      var e :| e in extra && e.name == h.name;
      var i :| 0 <= i < |extra| && extra[i] == e;
    }
  }

  lemma {:induction false} OverridingIn(own: seq<Header>, extra: seq<Header>, want: Name -> bool)
    ensures LinesIn(NotOverridden(own, extra), want) == Pick(Apart(want, Names(extra)), own)
  {
    if own != [] {
      var before, h := own[..|own| - 1], own[|own| - 1];
      OverridingIn(before, extra, want);
      OverriddenByName(h, extra);
      PickAppend(Within(want), NotOverridden(before, extra), if Overridden(h, extra) then [] else [h]);
    }
  }

  lemma UserIn(msg: Message, size: BodySize, want: Name -> bool, kept: bool)
    requires Uniform(want, SkipLen(msg, size), kept)
    ensures LinesIn(UserLines(msg, size), want) == if kept then Given(msg, want) else []
  {
    WrittenIn(UserHeaders(msg), SkipLen(msg, size), want, kept);
    OverridingIn(msg.own, msg.extra, want);
    PickAppend(Within(want), NotOverridden(msg.own, msg.extra), msg.extra);
  }

  /** All of `hs` is in a class, or nothing is. */
  lemma {:induction false} AllIn(hs: seq<Header>, want: Name -> bool)
    requires forall h :: h in hs ==> want(h.name)
    ensures LinesIn(hs, want) == hs
  {
    if hs != [] {
      AllIn(hs[..|hs| - 1], want);
    }
  }

  lemma NoneIn(hs: seq<Header>, want: Name -> bool)
    requires forall h :: h in hs ==> !want(h.name)
    ensures LinesIn(hs, want) == []
  {
    PickNone(Within(want), hs);
  }

  lemma {:induction false} DatesIn(hs: seq<Header>)
    ensures HasDate(hs) <==> LinesIn(hs, IsDate) != []
  {
    if hs != [] {
      var before, h := hs[..|hs| - 1], hs[|hs| - 1];
      DatesIn(before);
      DateLast(before, h);
      assert hs == before + [h];
      assert LinesIn(hs, IsDate) == LinesIn(before, IsDate) + if IsDate(h.name) then [h] else [];
    }
  }

  lemma FramingIsOwn(msg: Message, size: BodySize)
    ensures FramingLine(msg, size) == OwnFraming(msg, size)
  {
    assert Digits(0) == [48];
  }

  /** The parts of a head that the encoder writes itself are each in a class of their own. */
  ghost predicate Sorted(own: seq<Header>, conn: seq<Header>, dated: seq<Header>) {
    && (forall h :: h in own ==> IsFraming(h.name))
    && (forall h :: h in conn ==> IsConnection(h.name))
    && (forall h :: h in dated ==> IsDate(h.name))
  }

  lemma PartsIn(own: seq<Header>, conn: seq<Header>, user: seq<Header>, dated: seq<Header>, want: Name -> bool)
    ensures LinesIn(own + conn + user + dated, want) ==
      LinesIn(own, want) + LinesIn(conn, want) + LinesIn(user, want) + LinesIn(dated, want)
  {
    PickAppend(Within(want), own, conn);
    PickAppend(Within(want), own + conn, user);
    PickAppend(Within(want), own + conn + user, dated);
  }

  lemma OthersIn(own: seq<Header>, conn: seq<Header>, user: seq<Header>, dated: seq<Header>)
    requires Sorted(own, conn, dated)
    ensures LinesIn(own + conn + user + dated, IsPlain) == LinesIn(user, IsPlain)
    ensures LinesIn(own + conn + user + dated, IsDate) == LinesIn(user, IsDate) + dated
  {
    PartsIn(own, conn, user, dated, IsPlain);
    NoneIn(own, IsPlain);
    NoneIn(conn, IsPlain);
    NoneIn(dated, IsPlain);
    PartsIn(own, conn, user, dated, IsDate);
    NoneIn(own, IsDate);
    NoneIn(conn, IsDate);
    AllIn(dated, IsDate);
  }

  lemma Padded(a: seq<Header>, b: seq<Header>)
    ensures a + [] + b + [] == a + b && [] + a + b + [] == a + b
  {}

  lemma FramingIn(own: seq<Header>, conn: seq<Header>, user: seq<Header>, dated: seq<Header>)
    requires Sorted(own, conn, dated)
    ensures LinesIn(own + conn + user + dated, IsFraming) == own + LinesIn(user, IsFraming)
  {
    PartsIn(own, conn, user, dated, IsFraming);
    AllIn(own, IsFraming);
    NoneIn(conn, IsFraming);
    NoneIn(dated, IsFraming);
    Padded(own, LinesIn(user, IsFraming));
  }

  lemma ConnectionIn(own: seq<Header>, conn: seq<Header>, user: seq<Header>, dated: seq<Header>)
    requires Sorted(own, conn, dated)
    ensures LinesIn(own + conn + user + dated, IsConnection) == conn + LinesIn(user, IsConnection)
  {
    PartsIn(own, conn, user, dated, IsConnection);
    NoneIn(own, IsConnection);
    AllIn(conn, IsConnection);
    NoneIn(dated, IsConnection);
    Padded(conn, LinesIn(user, IsConnection));
  }

  lemma ConnectionAnnounced(version: Version, ctype: ConnectionType)
    ensures |ConnectionLine(version, ctype)| <= 1 && Announced(version, ConnectionLine(version, ctype)) == Some(ctype)
  {
    NoBlanks(S_CLOSE);
    NoBlanks(S_KEEP_ALIVE);
    NoBlanks(S_UPGRADE);
  }

  lemma UserClasses(msg: Message, size: BodySize)
    ensures var user := UserLines(msg, size);
      && LinesIn(user, IsPlain) == Given(msg, IsPlain)
      && LinesIn(user, IsDate) == Given(msg, IsDate)
      && LinesIn(user, IsFraming) == (if UserFrames(msg, size) then Given(msg, IsFraming) else [])
      && LinesIn(user, IsConnection) == []
  {
    UserIn(msg, size, IsPlain, true);
    UserIn(msg, size, IsDate, true);
    assert SkipLen(msg, size) <==> !UserFrames(msg, size);
    UserIn(msg, size, IsFraming, UserFrames(msg, size));
    UserIn(msg, size, IsConnection, false);
  }

  /**
    What becomes of the user's headers, whatever they are. All with names that mean nothing to the encoder are in the
    head, in order and with repetitions, and no others with such names. A date of the user is kept, and only without
    one a date is added. Framing headers of the user are kept when the framing is left to the user, and otherwise the
    head has the encoder's own and no other.
  */
  lemma HeadersArrive(msg: Message, version: Version, size: BodySize, ctype: ConnectionType, date: Bytes)
    ensures var lines := HeadLines(msg, version, size, ctype, date);
      && LinesIn(lines, IsPlain) == Given(msg, IsPlain)
      && LinesIn(lines, IsDate) == (if Given(msg, IsDate) == [] then [Header(Date, date)] else Given(msg, IsDate))
      && LinesIn(lines, IsFraming) ==
           OwnFraming(msg, size) + (if UserFrames(msg, size) then Given(msg, IsFraming) else [])
  {
    var own, conn, user := FramingLine(msg, size), ConnectionLine(version, ctype), UserLines(msg, size);
    var dated := if HasDate(user) then [] else [Header(Date, date)];
    UserClasses(msg, size);
    DatesIn(user);
    FramingIsOwn(msg, size);
    OthersIn(own, conn, user, dated);
    FramingIn(own, conn, user, dated);
  }

  lemma ConnectionKept(msg: Message, version: Version, size: BodySize, ctype: ConnectionType, date: Bytes)
    ensures LinesIn(HeadLines(msg, version, size, ctype, date), IsConnection) == ConnectionLine(version, ctype)
  {
    var own, conn, user := FramingLine(msg, size), ConnectionLine(version, ctype), UserLines(msg, size);
    var dated := if HasDate(user) then [] else [Header(Date, date)];
    UserIn(msg, size, IsConnection, false);
    ConnectionIn(own, conn, user, dated);
  }

  /** Whatever the user's headers are, there is at most one connection header and it tells the connection type. */
  lemma ConnectionTold(msg: Message, version: Version, size: BodySize, ctype: ConnectionType, date: Bytes)
    ensures var lines := LinesIn(HeadLines(msg, version, size, ctype, date), IsConnection);
      |lines| <= 1 && Announced(version, lines) == Some(ctype)
  {
    ConnectionKept(msg, version, size, ctype, date);
    ConnectionAnnounced(version, ctype);
  }
}
