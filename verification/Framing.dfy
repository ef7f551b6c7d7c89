/**
  How a message head selects the framing of its body: the header fold of `h1/decoder.rs`
  (section 3.3.3 of RFC 7230).
*/
module Framing {
  import opened Basics
  import opened Payload
  import opened Transfer
  import opened Decimal

  /** Header names the fold looks at; all other names are only compared, so they are numbered. */
  datatype Name = ContentLength | TransferEncoding | Connection | Upgrade | Expect | Date | Other(id: nat)

  datatype Header = Header(name: Name, value: Bytes)

  datatype Version = Http10 | Http11

  /** `State` without the keep-alive wish, which has no part in the framing. */
  datatype HeadState = HeadState(version: Version, contentLength: Option<nat>, chunked: bool, seenTe: bool,
      upgrade: bool, expects: bool)

  datatype PayloadLength = ChunkedBody | LengthBody(len: nat) | UpgradeBody | NoBody

  const S_CHUNKED: Bytes := [99, 104, 117, 110, 107, 101, 100]
  const S_IDENTITY: Bytes := [105, 100, 101, 110, 116, 105, 116, 121]
  const S_WEBSOCKET: Bytes := [119, 101, 98, 115, 111, 99, 107, 101, 116]
  const S_100: Bytes := [49, 48, 48, 45]
  const PLUS: u8 := 43

  // ---------------------------------------------------------------- header values

  /** `HeaderValue::to_str` succeeds. */
  predicate IsText(v: Bytes) {
    forall i :: 0 <= i < |v| ==> 32 <= v[i] < 127 || v[i] == 9
  }

  predicate IsBlank(b: u8) {
    b == 32 || b == 9
  }

  function TrimStart(v: Bytes): Bytes {
    if v != [] && IsBlank(v[0]) then TrimStart(v[1..]) else v
  }

  function TrimEnd(v: Bytes): Bytes {
    if v != [] && IsBlank(v[|v| - 1]) then TrimEnd(v[..|v| - 1]) else v
  }

  function Lower(b: u8): u8 {
    if 65 <= b <= 90 then b + 32 else b
  }

  predicate EqIgnoreCase(v: Bytes, word: Bytes) {
    |v| == |word| && forall i :: 0 <= i < |v| ==> Lower(v[i]) == Lower(word[i])
  }

  predicate Says(v: Bytes, word: Bytes) {
    IsText(v) && EqIgnoreCase(TrimEnd(TrimStart(v)), word)
  }

  function Unsigned(ds: Bytes): Option<nat> {
    if ds != [] && (forall i :: 0 <= i < |ds| ==> IsDigit(ds[i])) && Number(ds) < TWO_64 then Some(Number(ds)) else None
  }

  /** A `u64` in decimal; a leading `+` is let through, as the library call does. */
  function ParseU64(v: Bytes): Option<nat> {
    Unsigned(if v != [] && v[0] == PLUS then v[1..] else v)
  }

  /** The length a `Content-Length` value stands for, if it is a legal one. */
  function LengthOf(v: Bytes): Option<nat> {
    if !IsText(v) then None
    else if TrimStart(v) != [] && TrimStart(v)[0] == PLUS then None
    else ParseU64(v)
  }

  // ---------------------------------------------------------------- the fold

  /** `set_header`; no state means the head is rejected. */
  function SetHeader(st: HeadState, h: Header): Option<HeadState> {
    match h.name
    case ContentLength =>
      if st.contentLength.Some? || st.chunked || LengthOf(h.value).None? then None
      else Some(st.(contentLength := LengthOf(h.value)))
    case TransferEncoding =>
      if st.seenTe || st.version.Http10? then None
      else if Says(h.value, S_CHUNKED) && st.contentLength.None? then Some(st.(seenTe := true, chunked := true))
      else if Says(h.value, S_IDENTITY) then Some(st.(seenTe := true))
      else None
    case Upgrade =>
      Some(st.(upgrade := true, contentLength := if Says(h.value, S_WEBSOCKET) then None else st.contentLength))
    case Expect => Some(if |h.value| >= 4 && h.value[..4] == S_100 then st.(expects := true) else st)
    case _ => Some(st)
  }

  function Fresh(version: Version): HeadState {
    HeadState(version, None, false, false, false, false)
  }

  function FoldHeaders(st: HeadState, hs: seq<Header>): Option<HeadState> {
    if hs == [] then Some(st)
    else
      var st1 := FoldHeaders(st, hs[..|hs| - 1]);
      if st1.None? then None else SetHeader(st1.value, hs[|hs| - 1])
  }

  /** `State::payload_length` */
  function LengthIn(st: HeadState): PayloadLength {
    if st.chunked then ChunkedBody
    else if st.contentLength.Some? then LengthBody(st.contentLength.value)
    else if st.upgrade then UpgradeBody
    else NoBody
  }

  /** The framing of a head, or none if the head is rejected. */
  function FramingOf(version: Version, hs: seq<Header>): Option<PayloadLength> {
    var st := FoldHeaders(Fresh(version), hs);
    if st.None? then None else Some(LengthIn(st.value))
  }

  /** `Content-Length` and `chunked` are never both recorded, whatever the headers. */
  lemma {:induction false} NeverBoth(version: Version, hs: seq<Header>)
    ensures var st := FoldHeaders(Fresh(version), hs); st.Some? ==> !(st.value.chunked && st.value.contentLength.Some?)
  {
    if hs != [] {
      NeverBoth(version, hs[..|hs| - 1]);
    }
  }

  // ---------------------------------------------------------------- what the fold depends on

  /** All the fold learns from a header. */
  datatype Sort = GoodLength(len: nat) | BadLength | ChunkedTe | IdentityTe | BadTe | Websocket | PlainUpgrade | Neutral

  function SortOf(h: Header): Sort {
    match h.name
    case ContentLength => if LengthOf(h.value).Some? then GoodLength(LengthOf(h.value).value) else BadLength
    case TransferEncoding =>
      if Says(h.value, S_CHUNKED) then ChunkedTe else if Says(h.value, S_IDENTITY) then IdentityTe else BadTe
    case Upgrade => if Says(h.value, S_WEBSOCKET) then Websocket else PlainUpgrade
    case _ => Neutral
  }

  function Sorts(hs: seq<Header>): seq<Sort> {
    Map(SortOf, hs)
  }

  /** The part of the state the framing is read from. */
  datatype Rec = Rec(len: Option<nat>, chunked: bool, te: bool, upgrade: bool)

  function SetSort(version: Version, r: Rec, s: Sort): Option<Rec> {
    match s
    case GoodLength(n) => if r.len.Some? || r.chunked then None else Some(r.(len := Some(n)))
    case BadLength => None
    case ChunkedTe => if r.te || version.Http10? || r.len.Some? then None else Some(r.(te := true, chunked := true))
    case IdentityTe => if r.te || version.Http10? then None else Some(r.(te := true))
    case BadTe => None
    case Websocket => Some(r.(upgrade := true, len := None))
    case PlainUpgrade => Some(r.(upgrade := true))
    case Neutral => Some(r)
  }

  function FoldSorts(version: Version, r: Rec, ss: seq<Sort>): Option<Rec> {
    if ss == [] then Some(r)
    else
      var r1 := FoldSorts(version, r, ss[..|ss| - 1]);
      if r1.None? then None else SetSort(version, r1.value, ss[|ss| - 1])
  }

  const BLANK := Rec(None, false, false, false)

  function RecOf(st: HeadState): Rec {
    Rec(st.contentLength, st.chunked, st.seenTe, st.upgrade)
  }

  lemma ChunkedIsNotIdentity(v: Bytes)
    ensures !(Says(v, S_CHUNKED) && Says(v, S_IDENTITY))
  {}

  lemma SetHeaderBySort(st: HeadState, h: Header)
    ensures var st' := SetHeader(st, h);
      var r' := SetSort(st.version, RecOf(st), SortOf(h));
      && (st'.None? <==> r'.None?)
      && (st'.Some? ==> r' == Some(RecOf(st'.value)) && st'.value.version == st.version)
  {
    ChunkedIsNotIdentity(h.value);
  }

  lemma {:induction false} FoldBySorts(version: Version, hs: seq<Header>)
    ensures var st := FoldHeaders(Fresh(version), hs);
      var r := FoldSorts(version, BLANK, Sorts(hs));
      && (st.None? <==> r.None?)
      && (st.Some? ==> r == Some(RecOf(st.value)) && st.value.version == version)
  {
    if hs != [] {
      var before := hs[..|hs| - 1];
      FoldBySorts(version, before);
      assert Sorts(hs)[..|hs| - 1] == Sorts(before) && Sorts(hs)[|hs| - 1] == SortOf(hs[|hs| - 1]);
      var st := FoldHeaders(Fresh(version), before);
      if st.Some? {
        SetHeaderBySort(st.value, hs[|hs| - 1]);
      }
    }
  }

  function LengthInRec(r: Rec): PayloadLength {
    if r.chunked then ChunkedBody else if r.len.Some? then LengthBody(r.len.value)
    else if r.upgrade then UpgradeBody else NoBody
  }

  function FramingOfSorts(version: Version, ss: seq<Sort>): Option<PayloadLength> {
    var r := FoldSorts(version, BLANK, ss);
    if r.None? then None else Some(LengthInRec(r.value))
  }

  lemma FramingBySorts(version: Version, hs: seq<Header>)
    ensures FramingOf(version, hs) == FramingOfSorts(version, Sorts(hs))
  {
    FoldBySorts(version, hs);
  }

  // ---------------------------------------------------------------- order

  /** The legal lengths among the sorts. */
  function OnlyLengths(m: multiset<Sort>): multiset<Sort> {
    m[BadLength := 0][ChunkedTe := 0][IdentityTe := 0][BadTe := 0][Websocket := 0][PlainUpgrade := 0][Neutral := 0]
  }

  function Lengths(m: multiset<Sort>): nat {
    |OnlyLengths(m)|
  }

  lemma LengthsAdd(m: multiset<Sort>, s: Sort)
    ensures Lengths(m + multiset{s}) == Lengths(m) + if s.GoodLength? then 1 else 0
  {
    assert OnlyLengths(m + multiset{s}) == OnlyLengths(m) + if s.GoodLength? then multiset{s} else multiset{};
  }

  lemma LengthsEmpty()
    ensures Lengths(multiset{}) == 0
  {
    assert OnlyLengths(multiset{}) == multiset{};
  }

  lemma TwoLengths(m: multiset<Sort>, x: nat, y: nat)
    requires x != y && GoodLength(x) in m && GoodLength(y) in m
    ensures Lengths(m) >= 2
  {
    var o := OnlyLengths(m);
    assert o == (o - multiset{GoodLength(x), GoodLength(y)}) + multiset{GoodLength(x), GoodLength(y)};
  }

  /** Nothing in the collection is refused whatever comes before it. */
  predicate Sound(version: Version, m: multiset<Sort>) {
    && m[BadLength] == 0 && m[BadTe] == 0
    && m[ChunkedTe] + m[IdentityTe] <= 1
    && (version.Http10? ==> m[ChunkedTe] + m[IdentityTe] == 0)
  }

  /** What an accepted list has recorded, in terms of the collection of its sorts. */
  ghost predicate Recorded(version: Version, m: multiset<Sort>, r: Rec) {
    && Sound(version, m)
    && (r.chunked <==> m[ChunkedTe] > 0)
    && (r.te <==> m[ChunkedTe] + m[IdentityTe] > 0)
    && (r.upgrade <==> m[Websocket] + m[PlainUpgrade] > 0)
    && !(r.chunked && r.len.Some?)
    && (r.len.Some? ==> GoodLength(r.len.value) in m && Lengths(m) <= m[Websocket] + 1)
    // every length that is not recorded was cleared by a websocket upgrade of its own
    && (r.len.None? ==> Lengths(m) <= m[Websocket])
    && (m[Websocket] == 0 ==> Lengths(m) == if r.len.Some? then 1 else 0)
    && (Lengths(m) == 0 ==> r.len.None?)
  }

  lemma SetSortRecords(version: Version, m: multiset<Sort>, r: Rec, s: Sort)
    requires Recorded(version, m, r) && SetSort(version, r, s).Some?
    ensures Recorded(version, m + multiset{s}, SetSort(version, r, s).value)
  {
    LengthsAdd(m, s);
  }

  lemma {:induction false} FoldRecords(version: Version, ss: seq<Sort>)
    ensures var r := FoldSorts(version, BLANK, ss); r.Some? ==> Recorded(version, multiset(ss), r.value)
  {
    if ss == [] {
      LengthsEmpty();
    } else {
      var before, s := ss[..|ss| - 1], ss[|ss| - 1];
      FoldRecords(version, before);
      assert ss == before + [s];
      assert multiset(ss) == multiset(before) + multiset{s};
      var r := FoldSorts(version, BLANK, before);
      if r.Some? && SetSort(version, r.value, s).Some? {
        SetSortRecords(version, multiset(before), r.value, s);
      }
    }
  }

  /** No length is ever cleared: there is no websocket upgrade, or no length. */
  predicate Plain(m: multiset<Sort>) {
    m[Websocket] == 0 || Lengths(m) == 0
  }

  predicate Acceptable(version: Version, m: multiset<Sort>) {
    Sound(version, m) && Lengths(m) <= 1 && (Lengths(m) == 1 ==> m[ChunkedTe] == 0)
  }

  lemma SetSortRefuses(version: Version, m: multiset<Sort>, r: Rec, s: Sort)
    requires Recorded(version, m, r) && Plain(m + multiset{s}) && SetSort(version, r, s).None?
    ensures !Acceptable(version, m + multiset{s})
  {
    LengthsAdd(m, s);
  }

  lemma {:induction false} PlainVerdict(version: Version, ss: seq<Sort>)
    requires Plain(multiset(ss))
    ensures FoldSorts(version, BLANK, ss).Some? <==> Acceptable(version, multiset(ss))
  {
    FoldRecords(version, ss);
    if ss == [] {
      LengthsEmpty();
    } else {
      var before, s := ss[..|ss| - 1], ss[|ss| - 1];
      assert ss == before + [s];
      var m := multiset(before);
      assert multiset(ss) == m + multiset{s};
      LengthsAdd(m, s);
      PlainVerdict(version, before);
      FoldRecords(version, before);
      var r := FoldSorts(version, BLANK, before);
      if r.Some? && SetSort(version, r.value, s).None? {
        SetSortRefuses(version, m, r.value, s);
      }
    }
  }

  lemma RecordedAgree(version: Version, m: multiset<Sort>, r: Rec, r': Rec)
    requires Plain(m) && Recorded(version, m, r) && Recorded(version, m, r')
    ensures LengthInRec(r) == LengthInRec(r')
  {
    if r.len.Some? && r'.len.Some? && r.len != r'.len {
      TwoLengths(m, r.len.value, r'.len.value);
    }
  }

  lemma PlainSameFraming(version: Version, a: seq<Sort>, b: seq<Sort>)
    requires multiset(a) == multiset(b) && Plain(multiset(a))
    ensures FramingOfSorts(version, a) == FramingOfSorts(version, b)
  {
    PlainVerdict(version, a);
    PlainVerdict(version, b);
    FoldRecords(version, a);
    FoldRecords(version, b);
    if Acceptable(version, multiset(a)) {
      RecordedAgree(version, multiset(a), FoldSorts(version, BLANK, a).value, FoldSorts(version, BLANK, b).value);
    }
  }
}
