/** Exactly when the order of the headers matters for the framing of a body. */
module FramingOrder {
  import opened Basics
  import opened Framing

  /**
    The order matters: there are websocket upgrades and lengths, nothing is refused outright, and there are
    enough websocket upgrades to clear every length that must not be recorded any more.
  */
  predicate Sensitive(version: Version, m: multiset<Sort>) {
    && Sound(version, m)
    && m[Websocket] > 0 && Lengths(m) > 0
    && Lengths(m) <= m[Websocket] + if m[ChunkedTe] > 0 then 0 else 1
  }

  lemma InsensitiveSame(version: Version, a: seq<Sort>, b: seq<Sort>)
    requires multiset(a) == multiset(b) && !Sensitive(version, multiset(a))
    ensures FramingOfSorts(version, a) == FramingOfSorts(version, b)
  {
    if Plain(multiset(a)) {
      PlainSameFraming(version, a, b);
    } else {
      FoldRecords(version, a);
      FoldRecords(version, b);
    }
  }

  // ---------------------------------------------------------------- two orders that disagree

  /** The lengths, the websocket upgrades and the other headers of a list. */
  lemma {:induction false} Partition(ss: seq<Sort>) returns (ls: seq<Sort>, ws: seq<Sort>, os: seq<Sort>)
    ensures multiset(ss) == multiset(ls) + multiset(ws) + multiset(os)
    ensures forall s :: s in ls ==> s.GoodLength?
    ensures forall s :: s in ws ==> s.Websocket?
    ensures forall s :: s in os ==> !s.GoodLength? && !s.Websocket?
    ensures |ls| == Lengths(multiset(ss)) && |ws| == multiset(ss)[Websocket]
  {
    if ss == [] {
      ls, ws, os := [], [], [];
      LengthsEmpty();
    } else {
      var before, s := ss[..|ss| - 1], ss[|ss| - 1];
      assert ss == before + [s];
      assert multiset(ss) == multiset(before) + multiset{s};
      LengthsAdd(multiset(before), s);
      ls, ws, os := Partition(before);
      if s.GoodLength? {
        ls := ls + [s];
      } else if s.Websocket? {
        ws := ws + [s];
      } else {
        os := os + [s];
      }
    }
  }

  lemma {:induction false} FoldAppend(version: Version, r: Rec, a: seq<Sort>, b: seq<Sort>)
    ensures FoldSorts(version, r, a + b) ==
      var r1 := FoldSorts(version, r, a); if r1.None? then None else FoldSorts(version, r1.value, b)
  {
    if b == [] {
      assert a + b == a;
    } else {
      assert (a + b)[..|a + b| - 1] == a + b[..|b| - 1];
      FoldAppend(version, r, a, b[..|b| - 1]);
    }
  }

  lemma FoldOne(version: Version, r: Rec, s: Sort)
    ensures FoldSorts(version, r, [s]) == SetSort(version, r, s)
  {
    assert [s][..0] == [];
    assert FoldSorts(version, r, [s][..0]) == Some(r);
  }

  /** Lengths and websocket upgrades in turn, as long as both last. */
  function Interleave(ls: seq<Sort>, ws: seq<Sort>): seq<Sort> {
    if ls == [] then ws else if ws == [] then ls else [ls[0]] + [ws[0]] + Interleave(ls[1..], ws[1..])
  }

  lemma {:induction false} InterleaveAll(ls: seq<Sort>, ws: seq<Sort>)
    ensures multiset(Interleave(ls, ws)) == multiset(ls) + multiset(ws)
  {
    if ls != [] && ws != [] {
      InterleaveAll(ls[1..], ws[1..]);
      assert ls == [ls[0]] + ls[1..] && ws == [ws[0]] + ws[1..];
    }
  }

  lemma {:induction false} WebsocketsFold(version: Version, r: Rec, ws: seq<Sort>)
    requires r.len.None? && forall s :: s in ws ==> s.Websocket?
    ensures FoldSorts(version, r, ws) == Some(r.(upgrade := r.upgrade || ws != []))
  {
    if ws != [] {
      WebsocketsFold(version, r, ws[..|ws| - 1]);
    }
  }

  /** With a websocket upgrade behind every length, or every one but the last, all lengths are accepted. */
  lemma {:induction false} InterleaveFold(version: Version, r: Rec, ls: seq<Sort>, ws: seq<Sort>)
    requires r.len.None? && !r.chunked && |ls| <= |ws| + 1
    requires (forall s :: s in ls ==> s.GoodLength?) && (forall s :: s in ws ==> s.Websocket?)
    ensures var r' := FoldSorts(version, r, Interleave(ls, ws));
      && r'.Some? && r'.value == r.(len := r'.value.len, upgrade := r.upgrade || ws != [])
      && (r'.value.len.None? <==> |ls| <= |ws|)
    decreases |ls|
  {
    if ls == [] {
      WebsocketsFold(version, r, ws);
    } else if ws == [] {
      assert ls == [ls[0]];
      FoldOne(version, r, ls[0]);
    } else {
      FoldOne(version, r, ls[0]);
      var r1 := SetSort(version, r, ls[0]).value;
      assert ws[0] in ws;
      FoldOne(version, r1, ws[0]);
      var r2 := SetSort(version, r1, ws[0]).value;
      FoldAppend(version, r, [ls[0]], [ws[0]]);
      FoldAppend(version, r, [ls[0]] + [ws[0]], Interleave(ls[1..], ws[1..]));
      InterleaveFold(version, r2, ls[1..], ws[1..]);
    }
  }

  /** What headers other than lengths and websocket upgrades make of `r`. */
  ghost predicate OthersDone(r: Rec, m: multiset<Sort>, r': Rec) {
    && r'.len == r.len && (r.upgrade ==> r'.upgrade)
    && (r'.chunked <==> m[ChunkedTe] > 0)
    && (r'.te <==> m[ChunkedTe] + m[IdentityTe] > 0)
  }

  lemma OthersStep(version: Version, r: Rec, m: multiset<Sort>, r': Rec, s: Sort)
    requires OthersDone(r, m, r') && Sound(version, m + multiset{s}) && !s.GoodLength? && !s.Websocket?
    requires s.ChunkedTe? ==> r.len.None?
    ensures SetSort(version, r', s).Some? && OthersDone(r, m + multiset{s}, SetSort(version, r', s).value)
  {}

  /** The remaining headers are accepted and leave the length alone. */
  lemma {:induction false} OthersFold(version: Version, r: Rec, os: seq<Sort>)
    requires Sound(version, multiset(os)) && !r.te && !r.chunked
    requires multiset(os)[ChunkedTe] > 0 ==> r.len.None?
    requires forall s :: s in os ==> !s.GoodLength? && !s.Websocket?
    ensures FoldSorts(version, r, os).Some? && OthersDone(r, multiset(os), FoldSorts(version, r, os).value)
  {
    if os != [] {
      var before, s := os[..|os| - 1], os[|os| - 1];
      assert os == before + [s];
      assert multiset(os) == multiset(before) + multiset{s};
      OthersFold(version, r, before);
      OthersStep(version, r, multiset(before), FoldSorts(version, r, before).value, s);
    }
  }

  /** Lengths at the end: a second one, or one after `chunked`, is refused. */
  lemma LengthsFold(version: Version, r: Rec, ls: seq<Sort>)
    requires r.len.None? && ls != [] && forall s :: s in ls ==> s.GoodLength?
    ensures var r' := FoldSorts(version, r, ls);
      if r.chunked || |ls| > 1 then r'.None? else r' == Some(r.(len := Some(ls[0].len)))
  {
    FoldOne(version, r, ls[0]);
    if |ls| == 1 {
      assert ls == [ls[0]];
    } else {
      var r1 := SetSort(version, r, ls[0]);
      assert ls == [ls[0]] + ls[1..];
      FoldAppend(version, r, [ls[0]], ls[1..]);
      if r1.Some? {
        assert ls[1..] == [ls[1]] + ls[2..];
        FoldOne(version, r1.value, ls[1]);
        FoldAppend(version, r1.value, [ls[1]], ls[2..]);
      }
    }
  }

  lemma OthersCount(m: multiset<Sort>, ls: seq<Sort>, ws: seq<Sort>, os: seq<Sort>)
    requires m == multiset(ls) + multiset(ws) + multiset(os)
    requires (forall s :: s in ls ==> s.GoodLength?) && (forall s :: s in ws ==> s.Websocket?)
    ensures forall s: Sort :: !s.GoodLength? && !s.Websocket? ==> multiset(os)[s] == m[s]
  {
    forall s: Sort | !s.GoodLength? && !s.Websocket? ensures multiset(os)[s] == m[s] {
      assert s !in ls && s !in ws;
    }
  }

  /** Lengths last. */
  lemma EarlyUpgrade(version: Version, ls: seq<Sort>, ws: seq<Sort>, os: seq<Sort>)
    requires Sound(version, multiset(os)) && ls != []
    requires forall s :: s in ls ==> s.GoodLength?
    requires forall s :: s in ws ==> s.Websocket?
    requires forall s :: s in os ==> !s.GoodLength? && !s.Websocket?
    ensures var f := FramingOfSorts(version, ws + os + ls);
      if multiset(os)[ChunkedTe] > 0 || |ls| > 1 then f == None else f == Some(LengthBody(ls[0].len))
  {
    WebsocketsFold(version, BLANK, ws);
    var r1 := FoldSorts(version, BLANK, ws).value;
    FoldAppend(version, BLANK, ws, os);
    OthersFold(version, r1, os);
    var r2 := FoldSorts(version, r1, os).value;
    FoldAppend(version, BLANK, ws + os, ls);
    LengthsFold(version, r2, ls);
  }

  /** Every length followed by the upgrade that clears it, as far as there are upgrades. */
  lemma LateUpgrade(version: Version, ls: seq<Sort>, ws: seq<Sort>, os: seq<Sort>)
    requires Sound(version, multiset(os)) && ws != []
    requires |ls| <= |ws| + if multiset(os)[ChunkedTe] > 0 then 0 else 1
    requires forall s :: s in ls ==> s.GoodLength?
    requires forall s :: s in ws ==> s.Websocket?
    requires forall s :: s in os ==> !s.GoodLength? && !s.Websocket?
    ensures var f := FramingOfSorts(version, Interleave(ls, ws) + os);
      f.Some? && (|ls| <= |ws| ==> !f.value.LengthBody?)
  {
    InterleaveFold(version, BLANK, ls, ws);
    var r1 := FoldSorts(version, BLANK, Interleave(ls, ws)).value;
    FoldAppend(version, BLANK, Interleave(ls, ws), os);
    OthersFold(version, r1, os);
  }

  lemma SensitiveDiffers(version: Version, ss: seq<Sort>) returns (a: seq<Sort>, b: seq<Sort>)
    requires Sensitive(version, multiset(ss))
    ensures multiset(a) == multiset(ss) && multiset(b) == multiset(ss)
    ensures FramingOfSorts(version, a) != FramingOfSorts(version, b)
  {
    var ls, ws, os := Partition(ss);
    OthersCount(multiset(ss), ls, ws, os);
    a, b := ws + os + ls, Interleave(ls, ws) + os;
    InterleaveAll(ls, ws);
    EarlyUpgrade(version, ls, ws, os);
    LateUpgrade(version, ls, ws, os);
  }

  // ---------------------------------------------------------------- from sorts to headers

  /** Every order of the headers gets the same verdict and the same framing. */
  ghost predicate OrderFree(version: Version, hs: seq<Header>) {
    forall ps :: multiset(ps) == multiset(hs) ==> FramingOf(version, ps) == FramingOf(version, hs)
  }

  /**
    The framing of a head is independent of the order of its headers exactly when the head is not sensitive;
    in particular whenever it has no `Upgrade: websocket` header.
  */
  lemma OrderFreeIff(version: Version, hs: seq<Header>)
    ensures OrderFree(version, hs) <==> !Sensitive(version, multiset(Sorts(hs)))
    ensures Websocket !in Sorts(hs) ==> OrderFree(version, hs)
  {
    var ss := Sorts(hs);
    FramingBySorts(version, hs);
    if Sensitive(version, multiset(ss)) {
      var a, b := SensitiveDiffers(version, ss);
      var p := MapLift(SortOf, hs, a);
      var q := MapLift(SortOf, hs, b);
      FramingBySorts(version, p);
      FramingBySorts(version, q);
    } else {
      forall ps | multiset(ps) == multiset(hs) ensures FramingOf(version, ps) == FramingOf(version, hs) {
        MapPermuted(SortOf, ps, hs);
        FramingBySorts(version, ps);
        InsensitiveSame(version, ss, Sorts(ps));
      }
    }
  }
}
