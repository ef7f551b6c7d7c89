/** The header multimap (`types/map.rs`) and the form its values are serialised in (`types/serde.rs`). */
module HeaderMap {
  import opened Basics

  datatype Value<V> = One(value: V) | Multi(values: seq<V>)

  /** A single value is never kept as a list. */
  predicate Canonical<V>(v: Value<V>) {
    v.Multi? ==> |v.values| >= 2
  }

  function Values<V>(v: Value<V>): seq<V> {
    match v
    case One(x) => [x]
    case Multi(s) => s
  }

  /** `Value::append`: a single value first becomes a list. */
  function AppendValue<V>(v: Value<V>, x: V): (r: Value<V>)
    ensures Values(r) == Values(v) + [x]
    ensures v.One? || v.values != [] ==> Canonical(r)
    decreases v.One?
  {
    match v
    case One(prev) => AppendValue(Multi([prev]), x)
    case Multi(s) => Multi(s + [x])
  }

  /** For values in canonical form, being equal is having the same values in the same order. */
  lemma CanonicalEquality<V>(a: Value<V>, b: Value<V>)
    requires Canonical(a) && Canonical(b)
    ensures a == b <==> Values(a) == Values(b)
  {
    if Values(a) == Values(b) && a.One? {
      assert Values(b) == [a.value];
    }
  }

  // ---------------------------------------------------------------- runs against the simple multimap

  type Inner<!N, V> = map<N, Value<V>>

  function View<N, V>(m: Inner<N, V>): map<N, seq<V>> {
    map n | n in m :: Values(m[n])
  }

  ghost predicate AllCanonical<N, V>(m: Inner<N, V>) {
    forall n :: n in m ==> Canonical(m[n])
  }

  datatype MapOp<N, V> = Insert(name: N, value: V) | Append(name: N, value: V) | Remove(name: N)

  function Apply<N(==), V>(m: Inner<N, V>, op: MapOp<N, V>): Inner<N, V> {
    match op
    case Insert(n, v) => m[n := One(v)]
    case Append(n, v) => if n in m then m[n := AppendValue(m[n], v)] else m[n := One(v)]
    case Remove(n) => m - {n}
  }

  /** The same on a map from names to lists of values. */
  function ApplySimple<N(==), V>(m: map<N, seq<V>>, op: MapOp<N, V>): map<N, seq<V>> {
    match op
    case Insert(n, v) => m[n := [v]]
    case Append(n, v) => m[n := (if n in m then m[n] else []) + [v]]
    case Remove(n) => m - {n}
  }

  lemma ApplyAgrees<N, V>(m: Inner<N, V>, op: MapOp<N, V>)
    requires AllCanonical(m)
    ensures AllCanonical(Apply(m, op)) && View(Apply(m, op)) == ApplySimple(View(m), op)
  {
    match op
    case Insert(n, v) => assert View(m[n := One(v)]) == View(m)[n := [v]];
    case Append(n, v) =>
      assert n !in m ==> [v] == [] + [v];
      assert View(Apply(m, op)) == View(m)[n := (if n in m then Values(m[n]) else []) + [v]];
    case Remove(n) => assert View(m - {n}) == View(m) - {n};
  }

  function Exec<N(==), V>(ops: seq<MapOp<N, V>>): Inner<N, V> {
    if ops == [] then map[] else Apply(Exec(ops[..|ops| - 1]), ops[|ops| - 1])
  }

  function ExecSimple<N(==), V>(ops: seq<MapOp<N, V>>): map<N, seq<V>> {
    if ops == [] then map[] else ApplySimple(ExecSimple(ops[..|ops| - 1]), ops[|ops| - 1])
  }

  /** Every run of insertions, appends and removals agrees with the simple multimap and stays canonical. */
  lemma {:induction false} RunAgrees<N, V>(ops: seq<MapOp<N, V>>)
    ensures var m := Exec(ops); AllCanonical(m) && View(m) == ExecSimple(ops)
  {
    if ops != [] {
      RunAgrees(ops[..|ops| - 1]);
      ApplyAgrees(Exec(ops[..|ops| - 1]), ops[|ops| - 1]);
    }
  }

  /** So two maps built by any runs are structurally equal exactly when they are the same multimap. */
  lemma EqualityIsMultimapEquality<N, V>(a: seq<MapOp<N, V>>, b: seq<MapOp<N, V>>)
    ensures Exec(a) == Exec(b) <==> ExecSimple(a) == ExecSimple(b)
  {
    RunAgrees(a);
    RunAgrees(b);
    var (x, y) := (Exec(a), Exec(b));
    if View(x) == View(y) {
      forall n | n in x ensures n in y && x[n] == y[n] {
        assert n in View(x);
        CanonicalEquality(x[n], y[n]);
      }
      forall n | n in y ensures n in x {
        assert n in View(y);
      }
      assert x == y;
    }
  }

  // ---------------------------------------------------------------- serialised values

  /** A single item, or a list. */
  datatype Serial<V> = Single(item: V) | List(items: seq<V>)

  function Serialize<V>(v: Value<V>, human: bool): Serial<V> {
    match v
    case One(x) => if human then Single(x) else List([x])
    case Multi(s) => List(s)
  }

  /** `visit_seq` from its state on. */
  function Collect<V>(acc: Option<Value<V>>, items: seq<V>): Option<Value<V>>
    decreases |items|
  {
    if items == [] then acc
    else Collect(Some(if acc.Some? then AppendValue(acc.value, items[0]) else One(items[0])), items[1..])
  }

  /** `None` is the error for an empty list. */
  function Deserialize<V>(s: Serial<V>): Option<Value<V>> {
    match s
    case Single(x) => Some(One(x))
    case List(items) => Collect(None, items)
  }

  lemma {:induction false} CollectMore<V>(v: Value<V>, items: seq<V>)
    requires Canonical(v)
    ensures var r := Collect(Some(v), items); r.Some? && Canonical(r.value) && Values(r.value) == Values(v) + items
    decreases |items|
  {
    if items != [] {
      CollectMore(AppendValue(v, items[0]), items[1..]);
      assert items == [items[0]] + items[1..];
    }
  }

  /** A value comes back from either form exactly if it is in canonical form. */
  lemma SerialRoundTrip<V>(v: Value<V>, human: bool)
    ensures Deserialize(Serialize(v, human)) == Some(v) <==> Canonical(v)
  {
    var items := Values(v);
    if items != [] && !(v.One? && human) {
      CollectMore(One(items[0]), items[1..]);
      assert items == [items[0]] + items[1..];
      var r := Collect(None, items).value;
      assert Values(r) == items;
      if Canonical(v) {
        CanonicalEquality(r, v);
      }
    }
  }

  // ---------------------------------------------------------------- iteration

  function Pair<N, V>(n: N, vs: seq<V>): seq<(N, V)> {
    Map((v: V) => (n, v), vs)
  }

  /** The pairs of some entries of the table, in order. */
  function Pairs<N, V>(entries: seq<(N, Value<V>)>): seq<(N, V)> {
    if entries == [] then [] else Pair(entries[0].0, Values(entries[0].1)) + Pairs(entries[1..])
  }

  /** The values paired with one name. */
  function ValuesOf<N(==), V>(pairs: seq<(N, V)>, n: N): seq<V> {
    if pairs == [] then [] else (if pairs[0].0 == n then [pairs[0].1] else []) + ValuesOf(pairs[1..], n)
  }

  lemma {:induction false} ValuesOfAppend<N, V>(a: seq<(N, V)>, b: seq<(N, V)>, n: N)
    ensures ValuesOf(a + b, n) == ValuesOf(a, n) + ValuesOf(b, n)
  {
    if a == [] {
      assert a + b == b;
    } else {
      assert (a + b)[1..] == a[1..] + b;
      ValuesOfAppend(a[1..], b, n);
      var head := if a[0].0 == n then [a[0].1] else [];
      Assoc(head, ValuesOf(a[1..], n), ValuesOf(b, n));
    }
  }

  lemma {:induction false} ValuesOfPair<N, V>(name: N, vs: seq<V>, n: N)
    ensures ValuesOf(Pair(name, vs), n) == if name == n then vs else []
  {
    if vs != [] {
      assert Pair(name, vs)[1..] == Pair(name, vs[1..]);
      ValuesOfPair(name, vs[1..], n);
    }
  }

  /** One item is taken off the front of what is to come, if there is one. */
  ghost predicate Took<T>(before: seq<T>, v: Option<T>, after: seq<T>) {
    if before == [] then v.None? && after == [] else v == Some(before[0]) && after == before[1..]
  }

  lemma TookOne<T>(done: seq<T>, before: seq<T>, v: Option<T>, after: seq<T>)
    requires Took(before, v, after)
    ensures v.Some? ==> done + before == done + [v.value] + after && |after| < |before|
    ensures v.None? ==> before == [] && after == []
  {}

  lemma SingleHead<N, V>(name: N, x: V, rest: seq<(N, V)>)
    ensures Took(Pair(name, [x]) + rest, Some((name, x)), rest)
  {
    assert Pair(name, [x]) == [(name, x)];
    assert ([(name, x)] + rest)[1..] == rest;
  }

  lemma PairHead<N, V>(name: N, vs: seq<V>, i: nat, rest: seq<(N, V)>)
    requires i < |vs|
    ensures Took(Pair(name, vs[i..]) + rest, Some((name, vs[i])), Pair(name, vs[i + 1..]) + rest)
  {
    assert Pair(name, vs[i..])[1..] == Pair(name, vs[i + 1..]);
    assert (Pair(name, vs[i..]) + rest)[1..] == Pair(name, vs[i..])[1..] + rest;
  }

  /** The table lists every name once, in any order. */
  ghost predicate Enumerates<N, V>(entries: seq<(N, Value<V>)>, m: Inner<N, V>) {
    && (forall i :: 0 <= i < |entries| ==> entries[i].0 in m && m[entries[i].0] == entries[i].1)
    && (forall i, j :: 0 <= i < j < |entries| ==> entries[i].0 != entries[j].0)
    && (forall n :: n in m ==> exists i :: 0 <= i < |entries| && entries[i].0 == n)
  }

  /** Iterating gives, for every name, all its values once and in order, whatever the order of the names. */
  lemma {:induction false} PairsOfName<N, V>(entries: seq<(N, Value<V>)>, n: N)
    requires forall i, j :: 0 <= i < j < |entries| ==> entries[i].0 != entries[j].0
    ensures (forall i :: 0 <= i < |entries| ==> entries[i].0 != n) ==> ValuesOf(Pairs(entries), n) == []
    ensures forall i :: 0 <= i < |entries| && entries[i].0 == n ==> ValuesOf(Pairs(entries), n) == Values(entries[i].1)
  {
    if entries != [] {
      var (name, v) := entries[0];
      PairsOfName(entries[1..], n);
      ValuesOfAppend(Pair(name, Values(v)), Pairs(entries[1..]), n);
      ValuesOfPair(name, Values(v), n);
      forall i | 0 <= i < |entries| && entries[i].0 == n ensures ValuesOf(Pairs(entries), n) == Values(entries[i].1) {
        if i > 0 {
          assert entries[1..][i - 1] == entries[i];
        } else {
          assert forall j :: 0 <= j < |entries| - 1 ==> entries[1..][j] == entries[j + 1];
        }
      }
    }
  }

  ghost predicate NameIn<N, V>(entries: seq<(N, Value<V>)>, n: N) {
    exists j :: 0 <= j < |entries| && entries[j].0 == n
  }

  lemma NameLater<N, V>(entries: seq<(N, Value<V>)>, n: N)
    requires entries != [] && NameIn(entries[1..], n)
    ensures NameIn(entries, n)
  {
    var j :| 0 <= j < |entries[1..]| && entries[1..][j].0 == n;
    assert entries[j + 1].0 == n;
  }

  lemma {:induction false} NamesOfPairs<N, V>(entries: seq<(N, Value<V>)>)
    ensures forall i :: 0 <= i < |Pairs(entries)| ==> NameIn(entries, Pairs(entries)[i].0)
  {
    if entries != [] {
      NamesOfPairs(entries[1..]);
      var first, rest := Pair(entries[0].0, Values(entries[0].1)), Pairs(entries[1..]);
      var all: seq<(N, V)> := first + rest;
      forall i | 0 <= i < |all| ensures NameIn(entries, all[i].0) {
        if i < |first| {
          assert entries[0].0 == all[i].0;
        } else {
          assert all[i] == rest[i - |first|];
          NameLater(entries, rest[i - |first|].0);
        }
      }
    }
  }

  lemma IterationIsTheMap<N, V>(entries: seq<(N, Value<V>)>, m: Inner<N, V>, n: N)
    requires Enumerates(entries, m)
    ensures ValuesOf(Pairs(entries), n) == if n in m then Values(m[n]) else []
  {
    PairsOfName(entries, n);
  }
}

/** The header map and its iterators as objects that change in place. */
module HeaderMapObject {
  import opened Basics
  import M = HeaderMap

  class HeaderMap<N(==), V> {
    var inner: map<N, M.Value<V>>

    constructor ()
      ensures inner == map[]
    {
      inner := map[];
    }

    ghost predicate Valid()
      reads this
    {
      M.AllCanonical(inner)
    }

    ghost function Contents(): map<N, seq<V>>
      reads this
    {
      M.View(inner)
    }

    method Insert(key: N, val: V)
      requires Valid()
      modifies this
      ensures Valid() && inner == M.Apply(old(inner), M.Insert(key, val))
      ensures Contents() == old(Contents())[key := [val]]
    {
      M.ApplyAgrees(inner, M.Insert(key, val));
      inner := inner[key := M.One(val)];
    }

    method Append(key: N, value: V)
      requires Valid()
      modifies this
      ensures Valid() && inner == M.Apply(old(inner), M.Append(key, value))
      ensures Contents() ==
              old(Contents())[key := (if key in old(Contents()) then old(Contents())[key] else []) + [value]]
    {
      M.ApplyAgrees(inner, M.Append(key, value));
      if key in inner {
        inner := inner[key := M.AppendValue(inner[key], value)];
      } else {
        inner := inner[key := M.One(value)];
      }
    }

    method Remove(key: N)
      requires Valid()
      modifies this
      ensures Valid() && inner == M.Apply(old(inner), M.Remove(key))
      ensures Contents() == old(Contents()) - {key}
    {
      M.ApplyAgrees(inner, M.Remove(key));
      inner := inner - {key};
    }

    /** The first value of a name. */
    method Get(key: N) returns (v: Option<V>)
      requires Valid()
      ensures v == if key in Contents() then Some(Contents()[key][0]) else None
    {
      if key in inner {
        match inner[key] {
          case One(x) => return Some(x);
          case Multi(vs) => return Some(vs[0]);
        }
      }
      return None;
    }
  }

  /**
    `iter` on a map whose table lists its entries in this order: every name of the map comes with all its values, once
    and in order, and nothing else comes.
  */
  method IteratePairs<N(==), V>(m: HeaderMap<N, V>, entries: seq<(N, M.Value<V>)>) returns (pairs: seq<(N, V)>)
    requires M.Enumerates(entries, m.inner)
    ensures forall n :: n in m.inner ==> M.ValuesOf(pairs, n) == m.Contents()[n]
    ensures forall i :: 0 <= i < |pairs| ==> pairs[i].0 in m.inner
  {
    pairs := CollectPairs(entries);
    M.NamesOfPairs(entries);
    forall n | n in m.inner ensures M.ValuesOf(pairs, n) == m.Contents()[n] {
      M.IterationIsTheMap(entries, m.inner, n);
    }
  }

  /** `GetAll` */
  class GetAll<V> {
    var idx: nat
    var item: Option<M.Value<V>>

    constructor (item: Option<M.Value<V>>)
      ensures this.item == item && idx == 0 && Valid()
    {
      idx, this.item := 0, item;
    }

    predicate Valid()
      reads this
    {
      item.Some? && item.value.Multi? ==> idx <= |item.value.values|
    }

    /** What is still to come. */
    function Rest(): seq<V>
      requires Valid()
      reads this
    {
      if item.None? then [] else if item.value.One? then [item.value.value] else item.value.values[idx..]
    }

    method Next() returns (v: Option<V>)
      requires Valid()
      modifies this
      ensures Valid() && M.Took(old(Rest()), v, Rest())
    {
      if item.None? {
        return None;
      }
      match item.value {
        case One(x) =>
          item := None;
          return Some(x);
        case Multi(vs) =>
          if idx < |vs| {
            idx := idx + 1;
            return Some(vs[idx - 1]);
          }
          item := None;
          return None;
      }
    }
  }

  /** `Iter`, over the entries of the table in the order the table gives them. */
  class Iter<N, V> {
    var idx: nat
    var current: Option<(N, seq<V>)>
    var entries: seq<(N, M.Value<V>)>

    constructor (entries: seq<(N, M.Value<V>)>)
      ensures Valid() && Rest() == M.Pairs(entries)
    {
      idx, current, this.entries := 0, None, entries;
    }

    predicate Valid()
      reads this
    {
      if current.Some? then idx <= |current.value.1| else idx == 0
    }

    function Rest(): seq<(N, V)>
      requires Valid()
      reads this
    {
      (if current.Some? then M.Pair(current.value.0, current.value.1[idx..]) else []) + M.Pairs(entries)
    }

    method Next() returns (v: Option<(N, V)>)
      requires Valid()
      modifies this
      ensures Valid() && M.Took(old(Rest()), v, Rest())
      decreases |entries|, 1
    {
      if current.Some? {
        var (name, vs) := current.value;
        if idx < |vs| {
          v := Some((name, vs[idx]));
          M.PairHead(name, vs, idx, M.Pairs(entries));
          idx := idx + 1;
          return;
        }
        assert M.Pair(name, vs[idx..]) == [];
        idx := 0;
        current := None;
      }
      v := NextEntry();
    }

    /** The next entry of the table; the values of a list are then handed out one by one. */
    method NextEntry() returns (v: Option<(N, V)>)
      requires Valid() && current.None?
      modifies this
      ensures Valid() && M.Took(old(Rest()), v, Rest())
      decreases |entries|, 0
    {
      if entries == [] {
        return None;
      }
      var (name, value) := entries[0];
      entries := entries[1..];
      assert old(Rest()) == M.Pair(name, M.Values(value)) + M.Pairs(entries);
      match value {
        case One(x) =>
          M.SingleHead(name, x, M.Pairs(entries));
          return Some((name, x));
        case Multi(vs) =>
          current := Some((name, vs));
          assert vs[0..] == vs;
          assert Rest() == old(Rest());
          v := Next();
      }
    }
  }

  /** `visit_seq`: values are collected one by one. */
  method VisitSeq<V>(items: seq<V>) returns (r: Option<M.Value<V>>)
    ensures r == M.Deserialize(M.List(items))
  {
    r := None;
    for i := 0 to |items|
      invariant M.Collect(r, items[i..]) == M.Collect(None, items)
    {
      assert items[i..][1..] == items[i + 1..];
      r := Some(if r.Some? then M.AppendValue(r.value, items[i]) else M.One(items[i]));
    }
  }

  /** All pairs of the map, in the order of the iterator. */
  method CollectPairs<N, V>(entries: seq<(N, M.Value<V>)>) returns (pairs: seq<(N, V)>)
    ensures pairs == M.Pairs(entries)
  {
    var it := new Iter<N, V>(entries);
    pairs := [];
    ghost var all := M.Pairs(entries);
    var more := true;
    while more
      invariant fresh(it) && it.Valid()
      invariant all == pairs + it.Rest() && (!more ==> it.Rest() == [])
      decreases |it.Rest()| + if more then 1 else 0
    {
      ghost var rest := it.Rest();
      var next := it.Next();
      M.TookOne(pairs, rest, next, it.Rest());
      if next.Some? {
        pairs := pairs + [next.value];
      } else {
        more := false;
      }
    }
  }
}
