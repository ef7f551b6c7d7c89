/**
  WebSocket masking (`ws/mask.rs`, section 5.3 of RFC 6455): byte `i` is combined with mask byte `i mod 4`. The
  fast form works on aligned 8-byte words with a rotated mask.
*/
module Mask {
  type Byte = bv8
  type Data = seq<Byte>

  /** The four bytes of a mask, least significant first. */
  function MaskKey(mask: bv32): (key: Data)
    ensures |key| == 4
  {
    [(mask & 0xFF) as bv8, ((mask >> 8) & 0xFF) as bv8, ((mask >> 16) & 0xFF) as bv8, (mask >> 24) as bv8]
  }

  /** Masking, byte by byte. */
  function Keyed(s: Data, key: Data): (r: Data)
    requires |key| == 4
    ensures |r| == |s|
    ensures forall i :: 0 <= i < |s| ==> r[i] == s[i] ^ key[i % 4]
  {
    seq(|s|, i requires 0 <= i < |s| => s[i] ^ key[i % 4])
  }

  function Masked(s: Data, mask: bv32): Data {
    Keyed(s, MaskKey(mask))
  }

  /** Masking undoes itself. */
  lemma KeyedTwice(s: Data, key: Data)
    requires |key| == 4
    ensures Keyed(Keyed(s, key), key) == s
  {
    forall i | 0 <= i < |s| ensures Keyed(Keyed(s, key), key)[i] == s[i] {
      XorTwice(s[i], key[i % 4]);
    }
  }

  lemma XorTwice(x: Byte, y: Byte)
    ensures (x ^ y) ^ y == x
  {}

  lemma MaskedTwice(s: Data, mask: bv32)
    ensures Masked(Masked(s, mask), mask) == s
  {
    KeyedTwice(s, MaskKey(mask));
  }

  // ---------------------------------------------------------------- words

  /** Byte `j` of a word in memory, on a little-endian machine. */
  function ByteOf(w: bv64, j: nat): Byte
    requires j < 8
  {
    if j == 0 then (w & 0xFF) as bv8
    else if j == 1 then ((w >> 8) & 0xFF) as bv8
    else if j == 2 then ((w >> 16) & 0xFF) as bv8
    else if j == 3 then ((w >> 24) & 0xFF) as bv8
    else if j == 4 then ((w >> 32) & 0xFF) as bv8
    else if j == 5 then ((w >> 40) & 0xFF) as bv8
    else if j == 6 then ((w >> 48) & 0xFF) as bv8
    else (w >> 56) as bv8
  }

  /** The first `n` bytes of a word. */
  function BytesFrom(w: bv64, n: nat): (s: Data)
    requires n <= 8
    ensures |s| == n
  {
    if n == 0 then [] else BytesFrom(w, n - 1) + [ByteOf(w, n - 1)]
  }

  function Bytes8(w: bv64): (s: Data)
    ensures |s| == 8
  {
    BytesFrom(w, 8)
  }

  lemma {:induction false} BytesAt(w: bv64, n: nat, j: nat)
    requires j < n <= 8
    ensures BytesFrom(w, n)[j] == ByteOf(w, j)
  {
    if j < n - 1 {
      BytesAt(w, n - 1, j);
    }
  }

  lemma Below8(j: nat)
    requires j < 8
    ensures j == 0 || j == 1 || j == 2 || j == 3 || j == 4 || j == 5 || j == 6 || j == 7
  {}

  lemma XorParts(a: bv64, b: bv64)
    ensures
      && ByteOf(a ^ b, 0) == ByteOf(a, 0) ^ ByteOf(b, 0) && ByteOf(a ^ b, 1) == ByteOf(a, 1) ^ ByteOf(b, 1)
      && ByteOf(a ^ b, 2) == ByteOf(a, 2) ^ ByteOf(b, 2) && ByteOf(a ^ b, 3) == ByteOf(a, 3) ^ ByteOf(b, 3)
      && ByteOf(a ^ b, 4) == ByteOf(a, 4) ^ ByteOf(b, 4) && ByteOf(a ^ b, 5) == ByteOf(a, 5) ^ ByteOf(b, 5)
      && ByteOf(a ^ b, 6) == ByteOf(a, 6) ^ ByteOf(b, 6) && ByteOf(a ^ b, 7) == ByteOf(a, 7) ^ ByteOf(b, 7)
  {}

  lemma XorAt(a: bv64, b: bv64, j: nat)
    requires j < 8
    ensures ByteOf(a ^ b, j) == ByteOf(a, j) ^ ByteOf(b, j)
  {
    XorParts(a, b);
    Below8(j);
  }

  lemma XorBytes(a: bv64, b: bv64)
    ensures forall j :: 0 <= j < 8 ==> Bytes8(a ^ b)[j] == Bytes8(a)[j] ^ Bytes8(b)[j]
  {
    forall j | 0 <= j < 8 ensures Bytes8(a ^ b)[j] == Bytes8(a)[j] ^ Bytes8(b)[j] {
      BytesAt(a ^ b, 8, j);
      BytesAt(a, 8, j);
      BytesAt(b, 8, j);
      XorAt(a, b, j);
    }
  }

  /** The mask twice, as a word. */
  function Double(mask: bv32): bv64 {
    ((mask as bv64) << 32) | (mask as bv64)
  }

  lemma DoubleParts(mask: bv32)
    ensures
      && ByteOf(Double(mask), 0) == MaskKey(mask)[0] && ByteOf(Double(mask), 1) == MaskKey(mask)[1]
          && ByteOf(Double(mask), 2) == MaskKey(mask)[2]
      && ByteOf(Double(mask), 3) == MaskKey(mask)[3] && ByteOf(Double(mask), 4) == MaskKey(mask)[0]
          && ByteOf(Double(mask), 5) == MaskKey(mask)[1]
      && ByteOf(Double(mask), 6) == MaskKey(mask)[2] && ByteOf(Double(mask), 7) == MaskKey(mask)[3]
  {}

  lemma DoubleAt(mask: bv32, j: nat)
    requires j < 8
    ensures ByteOf(Double(mask), j) == MaskKey(mask)[j % 4]
  {
    var w, key := Double(mask), MaskKey(mask);
    DoubleParts(mask);
    Among8((n: nat) => if n < 8 then ByteOf(w, n) else 0, (n: nat) => key[n % 4], j);
  }

  lemma Among8<T>(f: nat -> T, g: nat -> T, j: nat)
    requires f(0) == g(0) && f(1) == g(1) && f(2) == g(2) && f(3) == g(3)
    requires f(4) == g(4) && f(5) == g(5) && f(6) == g(6) && f(7) == g(7)
    requires j < 8
    ensures f(j) == g(j)
  {
    Below8(j);
  }

  lemma RotateParts(w: bv64)
    ensures var r := w.RotateRight(8);
      && ByteOf(r, 0) == ByteOf(w, 1) && ByteOf(r, 1) == ByteOf(w, 2) && ByteOf(r, 2) == ByteOf(w, 3)
          && ByteOf(r, 3) == ByteOf(w, 4)
      && ByteOf(r, 4) == ByteOf(w, 5) && ByteOf(r, 5) == ByteOf(w, 6) && ByteOf(r, 6) == ByteOf(w, 7)
          && ByteOf(r, 7) == ByteOf(w, 0)
  {}

  lemma RotateAt(w: bv64, j: nat)
    requires j < 8
    ensures ByteOf(RotateByte(w), j) == ByteOf(w, (j + 1) % 8)
  {
    RotateParts(w);
    Below8(j);
  }

  function Iterate<T>(f: T -> T, x: T, n: nat): T {
    if n == 0 then x else f(Iterate(f, x, n - 1))
  }

  function RotateByte(w: bv64): bv64 {
    w.RotateRight(8)
  }

  /** `n` rotations by one byte. */
  function Rotations(w: bv64, n: nat): bv64 {
    Iterate(RotateByte, w, n)
  }

  lemma ModStep(n: nat, j: nat)
    requires n > 0
    ensures (n - 1 + (j + 1) % 8) % 8 == (n + j) % 8
  {}

  /** If one step moves everything one place down, `n` steps move it `n` places. */
  lemma {:induction false} StepsMove<W(!new), B>(f: (W, nat) -> B, step: W -> W, w: W, n: nat, j: nat)
    requires j < 8 && forall v: W, k: nat :: k < 8 ==> f(step(v), k) == f(v, (k + 1) % 8)
    ensures f(Iterate(step, w, n), j) == f(w, (n + j) % 8)
    decreases n
  {
    if n > 0 {
      StepsMove(f, step, w, n - 1, (j + 1) % 8);
      ModStep(n, j);
    }
  }

  function ByteAt(w: bv64, j: nat): Byte {
    if j < 8 then ByteOf(w, j) else 0
  }

  lemma RotationsAt(w: bv64, n: nat, j: nat)
    requires j < 8
    ensures ByteAt(Rotations(w, n), j) == ByteAt(w, (n + j) % 8)
  {
    forall v: bv64, k: nat | k < 8 ensures ByteAt(RotateByte(v), k) == ByteAt(v, (k + 1) % 8) {
      RotateAt(v, k);
    }
    StepsMove(ByteAt, RotateByte, w, n, j);
  }

  lemma ModEightFour(x: nat)
    ensures x % 8 % 4 == x % 4
  {}

  lemma RotatedAt(w: bv64, key: Data, n: nat, j: nat)
    requires |key| == 4 && j < 8 && ByteAt(w, (n + j) % 8) == key[(n + j) % 8 % 4]
    ensures Bytes8(Rotations(w, n))[j] == key[(n + j) % 4]
  {
    BytesAt(Rotations(w, n), 8, j);
    RotationsAt(w, n, j);
    ModEightFour(n + j);
  }

  lemma RotatedMask(mask: bv32, n: nat)
    requires n < 8
    ensures KeyBehind(Bytes8(Rotations(Double(mask), n)), MaskKey(mask), n)
  {
    var key := MaskKey(mask);
    forall j | 0 <= j < 8 ensures Bytes8(Rotations(Double(mask), n))[j] == key[(n + j) % 4] {
      DoubleAt(mask, (n + j) % 8);
      RotatedAt(Double(mask), key, n, j);
    }
  }

  /** `w.rotate_right(8 * n)` for every `n` below 8. */
  function RotateRight(w: bv64): (r: seq<bv64>)
    ensures |r| == 8
  {
    [w, w.RotateRight(8), w.RotateRight(16), w.RotateRight(24), w.RotateRight(32), w.RotateRight(40), w.RotateRight(48),
     w.RotateRight(56)]
  }

  lemma {:induction false} Chain<T>(f: T -> T, vs: seq<T>, n: nat)
    requires n < |vs| == 8
    requires vs[1] == f(vs[0]) && vs[2] == f(vs[1]) && vs[3] == f(vs[2]) && vs[4] == f(vs[3])
    requires vs[5] == f(vs[4]) && vs[6] == f(vs[5]) && vs[7] == f(vs[6])
    ensures vs[n] == Iterate(f, vs[0], n)
  {
    if n > 0 {
      Chain(f, vs, n - 1);
    }
  }

  lemma RotateIsRotations(w: bv64, n: nat)
    requires n < 8
    ensures RotateRight(w)[n] == Rotations(w, n)
  {
    RotateMore(w);
    ChainOf(RotateByte, w, w.RotateRight(8), w.RotateRight(16), w.RotateRight(24), w.RotateRight(32), w.RotateRight(40),
            w.RotateRight(48), w.RotateRight(56), n);
  }

  lemma ChainOf<T>(f: T -> T, a: T, b: T, c: T, d: T, e: T, g: T, h: T, i: T, n: nat)
    requires n < 8 && b == f(a) && c == f(b) && d == f(c) && e == f(d) && g == f(e) && h == f(g) && i == f(h)
    ensures [a, b, c, d, e, g, h, i][n] == Iterate(f, a, n)
  {
    Chain(f, [a, b, c, d, e, g, h, i], n);
  }

  lemma RotateMore(w: bv64)
    ensures w.RotateRight(8).RotateRight(8) == w.RotateRight(16)
    ensures w.RotateRight(16).RotateRight(8) == w.RotateRight(24)
    ensures w.RotateRight(24).RotateRight(8) == w.RotateRight(32)
    ensures w.RotateRight(32).RotateRight(8) == w.RotateRight(40)
    ensures w.RotateRight(40).RotateRight(8) == w.RotateRight(48)
    ensures w.RotateRight(48).RotateRight(8) == w.RotateRight(56)
  {}

  function Pad(s: Data, j: nat): Byte {
    if j < |s| then s[j] else 0
  }

  function Join(b0: Byte, b1: Byte, b2: Byte, b3: Byte, b4: Byte, b5: Byte, b6: Byte, b7: Byte): bv64 {
    (b0 as bv64) | ((b1 as bv64) << 8) | ((b2 as bv64) << 16) | ((b3 as bv64) << 24)
    | ((b4 as bv64) << 32) | ((b5 as bv64) << 40) | ((b6 as bv64) << 48) | ((b7 as bv64) << 56)
  }

  lemma JoinParts(b0: Byte, b1: Byte, b2: Byte, b3: Byte, b4: Byte, b5: Byte, b6: Byte, b7: Byte)
    ensures var w := Join(b0, b1, b2, b3, b4, b5, b6, b7);
      && ByteOf(w, 0) == b0 && ByteOf(w, 1) == b1 && ByteOf(w, 2) == b2 && ByteOf(w, 3) == b3
      && ByteOf(w, 4) == b4 && ByteOf(w, 5) == b5 && ByteOf(w, 6) == b6 && ByteOf(w, 7) == b7
  {}

  /** Up to eight bytes of memory as a word. */
  function Load(s: Data): bv64 {
    Join(Pad(s, 0), Pad(s, 1), Pad(s, 2), Pad(s, 3), Pad(s, 4), Pad(s, 5), Pad(s, 6), Pad(s, 7))
  }

  lemma LoadBytes(s: Data)
    requires |s| <= 8
    ensures forall j :: 0 <= j < |s| ==> Bytes8(Load(s))[j] == s[j]
  {
    forall j | 0 <= j < |s| ensures Bytes8(Load(s))[j] == s[j] {
      BytesAt(Load(s), 8, j);
      JoinParts(Pad(s, 0), Pad(s, 1), Pad(s, 2), Pad(s, 3), Pad(s, 4), Pad(s, 5), Pad(s, 6), Pad(s, 7));
      Below8(j);
    }
  }

  /** What the mask word holds is due behind `n` bytes. */
  predicate KeyBehind(word: Data, key: Data, n: nat)
    requires |word| == 8 && |key| == 4
  {
    forall j :: 0 <= j < 8 ==> word[j] == key[(n + j) % 4]
  }

  // ---------------------------------------------------------------- the fast form

  /** `x & !0x7` */
  function RoundDown(x: nat): nat {
    x / 8 * 8
  }

  lemma RoundsDown(x: nat)
    ensures RoundDown(x) <= x < RoundDown(x) + 8 && RoundDown(x) % 8 == 0
  {}

  lemma EighthsApart(a: nat, b: nat)
    requires a % 8 == 0 && b % 8 == 0 && a <= b
    ensures (b - a) % 8 == 0
  {}

  /**
    `align_buf`: sizes of the head, the aligned middle and the tail of `len` bytes at address `start`. Head and tail
    are shorter than a word.
  */
  method AlignBuf(start: nat, len: nat) returns (head: nat, mid: nat, tail: nat)
    ensures head + mid + tail == len
    ensures head < 8 && tail < 8 && mid % 8 == 0
    ensures mid > 0 ==> (start + head) % 8 == 0
  {
    var startAligned := RoundDown(start + 7);
    var endAligned := RoundDown(start + len);
    RoundsDown(start + 7);
    RoundsDown(start + len);
    if endAligned >= startAligned {
      EighthsApart(startAligned, endAligned);
      return startAligned - start, endAligned - startAligned, start + len - endAligned;
    }
    return len, 0, 0;
  }

  /** Bytes are copied into a word, the word is combined with the mask, and the bytes are copied back. */
  method XorShort(buf: array<Byte>, from: nat, len: nat, mask: bv64)
    requires from + len <= buf.Length && len <= 8
    modifies buf
    ensures forall k :: 0 <= k < from || from + len <= k < buf.Length ==> buf[k] == old(buf[k])
    ensures forall k :: from <= k < from + len ==> buf[k] == old(buf[k]) ^ Bytes8(mask)[k - from]
  {
    var s := buf[from..from + len];
    var b := XorLoaded(s, mask);
    Store(buf, from, len, b);
  }

  method XorLoaded(s: Data, mask: bv64) returns (b: bv64)
    requires |s| <= 8
    ensures forall j :: 0 <= j < |s| ==> Bytes8(b)[j] == s[j] ^ Bytes8(mask)[j]
  {
    b := Load(s);
    LoadBytes(s);
    XorBytes(b, mask);
    b := b ^ mask;
  }

  method Store(buf: array<Byte>, from: nat, len: nat, b: bv64)
    requires from + len <= buf.Length && len <= 8
    modifies buf
    ensures forall k :: 0 <= k < from || from + len <= k < buf.Length ==> buf[k] == old(buf[k])
    ensures forall k :: from <= k < from + len ==> buf[k] == Bytes8(b)[k - from]
  {
    var bytes := Bytes8(b);
    for j := 0 to len
      invariant forall k :: 0 <= k < from || from + len <= k < buf.Length ==> buf[k] == old(buf[k])
      invariant forall k :: from <= k < from + j ==> buf[k] == bytes[k - from]
    {
      buf[from + j] := bytes[j];
    }
  }

  lemma DoubleBehind(mask: bv32)
    ensures KeyBehind(Bytes8(Double(mask)), MaskKey(mask), 0)
  {
    RotatedMask(mask, 0);
  }

  /** `mask.rotate_right(8 * n)` is the mask that is due behind `n` bytes. */
  method RotateMask(m: bv64, n: nat, ghost mask: bv32) returns (r: bv64)
    requires 0 < n < 8 && m == Double(mask)
    ensures KeyBehind(Bytes8(r), MaskKey(mask), n)
  {
    RotatedMask(mask, n);
    RotateIsRotations(m, n);
    r := RotateRight(m)[n];
  }

  method XorHead(buf: array<Byte>, head: nat, m: bv64, ghost key: Data)
    requires head < 8 && head <= buf.Length && |key| == 4 && KeyBehind(Bytes8(m), key, 0)
    modifies buf
    ensures forall k :: 0 <= k < head ==> buf[k] == old(buf[k]) ^ key[k % 4]
    ensures forall k :: head <= k < buf.Length ==> buf[k] == old(buf[k])
  {
    XorShort(buf, 0, head, m);
  }

  /** The first two steps of `apply_mask`: the head, and the mask for the rest. */
  method MaskHead(buf: array<Byte>, head: nat, mask: bv32) returns (m: bv64)
    requires head < 8 && head <= buf.Length
    modifies buf
    ensures KeyBehind(Bytes8(m), MaskKey(mask), head)
    ensures forall k :: 0 <= k < head ==> buf[k] == old(buf[k]) ^ MaskKey(mask)[k % 4]
    ensures forall k :: head <= k < buf.Length ==> buf[k] == old(buf[k])
  {
    m := Double(mask);
    DoubleBehind(mask);
    if head > 0 {
      XorHead(buf, head, m, MaskKey(mask));
      m := RotateMask(m, head, mask);
    }
  }

  /** Behind whole words the mask is still the one that is due. */
  method XorWord(buf: array<Byte>, at: nat, len: nat, m: bv64, ghost key: Data, ghost head: nat)
    requires at + len <= buf.Length && len <= 8 && head <= at && (at - head) % 8 == 0
    requires |key| == 4 && KeyBehind(Bytes8(m), key, head)
    modifies buf
    ensures forall k :: 0 <= k < at || at + len <= k < buf.Length ==> buf[k] == old(buf[k])
    ensures forall k :: at <= k < at + len ==> buf[k] == old(buf[k]) ^ key[k % 4]
  {
    XorShort(buf, at, len, m);
    KeyDue(Bytes8(m), key, head, at);
  }

  lemma KeyDue(w: Data, key: Data, head: nat, at: nat)
    requires |w| == 8 && |key| == 4 && head <= at && (at - head) % 8 == 0 && KeyBehind(w, key, head)
    ensures forall k :: at <= k < at + 8 ==> w[k - at] == key[k % 4]
  {
    var q := (at - head) / 8;
    forall k | at <= k < at + 8 ensures w[k - at] == key[k % 4] {
      var x := head + (k - at);
      assert w[k - at] == key[x % 4];
      ModFour(x, 2 * q);
    }
  }

  lemma ModFour(x: nat, q: nat)
    ensures (x + 4 * q) % 4 == x % 4
  {}

  /** The aligned words, one by one. */
  method MaskWords(buf: array<Byte>, head: nat, mid: nat, m: bv64, ghost key: Data)
    requires head + mid <= buf.Length && mid % 8 == 0
    requires |key| == 4 && KeyBehind(Bytes8(m), key, head)
    modifies buf
    ensures forall k :: 0 <= k < head || head + mid <= k < buf.Length ==> buf[k] == old(buf[k])
    ensures forall k :: head <= k < head + mid ==> buf[k] == old(buf[k]) ^ key[k % 4]
  {
    var at := head;
    while at < head + mid
      invariant head <= at <= head + mid && (at - head) % 8 == 0
      invariant forall k :: head <= k < at ==> buf[k] == old(buf[k]) ^ key[k % 4]
      invariant forall k :: 0 <= k < head || at <= k < buf.Length ==> buf[k] == old(buf[k])
    {
      XorWord(buf, at, 8, m, key, head);
      at := at + 8;
    }
  }

  /** `was` with the first `n` bytes masked. */
  ghost predicate MaskedTo(was: Data, now: Data, key: Data, n: nat)
    requires |key| == 4 && |now| == |was| && n <= |was|
  {
    && (forall k :: 0 <= k < n ==> now[k] == was[k] ^ key[k % 4])
    && (forall k :: n <= k < |was| ==> now[k] == was[k])
  }

  lemma MaskedFurther<T>(f: (nat, T) -> T, a: seq<T>, b: seq<T>, c: seq<T>, n: nat, m: nat)
    requires |a| == |b| == |c| && n <= m <= |a|
    requires forall k: nat :: k < n ==> b[k] == f(k, a[k])
    requires forall k :: n <= k < |a| ==> b[k] == a[k]
    requires forall k: nat :: n <= k < m ==> c[k] == f(k, b[k])
    requires forall k :: 0 <= k < n || m <= k < |a| ==> c[k] == b[k]
    ensures forall k: nat :: k < m ==> c[k] == f(k, a[k])
    ensures forall k :: m <= k < |a| ==> c[k] == a[k]
  {}

  /** `apply_mask` on a buffer that lies at address `start`, in place. */
  method ApplyMask(buf: array<Byte>, start: nat, mask: bv32)
    modifies buf
    ensures buf[..] == Masked(old(buf[..]), mask)
  {
    var head, mid, tail := AlignBuf(start, buf.Length);
    ghost var key, f := MaskKey(mask), KeyFunction(mask);
    ghost var s0 := buf[..];
    var m := MaskHead(buf, head, mask);
    ghost var s1 := buf[..];
    MaskWords(buf, head, mid, m, key);
    ghost var s2 := buf[..];
    if tail > 0 {
      XorWord(buf, head + mid, tail, m, key, head);
    }
    ghost var s3 := buf[..];
    AllMasked(s0, s1, s2, s3, mask, head, head + mid);
  }

  ghost function KeyFunction(mask: bv32): (nat, Byte) -> Byte {
    (i: nat, x: Byte) => x ^ MaskKey(mask)[i % 4]
  }

  lemma AllMasked(s0: Data, s1: Data, s2: Data, s3: Data, mask: bv32, a: nat, b: nat)
    requires |s0| == |s1| == |s2| == |s3| && a <= b <= |s0|
    requires MaskedTo(s0, s1, MaskKey(mask), a)
    requires forall k :: 0 <= k < a || b <= k < |s0| ==> s2[k] == s1[k]
    requires forall k :: a <= k < b ==> s2[k] == s1[k] ^ MaskKey(mask)[k % 4]
    requires forall k :: 0 <= k < b ==> s3[k] == s2[k]
    requires forall k :: b <= k < |s0| ==> s3[k] == s2[k] ^ MaskKey(mask)[k % 4]
    ensures s3 == Masked(s0, mask)
  {
    var f := KeyFunction(mask);
    MaskedFurther(f, s0, s1, s2, a, b);
    MaskedFurther(f, s0, s2, s3, b, |s0|);
    assert forall k :: 0 <= k < |s0| ==> s3[k] == f(k, s0[k]);
  }
}
