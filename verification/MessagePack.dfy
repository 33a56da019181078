/** MessagePack as the WAL uses it: nil, integers, strings, arrays and maps, each in
    its shortest format, and the readers that accept any format. */
module MessagePack {
  import opened Prelude

  type byte = x: int | 0 <= x < 256
  type Bytes = seq<byte>
  type i64 = x: int | -0x8000_0000_0000_0000 <= x < 0x8000_0000_0000_0000
  type u8 = x: int | 0 <= x < 256

  const NIL: byte := 0xc0

  /** A count that fits the widest header. */
  const MAX_LEN: nat := 0xFFFF_FFFF

  /** What was read, and the bytes after it. */
  type Parse<T> = Option<(T, Bytes)>

  // ----- Big-endian numbers

  /** 256 to the power of `k`. */
  function Radix(k: nat): nat {
    if k == 0 then 1 else 256 * Radix(k - 1)
  }

  /** `n` in `k` bytes, most significant first. */
  function BigEndian(n: nat, k: nat): (r: Bytes)
    ensures |r| == k
  {
    if k == 0 then [] else BigEndian(n / 256, k - 1) + [n % 256]
  }

  function FromBigEndian(b: Bytes): nat {
    if b == [] then 0 else FromBigEndian(b[..|b| - 1]) * 256 + b[|b| - 1]
  }

  lemma {:induction false} BigEndianTrip(n: nat, k: nat)
    requires n < Radix(k)
    ensures FromBigEndian(BigEndian(n, k)) == n
  {
    if k > 0 {
      BigEndianTrip(n / 256, k - 1);
      assert (BigEndian(n / 256, k - 1) + [n % 256])[..k - 1] == BigEndian(n / 256, k - 1);
    }
  }

  lemma {:induction false} Radixes()
    ensures Radix(1) == 0x100 && Radix(2) == 0x1_0000 && Radix(4) == 0x1_0000_0000
    ensures Radix(8) == 0x1_0000_0000_0000_0000
  {
    assert Radix(0) == 1 && Radix(3) == 0x100_0000;
    assert Radix(5) == 0x100_0000_0000 && Radix(6) == 0x1_0000_0000_0000;
    assert Radix(7) == 0x100_0000_0000_0000;
  }

  /** The number in the next `k` bytes. */
  function Fixed(s: Bytes, k: nat): Parse<nat> {
    if |s| < k then None else Some((FromBigEndian(s[..k]), s[k..]))
  }

  lemma {:induction false} FixedTrip(n: nat, k: nat, rest: Bytes)
    requires n < Radix(k)
    ensures Fixed(BigEndian(n, k) + rest, k) == Some((n, rest))
  {
    var s := BigEndian(n, k) + rest;
    assert s[..k] == BigEndian(n, k) && s[k..] == rest;
    BigEndianTrip(n, k);
  }

  // ----- Integers

  /** `write_uint`. */
  function Uint(n: u64): Bytes {
    if n < 0x80 then [n]
    else if n < 0x100 then [0xcc] + BigEndian(n, 1)
    else if n < 0x1_0000 then [0xcd] + BigEndian(n, 2)
    else if n < 0x1_0000_0000 then [0xce] + BigEndian(n, 4)
    else [0xcf] + BigEndian(n, 8)
  }

  /** `write_sint`. */
  function Sint(n: i64): Bytes {
    if n >= 0 then Uint(n)
    else if n >= -0x20 then [0x100 + n]
    else if n >= -0x80 then [0xd0] + BigEndian(0x100 + n, 1)
    else if n >= -0x8000 then [0xd1] + BigEndian(0x1_0000 + n, 2)
    else if n >= -0x8000_0000 then [0xd2] + BigEndian(0x1_0000_0000 + n, 4)
    else [0xd3] + BigEndian(0x1_0000_0000_0000_0000 + n, 8)
  }

  /** A two's complement number of `k` bytes. */
  function Signed(n: nat, k: nat): int {
    if n < Radix(k) / 2 then n else n - Radix(k)
  }

  function Widened(p: Parse<nat>): Parse<int> {
    if p.None? then None else Some((p.value.0, p.value.1))
  }

  function SignedOf(p: Parse<nat>, k: nat): Parse<int> {
    if p.None? then None else Some((Signed(p.value.0, k), p.value.1))
  }

  /** An integer in any format. */
  function Int(s: Bytes): Parse<int> {
    if s == [] then None
    else
      var m, rest := s[0], s[1..];
      if m < 0x80 then Some((m, rest))
      else if m >= 0xe0 then Some(((m as int) - 0x100, rest))
      else if m == 0xcc then Widened(Fixed(rest, 1))
      else if m == 0xcd then Widened(Fixed(rest, 2))
      else if m == 0xce then Widened(Fixed(rest, 4))
      else if m == 0xcf then Widened(Fixed(rest, 8))
      else if m == 0xd0 then SignedOf(Fixed(rest, 1), 1)
      else if m == 0xd1 then SignedOf(Fixed(rest, 2), 2)
      else if m == 0xd2 then SignedOf(Fixed(rest, 4), 4)
      else if m == 0xd3 then SignedOf(Fixed(rest, 8), 8)
      else None
  }

  /** An integer within `[low, high]`. */
  function Within(p: Parse<int>, low: int, high: int): (r: Parse<int>)
    ensures r.Some? ==> low <= r.value.0 <= high
  {
    if p.Some? && low <= p.value.0 <= high then p else None
  }

  function ReadU64(s: Bytes): Parse<u64> {
    var p := Within(Int(s), 0, U64_MAX);
    if p.None? then None else Some((p.value.0, p.value.1))
  }

  function ReadI64(s: Bytes): Parse<i64> {
    var p := Within(Int(s), -0x8000_0000_0000_0000, 0x7FFF_FFFF_FFFF_FFFF);
    if p.None? then None else Some((p.value.0, p.value.1))
  }

  function ReadU8(s: Bytes): Parse<u8> {
    var p := Within(Int(s), 0, 255);
    if p.None? then None else Some((p.value.0, p.value.1))
  }

  lemma {:induction false} Tail(m: byte, body: Bytes, rest: Bytes)
    ensures ([m] + body + rest)[0] == m && ([m] + body + rest)[1..] == body + rest
  {
  }

  lemma {:induction false} UintTrip(n: u64, rest: Bytes)
    ensures Int(Uint(n) + rest) == Some((n, rest))
  {
    hide Fixed, BigEndian, Radix;
    Radixes();
    if n < 0x80 {
      assert ([n] + rest)[1..] == rest;
    } else if n < 0x100 {
      Tail(0xcc, BigEndian(n, 1), rest);
      FixedTrip(n, 1, rest);
    } else if n < 0x1_0000 {
      Tail(0xcd, BigEndian(n, 2), rest);
      FixedTrip(n, 2, rest);
    } else if n < 0x1_0000_0000 {
      Tail(0xce, BigEndian(n, 4), rest);
      FixedTrip(n, 4, rest);
    } else {
      Tail(0xcf, BigEndian(n, 8), rest);
      FixedTrip(n, 8, rest);
    }
  }

  lemma {:induction false} SintTrip(n: i64, rest: Bytes)
    ensures Int(Sint(n) + rest) == Some((n, rest))
  {
    hide Fixed, BigEndian, Radix, Uint;
    Radixes();
    if n >= 0 {
      UintTrip(n, rest);
    } else if n >= -0x20 {
      assert ([0x100 + n] + rest)[1..] == rest;
    } else if n >= -0x80 {
      Tail(0xd0, BigEndian(0x100 + n, 1), rest);
      FixedTrip(0x100 + n, 1, rest);
    } else if n >= -0x8000 {
      Tail(0xd1, BigEndian(0x1_0000 + n, 2), rest);
      FixedTrip(0x1_0000 + n, 2, rest);
    } else if n >= -0x8000_0000 {
      Tail(0xd2, BigEndian(0x1_0000_0000 + n, 4), rest);
      FixedTrip(0x1_0000_0000 + n, 4, rest);
    } else {
      Tail(0xd3, BigEndian(0x1_0000_0000_0000_0000 + n, 8), rest);
      FixedTrip(0x1_0000_0000_0000_0000 + n, 8, rest);
    }
  }

  // ----- Headers

  /** A header for `n` things: the short format below `limit`, else the narrowest of
      the others, whose markers are given (`m8` none for arrays and maps). */
  function Header(n: nat, short: byte, limit: nat, m8: Option<byte>, m16: byte, m32: byte): Bytes
    requires limit <= 32 && short + limit <= 256
  {
    if n < limit then [short + n]
    else if m8.Some? && n < 0x100 then [m8.value] + BigEndian(n, 1)
    else if n < 0x1_0000 then [m16] + BigEndian(n, 2)
    else [m32] + BigEndian(n, 4)
  }

  function ReadHeader(s: Bytes, short: byte, limit: nat, m8: Option<byte>, m16: byte, m32: byte): Parse<nat>
    requires limit <= 32 && short + limit <= 256
  {
    if s == [] then None
    else
      var m, rest := s[0], s[1..];
      if short <= m < short + limit then Some((m - short, rest))
      else if m8 == Some(m) then Fixed(rest, 1)
      else if m == m16 then Fixed(rest, 2)
      else if m == m32 then Fixed(rest, 4)
      else None
  }

  lemma {:induction false} HeaderTrip(n: nat, short: byte, limit: nat, m8: Option<byte>, m16: byte, m32: byte, rest: Bytes)
    requires limit <= 32 && short + limit <= 0xc0 && n <= MAX_LEN
    requires m16 >= 0xc0 && m32 > m16 && (m8.Some? ==> m8.value >= 0xc0 && m8.value < m16)
    ensures ReadHeader(Header(n, short, limit, m8, m16, m32) + rest, short, limit, m8, m16, m32) == Some((n, rest))
  {
    hide Fixed, BigEndian, Radix;
    Radixes();
    if n < limit {
      assert ([short + n] + rest)[1..] == rest;
    } else if m8.Some? && n < 0x100 {
      Tail(m8.value, BigEndian(n, 1), rest);
      FixedTrip(n, 1, rest);
    } else if n < 0x1_0000 {
      Tail(m16, BigEndian(n, 2), rest);
      FixedTrip(n, 2, rest);
    } else {
      Tail(m32, BigEndian(n, 4), rest);
      FixedTrip(n, 4, rest);
    }
  }

  function ArrayLen(n: nat): Bytes {
    Header(n, 0x90, 16, None, 0xdc, 0xdd)
  }

  function ReadArrayLen(s: Bytes): Parse<nat> {
    ReadHeader(s, 0x90, 16, None, 0xdc, 0xdd)
  }

  function MapLen(n: nat): Bytes {
    Header(n, 0x80, 16, None, 0xde, 0xdf)
  }

  function ReadMapLen(s: Bytes): Parse<nat> {
    ReadHeader(s, 0x80, 16, None, 0xde, 0xdf)
  }

  /** A string, as its bytes. */
  function Str(t: Bytes): Bytes {
    Header(|t|, 0xa0, 32, Some(0xd9), 0xda, 0xdb) + t
  }

  function ReadStr(s: Bytes): Parse<Bytes> {
    var n := ReadHeader(s, 0xa0, 32, Some(0xd9), 0xda, 0xdb);
    if n.None? || |n.value.1| < n.value.0 then None else Some((n.value.1[..n.value.0], n.value.1[n.value.0..]))
  }

  lemma {:induction false} ArrayLenTrip(n: nat, rest: Bytes)
    requires n <= MAX_LEN
    ensures ReadArrayLen(ArrayLen(n) + rest) == Some((n, rest))
  {
    HeaderTrip(n, 0x90, 16, None, 0xdc, 0xdd, rest);
  }

  lemma {:induction false} MapLenTrip(n: nat, rest: Bytes)
    requires n <= MAX_LEN
    ensures ReadMapLen(MapLen(n) + rest) == Some((n, rest))
  {
    HeaderTrip(n, 0x80, 16, None, 0xde, 0xdf, rest);
  }

  lemma {:induction false} StrTrip(t: Bytes, rest: Bytes)
    requires |t| <= MAX_LEN
    ensures ReadStr(Str(t) + rest) == Some((t, rest))
  {
    hide Header, ReadHeader;
    HeaderTrip(|t|, 0xa0, 32, Some(0xd9), 0xda, 0xdb, t + rest);
    assert Str(t) + rest == Header(|t|, 0xa0, 32, Some(0xd9), 0xda, 0xdb) + (t + rest);
    assert (t + rest)[..|t|] == t && (t + rest)[|t|..] == rest;
  }

  // ----- Lists

  function All<T>(enc: T -> Bytes, xs: seq<T>): Bytes {
    if xs == [] then [] else enc(xs[0]) + All(enc, xs[1..])
  }

  function ReadAll<T>(read: Bytes -> Parse<T>, n: nat, s: Bytes): Parse<seq<T>>
    decreases n
  {
    if n == 0 then Some(([], s))
    else
      var first := read(s);
      if first.None? then None
      else
        var more := ReadAll(read, n - 1, first.value.1);
        if more.None? then None else Some(([first.value.0] + more.value.0, more.value.1))
  }

  /** `read` undoes `enc` on `x`, whatever bytes follow. */
  ghost predicate Undoes<T(!new)>(read: Bytes -> Parse<T>, enc: T -> Bytes, x: T) {
    forall rest: Bytes :: read(enc(x) + rest) == Some((x, rest))
  }

  lemma {:induction false} AllTrip<T(!new)>(read: Bytes -> Parse<T>, enc: T -> Bytes, xs: seq<T>, rest: Bytes)
    requires forall x :: x in xs ==> Undoes(read, enc, x)
    ensures ReadAll(read, |xs|, All(enc, xs) + rest) == Some((xs, rest))
  {
    if xs == [] {
      assert All(enc, xs) + rest == rest;
    } else {
      assert xs[0] in xs && Undoes(read, enc, xs[0]);
      var more := All(enc, xs[1..]) + rest;
      assert All(enc, xs) + rest == enc(xs[0]) + more;
      assert read(enc(xs[0]) + more) == Some((xs[0], more));
      AllTrip(read, enc, xs[1..], rest);
      assert [xs[0]] + xs[1..] == xs;
    }
  }

  /** An array of things. */
  function Array<T>(enc: T -> Bytes, xs: seq<T>): Bytes {
    ArrayLen(|xs|) + All(enc, xs)
  }

  function ReadArray<T>(read: Bytes -> Parse<T>, s: Bytes): Parse<seq<T>> {
    var n := ReadArrayLen(s);
    if n.None? then None else ReadAll(read, n.value.0, n.value.1)
  }

  lemma {:induction false} ArrayTrip<T(!new)>(read: Bytes -> Parse<T>, enc: T -> Bytes, xs: seq<T>, rest: Bytes)
    requires |xs| <= MAX_LEN && forall x :: x in xs ==> Undoes(read, enc, x)
    ensures ReadArray(read, Array(enc, xs) + rest) == Some((xs, rest))
  {
    hide ArrayLen, ReadArrayLen, All, ReadAll;
    ArrayLenTrip(|xs|, All(enc, xs) + rest);
    assert Array(enc, xs) + rest == ArrayLen(|xs|) + (All(enc, xs) + rest);
    AllTrip(read, enc, xs, rest);
  }

  // ----- What may be missing

  function Optional<T>(enc: T -> Bytes, x: Option<T>): Bytes {
    if x.None? then [NIL] else enc(x.value)
  }

  function ReadOptional<T>(read: Bytes -> Parse<T>, s: Bytes): Parse<Option<T>> {
    if s != [] && s[0] == NIL then Some((None, s[1..]))
    else
      var p := read(s);
      if p.None? then None else Some((Some(p.value.0), p.value.1))
  }

  lemma {:induction false} OptionalTrip<T(!new)>(read: Bytes -> Parse<T>, enc: T -> Bytes, x: Option<T>, rest: Bytes)
    requires x.Some? ==> Undoes(read, enc, x.value) && enc(x.value) != [] && enc(x.value)[0] != NIL
    ensures ReadOptional(read, Optional(enc, x) + rest) == Some((x, rest))
  {
    if x.None? {
      assert ([NIL] + rest)[1..] == rest;
    } else {
      assert read(enc(x.value) + rest) == Some((x.value, rest));
    }
  }
}
