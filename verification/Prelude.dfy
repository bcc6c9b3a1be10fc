/** Vocabulary shared by every module: optional values, results, bytes. */
module Prelude {

  datatype Option<+T> = None | Some(value: T)

  datatype Result<+T, +E> = Ok(value: T) | Err(error: E)

  /** An octet. Arithmetic on octets is arithmetic on int. */
  type byte = x: int | 0 <= x < 256

  type bytes = seq<byte>

  const MAX_I32: int := 0x7fff_ffff
  const MAX_I64: int := 0x7fff_ffff_ffff_ffff
  const MAX_U64: int := 0xffff_ffff_ffff_ffff

  /** The most one transfer may announce, on either side: 100 GiB. */
  const MAX_TOTAL_TRANSFER_BYTES: nat := 100 * 1024 * 1024 * 1024

  /** The integers of an `int64` field. */
  type i64 = x: int | -0x8000_0000_0000_0000 <= x <= MAX_I64

  /** `n as i64` for a u64. */
  function AsI64(n: nat): i64 {
    var m := n % 0x1_0000_0000_0000_0000;
    if m <= MAX_I64 then m else m - 0x1_0000_0000_0000_0000
  }

  /** The one 64-bit number congruent to `n`; up to the largest of them, `n` itself. */
  lemma AsI64Wraps(n: nat)
    ensures (n - AsI64(n)) % 0x1_0000_0000_0000_0000 == 0 && (n <= MAX_I64 ==> AsI64(n) == n)
  {
    var q := n / 0x1_0000_0000_0000_0000;
    assert n == q * 0x1_0000_0000_0000_0000 + n % 0x1_0000_0000_0000_0000;
    if n % 0x1_0000_0000_0000_0000 <= MAX_I64 {
      MultipleOfWord(n - AsI64(n), q);
    } else {
      MultipleOfWord(n - AsI64(n), q + 1);
    }
  }

  lemma MultipleOfWord(n: int, q: int)
    requires n == q * 0x1_0000_0000_0000_0000
    ensures n % 0x1_0000_0000_0000_0000 == 0
  {
  }

  /** `flags & 1 != 0` on a two's-complement integer. */
  predicate LowBit(flags: int) {
    flags % 2 != 0
  }

  lemma LowBitIsOdd(k: int)
    ensures LowBit(2 * k + 1) && !LowBit(2 * k)
  {
  }

  /** The unsigned number that a string of octets writes, most significant first. */
  function Value(b: bytes): nat {
    if b == [] then 0 else Value(b[..|b| - 1]) * 256 + b[|b| - 1] as int
  }

  /** The number that a string of decimal digits writes. */
  function ValueOf(s: string): int
    requires forall i :: 0 <= i < |s| ==> '0' <= s[i] <= '9'
  {
    if s == "" then 0 else ValueOf(s[..|s| - 1]) * 10 + (s[|s| - 1] as int - '0' as int)
  }

  function GetOr<T>(o: Option<T>, default: T): T {
    match o
    case Some(v) => v
    case None => default
  }

  function Concat(pieces: seq<bytes>): bytes {
    if pieces == [] then [] else pieces[0] + Concat(pieces[1..])
  }

  lemma ConcatAppend(pieces: seq<bytes>, last: bytes)
    ensures Concat(pieces + [last]) == Concat(pieces) + last
  {
    if pieces == [] {
      assert pieces + [last] == [last];
      assert [last][1..] == [];
    } else {
      ConcatAppend(pieces[1..], last);
      assert (pieces + [last])[1..] == pieces[1..] + [last];
    }
  }

  function Filter<T>(keep: T -> bool, xs: seq<T>): (r: seq<T>)
    ensures forall x :: x in r ==> x in xs && keep(x)
  {
    if xs == [] then []
    else if keep(xs[0]) then [xs[0]] + Filter(keep, xs[1..])
    else Filter(keep, xs[1..])
  }

  lemma FilterAppend<T>(keep: T -> bool, xs: seq<T>, ys: seq<T>)
    ensures Filter(keep, xs + ys) == Filter(keep, xs) + Filter(keep, ys)
  {
    if xs == [] {
      assert xs + ys == ys;
    } else {
      assert (xs + ys)[1..] == xs[1..] + ys;
      FilterAppend(keep, xs[1..], ys);
    }
  }

  lemma ConsSplit<T>(xs: seq<T>, tail: seq<T>)
    requires xs != []
    ensures [xs[0]] + (xs[1..] + tail) == xs + tail
  {
  }

  lemma SuffixOfTail<T>(xs: seq<T>, n: nat)
    requires xs != [] && n < |xs|
    ensures xs[1..][..n] == xs[1..n + 1] && xs[..n + 1] == [xs[0]] + xs[1..][..n]
    ensures xs[1..][n..] == xs[n + 1..]
  {
  }

  lemma JoinSplit<T>(xs: seq<T>, ys: seq<T>)
    requires ys != []
    ensures xs + [ys[0]] + ys[1..] == xs + ys
  {
  }

  /** The sum of a finite table of sizes. */
  ghost function Sum(m: map<int, nat>): nat
    decreases |m|
  {
    if exists k :: k in m then
      var k :| k in m;
      m[k] + Sum(m - {k})
    else 0
  }

  lemma SumRemove(m: map<int, nat>, k: int)
    requires k in m
    ensures Sum(m) == m[k] + Sum(m - {k})
    decreases |m|
  {
    var j :| j in m && Sum(m) == m[j] + Sum(m - {j});
    if j != k {
      SumRemove(m - {j}, k);
      SumRemove(m - {k}, j);
      assert m - {j} - {k} == m - {k} - {j};
    }
  }

  lemma SumUpdate(m: map<int, nat>, k: int, v: nat)
    ensures Sum(m[k := v]) == Sum(m - {k}) + v
    ensures k in m ==> Sum(m[k := v]) + m[k] == Sum(m) + v
  {
    SumRemove(m[k := v], k);
    assert m[k := v] - {k} == m - {k};
    if k in m {
      SumRemove(m, k);
    }
  }
}
