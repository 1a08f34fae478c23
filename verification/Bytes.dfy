/** Byte strings, their pieces and the arithmetic of cutting them at a fixed size. */
module Bytes {

  datatype Option<T> = None | Some(value: T)

  /** What a call gives back: a value, or the reason it refused. */
  datatype Outcome<T, E> = Ok(value: T) | Err(reason: E)

  /** CHUNK in src/dfsha/common/domain.py. */
  const CHUNK: nat := 262144

  /** MAX_OFFSET and checked_range in src/dfsha/control/leases.py. */
  const MAX_OFFSET: nat := 0x7FFF_FFFF_FFFF_FFFF

  predicate CheckedRange(offset: nat, length: nat) {
    offset <= MAX_OFFSET && length <= MAX_OFFSET - offset
  }

  type byte = x: int | 0 <= x < 256

  function Min(a: int, b: int): int { if a <= b then a else b }

  function Max(a: int, b: int): int { if a <= b then b else a }

  // Products and quotients by a variable size, by counting: the solver then only sees linear terms.

  function Mul(i: nat, n: nat): nat {
    if i == 0 then 0 else Mul(i - 1, n) + n
  }

  function Div(k: nat, n: nat): nat
    requires n > 0
    decreases k
  {
    if k < n then 0 else Div(k - n, n) + 1
  }

  function Mod(k: nat, n: nat): (r: nat)
    requires n > 0
    ensures r < n
    decreases k
  {
    if k < n then k else Mod(k - n, n)
  }

  /** How many pieces of size n cover a bytes. */
  function CeilDiv(a: nat, n: nat): nat
    requires n > 0
  {
    Div(a + n - 1, n)
  }

  lemma {:induction false} MulIs(i: nat, n: nat)
    ensures Mul(i, n) == i * n
  {
    if i > 0 {
      MulIs(i - 1, n);
      assert i * n == (i - 1) * n + n;
    }
  }

  lemma {:induction false} MulMonotone(i: nat, j: nat, n: nat)
    requires i <= j
    ensures Mul(i, n) <= Mul(j, n)
    ensures i < j ==> Mul(i, n) + n <= Mul(j, n)
    decreases j
  {
    if i < j {
      MulMonotone(i, j - 1, n);
    }
  }

  lemma {:induction false} DivSplit(k: nat, n: nat)
    requires n > 0
    ensures k == Mul(Div(k, n), n) + Mod(k, n)
    decreases k
  {
    if k >= n {
      DivSplit(k - n, n);
    }
  }

  lemma DivUnique(k: nat, i: nat, n: nat)
    requires n > 0
    requires Mul(i, n) <= k < Mul(i, n) + n
    ensures Div(k, n) == i && Mod(k, n) == k - Mul(i, n)
  {
    var q := Div(k, n);
    DivSplit(k, n);
    if q < i {
      MulMonotone(q, i, n);
    } else {
      MulMonotone(i, q, n);
    }
  }

  /** These are the operators of the source: multiplication, // and %. */
  lemma DivIs(k: nat, n: nat)
    requires n > 0
    ensures Div(k, n) == k / n && Mod(k, n) == k % n
  {
    var q := k / n;
    assert 0 <= q && q * n <= k < q * n + n;
    MulIs(q, n);
    DivUnique(k, q, n);
  }

  lemma CeilDivUnique(a: nat, i: nat, n: nat)
    requires n > 0 && Mul(i, n) < a <= Mul(i, n) + n
    ensures CeilDiv(a, n) == i + 1
  {
    DivUnique(a + n - 1, i + 1, n);
  }

  /** CeilDiv counts exactly the pieces that start below a. */
  lemma CeilDivBounds(a: nat, n: nat)
    requires n > 0
    ensures forall i: nat {:trigger Mul(i, n)} :: i < CeilDiv(a, n) <==> Mul(i, n) < a
    ensures CeilDiv(a, n) == 0 <==> a == 0
    ensures a <= Mul(CeilDiv(a, n), n) < a + n
  {
    var c := CeilDiv(a, n);
    DivSplit(a + n - 1, n);
    forall i: nat
      ensures i < c <==> Mul(i, n) < a
    {
      if i < c {
        MulMonotone(i, c, n);
      } else {
        MulMonotone(c, i, n);
      }
    }
  }

  /** The byte string that a list of pieces spells. */
  function Flatten<T>(parts: seq<seq<T>>): seq<T> {
    if parts == [] then [] else parts[0] + Flatten(parts[1..])
  }

  lemma {:induction false} FlattenConcat<T>(a: seq<seq<T>>, b: seq<seq<T>>)
    ensures Flatten(a + b) == Flatten(a) + Flatten(b)
  {
    if a == [] {
      assert a + b == b;
    } else {
      FlattenConcat(a[1..], b);
      assert (a + b)[0] == a[0] && (a + b)[1..] == a[1..] + b;
    }
  }

  lemma FlattenSnoc<T>(a: seq<seq<T>>, x: seq<T>)
    ensures Flatten(a + [x]) == Flatten(a) + x
  {
    FlattenConcat(a, [x]);
    assert Flatten([x]) == x;
  }

  /** Writing delta at offset: the bytes around it stay, the string grows only past its end. */
  function Splice<T>(base: seq<T>, offset: nat, delta: seq<T>): (r: seq<T>)
    requires offset <= |base|
    ensures |r| == Max(|base|, offset + |delta|)
    ensures forall k :: 0 <= k < |r| ==>
      r[k] == if offset <= k < offset + |delta| then delta[k - offset] else base[k]
  {
    base[..offset] + delta + (if offset + |delta| < |base| then base[offset + |delta|..] else [])
  }

  /** Pieces as streams carry them: none empty, none longer than a chunk. */
  predicate Chunked(pieces: seq<seq<byte>>) {
    forall i :: 0 <= i < |pieces| ==> 0 < |pieces[i]| <= CHUNK
  }

  /** out is s cut at multiples of n, the last piece possibly shorter. */
  ghost predicate CutsAt<T>(out: seq<seq<T>>, s: seq<T>, n: nat)
    requires n > 0
  {
    && |out| == CeilDiv(|s|, n)
    && forall k {:trigger out[k]} :: 0 <= k < |out| ==> IsCut(out[k], s, n, k)
  }

  ghost predicate IsCut<T>(piece: seq<T>, s: seq<T>, n: nat, k: nat) {
    Mul(k, n) <= |s| && piece == s[Mul(k, n)..Min(Mul(k, n) + n, |s|)]
  }

  lemma {:induction false} CutsPrefix<T>(out: seq<seq<T>>, s: seq<T>, n: nat, m: nat)
    requires n > 0 && CutsAt(out, s, n) && m <= |out|
    ensures Flatten(out[..m]) == s[..Min(Mul(m, n), |s|)]
  {
    if m > 0 {
      var k := m - 1;
      CutsPrefix(out, s, n, k);
      CeilDivBounds(|s|, n);
      assert Mul(k, n) < |s| && IsCut(out[k], s, n, k);
      assert out[..m] == out[..k] + [out[k]];
      FlattenSnoc(out[..k], out[k]);
    }
  }

  lemma CutsFlatten<T>(out: seq<seq<T>>, s: seq<T>, n: nat)
    requires n > 0 && CutsAt(out, s, n)
    ensures Flatten(out) == s
  {
    CutsPrefix(out, s, n, |out|);
    CeilDivBounds(|s|, n);
    assert out[..|out|] == out;
  }
}
