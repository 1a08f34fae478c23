/** Byte-string keys in the order that etcd keeps them, and the ranges of it. */
module Keys {
  import opened Bytes

  type Key = seq<byte>

  predicate Leq(a: Key, b: Key) {
    a == [] || (b != [] && (a[0] < b[0] || (a[0] == b[0] && Leq(a[1..], b[1..]))))
  }

  predicate Less(a: Key, b: Key) { Leq(a, b) && a != b }

  lemma {:induction false} LeqTotal(a: Key, b: Key)
    ensures Leq(a, b) || Leq(b, a)
    ensures Leq(a, b) && Leq(b, a) ==> a == b
  {
    if a != [] && b != [] {
      LeqTotal(a[1..], b[1..]);
      assert a == [a[0]] + a[1..] && b == [b[0]] + b[1..];
    }
  }

  lemma {:induction false} LeqTransitive(a: Key, b: Key, c: Key)
    requires Leq(a, b) && Leq(b, c)
    ensures Leq(a, c)
  {
    if a != [] && b != [] && c != [] && a[0] == b[0] == c[0] {
      LeqTransitive(a[1..], b[1..], c[1..]);
    }
  }

  lemma {:induction false} LeqReflexive(a: Key)
    ensures Leq(a, a)
  {
    if a != [] {
      LeqReflexive(a[1..]);
    }
  }

  /** The key right after last: no key lies between. */
  lemma {:induction false} Successor(last: Key, k: Key)
    ensures Leq(last + [0], k) <==> Less(last, k)
  {
    if last == [] {
      assert last + [0] == [0];
    } else {
      assert (last + [0])[0] == last[0] && (last + [0])[1..] == last[1..] + [0];
      if k != [] {
        Successor(last[1..], k[1..]);
        assert last == [last[0]] + last[1..] && k == [k[0]] + k[1..];
      }
    }
  }

  /** The end that stands for the end of the key space. */
  const TOP: Key := [0]

  /** The keys of a range request: from low on, up to but not including high. */
  predicate InRange(k: Key, low: Key, high: Key) {
    Leq(low, k) && (high == TOP || Less(k, high))
  }

  /** prefix_end: the loop from the last byte on, looking for one that can be counted up. */
  method PrefixEnd(prefix: Key) returns (end: Key)
    ensures forall k :: InRange(k, prefix, end) <==> prefix <= k
  {
    var index := |prefix|;
    while index > 0
      invariant 0 <= index <= |prefix| && forall i :: index <= i < |prefix| ==> prefix[i] == 255
    {
      index := index - 1;
      if prefix[index] < 255 {
        end := prefix[..index] + [prefix[index] + 1];
        forall k: Key ensures InRange(k, prefix, end) <==> prefix <= k {
          CountedUp(prefix, index, k);
        }
        return;
      }
    }
    end := TOP;
    forall k: Key ensures InRange(k, prefix, end) <==> prefix <= k {
      AllMax(prefix, k);
    }
  }

  lemma {:induction false} AllMax(prefix: Key, k: Key)
    requires forall i :: 0 <= i < |prefix| ==> prefix[i] == 255
    ensures Leq(prefix, k) <==> prefix <= k
  {
    if prefix != [] && k != [] {
      AllMax(prefix[1..], k[1..]);
      assert prefix <= k <==> prefix[0] == k[0] && prefix[1..] <= k[1..] by {
        Peel(prefix, k);
      }
    }
  }

  lemma Peel(a: Key, b: Key)
    requires a != [] && b != []
    ensures a <= b <==> a[0] == b[0] && a[1..] <= b[1..]
  {
    if a[0] == b[0] && a[1..] <= b[1..] {
      assert b == [b[0]] + b[1..] && a == [a[0]] + a[1..];
      assert b[..|a|] == [b[0]] + b[1..][..|a| - 1];
    }
  }

  /** With everything after index at its maximum, the keys below the counted-up prefix are those that start with
      the prefix. */
  lemma {:induction false} CountedUp(prefix: Key, index: nat, k: Key)
    requires index < |prefix| && prefix[index] < 255 && forall i :: index < i < |prefix| ==> prefix[i] == 255
    ensures var end := prefix[..index] + [prefix[index] + 1];
      end != TOP && (Leq(prefix, k) && Less(k, end) <==> prefix <= k)
  {
    var end := prefix[..index] + [prefix[index] + 1];
    if k == [] {
    } else if index == 0 {
      AllMax(prefix[1..], k[1..]);
      Peel(prefix, k);
      assert Less(k, end) <==> k[0] < end[0] by {
        LeqTotal(k, end);
        assert k[0] == end[0] ==> (Leq(k, end) <==> k[1..] == []);
      }
    } else {
      CountedUp(prefix[1..], index - 1, k[1..]);
      assert end[1..] == prefix[1..][..index - 1] + [prefix[1..][index - 1] + 1];
      Peel(prefix, k);
      assert k[0] == end[0] ==> (Less(k, end) <==> Less(k[1..], end[1..])) by {
        assert k == [k[0]] + k[1..] && end == [end[0]] + end[1..];
      }
    }
  }

  // ---------------------------------------------------------------- pages of a range

  ghost predicate IsLeast(k: Key, keys: set<Key>) {
    k in keys && forall j :: j in keys ==> Leq(k, j)
  }

  lemma {:induction false} Least(keys: set<Key>) returns (k: Key)
    requires keys != {}
    ensures IsLeast(k, keys)
  {
    var x :| x in keys;
    LeqReflexive(x);
    k := x;
    if keys != {x} {
      var least := Least(keys - {x});
      LeqTotal(x, least);
      if Leq(x, least) {
        forall j | j in keys ensures Leq(x, j) {
          if j != x {
            LeqTransitive(x, least, j);
          }
        }
      } else {
        k := least;
      }
    }
  }

  /** A range request with a limit: the first keys of the range in ascending order, and whether there are more. */
  method Range(keys: set<Key>, low: Key, high: Key, limit: nat) returns (page: seq<Key>, more: bool)
    requires limit > 0
    ensures |page| <= limit && (forall k :: k in page ==> k in keys && InRange(k, low, high))
    ensures forall k :: k in keys && InRange(k, low, high) && k !in page ==> more && page != [] && Less(page[|page| - 1], k)
    ensures page == [] <==> forall k :: k in keys ==> !InRange(k, low, high)
    ensures forall k :: k in page ==> Leq(k, page[|page| - 1])
    ensures forall i, j :: 0 <= i < j < |page| ==> page[i] != page[j]
  {
    var left := set k | k in keys && InRange(k, low, high);
    page := [];
    while left != {} && |page| < limit
      invariant |page| <= limit && left <= keys
      invariant forall k :: k in keys && InRange(k, low, high) <==> k in left || k in page
      invariant forall k :: k in left ==> k !in page && (page != [] ==> Less(page[|page| - 1], k))
      invariant page == [] ==> forall k :: k in keys && InRange(k, low, high) ==> k in left
      invariant forall k :: k in page ==> Leq(k, page[|page| - 1])
      invariant forall i, j :: 0 <= i < j < |page| ==> page[i] != page[j]
      decreases left
    {
      ghost var least := Least(left);
      var k :| k in left && forall j :: j in left ==> Leq(k, j);
      left := left - {k};
      LeqReflexive(k);
      forall j | j in page ensures Leq(j, k) {
        LeqTransitive(j, page[|page| - 1], k);
      }
      page := page + [k];
    }
    more := left != {};
    assert page != [] ==> page[0] in page;
  }
}
