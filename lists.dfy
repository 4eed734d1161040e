/** Removing records by id, as both client lists do with
    `prev.filter((x) => x.id !== id)`. */
module Lists {

  /** The records of `xs` whose `key` is not `id`, in their order. */
  function Without<T>(xs: seq<T>, id: int, key: T -> int): seq<T> {
    if xs == [] then []
    else (if key(xs[0]) == id then [] else [xs[0]]) + Without(xs[1..], id, key)
  }

  /** A record survives exactly when it was there and has another id. */
  lemma {:induction false} WithoutMembers<T>(xs: seq<T>, id: int, key: T -> int, x: T)
    ensures x in Without(xs, id, key) <==> x in xs && key(x) != id
  {
    if xs != [] {
      WithoutMembers(xs[1..], id, key, x);
      assert xs == [xs[0]] + xs[1..];
    }
  }

  /** The filter works piece by piece, so what it keeps stays in order. */
  lemma {:induction false} WithoutAppend<T>(a: seq<T>, b: seq<T>, id: int, key: T -> int)
    ensures Without(a + b, id, key) == Without(a, id, key) + Without(b, id, key)
  {
    if a == [] {
      assert a + b == b;
    } else {
      assert (a + b)[0] == a[0];
      assert (a + b)[1..] == a[1..] + b;
      WithoutAppend(a[1..], b, id, key);
    }
  }

  /** A list without the id is left as it is. */
  lemma {:induction false} WithoutAbsent<T>(xs: seq<T>, id: int, key: T -> int)
    requires forall i :: 0 <= i < |xs| ==> key(xs[i]) != id
    ensures Without(xs, id, key) == xs
  {
    if xs != [] {
      WithoutAbsent(xs[1..], id, key);
    }
  }

  /** The filter never lengthens the list, and shortens it when the id is
      there. */
  lemma {:induction false} WithoutShorter<T>(xs: seq<T>, id: int, key: T -> int)
    ensures |Without(xs, id, key)| <= |xs|
    ensures (exists i :: 0 <= i < |xs| && key(xs[i]) == id) ==> |Without(xs, id, key)| < |xs|
  {
    if xs != [] {
      WithoutShorter(xs[1..], id, key);
      if key(xs[0]) != id {
        assert forall i :: 1 <= i < |xs| ==> xs[i] == xs[1..][i - 1];
      }
    }
  }
}
