/** Small vocabulary shared by every component of the model. */
module Prelude {
  datatype Option<+T> = None | Some(value: T)

  datatype Result<+T, +E> = Ok(value: T) | Err(error: E)

  /** One octet of a byte string. */
  type Byte = b: int | 0 <= b < 256

  type Bytes = seq<Byte>

  function Max(a: int, b: int): int { if a < b then b else a }

  function Min(a: int, b: int): int { if a < b then a else b }

  /** The concatenation of all parts, in order. */
  function Flatten<T>(parts: seq<seq<T>>): seq<T>
  {
    if parts == [] then [] else parts[0] + Flatten(parts[1..])
  }

  lemma {:induction false} FlattenAppend<T>(a: seq<seq<T>>, b: seq<seq<T>>)
    ensures Flatten(a + b) == Flatten(a) + Flatten(b)
  {
    if a == [] {
      assert a + b == b;
    } else {
      assert (a + b)[0] == a[0] && (a + b)[1..] == a[1..] + b;
      FlattenAppend(a[1..], b);
    }
  }

  /** The members of a sequence are its first one and those of the rest. */
  lemma ConsMembers<T>(s: seq<T>)
    requires s != []
    ensures forall x :: x in s <==> x == s[0] || x in s[1..]
  {
    assert s == [s[0]] + s[1..];
  }

  // ---------- division ----------

  lemma DivisionUnique(m: nat, size: int, q: int, k: int)
    requires size >= 1 && 0 <= k < size && m == q * size + k
    ensures m / size == q
  {
    QuotientUnique(size, q, k, m / size, m % size);
  }

  lemma QuotientUnique(size: int, q: int, k: int, d: int, e: int)
    requires 0 <= k < size && 0 <= e < size && q * size + k == d * size + e
    ensures q == d
  {
    assert (d - q) * size == k - e;
    if d > q {
      ProductAtLeast(d - q, size);
    } else if d < q {
      ProductAtLeast(q - d, size);
    }
  }

  lemma ProductAtLeast(a: int, b: int)
    requires a >= 1 && b >= 1
    ensures a * b >= b
  {
    assert (a - 1) * b >= 0;
  }
}
