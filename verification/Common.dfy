/** Small shared vocabulary: options, fixed-width integers and sequence folds. */
module Common {

  datatype Option<+T> = None | Some(value: T)

  /** Unsigned machine integers of the C++ sources; wrap-around is always written out. */
  const TWO_8: int := 0x100
  const TWO_32: int := 0x1_0000_0000
  const TWO_64: int := 0x1_0000_0000_0000_0000
  const INT_MAX: int := 0x7FFF_FFFF

  type U8 = n: nat | n < 0x100
  type U32 = n: nat | n < 0x1_0000_0000

  function Zeros(n: nat): (z: seq<U8>)
    ensures |z| == n
  {
    seq(n, _ => 0)
  }

  /** Concatenation of a sequence of sequences. */
  function Flatten<T>(parts: seq<seq<T>>): seq<T> {
    if parts == [] then [] else parts[0] + Flatten(parts[1..])
  }

  lemma FlattenEmpty<T>()
    ensures Flatten<T>([]) == []
  {
  }

  lemma {:induction false} FlattenAppend<T>(parts: seq<seq<T>>, last: seq<T>)
    ensures Flatten(parts + [last]) == Flatten(parts) + last
  {
    if parts == [] {
      assert Flatten([last]) == last + Flatten([]);
    } else {
      assert (parts + [last])[1..] == parts[1..] + [last];
      FlattenAppend(parts[1..], last);
    }
  }

  lemma DivisionIs(n: nat, k: nat, q: nat)
    requires k > 0 && q * k <= n < (q + 1) * k
    ensures n / k == q && n % k == n - q * k
  {
    var d := n / k;
    assert n == d * k + n % k;
    TimesMonotone(q + 1, d, k);
    TimesMonotone(d + 1, q, k);
    assert (d + 1) * k == d * k + k;
  }

  lemma TimesMonotone(a: nat, b: nat, k: nat)
    ensures a <= b ==> a * k <= b * k
  {
    if a <= b { assert b * k == a * k + (b - a) * k; }
  }
}
