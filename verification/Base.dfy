/** Small vocabulary shared by every module of the project. */
module Base {

  /** An optional value, as the source's `Option`. */
  datatype Option<+T> = None | Some(value: T)

  /** The id of a managed run: an AUTOINCREMENT key. */
  type RunId = nat

  /** Unsigned 64-bit words. */
  const WORD: int := 0x1_0000_0000_0000_0000
  type U64 = x: int | 0 <= x < 0x1_0000_0000_0000_0000

  /** Rust's `saturating_sub` on unsigned values. */
  function SatSub(a: nat, b: nat): nat {
    if a >= b then a - b else 0
  }

  function Min(a: int, b: int): int {
    if a <= b then a else b
  }

  function Max(a: int, b: int): int {
    if a >= b then a else b
  }

  predicate Distinct<T(==)>(xs: seq<T>) {
    forall i, j :: 0 <= i < j < |xs| ==> xs[i] != xs[j]
  }

  function Elements<T(==)>(xs: seq<T>): set<T> {
    set x | x in xs
  }

  /** Adding after a reduction is reducing after the addition. */
  lemma AddMod(a: nat, b: nat)
    ensures (a % WORD + b) % WORD == (a + b) % WORD
  {
    var q := a / WORD;
    assert a == q * WORD + a % WORD;
    var r := (a % WORD + b) / WORD;
    assert a + b == (q + r) * WORD + (a % WORD + b) % WORD;
  }
}
