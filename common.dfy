/** Small shared vocabulary: optional values, Java's int arithmetic and strings. */
module Common {

  /** A Java reference that may be null. */
  datatype Option<+T> = None | Some(value: T)

  /** The largest Java `int`, `Integer.MAX_VALUE`. */
  const IntMax: int := 0x7FFF_FFFF
  const IntMin: int := -0x8000_0000

  function Min(a: int, b: int): int { if a <= b then a else b }

  /** Java's `int` addition result: `x` wrapped to 32-bit two's complement. */
  function ToInt32(x: int): (r: int)
    ensures IntMin <= r <= IntMax
    ensures (x - r) % 0x1_0000_0000 == 0
    ensures IntMin <= x <= IntMax ==> r == x
  {
    var m := x % 0x1_0000_0000;
    if m > IntMax then m - 0x1_0000_0000 else m
  }

  /** Java's `long` division, which truncates toward zero (Dafny's `/` is Euclidean). */
  function TruncDiv(a: int, b: int): (q: int)
    requires b > 0
    ensures a >= 0 ==> q == a / b
    ensures a < 0 ==> q == -((-a) / b)
  {
    if a >= 0 then a / b else -((-a) / b)
  }

  /** `StringUtils.isEmpty`: a null string is modelled as the empty string. */
  predicate IsEmpty(s: string) { |s| == 0 }

  predicate StartsWith(s: string, prefix: string) { |prefix| <= |s| && s[..|prefix|] == prefix }

  /** The elements of `order` are pairwise distinct. */
  predicate Distinct<T(==)>(order: seq<T>)
  {
    forall i, j :: 0 <= i < j < |order| ==> order[i] != order[j]
  }

  /**
   * `order` visits every element of `s` exactly once: the order in which a
   * Java collection's `forEach` happens to run, which the model takes as given.
   */
  predicate Lists<T(==)>(order: seq<T>, s: set<T>)
  {
    Distinct(order) && (forall x :: x in s ==> x in order) && (forall i :: 0 <= i < |order| ==> order[i] in s)
  }
}
