// Types shared by the condition tracker and the throttle.
module Common {

  // A point in time or a span between two of them, in one integer unit.
  type Time = int

  datatype Option<+T> = None | Some(value: T)

  function Get<K, V>(m: map<K, V>, k: K): Option<V> {
    if k in m then Some(m[k]) else None
  }

  function Front<T>(s: seq<T>): seq<T>
    requires s != []
  {
    s[..|s| - 1]
  }

  function Last<T>(s: seq<T>): T
    requires s != []
  {
    s[|s| - 1]
  }

  /******* Multiples and quotients *******/

  lemma Multiple(n: int, d: int)
    ensures n * d == (n - 1) * d + d
  {
  }

  lemma {:induction false} MulMono(a: nat, b: nat, d: nat)
    requires a <= b
    ensures a * d <= b * d
    decreases b - a
  {
    if a < b {
      MulMono(a, b - 1, d);
      Multiple(b, d);
    }
  }

  lemma QuotientBound(n: nat, d: nat, length: nat)
    requires d > 0 && n * d <= length
    ensures n <= length / d
  {
    var q := length / d;
    if n > q {
      MulMono(q + 1, n, d);
      Multiple(q + 1, d);
    }
  }
}
