/** Small datatypes and sequence facts shared by the other modules. */
module Prelude {

  datatype Option<+T> = None | Some(value: T)

  datatype Result<+T, +E> = Ok(value: T) | Err(error: E)

  type byte = x: int | 0 <= x < 256

  /** Round half to even, as Python's `round` and NumPy's `rint` do. */
  function RoundHalfEven(v: real): (n: int)
    ensures -0.5 <= n as real - v <= 0.5
    ensures (n as real - v == 0.5 || n as real - v == -0.5) ==> n % 2 == 0
  {
    var f := v.Floor;
    var d := v - f as real;
    if d < 0.5 then f else if d > 0.5 then f + 1 else if f % 2 == 0 then f else f + 1
  }

  function Min(a: int, b: int): int { if a <= b then a else b }

  function Max(a: int, b: int): int { if a >= b then a else b }

  /** The concatenation of a list of sequences. */
  function Flatten<T>(parts: seq<seq<T>>): seq<T> {
    if parts == [] then [] else parts[0] + Flatten(parts[1..])
  }

  lemma {:induction false} FlattenSnoc<T>(parts: seq<seq<T>>, last: seq<T>)
    ensures Flatten(parts + [last]) == Flatten(parts) + last
  {
    if parts == [] {
      assert parts + [last] == [last];
      assert Flatten([last]) == last + Flatten([]);
    } else {
      assert (parts + [last])[1..] == parts[1..] + [last];
      FlattenSnoc(parts[1..], last);
    }
  }

  /** `[g(0), ..., g(n - 1)]`. */
  function Tabulate<T>(n: nat, g: nat -> T): (s: seq<T>)
    ensures |s| == n
  {
    if n == 0 then [] else Tabulate(n - 1, g) + [g(n - 1)]
  }

  lemma {:induction false} TabulateAt<T>(n: nat, g: nat -> T, k: nat)
    requires k < n
    ensures Tabulate(n, g)[k] == g(k)
  {
    if k < n - 1 {
      TabulateAt(n - 1, g, k);
    }
  }

  function Map<T, R>(f: T -> R, s: seq<T>): (r: seq<R>)
    ensures |r| == |s|
  {
    if s == [] then [] else Map(f, s[..|s| - 1]) + [f(s[|s| - 1])]
  }

  lemma {:induction false} MapAt<T, R>(f: T -> R, s: seq<T>, k: nat)
    requires k < |s|
    ensures Map(f, s)[k] == f(s[k])
  {
    if k < |s| - 1 {
      MapAt(f, s[..|s| - 1], k);
    }
  }

  lemma {:induction false} MapAppend<T, R>(f: T -> R, a: seq<T>, b: seq<T>)
    ensures Map(f, a + b) == Map(f, a) + Map(f, b)
  {
    if b == [] {
      assert a + b == a;
    } else {
      assert (a + b)[..|a + b| - 1] == a + b[..|b| - 1];
      MapAppend(f, a, b[..|b| - 1]);
    }
  }

  lemma Associative<T>(a: seq<T>, b: seq<T>, c: seq<T>)
    ensures a + (b + c) == (a + b) + c
  {
  }

  /** `s[i..]`, written so that dropping nothing is visibly the sequence itself. */
  function From<T>(s: seq<T>, i: nat): seq<T>
    requires i <= |s|
  {
    if i == 0 then s else s[i..]
  }

  lemma FromAppend<T>(s: seq<T>, t: seq<T>, i: nat)
    requires i <= |s|
    ensures From(s, i) + t == From(s + t, i)
  {
  }

  /** Quotient and remainder are determined by their defining equation. */
  lemma DivisionIsUnique(x: int, q: int, r: int, u: int)
    requires u > 0 && x == q * u + r && 0 <= r < u
    ensures x / u == q && x % u == r
  {
    var d := q - x / u;
    assert x == (x / u) * u + x % u;
    assert d * u == x % u - r;
    if d >= 1 {
      MulMonotone(1, d, u);
    } else if d <= -1 {
      MulMonotone(d, -1, u);
    }
  }

  /** Quotient and product: `k` lies below `a / b` exactly when `k + 1` copies of `b` fit in `a`. */
  lemma BelowQuotient(k: int, a: int, b: int)
    requires b > 0
    ensures k < a / b <==> (k + 1) * b <= a
  {
    var q := a / b;
    assert a == q * b + a % b;
    if k < q {
      MulMonotone(k + 1, q, b);
    } else {
      MulMonotone(q, k, b);
      assert (k + 1) * b == k * b + b;
    }
  }

  lemma MulMonotone(x: int, y: int, b: int)
    requires x <= y && b >= 0
    ensures x * b <= y * b
  {
    assert (y - x) * b >= 0;
    assert (y - x) * b == y * b - x * b;
  }

  /** Division is monotone in the dividend. */
  lemma DivMonotone(x: int, y: int, b: int)
    requires x <= y && b > 0
    ensures x / b <= y / b
  {
    if x / b > y / b {
      BelowQuotient(y / b, x, b);
      BelowQuotient(y / b, y, b);
    }
  }

  /** `n % unit`, defined by repeated subtraction so that proofs can follow the units. */
  function Leftover(n: nat, unit: nat): (r: nat)
    requires unit > 0
    ensures r <= n && r < unit
  {
    if n < unit then n else Leftover(n - unit, unit)
  }

  lemma {:induction false} LeftoverIsRemainder(n: nat, unit: nat)
    requires unit > 0
    ensures Leftover(n, unit) == n % unit
  {
    if n >= unit {
      LeftoverIsRemainder(n - unit, unit);
      AddUnit(n - unit, unit);
    }
  }

  lemma AddUnit(n: nat, unit: nat)
    requires unit > 0
    ensures (n + unit) % unit == n % unit
  {
    var q, r := n / unit, n % unit;
    assert n + unit == (q + 1) * unit + r;
    DivisionIsUnique(n + unit, q + 1, r, unit);
  }

  /** What is left of `b` after its whole units of `unit` elements, and the part before it. */
  function Rest<T>(b: seq<T>, unit: nat): (r: seq<T>)
    requires unit > 0
    ensures |r| <= |b| && |r| < unit
  {
    if |b| < unit then b else Rest(b[unit..], unit)
  }

  function Whole<T>(b: seq<T>, unit: nat): seq<T>
    requires unit > 0
  {
    b[..|b| - |Rest(b, unit)|]
  }

  lemma {:induction false} RestIsSuffix<T>(b: seq<T>, unit: nat)
    requires unit > 0
    ensures |Rest(b, unit)| == Leftover(|b|, unit) && Rest(b, unit) == From(b, |b| - |Rest(b, unit)|)
  {
    if |b| >= unit {
      var c := b[unit..];
      RestIsSuffix(c, unit);
      assert From(b, |b| - |Rest(b, unit)|) == From(c, |c| - |Rest(c, unit)|);
    }
  }

  lemma {:induction false} NothingLeftOver(n: nat, unit: nat)
    requires unit > 0
    ensures Leftover(n - Leftover(n, unit), unit) == 0
  {
    if n >= unit {
      NothingLeftOver(n - unit, unit);
    }
  }

  lemma FromIsTail<T>(b: seq<T>, k: nat)
    requires k <= |b|
    ensures From(b, k) == b[k..]
  {
  }

  lemma CutAt<T>(b: seq<T>, k: nat)
    requires k <= |b|
    ensures b[..k] + b[k..] == b && |b[..k]| == k
  {
  }

  lemma WholeThenRest<T>(b: seq<T>, unit: nat)
    requires unit > 0
    ensures |Rest(b, unit)| == Leftover(|b|, unit) && Leftover(|Whole(b, unit)|, unit) == 0
    ensures Rest(b, unit) == b[|Whole(b, unit)|..] && Whole(b, unit) + Rest(b, unit) == b
  {
    hide Rest, From, Leftover;
    var k := |b| - |Rest(b, unit)|;
    RestIsSuffix(b, unit);
    NothingLeftOver(|b|, unit);
    FromIsTail(b, k);
    CutAt(b, k);
  }

  lemma {:induction false} RestOfAppend<T>(a: seq<T>, b: seq<T>, unit: nat)
    requires unit > 0
    ensures Rest(a + b, unit) == Rest(Rest(a, unit) + b, unit)
  {
    if |a| >= unit {
      RestOfAppend(a[unit..], b, unit);
      assert (a + b)[unit..] == a[unit..] + b;
    }
  }

  /**
   * Carrying the remainder of one call into the next cuts the stream at the same
   * places as aligning it in one piece.
   */
  lemma WholeOfAppend<T>(a: seq<T>, b: seq<T>, unit: nat)
    requires unit > 0
    ensures Rest(a + b, unit) == Rest(Rest(a, unit) + b, unit)
    ensures Whole(a + b, unit) == Whole(a, unit) + Whole(Rest(a, unit) + b, unit)
  {
    RestOfAppend(a, b, unit);
    WholeThenRest(a, unit);
    var w, r := Whole(a, unit), Rest(a, unit);
    Associative(w, r, b);
    CutAppend(w, r + b, |Rest(r + b, unit)|);
  }

  lemma CutAppend<T>(w: seq<T>, t: seq<T>, k: nat)
    requires k <= |t|
    ensures (w + t)[..|w + t| - k] == w + t[..|t| - k]
  {
  }

  lemma CutThrough<T>(a: seq<T>, b: seq<T>, k: nat)
    requires k <= |a|
    ensures (a + b)[..k] == a[..k] && (a + b)[k..] == a[k..] + b
  {
  }

  /** The whole units of `s`, one by one. */
  function Chunks<T>(s: seq<T>, unit: nat): seq<seq<T>>
    requires unit > 0
  {
    if |s| < unit then [] else [s[..unit]] + Chunks(s[unit..], unit)
  }

  lemma {:induction false} ChunksAppend<T>(a: seq<T>, b: seq<T>, unit: nat)
    requires unit > 0 && Leftover(|a|, unit) == 0
    ensures Chunks(a + b, unit) == Chunks(a, unit) + Chunks(b, unit)
  {
    if |a| < unit {
      assert a + b == b;
    } else {
      var rest := Chunks(a[unit..], unit);
      ChunksAppend(a[unit..], b, unit);
      CutThrough(a, b, unit);
      Associative([a[..unit]], rest, Chunks(b, unit));
    }
  }
}
