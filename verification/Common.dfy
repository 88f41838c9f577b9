// Shared vocabulary: octets, optional values and small sequence facts.
module Common {
  datatype Option<+T> = None | Some(value: T)

  type Byte = x: int | 0 <= x < 256

  type Bytes = seq<Byte>

  function Min(a: nat, b: nat): nat {
    if a <= b then a else b
  }

  lemma Assoc<T>(a: seq<T>, b: seq<T>, c: seq<T>)
    ensures a + (b + c) == a + b + c
  {
  }

  // The concatenation of a list of byte strings.
  function Flatten(parts: seq<Bytes>): Bytes {
    if parts == [] then [] else parts[0] + Flatten(parts[1..])
  }

  lemma {:induction false} FlattenAppend(a: seq<Bytes>, b: seq<Bytes>)
    ensures Flatten(a + b) == Flatten(a) + Flatten(b)
  {
    if a == [] {
      assert a + b == b;
    } else {
      FlattenAppend(a[1..], b);
      assert (a + b)[1..] == a[1..] + b && (a + b)[0] == a[0];
      Assoc(a[0], Flatten(a[1..]), Flatten(b));
    }
  }

  lemma FlattenSnoc(a: seq<Bytes>, b: Bytes)
    ensures Flatten(a + [b]) == Flatten(a) + b
  {
    FlattenAppend(a, [b]);
    assert Flatten([b]) == b + Flatten([]) == b;
  }
}

// Products and quotients of unknowns.
module Arithmetic {
  lemma MulAssoc(a: int, b: int, c: int)
    ensures a * b * c == a * (b * c)
  {
  }

  lemma MulGrows(k: int, u: int)
    requires k >= 1 && u >= 0
    ensures k * u >= u
  {
    assert (k - 1) * u >= 0;
  }

  lemma DivideUnique(a: int, u: int, q: int, r: int)
    requires u > 0 && a == q * u + r && 0 <= r < u
    ensures a / u == q
  {
    var p, s := a / u, a % u;
    assert a == p * u + s && 0 <= s < u;
    assert (q - p) * u == q * u - p * u == s - r;
    if p < q {
      MulGrows(q - p, u);
    } else if p > q {
      MulGrows(p - q, u);
    }
  }

  // Dividing by one number and then by another is dividing by their product.
  lemma DivideTwice(v: int, a: int, b: int)
    requires a > 0 && b > 0
    ensures a * b > 0 && v / a / b == v / (a * b)
  {
    var q, r := v / a, v % a;
    var p, s := q / b, q % b;
    MulGrows(b, a);
    Regroup(v, a, b, p, s, r);
    Remainder(a, b, s, r);
    DivideUnique(v, a * b, p, a * s + r);
  }

  lemma Regroup(v: int, a: int, b: int, p: int, s: int, r: int)
    requires v == a * (b * p + s) + r
    ensures v == p * (a * b) + (a * s + r)
  {
    MulAssoc(a, b, p);
    assert a * (b * p + s) == a * (b * p) + a * s;
  }

  lemma Remainder(a: int, b: int, s: int, r: int)
    requires 0 <= s < b && 0 <= r < a
    ensures 0 <= a * s + r < a * b
  {
    MulGrows(b - s, a);
    assert (b - s) * a == a * b - a * s;
    assert a * s >= 0;
  }
}
