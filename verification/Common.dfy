// Bytes and small arithmetic shared by the driver models.
module Common {
  newtype byte = x: int | 0 <= x < 256

  function Min(a: nat, b: nat): nat {
    if a <= b then a else b
  }

  datatype Option<+T> = None | Some(value: T)

  // The bytes `data` laid over `s` from index `at` on: the effect of a memcpy.
  function Overlay<T>(s: seq<T>, at: nat, data: seq<T>): (r: seq<T>)
    requires at + |data| <= |s|
    ensures |r| == |s|
    ensures forall i :: 0 <= i < |s| ==> r[i] == if at <= i < at + |data| then data[i - at] else s[i]
  {
    s[..at] + data + s[at + |data|..]
  }

  lemma ConcatAssociates<T>(a: seq<T>, b: seq<T>, c: seq<T>)
    ensures a + b + c == a + (b + c)
  {
  }

  // --- Quotients and remainders ---

  lemma DivMod(n: nat, d: nat)
    requires 0 < d
    ensures n == n / d * d + n % d
  {
  }

  lemma {:induction false} MultipleStep(q: nat, r: nat, d: nat)
    requires q < r
    ensures q * d + d <= r * d
    decreases r - q
  {
    if q + 1 < r {
      MultipleStep(q, r - 1, d);
      assert r * d == (r - 1) * d + d;
    } else {
      assert r * d == q * d + d;
    }
  }

  lemma {:induction false} TimesAtLeast(q: nat, d: nat)
    requires 0 < d
    ensures q <= q * d
  {
    if q > 0 {
      TimesAtLeast(q - 1, d);
      assert q * d == (q - 1) * d + d;
    }
  }

  lemma QuotientIsSmaller(n: nat, d: nat)
    requires 0 < d
    ensures n / d <= n
  {
    DivMod(n, d);
    TimesAtLeast(n / d, d);
  }

  lemma DigitsUnique(d: nat, q: nat, r: nat)
    requires r < d
    ensures (q * d + r) / d == q && (q * d + r) % d == r
  {
    var n := q * d + r;
    var e := n / d;
    DivMod(n, d);
    if e < q { MultipleStep(e, q, d); }
    if e > q { MultipleStep(q, e, d); }
  }

  // A finite heap always has an address to spare.
  lemma SpareAddress(used: set<int>) returns (p: int)
    ensures p > 0 && p !in used
    ensures forall q :: q in used ==> q < p
    decreases used
  {
    if q :| q in used {
      p := SpareAddress(used - {q});
      forall r | r in used ensures r == q || r < p { assert r != q ==> r in used - {q}; }
      p := if p > q then p else q + 1;
    } else {
      p := 1;
    }
  }
}
