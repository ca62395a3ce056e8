/**
 Key generation and encryption of the toy lattice scheme in quarantine/lattice.rs, for any module
 dimension.  Randomly drawn polynomials are parameters.
 */
module LatticeScheme {
  import opened Congruence
  import opened NegacyclicRing
  import opened LatticePoly

  type PolyVec = seq<Poly>
  type Matrix = seq<PolyVec>

  ghost predicate Shape(xs: PolyVec, count: nat, n: nat) {
    |xs| == count && forall i :: 0 <= i < count ==> |xs[i]| == n
  }

  ghost predicate MatrixShape(a: Matrix, count: nat, n: nat) {
    |a| == count && forall i :: 0 <= i < count ==> Shape(a[i], count, n)
  }

  function Zero(n: nat): (z: Poly)
    ensures |z| == n && forall k :: 0 <= k < n ==> z[k] == 0
  {
    seq(n, _ => 0)
  }

  function Column(a: Matrix, j: nat): (c: PolyVec)
    requires forall i :: 0 <= i < |a| ==> j < |a[i]|
    ensures |c| == |a| && forall i :: 0 <= i < |a| ==> c[i] == a[i][j]
  {
    seq(|a|, i requires 0 <= i < |a| => a[i][j])
  }

  // ---------------------------------------------------------------------------------------
  // What the loops compute

  /** The running sum of products, reduced after every step. */
  function Accumulate(xs: PolyVec, ys: PolyVec, m: nat, n: nat, q: int): (r: Poly)
    requires q > 0 && m <= |xs| && m <= |ys|
    requires forall i :: 0 <= i < m ==> |xs[i]| == n
    ensures |r| == n
  {
    if m == 0 then Zero(n) else ModPlus(Accumulate(xs, ys, m - 1, n, q), ModTimes(xs[m - 1], ys[m - 1], q), q)
  }

  function Masked(xs: PolyVec, ys: PolyVec, error: Poly, n: nat, q: int): (r: Poly)
    requires q > 0 && |xs| <= |ys| && |error| == n && forall i :: 0 <= i < |xs| ==> |xs[i]| == n
    ensures |r| == n
  {
    ModPlus(Accumulate(xs, ys, |xs|, n, q), error, q)
  }

  predicate BitOf(byte: bv8, bit: nat)
    requires bit < 8
  {
    (byte >> bit) & 1 == 1
  }

  predicate MessageBit(data: seq<bv8>, k: nat) {
    k < 8 * |data| && BitOf(data[k / 8], k % 8)
  }

  /** The first n message bits as coefficients 0 and 1. */
  function MessagePoly(data: seq<bv8>, n: nat): (m: Poly)
    ensures |m| == n && forall k :: 0 <= k < n ==> m[k] == if MessageBit(data, k) then 1 else 0
  {
    seq(n, k requires 0 <= k < n => if MessageBit(data, k) then 1 else 0)
  }

  /** The part of a byte that a coefficient stands for. */
  function Bit(coefficient: int, weight: bv8): bv8 {
    if coefficient == 1 then weight else 0
  }

  lemma BitsSpellByte(byte: bv8)
    ensures (if BitOf(byte, 0) then 1 else 0) + (if BitOf(byte, 1) then 2 else 0) + (if BitOf(byte, 2) then 4 else 0)
            + (if BitOf(byte, 3) then 8 else 0) + (if BitOf(byte, 4) then 16 else 0) + (if BitOf(byte, 5) then 32 else 0)
            + (if BitOf(byte, 6) then 64 else 0) + (if BitOf(byte, 7) then 128 else 0) == byte
  {}

  /** Eight coefficients after one another spell a byte of the data, lowest bit first; beyond the data they are zero. */
  lemma MessageSpellsData(data: seq<bv8>, n: nat, i: nat)
    ensures i < |data| && 8 * i + 8 <= n ==>
              var m := MessagePoly(data, n);
              Bit(m[8 * i], 1) + Bit(m[8 * i + 1], 2) + Bit(m[8 * i + 2], 4) + Bit(m[8 * i + 3], 8)
              + Bit(m[8 * i + 4], 16) + Bit(m[8 * i + 5], 32) + Bit(m[8 * i + 6], 64) + Bit(m[8 * i + 7], 128) == data[i]
    ensures 8 * |data| <= i < n ==> MessagePoly(data, n)[i] == 0
  {
    if i < |data| && 8 * i + 8 <= n {
      var m := MessagePoly(data, n);
      BitsSpellByte(data[i]);
      forall bit | 0 <= bit < 8 ensures m[8 * i + bit] == if BitOf(data[i], bit) then 1 else 0 {
        assert (8 * i + bit) / 8 == i && (8 * i + bit) % 8 == bit;
      }
      assert m[8 * i] == m[8 * i + 0];
    }
  }

  function Encode(w: Poly, data: seq<bv8>, q: int): (v: Poly)
    requires q > 0
    ensures |v| == |w|
  {
    seq(|w|, k requires 0 <= k < |w| => if MessageBit(data, k) then (w[k] + q / 2) % q else w[k])
  }

  ghost predicate KeyEntry(a: Matrix, s: PolyVec, e: PolyVec, t: PolyVec, count: nat, n: nat, q: int, i: nat)
    requires q > 0 && MatrixShape(a, count, n) && Shape(s, count, n) && Shape(e, count, n) && Shape(t, count, n) && i < count
  {
    t[i] == Masked(a[i], s, e[i], n, q)
  }

  /** Every key pair GenerateKey can return. */
  ghost predicate KeyPair(a: Matrix, s: PolyVec, e: PolyVec, t: PolyVec, count: nat, n: nat, q: int)
    requires q > 0
  {
    && MatrixShape(a, count, n) && Shape(s, count, n) && Shape(e, count, n) && Shape(t, count, n)
    && forall i: nat {:trigger KeyEntry(a, s, e, t, count, n, q, i)} :: i < count ==> KeyEntry(a, s, e, t, count, n, q, i)
  }

  ghost predicate CipherEntry(a: Matrix, r: PolyVec, e1: PolyVec, u: PolyVec, count: nat, n: nat, q: int, j: nat)
    requires q > 0 && MatrixShape(a, count, n) && Shape(r, count, n) && Shape(e1, count, n) && Shape(u, count, n) && j < count
  {
    u[j] == Masked(Column(a, j), r, e1[j], n, q)
  }

  /** Every ciphertext Encrypt can return. */
  ghost predicate Ciphertext(a: Matrix, t: PolyVec, r: PolyVec, e1: PolyVec, e2: Poly, data: seq<bv8>,
                             u: PolyVec, v: Poly, count: nat, n: nat, q: int)
    requires q > 0
  {
    && MatrixShape(a, count, n) && Shape(t, count, n) && Shape(r, count, n) && Shape(e1, count, n) && |e2| == n
    && Shape(u, count, n)
    && (forall j: nat {:trigger CipherEntry(a, r, e1, u, count, n, q, j)} :: j < count ==> CipherEntry(a, r, e1, u, count, n, q, j))
    && v == Encode(Masked(t, r, e2, n, q), data, q)
  }

  // ---------------------------------------------------------------------------------------
  // The methods of the source

  ghost predicate SmallVec(xs: PolyVec, q: int) {
    forall i :: 0 <= i < |xs| ==> Small(xs[i], q)
  }

  method AddProduct(sum: Poly, x: Poly, y: Poly, n: nat, q: int) returns (r: Poly)
    requires Fits(n, q) && |sum| == |x| == |y| == n && Residues(sum, q) && Small(x, q) && Small(y, q)
    ensures r == ModPlus(sum, ModTimes(x, y, q), q) && Residues(r, q)
  {
    var product := PolyMul(x, y, n, q);
    r := PolyAdd(sum, product, n, q);
  }

  method MaskedSum(xs: PolyVec, ys: PolyVec, error: Poly, count: nat, n: nat, q: int) returns (r: Poly)
    requires Fits(n, q) && Shape(xs, count, n) && Shape(ys, count, n) && |error| == n
    requires SmallVec(xs, q) && SmallVec(ys, q) && Small(error, q)
    ensures r == Masked(xs, ys, error, n, q) && Residues(r, q)
  {
    var sum := Zero(n);
    for i := 0 to count
      invariant sum == Accumulate(xs, ys, i, n, q) && Residues(sum, q)
    {
      sum := AddProduct(sum, xs[i], ys[i], n, q);
    }
    r := PolyAdd(sum, error, n, q);
  }

  /** t = A s + e */
  method GenerateKey(a: Matrix, s: PolyVec, e: PolyVec, count: nat, n: nat, q: int) returns (t: PolyVec)
    requires Fits(n, q) && MatrixShape(a, count, n) && Shape(s, count, n) && Shape(e, count, n)
    requires (forall i :: 0 <= i < count ==> SmallVec(a[i], q)) && SmallVec(s, q) && SmallVec(e, q)
    ensures Shape(t, count, n) && SmallVec(t, q)
    ensures KeyPair(a, s, e, t, count, n, q)
  {
    t := [];
    for i := 0 to count
      invariant |t| == i && forall l :: 0 <= l < i ==> t[l] == Masked(a[l], s, e[l], n, q) && Small(t[l], q)
    {
      var row := MaskedSum(a[i], s, e[i], count, n, q);
      t := t + [row];
    }
  }

  /** u = A^T r + e1 and v = t^T r + e2 + (q/2) m, the message bits added in place. */
  method Encrypt(a: Matrix, t: PolyVec, r: PolyVec, e1: PolyVec, e2: Poly, data: seq<bv8>, count: nat, n: nat, q: int)
    returns (u: PolyVec, v: Poly)
    requires Fits(n, q) && MatrixShape(a, count, n) && Shape(t, count, n)
    requires Shape(r, count, n) && Shape(e1, count, n) && |e2| == n
    requires (forall i :: 0 <= i < count ==> SmallVec(a[i], q)) && SmallVec(t, q)
    requires SmallVec(r, q) && SmallVec(e1, q) && Small(e2, q)
    ensures Ciphertext(a, t, r, e1, e2, data, u, v, count, n, q)
    ensures (forall j :: 0 <= j < count ==> Residues(u[j], q)) && Residues(v, q)
  {
    u := [];
    for j := 0 to count
      invariant |u| == j && forall l :: 0 <= l < j ==> u[l] == Masked(Column(a, l), r, e1[l], n, q) && Residues(u[l], q)
    {
      var column := MaskedSum(Column(a, j), r, e1[j], count, n, q);
      u := u + [column];
    }
    var w := MaskedSum(t, r, e2, count, n, q);
    v := AddMessage(w, data, n, q);
  }

  method AddMessage(w: Poly, data: seq<bv8>, n: nat, q: int) returns (v: Poly)
    requires |w| == n && Fits(n, q) && Residues(w, q)
    ensures v == Encode(w, data, q) && Residues(v, q)
  {
    var coeffs := new int[n](k requires 0 <= k < n => w[k]);
    var bitIdx := 0;
    for byteIdx := 0 to |data|
      invariant bitIdx == if 8 * byteIdx < n then 8 * byteIdx else n
      invariant forall k :: 0 <= k < n ==> coeffs[k] == if k < bitIdx then Encode(w, data, q)[k] else w[k]
    {
      for bit := 0 to 8
        invariant bitIdx == if 8 * byteIdx + bit < n then 8 * byteIdx + bit else n
        invariant forall k :: 0 <= k < n ==> coeffs[k] == if k < bitIdx then Encode(w, data, q)[k] else w[k]
      {
        if bitIdx >= n {
          break;
        }
        assert bitIdx / 8 == byteIdx && bitIdx % 8 == bit;
        if BitOf(data[byteIdx], bit) {
          coeffs[bitIdx] := Rem(WrapI32(coeffs[bitIdx] + q / 2), q);
        }
        bitIdx := bitIdx + 1;
      }
    }
    v := coeffs[..];
  }

  // ---------------------------------------------------------------------------------------
  // Exact sums of products

  function Dot(xs: PolyVec, ys: PolyVec, m: nat, n: nat): (r: Poly)
    requires m <= |xs| && m <= |ys| && forall i :: 0 <= i < m ==> |xs[i]| == n
    ensures |r| == n
  {
    if m == 0 then Zero(n) else Plus(Dot(xs, ys, m - 1, n), Times(xs[m - 1], ys[m - 1]))
  }

  function PlusVec(xs: PolyVec, ys: PolyVec): (zs: PolyVec)
    requires |xs| == |ys| && forall i :: 0 <= i < |xs| ==> |xs[i]| == |ys[i]|
    ensures |zs| == |xs| && forall i :: 0 <= i < |xs| ==> zs[i] == Plus(xs[i], ys[i])
  {
    seq(|xs|, i requires 0 <= i < |xs| => Plus(xs[i], ys[i]))
  }

  lemma PlusShuffle(a: Poly, b: Poly, c: Poly, d: Poly)
    requires |a| == |b| == |c| == |d|
    ensures Plus(Plus(a, b), Plus(c, d)) == Plus(Plus(a, c), Plus(b, d))
  {}

  lemma {:induction false} DotCommutes(xs: PolyVec, ys: PolyVec, m: nat, n: nat)
    requires m <= |xs| && m <= |ys| && forall i :: 0 <= i < m ==> |xs[i]| == n && |ys[i]| == n
    ensures Dot(xs, ys, m, n) == Dot(ys, xs, m, n)
  {
    if m > 0 {
      DotCommutes(xs, ys, m - 1, n);
      TimesCommutes(xs[m - 1], ys[m - 1]);
    }
  }

  lemma {:induction false} DotAdds(xs: PolyVec, ys: PolyVec, zs: PolyVec, count: nat, m: nat, n: nat)
    requires Shape(xs, count, n) && Shape(ys, count, n) && Shape(zs, count, n) && m <= count
    ensures Dot(PlusVec(xs, ys), zs, m, n) == Plus(Dot(xs, zs, m, n), Dot(ys, zs, m, n))
  {
    if m > 0 {
      DotAdds(xs, ys, zs, count, m - 1, n);
      TimesDistributes(xs[m - 1], ys[m - 1], zs[m - 1]);
      PlusShuffle(Dot(xs, zs, m - 1, n), Dot(ys, zs, m - 1, n), Times(xs[m - 1], zs[m - 1]), Times(ys[m - 1], zs[m - 1]));
    } else {
      assert Plus(Zero(n), Zero(n)) == Zero(n);
    }
  }

  /** Row by row: the vector whose entry i is the dot product of row i with s. */
  function Apply(a: Matrix, s: PolyVec, count: nat, n: nat): (r: PolyVec)
    requires MatrixShape(a, count, n) && Shape(s, count, n)
    ensures Shape(r, count, n) && forall i :: 0 <= i < count ==> r[i] == Dot(a[i], s, count, n)
  {
    seq(count, i requires 0 <= i < count => Dot(a[i], s, count, n))
  }

  /** Column by column, over the first m rows. */
  function ApplyTransposed(a: Matrix, r: PolyVec, count: nat, m: nat, n: nat): (u: PolyVec)
    requires MatrixShape(a, count, n) && Shape(r, count, n) && m <= count
    ensures Shape(u, count, n) && forall j :: 0 <= j < count ==> u[j] == Dot(Column(a, j), r, m, n)
  {
    seq(count, j requires 0 <= j < count => Dot(Column(a, j), r, m, n))
  }

  function Scaled(xs: PolyVec, c: Poly, count: nat): (ys: PolyVec)
    requires |xs| == count
    ensures |ys| == count && forall j :: 0 <= j < count ==> ys[j] == Times(xs[j], c)
  {
    seq(count, j requires 0 <= j < count => Times(xs[j], c))
  }

  /** A common factor can be taken out of a dot product. */
  lemma {:induction false} DotFactor(xs: PolyVec, s: PolyVec, c: Poly, count: nat, m: nat, n: nat)
    requires Shape(xs, count, n) && Shape(s, count, n) && |c| == n && m <= count
    ensures Dot(Scaled(xs, c, count), s, m, n) == Times(Dot(xs, s, m, n), c)
  {
    if m == 0 {
      ZeroTimes(c, n);
    } else {
      var x, y := xs[m - 1], s[m - 1];
      DotFactor(xs, s, c, count, m - 1, n);
      TimesDistributes(Dot(xs, s, m - 1, n), Times(x, y), c);
      TimesAssociates(x, c, y);
      TimesCommutes(c, y);
      TimesAssociates(x, y, c);
    }
  }

  lemma ZeroTimes(c: Poly, n: nat)
    requires |c| == n
    ensures Times(Zero(n), c) == Zero(n)
  {
    var z := Zero(n);
    assert Plus(z, z) == z;
    TimesDistributes(z, z, c);
    forall k | 0 <= k < n ensures Times(z, c)[k] == 0 {
      assert Times(z, c)[k] == Times(z, c)[k] + Times(z, c)[k];
    }
  }

  /** r . (A s) = (A^T r) . s, over the first m rows. */
  lemma {:induction false} Transpose(a: Matrix, s: PolyVec, r: PolyVec, count: nat, m: nat, n: nat)
    requires MatrixShape(a, count, n) && Shape(s, count, n) && Shape(r, count, n) && m <= count
    ensures Dot(Apply(a, s, count, n), r, m, n) == Dot(ApplyTransposed(a, r, count, m, n), s, count, n)
  {
    if m == 0 {
      ZeroVecDot(ApplyTransposed(a, r, count, 0, n), s, count, n);
    } else {
      Transpose(a, s, r, count, m - 1, n);
      var before, row := ApplyTransposed(a, r, count, m - 1, n), Scaled(a[m - 1], r[m - 1], count);
      assert PlusVec(before, row) == ApplyTransposed(a, r, count, m, n);
      DotAdds(before, row, s, count, count, n);
      DotFactor(a[m - 1], s, r[m - 1], count, count, n);
    }
  }

  lemma {:induction false} ZeroVecDot(zs: PolyVec, s: PolyVec, m: nat, n: nat)
    requires m <= |zs| && m <= |s| && forall i :: 0 <= i < m ==> |zs[i]| == |s[i]| == n && zs[i] == Zero(n)
    ensures Dot(zs, s, m, n) == Zero(n)
  {
    if m > 0 {
      ZeroVecDot(zs, s, m - 1, n);
      ZeroTimes(s[m - 1], n);
      assert Plus(Zero(n), Zero(n)) == Zero(n);
    }
  }

  // ---------------------------------------------------------------------------------------
  // From reduced sums to exact ones

  ghost predicate SameVec(xs: PolyVec, ys: PolyVec, q: int)
    requires q > 0
  {
    |xs| == |ys| && forall i :: 0 <= i < |xs| ==> SameMod(xs[i], ys[i], q)
  }

  lemma {:induction false} AccumulateSame(xs: PolyVec, ys: PolyVec, m: nat, n: nat, q: int)
    requires q > 0 && m <= |xs| && m <= |ys| && forall i :: 0 <= i < m ==> |xs[i]| == n
    ensures SameMod(Accumulate(xs, ys, m, n, q), Dot(xs, ys, m, n), q)
  {
    if m == 0 {
      ReduceSame(Zero(n), q);
      SameReflexive(Zero(n), q);
    } else {
      AccumulateSame(xs, ys, m - 1, n, q);
      var sum, product := Accumulate(xs, ys, m - 1, n, q), Times(xs[m - 1], ys[m - 1]);
      ReduceSame(product, q);
      SamePlus(sum, Dot(xs, ys, m - 1, n), Reduce(product, q), product, q);
      ReduceSame(Plus(sum, Reduce(product, q)), q);
      SameTransitive(ModPlus(sum, Reduce(product, q), q), Plus(sum, Reduce(product, q)), Dot(xs, ys, m, n), q);
    }
  }

  lemma SameReflexive(a: Poly, q: int)
    requires q > 0
    ensures SameMod(a, a, q)
  {}

  lemma MaskedSame(xs: PolyVec, ys: PolyVec, error: Poly, n: nat, q: int)
    requires q > 0 && |xs| <= |ys| && |error| == n && forall i :: 0 <= i < |xs| ==> |xs[i]| == n
    ensures SameMod(Masked(xs, ys, error, n, q), Plus(Dot(xs, ys, |xs|, n), error), q)
  {
    var sum := Accumulate(xs, ys, |xs|, n, q);
    AccumulateSame(xs, ys, |xs|, n, q);
    SameReflexive(error, q);
    SamePlus(sum, Dot(xs, ys, |xs|, n), error, error, q);
    ReduceSame(Plus(sum, error), q);
    SameTransitive(ModPlus(sum, error, q), Plus(sum, error), Plus(Dot(xs, ys, |xs|, n), error), q);
  }

  lemma {:induction false} DotSame(xs: PolyVec, xs': PolyVec, ys: PolyVec, m: nat, n: nat, q: int)
    requires q > 0 && m <= |xs| && m <= |ys| && forall i :: 0 <= i < m ==> |xs[i]| == n
    requires SameVec(xs, xs', q)
    ensures SameMod(Dot(xs, ys, m, n), Dot(xs', ys, m, n), q)
  {
    if m == 0 {
      SameReflexive(Zero(n), q);
    } else {
      DotSame(xs, xs', ys, m - 1, n, q);
      SameTimes(xs[m - 1], xs'[m - 1], ys[m - 1], q);
      SamePlus(Dot(xs, ys, m - 1, n), Dot(xs', ys, m - 1, n), Times(xs[m - 1], ys[m - 1]), Times(xs'[m - 1], ys[m - 1]), q);
    }
  }

  // ---------------------------------------------------------------------------------------
  // The identity behind decryption

  lemma PublicKeySame(a: Matrix, s: PolyVec, e: PolyVec, t: PolyVec, count: nat, n: nat, q: int)
    requires q > 0 && KeyPair(a, s, e, t, count, n, q)
    ensures SameVec(t, PlusVec(Apply(a, s, count, n), e), q)
  {
    forall i | 0 <= i < count ensures SameMod(t[i], PlusVec(Apply(a, s, count, n), e)[i], q) {
      assert KeyEntry(a, s, e, t, count, n, q, i);
      MaskedSame(a[i], s, e[i], n, q);
    }
  }

  lemma CiphertextSame(a: Matrix, t: PolyVec, r: PolyVec, e1: PolyVec, e2: Poly, data: seq<bv8>,
                       u: PolyVec, v: Poly, count: nat, n: nat, q: int)
    requires q > 0 && Ciphertext(a, t, r, e1, e2, data, u, v, count, n, q)
    ensures SameVec(u, PlusVec(ApplyTransposed(a, r, count, count, n), e1), q)
  {
    forall j | 0 <= j < count ensures SameMod(u[j], PlusVec(ApplyTransposed(a, r, count, count, n), e1)[j], q) {
      assert CipherEntry(a, r, e1, u, count, n, q, j);
      MaskedSame(Column(a, j), r, e1[j], n, q);
    }
  }

  /** e . r + e2 - s . e1 + (q/2) m, the noise and the message at coefficient k. */
  function NoisyMessage(s: PolyVec, e: PolyVec, r: PolyVec, e1: PolyVec, e2: Poly, data: seq<bv8>, count: nat, n: nat, q: int, k: nat): int
    requires q > 0 && k < n && Shape(s, count, n) && Shape(e, count, n) && Shape(r, count, n) && Shape(e1, count, n) && |e2| == n
  {
    Dot(e, r, count, n)[k] + e2[k] - Dot(s, e1, count, n)[k] + (q / 2) * MessagePoly(data, n)[k]
  }

  /** Coefficient k of v - s . u, what the secret key leaves of a ciphertext. */
  function Residual(s: PolyVec, u: PolyVec, v: Poly, count: nat, n: nat, k: nat): int
    requires k < n == |v| && Shape(s, count, n) && Shape(u, count, n)
  {
    v[k] - Dot(s, u, count, n)[k]
  }

  /** t . r, with the public key multiplied out. */
  lemma PublicDot(a: Matrix, s: PolyVec, e: PolyVec, t: PolyVec, r: PolyVec, count: nat, n: nat, q: int)
    requires q > 0 && KeyPair(a, s, e, t, count, n, q) && Shape(r, count, n)
    ensures SameMod(Dot(t, r, count, n), Plus(Dot(ApplyTransposed(a, r, count, count, n), s, count, n), Dot(e, r, count, n)), q)
  {
    PublicKeySame(a, s, e, t, count, n, q);
    DotSame(t, PlusVec(Apply(a, s, count, n), e), r, count, n, q);
    DotAdds(Apply(a, s, count, n), e, r, count, count, n);
    Transpose(a, s, r, count, count, n);
  }

  /** s . u, with the ciphertext vector multiplied out. */
  lemma SecretDot(a: Matrix, t: PolyVec, s: PolyVec, r: PolyVec, e1: PolyVec, e2: Poly, data: seq<bv8>,
                  u: PolyVec, v: Poly, count: nat, n: nat, q: int)
    requires q > 0 && Ciphertext(a, t, r, e1, e2, data, u, v, count, n, q) && Shape(s, count, n)
    ensures SameMod(Dot(s, u, count, n), Plus(Dot(ApplyTransposed(a, r, count, count, n), s, count, n), Dot(s, e1, count, n)), q)
  {
    CiphertextSame(a, t, r, e1, e2, data, u, v, count, n, q);
    DotSame(u, PlusVec(ApplyTransposed(a, r, count, count, n), e1), s, count, n, q);
    DotAdds(ApplyTransposed(a, r, count, count, n), e1, s, count, count, n);
    DotCommutes(s, u, count, n);
    DotCommutes(s, e1, count, n);
  }

  lemma EncodeSame(w: Poly, data: seq<bv8>, n: nat, q: int, k: nat)
    requires q > 0 && k < n == |w|
    ensures Congruent(Encode(w, data, q)[k], w[k] + (q / 2) * MessagePoly(data, n)[k], q)
  {
    if MessageBit(data, k) {
      ReduceCongruent(w[k] + q / 2, q);
    }
  }

  /**
   For every key pair and every ciphertext, v - s . u is congruent, coefficient by coefficient,
   to e . r + e2 - s . e1 + (q/2) m.
   */
  lemma LweIdentity(a: Matrix, s: PolyVec, e: PolyVec, t: PolyVec, r: PolyVec, e1: PolyVec, e2: Poly, data: seq<bv8>,
                    u: PolyVec, v: Poly, count: nat, n: nat, q: int, k: nat)
    requires q > 0 && k < n
    requires KeyPair(a, s, e, t, count, n, q)
    requires Ciphertext(a, t, r, e1, e2, data, u, v, count, n, q)
    ensures |v| == n && Congruent(Residual(s, u, v, count, n, k), NoisyMessage(s, e, r, e1, e2, data, count, n, q, k), q)
  {
    var core := Dot(ApplyTransposed(a, r, count, count, n), s, count, n);
    var w := Masked(t, r, e2, n, q);
    EncodeSame(w, data, n, q, k);
    MaskedSame(t, r, e2, n, q);
    PublicDot(a, s, e, t, r, count, n, q);
    SecretDot(a, t, s, r, e1, e2, data, u, v, count, n, q);
    CombineParts(v[k], w, (q / 2) * MessagePoly(data, n)[k], Dot(t, r, count, n), e2, core, Dot(e, r, count, n),
                 Dot(s, u, count, n), Dot(s, e1, count, n), Residual(s, u, v, count, n, k),
                 NoisyMessage(s, e, r, e1, e2, data, count, n, q, k), n, q, k);
  }

  lemma CombineParts(v: int, w: Poly, bit: int, tr: Poly, e2: Poly, core: Poly, er: Poly, su: Poly, se1: Poly,
                     residual: int, noisy: int, n: nat, q: int, k: nat)
    requires q > 0 && k < n == |w| == |tr| == |e2| == |core| == |er| == |su| == |se1|
    requires Congruent(v, w[k] + bit, q) && SameMod(w, Plus(tr, e2), q)
    requires SameMod(tr, Plus(core, er), q) && SameMod(su, Plus(core, se1), q)
    requires residual == v - su[k] && noisy == er[k] + e2[k] - se1[k] + bit
    ensures Congruent(residual, noisy, q)
  {
    var m0 := Quotient(v, w[k] + bit, q);
    var m1 := Quotient(w[k], Plus(tr, e2)[k], q);
    var m2 := Quotient(tr[k], Plus(core, er)[k], q);
    var m3 := Quotient(su[k], Plus(core, se1)[k], q);
    assert residual == noisy + (m0 + m1 + m2 - m3) * q;
    CongruentBy(residual, noisy, m0 + m1 + m2 - m3, q);
  }
}
