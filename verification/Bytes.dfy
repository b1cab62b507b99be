/** Bytes, fixed-width little-endian integers and the optional value used for error paths. */
module Bytes {

  type byte = x: int | 0 <= x < 256
  type u32 = x: int | 0 <= x < 0x1_0000_0000
  type u64 = x: int | 0 <= x < 0x1_0000_0000_0000_0000
  type i32 = x: int | -0x8000_0000 <= x < 0x8000_0000

  /** A value, or nothing where the program throws or reports an error. */
  datatype Option<+T> = None | Some(value: T) {
    predicate IsFailure() {
      None?
    }

    function PropagateFailure<U>(): Option<U>
      requires None?
    {
      None
    }

    function Extract(): T
      requires Some?
    {
      value
    }
  }

  function Pow256(k: nat): (p: nat)
    ensures p >= 1
  {
    if k == 0 then 1 else 256 * Pow256(k - 1)
  }

  /** The low `k` bytes of `n`, least significant first; higher bytes are cut off. */
  function ToLE(n: nat, k: nat): (s: seq<byte>)
    ensures |s| == k
  {
    if k == 0 then [] else [n % 256] + ToLE(n / 256, k - 1)
  }

  function FromLE(s: seq<byte>): (n: nat)
    ensures n < Pow256(|s|)
  {
    if s == [] then 0 else s[0] + 256 * FromLE(s[1..])
  }

  lemma {:induction false} FromToLE(n: nat, k: nat)
    requires n < Pow256(k)
    ensures FromLE(ToLE(n, k)) == n
  {
    if k == 0 {
    } else {
      FromToLE(n / 256, k - 1);
      assert ToLE(n, k)[1..] == ToLE(n / 256, k - 1);
    }
  }

  /** Byte `k` of a little-endian number is its digit for 256 to the power of `k`. */
  lemma {:induction false} LEDigits(n: nat, width: nat)
    ensures forall k | 0 <= k < width :: ToLE(n, width)[k] == n / Pow256(k) % 256
  {
    if width > 0 {
      LEDigits(n / 256, width - 1);
      forall k | 0 < k < width
        ensures ToLE(n, width)[k] == n / Pow256(k) % 256
      {
        DivDiv(n, 256, Pow256(k - 1));
      }
    }
  }

  lemma MulMonotone(d: nat, a: nat, b: nat)
    requires a <= b
    ensures d * a <= d * b
  {
  }

  lemma DivUnique(n: nat, d: nat, q: nat, r: nat)
    requires d > 0 && r < d && n == d * q + r
    ensures n / d == q
  {
    var x := n / d;
    assert n == d * x + n % d;
    if x < q {
      MulMonotone(d, x + 1, q);
    } else if x > q {
      MulMonotone(d, q + 1, x);
    }
  }

  lemma Regroup(b: nat, d: nat, x: nat, t: nat)
    ensures b * (d * x + t) == b * d * x + b * t
  {
  }

  lemma Quotient(n: nat, d: nat)
    requires d > 0
    ensures n == d * (n / d) + n % d && 0 <= n % d < d
  {
  }

  /** Dividing twice is dividing by the product. */
  lemma DivDiv(n: nat, b: nat, d: nat)
    requires b > 0 && d > 0 && b * d > 0
    ensures n / b / d == n / (b * d)
  {
    var y, r := n / b, n % b;
    var x, t := y / d, y % d;
    Quotient(n, b);
    Quotient(y, d);
    Regroup(b, d, x, t);
    MulMonotone(b, t + 1, d);
    var c, bt := b * d, b * t;
    assert bt + b == b * (t + 1);
    assert n == c * x + (bt + r) && bt + r < c;
    DivUnique(n, c, x, bt + r);
  }

  lemma PowersOf256()
    ensures Pow256(4) == 0x1_0000_0000
    ensures Pow256(8) == 0x1_0000_0000_0000_0000
  {
  }

  lemma U32RoundTrip(n: u32)
    ensures FromLE(ToLE(n, 4)) == n
  {
    PowersOf256();
    FromToLE(n, 4);
  }

  lemma U64RoundTrip(n: u64)
    ensures FromLE(ToLE(n, 8)) == n
  {
    PowersOf256();
    FromToLE(n, 8);
  }

  /** `bytes` stands in `buf` at offset `off`. */
  predicate At(buf: seq<byte>, off: nat, bytes: seq<byte>) {
    off + |bytes| <= |buf| && buf[off..off + |bytes|] == bytes
  }

  lemma ConcatAssociates(a: seq<byte>, b: seq<byte>, c: seq<byte>)
    ensures (a + b) + c == a + (b + c)
  {
  }

  lemma AtSplit(buf: seq<byte>, off: nat, a: seq<byte>, b: seq<byte>)
    ensures At(buf, off, a + b) <==> At(buf, off, a) && At(buf, off + |a|, b)
  {
    if At(buf, off, a + b) {
      assert buf[off..off + |a|] == (a + b)[..|a|] == a;
      assert buf[off + |a|..off + |a| + |b|] == (a + b)[|a|..] == b;
    }
    if At(buf, off, a) && At(buf, off + |a|, b) {
      assert buf[off..off + |a + b|] == buf[off..off + |a|] + buf[off + |a|..off + |a| + |b|];
    }
  }
}
