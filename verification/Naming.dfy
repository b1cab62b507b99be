/**
 The cache file an INIT request is served from: "rbd-pwl." + pool + "." + image + ".pool." + id.
 Two requests share a file exactly when their ids agree and pool and image agree once joined by a
 dot; so dots are all that can make two different requests share one.
 */
module Naming {
  import Bytes

  datatype Volume = Volume(pool: string, image: string, cacheId: nat)

  const PREFIX: string := "rbd-pwl."
  const MIDDLE: string := ".pool."

  function Digit(d: nat): (c: char)
    requires d < 10
    ensures c != '.'
  {
    "0123456789"[d]
  }

  /** `std::to_string`. */
  function Decimal(n: nat): (s: string)
    ensures s != [] && '.' !in s
  {
    if n < 10 then [Digit(n)] else Decimal(n / 10) + [Digit(n % 10)]
  }

  function Path(v: Volume): string {
    PREFIX + v.pool + "." + v.image + MIDDLE + Decimal(v.cacheId)
  }

  /** Pool and image as they stand in the path. */
  function Joined(v: Volume): string {
    v.pool + "." + v.image
  }

  lemma DigitInjective(a: nat, b: nat)
    requires a < 10 && b < 10 && Digit(a) == Digit(b)
    ensures a == b
  {
  }

  lemma {:induction false} DecimalInjective(m: nat, n: nat)
    requires Decimal(m) == Decimal(n)
    ensures m == n
  {
    var s, t := Decimal(m), Decimal(n);
    DigitInjective(m % 10, n % 10) by {
      assert s[|s| - 1] == Digit(m % 10) && t[|t| - 1] == Digit(n % 10);
    }
    if m >= 10 && n >= 10 {
      assert s[..|s| - 1] == Decimal(m / 10) && t[..|t| - 1] == Decimal(n / 10);
      DecimalInjective(m / 10, n / 10);
    }
  }

  function Pow10(k: nat): (p: nat)
    ensures p >= 1
  {
    if k == 0 then 1 else 10 * Pow10(k - 1)
  }

  lemma Shifted(n: nat, k: nat)
    requires k > 0
    ensures n / 10 / Pow10(k - 1) == n / Pow10(k)
  {
    Bytes.DivDiv(n, 10, Pow10(k - 1));
  }

  lemma DigitIs(d: nat)
    requires d < 10
    ensures Digit(d) as int == '0' as int + d
  {
  }

  /** Read from its end, the number's text is its decimal digits ... */
  lemma {:induction false} DecimalDigits(n: nat, k: nat)
    requires k < |Decimal(n)|
    ensures Decimal(n)[|Decimal(n)| - 1 - k] as int == '0' as int + n / Pow10(k) % 10
  {
    var s := Decimal(n);
    DigitIs(n % 10);
    if k == 0 {
      assert s[|s| - 1] == Digit(n % 10);
    } else {
      hide Digit, Pow10;
      var t := Decimal(n / 10);
      DecimalDigits(n / 10, k - 1);
      assert s[|s| - 1 - k] == t[|t| - 1 - (k - 1)];
      Shifted(n, k);
    }
  }

  /** ... all of them, without a leading zero. */
  lemma {:induction false} DecimalLength(n: nat)
    ensures Pow10(|Decimal(n)| - 1) <= (if n == 0 then 1 else n) < Pow10(|Decimal(n)|)
  {
    if n >= 10 {
      DecimalLength(n / 10);
    }
  }

  /** Paths in full. */
  lemma PathOf()
    ensures Path(Volume("RBD", "test", 1)) == "rbd-pwl.RBD.test.pool.1"
    ensures Path(Volume("", "", 40)) == "rbd-pwl...pool.40"
  {
    assert Decimal(40) == Decimal(4) + "0";
  }

  /** A string is cut at its last dot in one way only. */
  lemma LastDot(a: string, x: string, b: string, y: string)
    requires '.' !in x && '.' !in y
    requires a + "." + x == b + "." + y
    ensures a == b && x == y
  {
    var s := a + "." + x;
    assert s[|a|] == '.' && forall k | |a| < k < |s| :: s[k] == x[k - |a| - 1];
    assert s[|b|] == '.' && forall k | |b| < k < |s| :: s[k] == y[k - |b| - 1];
    assert a == s[..|a|] && b == s[..|b|];
    assert x == s[|a| + 1..] && y == s[|b| + 1..];
  }

  /** A string is cut at its first dot in one way only. */
  lemma FirstDot(a: string, x: string, b: string, y: string)
    requires '.' !in a && '.' !in b
    requires a + "." + x == b + "." + y
    ensures a == b && x == y
  {
    var s := a + "." + x;
    assert s[|a|] == '.' && forall k | 0 <= k < |a| :: s[k] == a[k];
    assert s[|b|] == '.' && forall k | 0 <= k < |b| :: s[k] == b[k];
    assert a == s[..|a|] && b == s[..|b|];
    assert x == s[|a| + 1..] && y == s[|b| + 1..];
  }

  /** Exactly when two requests are served from one file. */
  lemma SamePathIff(v: Volume, w: Volume)
    ensures Path(v) == Path(w) <==> v.cacheId == w.cacheId && Joined(v) == Joined(w)
  {
    var front := (u: Volume) => PREFIX + Joined(u) + ".pool";
    assert forall u: Volume :: Path(u) == front(u) + "." + Decimal(u.cacheId) by {
      forall u: Volume
        ensures Path(u) == front(u) + "." + Decimal(u.cacheId)
      {
        assert MIDDLE == ".pool" + ".";
      }
    }
    if Path(v) == Path(w) {
      LastDot(front(v), Decimal(v.cacheId), front(w), Decimal(w.cacheId));
      DecimalInjective(v.cacheId, w.cacheId);
      assert Joined(v) == front(v)[|PREFIX|..|front(v)| - 5];
      assert Joined(w) == front(w)[|PREFIX|..|front(w)| - 5];
    }
  }

  /** Pools without dots: the path gives back the whole request. */
  lemma PathInjective(v: Volume, w: Volume)
    requires '.' !in v.pool && '.' !in w.pool && Path(v) == Path(w)
    ensures v == w
  {
    SamePathIff(v, w);
    FirstDot(v.pool, v.image, w.pool, w.image);
  }

  /** Another request that names the same file, for a request with a dot in its pool or image name. */
  function Twin(v: Volume, dot: nat): Volume
    requires dot < |Joined(v)|
  {
    Volume(Joined(v)[..dot], Joined(v)[dot + 1..], v.cacheId)
  }

  /** A request has its file to itself exactly when neither its pool nor its image name has a dot. */
  lemma OwnFileIff(v: Volume)
    ensures (forall w: Volume :: Path(w) == Path(v) ==> w == v) <==> '.' !in v.pool && '.' !in v.image
  {
    if '.' in v.pool || '.' in v.image {
      var dot :| 0 <= dot < |Joined(v)| && dot != |v.pool| && Joined(v)[dot] == '.' by {
        if '.' in v.pool {
          var i :| 0 <= i < |v.pool| && v.pool[i] == '.';
          assert Joined(v)[i] == '.';
        } else {
          var i :| 0 <= i < |v.image| && v.image[i] == '.';
          assert Joined(v)[|v.pool| + 1 + i] == '.';
        }
      }
      var w := Twin(v, dot);
      assert Joined(w) == Joined(v);
      SamePathIff(w, v);
      assert |w.pool| == dot;
    } else {
      forall w: Volume | Path(w) == Path(v)
        ensures w == v
      {
        SamePathIff(w, v);
        NoSecondDot(v, w);
      }
    }
  }

  lemma NoSecondDot(v: Volume, w: Volume)
    requires '.' !in v.pool && '.' !in v.image && Joined(v) == Joined(w)
    ensures v.pool == w.pool && v.image == w.image
  {
    var s := Joined(v);
    assert forall k | 0 <= k < |v.pool| :: s[k] == v.pool[k];
    assert forall k | |v.pool| < k < |s| :: s[k] == v.image[k - |v.pool| - 1];
    assert s[|w.pool|] == '.';
    assert v.pool == s[..|v.pool|] && w.pool == s[..|w.pool|];
    assert v.image == s[|v.pool| + 1..] && w.image == s[|w.pool| + 1..];
  }

  /** Two different volumes of differently named pools that share one cache file. */
  lemma DottedPoolsCollide()
    ensures var v, w := Volume("a.b", "c", 7), Volume("a", "b.c", 7);
            v != w && Path(v) == Path(w)
  {
  }
}
