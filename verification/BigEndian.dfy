/** Big-endian numbers: the fixed-width fields of the wire formats and the bytes of a big integer. */
module BigEndian {
  import opened Common

  function Pow256(n: nat): (p: nat)
    ensures p >= 1
  {
    if n == 0 then 1 else 256 * Pow256(n - 1)
  }

  /** `binary.BigEndian.UintN` and `big.Int.SetBytes`. */
  function Decode(s: Bytes): nat {
    if s == [] then 0 else Decode(s[..|s| - 1]) * 256 + s[|s| - 1]
  }

  /** `binary.BigEndian.PutUintN` on `width` bytes: the value is truncated to the width. */
  function Encode(n: nat, width: nat): (s: Bytes)
    ensures |s| == width
  {
    if width == 0 then [] else Encode(n / 256, width - 1) + [n % 256]
  }

  /** `big.Int.Bytes`: the shortest representation, empty for zero. */
  function Minimal(n: nat): Bytes {
    if n == 0 then [] else Minimal(n / 256) + [n % 256]
  }

  lemma Widths()
    ensures Pow256(4) == U32 && Pow256(8) == U64
  {
    assert Pow256(1) == 256;
    assert Pow256(2) == 256 * Pow256(1);
    assert Pow256(3) == 256 * Pow256(2);
    assert Pow256(4) == 256 * Pow256(3);
    assert Pow256(5) == 256 * Pow256(4);
    assert Pow256(6) == 256 * Pow256(5);
    assert Pow256(7) == 256 * Pow256(6);
    assert Pow256(8) == 256 * Pow256(7);
  }

  lemma ModStep(n: nat, m: nat)
    requires m >= 1
    ensures (n / 256) % m * 256 + n % 256 == n % (256 * m)
  {
    var q, r := (n / 256) / m, (n / 256) % m;
    assert n == 256 * (m * q + r) + n % 256;
    assert n == (256 * m) * q + (256 * r + n % 256) by {
      assert 256 * (m * q) == (256 * m) * q;
    }
    assert 0 <= 256 * r + n % 256 < 256 * m;
    DivModUnique(n, 256 * m, q, 256 * r + n % 256);
  }

  lemma AtLeastOneDivisor(d: int, k: int)
    requires d > 0
    ensures k >= 1 ==> d * k >= d
    ensures k <= -1 ==> d * k <= -d
  {
  }

  lemma DivModUnique(n: int, d: int, q: int, r: int)
    requires 0 <= r < d && n == d * q + r
    ensures n % d == r
  {
    var q', r' := n / d, n % d;
    assert n == d * q' + r';
    var k := q - q';
    assert d * k == d * q - d * q';
    AtLeastOneDivisor(d, k);
  }

  /** Decoding a fixed-width field gives the value modulo the width. */
  lemma {:induction false} DecodeEncode(n: nat, width: nat)
    ensures Decode(Encode(n, width)) == n % Pow256(width)
  {
    if width == 0 {
      assert Encode(n, width) == [];
    } else {
      var s := Encode(n, width);
      assert s[..width - 1] == Encode(n / 256, width - 1);
      DecodeEncode(n / 256, width - 1);
      ModStep(n, Pow256(width - 1));
    }
  }

  lemma {:induction false} DecodeBound(s: Bytes)
    ensures Decode(s) < Pow256(|s|)
  {
    if s != [] {
      DecodeBound(s[..|s| - 1]);
    }
  }

  /** Encoding back at the original width restores every byte. */
  lemma {:induction false} EncodeDecode(s: Bytes)
    ensures Encode(Decode(s), |s|) == s
  {
    if s != [] {
      var init, last := s[..|s| - 1], s[|s| - 1];
      EncodeDecode(init);
      var n := Decode(s);
      assert n == Decode(init) * 256 + last;
      assert n / 256 == Decode(init) && n % 256 == last;
      assert s == init + [last];
    }
  }

  lemma {:induction false} DecodeMinimal(n: nat)
    ensures Decode(Minimal(n)) == n
  {
    if n != 0 {
      var s := Minimal(n);
      assert s[..|s| - 1] == Minimal(n / 256);
      DecodeMinimal(n / 256);
    }
  }

  lemma RoundTrip32(n: nat)
    requires n < U32
    ensures Decode(Encode(n, 4)) == n
  {
    DecodeEncode(n, 4);
    Widths();
  }

  lemma RoundTrip64(n: nat)
    requires n < U64
    ensures Decode(Encode(n, 8)) == n
  {
    DecodeEncode(n, 8);
    Widths();
  }
}
