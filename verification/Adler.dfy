/** The file checksum of kernel/fs.c: Adler-32 as in section 2.2 of RFC 1950. */
module Adler {
  const MOD_ADLER: nat := 65521

  type Byte = x: int | 0 <= x < 256
  type Bytes = seq<Byte>

  // ---------------------------------------------------------------- the standard's definition

  /** 1 plus the sum of all bytes. */
  function SumA(s: Bytes): nat
    decreases |s|
  {
    if s == [] then 1 else SumA(s[..|s| - 1]) + s[|s| - 1]
  }

  /** The sum of SumA over all non-empty prefixes. */
  function SumB(s: Bytes): nat
    decreases |s|
  {
    if s == [] then 0 else SumB(s[..|s| - 1]) + SumA(s)
  }

  function Pack(a: nat, b: nat): nat { b * 0x10000 + a }

  function Checksum(s: Bytes): nat {
    Pack(SumA(s) % MOD_ADLER, SumB(s) % MOD_ADLER)
  }

  // ---------------------------------------------------------------- the code

  /** adler32_update(): continuing the checksum of any prefix gives that of the whole. */
  method Update(adler: nat, data: Bytes, ghost prefix: Bytes) returns (r: nat)
    requires adler == Checksum(prefix)
    ensures r == Checksum(prefix + data)
  {
    hide SumA, SumB;
    Unpack(SumA(prefix) % MOD_ADLER, SumB(prefix) % MOD_ADLER);
    assert prefix + data[..0] == prefix;
    var a := adler % 0x10000;
    var b := adler / 0x10000 % 0x10000;
    var i := 0;
    while i < |data|
      invariant i <= |data|
      invariant a == SumA(prefix + data[..i]) % MOD_ADLER
      invariant b == SumB(prefix + data[..i]) % MOD_ADLER
    {
      SumStep(prefix + data[..i], data[i]);
      ModAdd(SumA(prefix + data[..i]), data[i]);
      ModAdds(SumB(prefix + data[..i]), SumA(prefix + data[..i]) + data[i]);
      assert prefix + data[..i + 1] == prefix + data[..i] + [data[i]];
      a := (a + data[i]) % MOD_ADLER;
      b := (b + a) % MOD_ADLER;
      i := i + 1;
    }
    assert prefix + data[..i] == prefix + data;
    r := b * 0x10000 + a; // (b << 16) | a
  }

  lemma Unpack(a: nat, b: nat)
    requires a < 0x10000 && b < 0x10000
    ensures Pack(a, b) % 0x10000 == a && Pack(a, b) / 0x10000 % 0x10000 == b
  {
  }

  lemma ModAdd(x: nat, y: nat)
    ensures (x % MOD_ADLER + y) % MOD_ADLER == (x + y) % MOD_ADLER
  {
  }

  lemma ModAdds(x: nat, y: nat)
    ensures (x % MOD_ADLER + y % MOD_ADLER) % MOD_ADLER == (x + y) % MOD_ADLER
  {
  }

  lemma SumStep(s: Bytes, d: Byte)
    ensures SumA(s + [d]) == SumA(s) + d && SumB(s + [d]) == SumB(s) + SumA(s + [d])
  {
    assert (s + [d])[..|s|] == s;
  }

  // ---------------------------------------------------------------- what it detects

  lemma {:induction false} SumAUpdate(s: Bytes, i: nat, x: Byte)
    requires i < |s|
    ensures SumA(s[i := x]) == SumA(s) - s[i] + x
    decreases |s|
  {
    var t := s[i := x];
    if i == |s| - 1 {
      assert t[..i] == s[..i];
    } else {
      SumAUpdate(s[..|s| - 1], i, x);
      assert t[..|s| - 1] == s[..|s| - 1][i := x];
    }
  }

  /** Changing any one byte always changes the checksum. */
  lemma OneByteDetected(s: Bytes, i: nat, x: Byte)
    requires i < |s| && x != s[i]
    ensures Checksum(s[i := x]) != Checksum(s)
  {
    SumAUpdate(s, i, x);
    DifferentMod(SumA(s), SumA(s[i := x]));
  }

  lemma DifferentMod(m: nat, n: nat)
    requires m != n && -256 < m - n < 256
    ensures m % MOD_ADLER != n % MOD_ADLER
  {
  }

  function Diff(x: int, y: int): int { x - y }

  lemma {:induction false} SumBUpdate(s: Bytes, i: nat, x: Byte)
    requires i < |s|
    ensures SumB(s[i := x]) == SumB(s) + (|s| - i) * Diff(x, s[i])
    decreases |s|
  {
    var t := s[i := x];
    SumAUpdate(s, i, x);
    if i == |s| - 1 {
      assert t[..i] == s[..i];
    } else {
      SumBUpdate(s[..|s| - 1], i, x);
      assert t[..|s| - 1] == s[..|s| - 1][i := x];
      SwapProduct(|s| - i, 1, Diff(x, s[i]));
    }
  }

  /** Exchanging two bytes moves only the second sum, by their distance times their difference. */
  lemma SwapSums(s: Bytes, i: nat, j: nat)
    requires i < j < |s|
    ensures var t := s[i := s[j]][j := s[i]];
            SumA(t) == SumA(s) && SumB(t) == SumB(s) + (j - i) * Diff(s[j], s[i])
  {
    hide SumA, SumB;
    var u: Bytes := s[i := s[j]];
    SumAUpdate(s, i, s[j]);
    SumBUpdate(s, i, s[j]);
    SumAUpdate(u, j, s[i]);
    SumBUpdate(u, j, s[i]);
    SwapProduct(|s| - i, |s| - j, Diff(s[j], s[i]));
  }

  lemma SwapProduct(m: int, n: int, d: int)
    ensures m * d + n * (-d) == (m - n) * d
  {
  }

  /** Exchanging two different bytes goes unnoticed exactly when 65521 divides that product;
      at distance 65521, within the size of a file, it always does. */
  lemma SwapDetected(s: Bytes, i: nat, j: nat)
    requires i < j < |s|
    ensures var t := s[i := s[j]][j := s[i]];
            Checksum(t) == Checksum(s) <==> (j - i) * Diff(s[j], s[i]) % MOD_ADLER == 0
    ensures j - i == MOD_ADLER ==> Checksum(s[i := s[j]][j := s[i]]) == Checksum(s)
  {
    hide SumA, SumB;
    SwapSums(s, i, j);
    var d := (j - i) * Diff(s[j], s[i]);
    ShiftMod(SumB(s), d);
    if j - i == MOD_ADLER {
      MultipleMod(Diff(s[j], s[i]));
    }
  }

  lemma ShiftMod(n: int, d: int)
    ensures (n + d) % MOD_ADLER == n % MOD_ADLER <==> d % MOD_ADLER == 0
  {
  }

  lemma MultipleMod(k: int)
    ensures MOD_ADLER * k % MOD_ADLER == 0
  {
  }

  /** The checksum of "abc". */
  lemma KnownValue()
    ensures Checksum([]) == 1 && Checksum([97, 98, 99]) == 0x024d_0127
  {
    var a: Bytes := [97, 98, 99];
    assert a[..2] == [97, 98] && a[..2][..1] == [97] && a[..2][..1][..0] == [];
    assert SumA(a[..2][..1][..0]) == 1;
    assert SumA(a[..2][..1]) == 98 && SumA(a[..2]) == 196 && SumA(a) == 295;
    assert SumB(a[..2][..1]) == 98 && SumB(a[..2]) == 294 && SumB(a) == 589;
  }
}
