// Words on the wire, most significant byte first, and padding to their boundary.

module Words {
  import opened Bytes
  import opened LogTables

  // The number of bytes in a word.
  const WORD: nat := 4

  function Be(n: nat, k: nat): (r: seq<Byte>)
    ensures |r| == k
  {
    if k == 0 then [] else Be(n / 256, k - 1) + [Octet(n)]
  }

  function ReadBe(b: seq<Byte>): nat {
    if b == [] then 0 else ReadBe(b[..|b| - 1]) * 256 + ToNat(b[|b| - 1])
  }

  function Be32(n: nat): (r: seq<Byte>)
    ensures |r| == 4
  {
    Be(n, WORD)
  }

  ghost function Pow256(k: nat): (p: nat)
    ensures p > 0
  {
    if k == 0 then 1 else 256 * Pow256(k - 1)
  }

  lemma ByteRemainder(n: nat, p: nat)
    requires p > 0
    ensures n / 256 % p * 256 + n % 256 == n % (256 * p)
  {
    var h := n / 256;
    var q, r := h / p, h % p;
    assert h == p * q + r;
    assert p * q * 256 == 256 * p * q;
    Remainder(n, q, 256 * r + n % 256, 256 * p);
  }

  lemma {:induction false} ReadBack(n: nat, k: nat)
    ensures ReadBe(Be(n, k)) == n % Pow256(k)
  {
    if k > 0 {
      ReadBack(n / 256, k - 1);
      assert Be(n, k)[..k - 1] == Be(n / 256, k - 1);
      ByteRemainder(n, Pow256(k - 1));
    }
  }

  lemma WordRange()
    ensures Pow256(WORD) == 0x1_0000_0000
  {
    assert Pow256(2) == 0x1_0000;
  }

  lemma Be32RoundTrip(n: nat)
    requires n < 0x1_0000_0000
    ensures ReadBe(Be32(n)) == n
  {
    ReadBack(n, WORD);
    WordRange();
    SmallRemainder(n, Pow256(WORD));
  }

  lemma SmallRemainder(n: nat, p: nat)
    requires n < p
    ensures n % p == n
  {
  }

  function Padding(n: nat): (r: seq<Byte>)
    ensures (n + |r|) % 4 == 0 && |r| < 4
  {
    seq((4 - n % 4) % 4, _ => ZERO)
  }
}
