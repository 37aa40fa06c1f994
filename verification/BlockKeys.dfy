// Prefix-cache keys: a block hash followed by its cache-group id in four big-endian bytes.
module BlockKeys {
  type Byte = x: int | 0 <= x < 256
  type Bytes = seq<Byte>
  type Key = Bytes

  const GROUP_LIMIT: nat := 0x1_0000_0000

  // The source raises OverflowError for a group id that does not fit in four bytes.
  function MakeKey(hash: Bytes, group: nat): (k: Key)
    requires group < GROUP_LIMIT
  {
    hash + [group / 0x100_0000, group / 0x1_0000 % 256, group / 256 % 256, group % 256]
  }

  // key[:-4] and key[-4:], which on a short key are [] and the whole key.
  function GetBlockHash(key: Key): Bytes {
    if |key| < 4 then [] else key[..|key| - 4]
  }

  function GetGroupId(key: Key): nat {
    FromBigEndian(if |key| < 4 then key else key[|key| - 4..])
  }

  function FromBigEndian(bytes: Bytes): nat {
    if bytes == [] then 0 else 256 * FromBigEndian(bytes[..|bytes| - 1]) + bytes[|bytes| - 1]
  }

  lemma FourBytes(a: Byte, b: Byte, c: Byte, d: Byte)
    ensures FromBigEndian([a, b, c, d]) == ((a * 256 + b) * 256 + c) * 256 + d
  {
    assert [a, b, c, d][..3] == [a, b, c];
    assert FromBigEndian([a, b]) == a * 256 + b by {
      assert FromBigEndian([a]) == a by {
        assert [a][..0] == [];
      }
      assert [a, b][..1] == [a];
    }
    assert [a, b, c][..2] == [a, b];
  }

  // Packing loses nothing, and two keys agree exactly when both parts do.
  lemma KeyRoundTrip(hash: Bytes, group: nat)
    requires group < GROUP_LIMIT
    ensures GetBlockHash(MakeKey(hash, group)) == hash
    ensures GetGroupId(MakeKey(hash, group)) == group
  {
    var key := MakeKey(hash, group);
    assert key[|key| - 4..] == [group / 0x100_0000, group / 0x1_0000 % 256, group / 256 % 256, group % 256];
    FourBytes(group / 0x100_0000, group / 0x1_0000 % 256, group / 256 % 256, group % 256);
    assert key[..|key| - 4] == hash;
  }

  lemma FourDigits(a: Byte, b: Byte, c: Byte, d: Byte)
    ensures var g := ((a * 256 + b) * 256 + c) * 256 + d;
      0 <= g < GROUP_LIMIT && g / 0x100_0000 == a && g / 0x1_0000 % 256 == b && g / 256 % 256 == c && g % 256 == d
  {
    var g := ((a * 256 + b) * 256 + c) * 256 + d;
    assert g == a * 0x100_0000 + b * 0x1_0000 + c * 256 + d;
    assert g / 256 == a * 0x1_0000 + b * 256 + c;
    assert g / 0x1_0000 == a * 256 + b;
  }

  // Every key of at least four bytes is the packing of its own two parts.
  lemma KeyRepack(key: Key)
    requires |key| >= 4
    ensures GetGroupId(key) < GROUP_LIMIT
    ensures MakeKey(GetBlockHash(key), GetGroupId(key)) == key
  {
    var n := |key| - 4;
    var a: Byte, b: Byte, c: Byte, d: Byte := key[n], key[n + 1], key[n + 2], key[n + 3];
    assert key[n..] == [a, b, c, d];
    FourBytes(a, b, c, d);
    FourDigits(a, b, c, d);
    assert key == key[..n] + [a, b, c, d];
  }

  lemma KeysDiffer(h1: Bytes, g1: nat, h2: Bytes, g2: nat)
    requires g1 < GROUP_LIMIT && g2 < GROUP_LIMIT
    ensures MakeKey(h1, g1) == MakeKey(h2, g2) <==> h1 == h2 && g1 == g2
  {
    KeyRoundTrip(h1, g1);
    KeyRoundTrip(h2, g2);
  }
}
