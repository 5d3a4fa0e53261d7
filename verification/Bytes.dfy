/** Texts as the bytes that are hashed: UTF-8, as RFC 3629 defines it in section 3. */
module TextBytes {
  type Byte = n: nat | n < 256

  type Bytes = seq<Byte>

  function CharBytes(c: char): (bytes: Bytes)
    ensures bytes != [] && forall i :: 0 <= i < |bytes| ==> bytes[i] < 0xf5
  {
    var n := c as int;
    if n < 0x80 then [n]
    else if n < 0x800 then [0xc0 + n / 64, 0x80 + n % 64]
    else if n < 0x1_0000 then [0xe0 + n / 64 / 64, 0x80 + n / 64 % 64, 0x80 + n % 64]
    else [0xf0 + n / 64 / 64 / 64, 0x80 + n / 64 / 64 % 64, 0x80 + n / 64 % 64, 0x80 + n % 64]
  }

  function Utf8(text: string): (bytes: Bytes)
    ensures forall i :: 0 <= i < |bytes| ==> bytes[i] < 0xf5
  {
    if text == "" then [] else CharBytes(text[0]) + Utf8(text[1..])
  }

  /** How many bytes a character has is told by its first. */
  function Length(lead: Byte): nat {
    if lead < 0x80 then 1 else if lead < 0xe0 then 2 else if lead < 0xf0 then 3 else 4
  }

  lemma LeadTellsLength(c: char)
    ensures |CharBytes(c)| == Length(CharBytes(c)[0])
  {}

  /** The number of the character some bytes are. */
  function Decoded(bytes: Bytes): int
    requires bytes != [] && |bytes| == Length(bytes[0])
  {
    var b: seq<int> := bytes;
    if |b| == 1 then b[0]
    else if |b| == 2 then (b[0] - 0xc0) * 64 + (b[1] - 0x80)
    else if |b| == 3 then ((b[0] - 0xe0) * 64 + (b[1] - 0x80)) * 64 + (b[2] - 0x80)
    else (((b[0] - 0xf0) * 64 + (b[1] - 0x80)) * 64 + (b[2] - 0x80)) * 64 + (b[3] - 0x80)
  }

  lemma DecodesBack(c: char)
    ensures |CharBytes(c)| == Length(CharBytes(c)[0]) && Decoded(CharBytes(c)) == c as int
  {
    LeadTellsLength(c);
    var n := c as int;
    var q := n / 64;
    var r := q / 64;
    assert n == q * 64 + n % 64 && q == r * 64 + q % 64 && r == r / 64 * 64 + r % 64;
  }

  lemma CharIsOneToOne(c: char, d: char)
    requires CharBytes(c) == CharBytes(d)
    ensures c == d
  {
    hide CharBytes;
    DecodesBack(c);
    DecodesBack(d);
    assert c as int == d as int;
  }

  /** No two texts are the same bytes. */
  lemma {:induction false} Utf8IsOneToOne(s: string, t: string)
    requires Utf8(s) == Utf8(t)
    ensures s == t
  {
    if s != "" && t != "" {
      var (a, b) := (CharBytes(s[0]), CharBytes(t[0]));
      LeadTellsLength(s[0]);
      LeadTellsLength(t[0]);
      assert Utf8(s)[0] == a[0] && Utf8(t)[0] == b[0];
      assert a == Utf8(s)[..|a|] == b;
      assert Utf8(s[1..]) == Utf8(s)[|a|..] == Utf8(t[1..]);
      hide CharBytes;
      CharIsOneToOne(s[0], t[0]);
      Utf8IsOneToOne(s[1..], t[1..]);
    }
  }
}
