// `btoa`: base64 encoding of a string's code units, with the alphabet and
// '=' padding of section 4 of RFC 4648. The support board stores
// `btoa(password)` and compares it with `btoa(attempt)`.
module Base64 {
  import opened Wrappers

  /** The character RFC 4648 assigns to a 6-bit value. */
  function Char(i: nat): (c: char)
    requires i < 64
    ensures c != '='
  {
    if i < 26 then ('A' as int + i) as char
    else if i < 52 then ('a' as int + i - 26) as char
    else if i < 62 then ('0' as int + i - 52) as char
    else if i == 62 then '+'
    else '/'
  }

  /** The 6-bit value of an alphabet character (0 for anything else). */
  function Index(c: char): nat {
    if 'A' <= c <= 'Z' then c as int - 'A' as int
    else if 'a' <= c <= 'z' then c as int - 'a' as int + 26
    else if '0' <= c <= '9' then c as int - '0' as int + 52
    else if c == '+' then 62
    else if c == '/' then 63
    else 0
  }

  lemma IndexChar(i: nat)
    requires i < 64
    ensures Index(Char(i)) == i
  {
  }

  predicate IsByteSeq(b: seq<nat>) {
    forall i :: 0 <= i < |b| ==> b[i] < 256
  }

  /** The four characters of one full 3-byte block. */
  function Block(b0: nat, b1: nat, b2: nat): (t: string)
    requires b0 < 256 && b1 < 256 && b2 < 256
    ensures |t| == 4 && t[2] != '=' && t[3] != '='
  {
    [Char(b0 / 4), Char((b0 % 4) * 16 + b1 / 16), Char((b1 % 16) * 4 + b2 / 64), Char(b2 % 64)]
  }

  /** Each 3 bytes become 4 characters; a final 1 or 2 bytes are padded. */
  function Encode(b: seq<nat>): (t: string)
    requires IsByteSeq(b)
    ensures |t| == 4 * ((|b| + 2) / 3)
  {
    if |b| == 0 then []
    else if |b| == 1 then [Char(b[0] / 4), Char((b[0] % 4) * 16), '=', '=']
    else if |b| == 2 then [Char(b[0] / 4), Char((b[0] % 4) * 16 + b[1] / 16), Char((b[1] % 16) * 4), '=']
    else Block(b[0], b[1], b[2]) + Encode(b[3..])
  }

  /** The inverse of Encode on its image (atob on well-formed input). */
  function Decode(t: string): seq<nat>
    decreases |t|
  {
    if |t| < 4 then []
    else
      var i0, i1, i2, i3 := Index(t[0]), Index(t[1]), Index(t[2]), Index(t[3]);
      if t[2] == '=' then [i0 * 4 + i1 / 16]
      else if t[3] == '=' then [i0 * 4 + i1 / 16, (i1 % 16) * 16 + i2 / 4]
      else [i0 * 4 + i1 / 16, (i1 % 16) * 16 + i2 / 4, (i2 % 4) * 64 + i3] + Decode(t[4..])
  }

  lemma Div16(hi: nat, lo: nat)
    requires lo < 16
    ensures (hi * 16 + lo) / 16 == hi && (hi * 16 + lo) % 16 == lo
  {
  }

  lemma Div4(hi: nat, lo: nat)
    requires lo < 4
    ensures (hi * 4 + lo) / 4 == hi && (hi * 4 + lo) % 4 == lo
  {
  }

  /** The 6-bit groups of one 3-byte block give the bytes back. */
  lemma BlockRoundTrip(b0: nat, b1: nat, b2: nat)
    requires b0 < 256 && b1 < 256 && b2 < 256
    ensures var i0, i1, i2, i3 := b0 / 4, (b0 % 4) * 16 + b1 / 16, (b1 % 16) * 4 + b2 / 64, b2 % 64;
      i0 < 64 && i1 < 64 && i2 < 64 && i3 < 64
      && i0 * 4 + i1 / 16 == b0 && (i1 % 16) * 16 + i2 / 4 == b1 && (i2 % 4) * 64 + i3 == b2
  {
    Div16(b0 % 4, b1 / 16);
    Div4(b1 % 16, b2 / 64);
  }

  lemma DecodeFullBlock(c0: char, c1: char, c2: char, c3: char, rest: string)
    requires c2 != '=' && c3 != '='
    ensures var i0, i1, i2, i3 := Index(c0), Index(c1), Index(c2), Index(c3);
      Decode([c0, c1, c2, c3] + rest)
      == [i0 * 4 + i1 / 16, (i1 % 16) * 16 + i2 / 4, (i2 % 4) * 64 + i3] + Decode(rest)
  {
    assert ([c0, c1, c2, c3] + rest)[4..] == rest;
  }

  lemma DecodeOne(b0: nat)
    requires b0 < 256
    ensures Decode(Encode([b0])) == [b0]
  {
    var i0, i1 := b0 / 4, (b0 % 4) * 16;
    BlockRoundTrip(b0, 0, 0);
    IndexChar(i0);
    IndexChar(i1);
    assert Encode([b0]) == [Char(i0), Char(i1), '=', '='];
  }

  lemma DecodeTwo(b0: nat, b1: nat)
    requires b0 < 256 && b1 < 256
    ensures Decode(Encode([b0, b1])) == [b0, b1]
  {
    var i0, i1, i2 := b0 / 4, (b0 % 4) * 16 + b1 / 16, (b1 % 16) * 4;
    BlockRoundTrip(b0, b1, 0);
    IndexChar(i0);
    IndexChar(i1);
    IndexChar(i2);
    assert Encode([b0, b1]) == [Char(i0), Char(i1), Char(i2), '='];
  }

  /** Decoding the characters of one block gives its three bytes back. */
  lemma DecodeBlock(b0: nat, b1: nat, b2: nat, rest: string)
    requires b0 < 256 && b1 < 256 && b2 < 256
    ensures Decode(Block(b0, b1, b2) + rest) == [b0, b1, b2] + Decode(rest)
  {
    var i0, i1, i2, i3 := b0 / 4, (b0 % 4) * 16 + b1 / 16, (b1 % 16) * 4 + b2 / 64, b2 % 64;
    BlockRoundTrip(b0, b1, b2);
    IndexChar(i0);
    IndexChar(i1);
    IndexChar(i2);
    IndexChar(i3);
    DecodeFullBlock(Char(i0), Char(i1), Char(i2), Char(i3), rest);
  }

  lemma {:induction false} DecodeEncode(b: seq<nat>)
    requires IsByteSeq(b)
    ensures Decode(Encode(b)) == b
  {
    if |b| == 1 {
      DecodeOne(b[0]);
      assert b == [b[0]];
    } else if |b| == 2 {
      DecodeTwo(b[0], b[1]);
      assert b == [b[0], b[1]];
    } else if |b| >= 3 {
      var rest := Encode(b[3..]);
      assert Encode(b) == Block(b[0], b[1], b[2]) + rest;
      DecodeBlock(b[0], b[1], b[2], rest);
      DecodeEncode(b[3..]);
      assert b == [b[0], b[1], b[2]] + b[3..];
    }
  }

  lemma EncodeInjective(a: seq<nat>, b: seq<nat>)
    requires IsByteSeq(a) && IsByteSeq(b) && Encode(a) == Encode(b)
    ensures a == b
  {
    DecodeEncode(a);
    DecodeEncode(b);
  }

  /** btoa accepts only strings whose code units fit in one byte. */
  predicate IsLatin1(s: string) {
    forall i :: 0 <= i < |s| ==> s[i] as int < 256
  }

  function Codes(s: string): (b: seq<nat>)
    ensures |b| == |s|
  {
    seq(|s|, i requires 0 <= i < |s| => s[i] as nat)
  }

  /** `btoa(s)`; None where btoa throws InvalidCharacterError. */
  function Btoa(s: string): (r: Option<string>)
    ensures r.Some? <==> IsLatin1(s)
  {
    if IsLatin1(s) then Some(Encode(Codes(s))) else None
  }

  /** Two strings btoa accepts have the same encoding only if they are equal,
      so comparing encodings compares the passwords. */
  lemma BtoaInjective(p: string, q: string)
    requires Btoa(p).Some? && Btoa(p) == Btoa(q)
    ensures p == q
  {
    EncodeInjective(Codes(p), Codes(q));
    assert forall i :: 0 <= i < |p| ==> p[i] as nat == Codes(p)[i];
  }

  lemma EncodeFoo()
    ensures Encode([102, 111, 111]) == "Zm9v"
  {
    assert Encode([102, 111, 111]) == Block(102, 111, 111) + Encode([]);
    assert Block(102, 111, 111) == [Char(25), Char(38), Char(61), Char(47)];
    assert Char(25) == 'Z' && Char(38) == 'm' && Char(61) == '9' && Char(47) == 'v';
  }

  lemma EncodeBar()
    ensures Encode([98, 97, 114]) == "YmFy"
  {
    assert Encode([98, 97, 114]) == Block(98, 97, 114) + Encode([]);
    assert Block(98, 97, 114) == [Char(24), Char(38), Char(5), Char(50)];
    assert Char(24) == 'Y' && Char(38) == 'm' && Char(5) == 'F' && Char(50) == 'y';
  }

  /** The test vectors of section 10 of RFC 4648 up to two bytes. */
  lemma ShortTestVectors()
    ensures Btoa("") == Some("")
    ensures Btoa("f") == Some("Zg==")
    ensures Btoa("fo") == Some("Zm8=")
  {
  }

  /** The three-byte test vector of section 10 of RFC 4648. */
  lemma FooTestVector()
    ensures Btoa("foo") == Some("Zm9v")
  {
    assert Codes("foo") == [102, 111, 111];
    EncodeFoo();
  }

  /** The six-byte test vector of section 10 of RFC 4648. */
  lemma FoobarTestVector()
    ensures Btoa("foobar") == Some("Zm9vYmFy")
  {
    var b := [102, 111, 111, 98, 97, 114];
    assert Codes("foobar") == b;
    assert b[3..] == [98, 97, 114];
    assert Encode(b) == Block(102, 111, 111) + Encode([98, 97, 114]);
    EncodeFoo();
    EncodeBar();
    assert Encode(b) == "Zm9v" + "YmFy" == "Zm9vYmFy";
    assert IsLatin1("foobar");
  }
}
