/**
 The bytes and characters of a result commitment, said of their values: numbers in base 256,
 digests in base 16, and every three bytes as four digits of base 64.
 */
module Layout {
  import opened Common
  import opened Wire

  // ---------------------------------------------------------------- text

  /** A digit of the URL-safe alphabet: capitals, small letters, figures, minus, underscore. */
  predicate UrlDigit(c: char, value: int)
  {
    || (65 <= c as int <= 90 && value == c as int - 65)
    || (97 <= c as int <= 122 && value == c as int - 71)
    || (48 <= c as int <= 57 && value == c as int + 4)
    || (c as int == 45 && value == 62) || (c as int == 95 && value == 63)
  }

  /** The byte at `i`, or zero past the end. */
  function ByteAt(data: seq<byte>, i: nat): int { if i < |data| then data[i] else 0 }

  predicate DigitAt(text: string, i: nat, value: int)
  {
    if i < |text| then UrlDigit(text[i], value) else value == 0
  }

  lemma StripUnpadded(data: seq<byte>)
    ensures EncodeBytes(data) == Unpadded(data)
  {
    PaddingShape(data);
    StripPads(Unpadded(data), Missing(|Unpadded(data)|));
  }

  lemma ShiftedDigit(front: string, rest: string, i: nat, v: int)
    ensures DigitAt(front + rest, |front| + i, v) <==> DigitAt(rest, i, v)
  {
    hide UrlDigit;
  }

  lemma LaterDigits(data: seq<byte>, i: nat, v: int)
    requires |data| >= 3
    ensures DigitAt(Unpadded(data), 4 + i, v) <==> DigitAt(Unpadded(data[3..]), i, v)
  {
    hide Quad, UrlDigit, Unpadded, EncodePadded;
    EncodeThree(data);
    ShiftedDigit(Quad(data[0], data[1], data[2]), Unpadded(data[3..]), i, v);
  }

  lemma LaterBytes(data: seq<byte>, i: nat)
    requires |data| >= 3
    ensures ByteAt(data, 3 + i) == ByteAt(data[3..], i)
  {
  }

  lemma SymbolUrl(x: sextet)
    ensures UrlDigit(Symbol(x), x)
  {
  }

  lemma Sextets(x: byte, y: byte, z: byte)
    ensures x * 65536 + y * 256 + z
         == (x / 4) * 262144 + (x % 4 * 16 + y / 16) * 4096 + (y % 16 * 4 + z / 64) * 64 + z % 64
  {
    assert x == x / 4 * 4 + x % 4 && y == y / 16 * 16 + y % 16 && z == z / 64 * 64 + z % 64;
  }

  lemma FirstGroup(data: seq<byte>) returns (a: int, b: int, c: int, d: int)
    requires data != []
    ensures ByteAt(data, 0) * 65536 + ByteAt(data, 1) * 256 + ByteAt(data, 2) == a * 262144 + b * 4096 + c * 64 + d
    ensures DigitAt(Unpadded(data), 0, a) && DigitAt(Unpadded(data), 1, b)
    ensures DigitAt(Unpadded(data), 2, c) && DigitAt(Unpadded(data), 3, d)
  {
    var x, y, z := ByteAt(data, 0), ByteAt(data, 1), ByteAt(data, 2);
    Sextets(x, y, z);
    a, b, c, d := x / 4, x % 4 * 16 + y / 16, y % 16 * 4 + z / 64, z % 64;
    FirstDigits(data, a, b, c, d);
    hide DigitAt;
  }

  lemma FirstDigits(data: seq<byte>, a: sextet, b: sextet, c: sextet, d: sextet)
    requires data != []
    requires var x, y, z := ByteAt(data, 0), ByteAt(data, 1), ByteAt(data, 2);
      a == x / 4 && b == x % 4 * 16 + y / 16 && c == y % 16 * 4 + z / 64 && d == z % 64
    ensures DigitAt(Unpadded(data), 0, a) && DigitAt(Unpadded(data), 1, b)
    ensures DigitAt(Unpadded(data), 2, c) && DigitAt(Unpadded(data), 3, d)
  {
    SymbolUrl(a);
    SymbolUrl(b);
    SymbolUrl(c);
    SymbolUrl(d);
    hide UrlDigit, Symbol;
    if |data| == 1 {
      assert Unpadded(data) == [Symbol(a), Symbol(b)];
    } else if |data| == 2 {
      assert Unpadded(data) == [Symbol(a), Symbol(b), Symbol(c)];
    } else {
      assert Unpadded(data) == [Symbol(a), Symbol(b), Symbol(c), Symbol(d)] + Unpadded(data[3..]);
    }
  }

  /** Three bytes are one number, written with four digits; what is missing at the end counts as zero. */
  lemma {:induction false} GroupOfFour(data: seq<byte>, q: nat) returns (a: int, b: int, c: int, d: int)
    requires 3 * q < |data|
    ensures |EncodeBytes(data)| == (4 * |data| + 2) / 3
    ensures ByteAt(data, 3 * q) * 65536 + ByteAt(data, 3 * q + 1) * 256 + ByteAt(data, 3 * q + 2)
         == a * 262144 + b * 4096 + c * 64 + d
    ensures var text := EncodeBytes(data);
      DigitAt(text, 4 * q, a) && DigitAt(text, 4 * q + 1, b) && DigitAt(text, 4 * q + 2, c)
        && DigitAt(text, 4 * q + 3, d)
    decreases q
  {
    StripUnpadded(data);
    hide Unpadded, UrlDigit, DigitAt, ByteAt;
    if q == 0 {
      a, b, c, d := FirstGroup(data);
    } else {
      StripUnpadded(data[3..]);
      a, b, c, d := GroupOfFour(data[3..], q - 1);
      LaterDigits(data, 4 * q - 4, a);
      LaterDigits(data, 4 * q - 3, b);
      LaterDigits(data, 4 * q - 2, c);
      LaterDigits(data, 4 * q - 1, d);
      LaterBytes(data, 3 * q - 3);
      LaterBytes(data, 3 * q - 2);
      LaterBytes(data, 3 * q - 1);
    }
  }

  // ---------------------------------------------------------------- bytes

  /** The number that big-endian bytes stand for. */
  function Value(b: seq<byte>): nat { if b == [] then 0 else 256 * Value(b[..|b| - 1]) + b[|b| - 1] }

  lemma {:induction false} ValueRead(b: seq<byte>)
    ensures Value(b) == FromBigEndian(b)
    decreases |b|
  {
    if b != [] {
      ValueRead(b[..|b| - 1]);
    }
  }

  predicate HexDigitOf(c: char, value: int)
  {
    (48 <= c as int <= 57 && value == c as int - 48) || (97 <= c as int <= 102 && value == c as int - 87)
  }

  /** Every byte is two hexadecimal characters. */
  ghost predicate Spells(b: seq<byte>, s: string)
  {
    |s| == 2 * |b| && forall i :: 0 <= i < |b| ==>
      HexDigitOf(s[2 * i], b[i] / 16) && HexDigitOf(s[2 * i + 1], b[i] % 16)
  }

  lemma {:induction false} HexSpells(s: string)
    requires |s| % 2 == 0 && forall i :: 0 <= i < |s| ==> IsHex(s[i])
    ensures Spells(FromHex(s), s)
    decreases |s|
  {
    if s != "" {
      var b, rest := FromHex(s), FromHex(s[2..]);
      HexSpells(s[2..]);
      assert b == [HexDigit(s[0]) * 16 + HexDigit(s[1])] + rest;
      Nibbles(HexDigit(s[0]), HexDigit(s[1]));
      forall i | 0 <= i < |b|
        ensures HexDigitOf(s[2 * i], b[i] / 16) && HexDigitOf(s[2 * i + 1], b[i] % 16)
      {
        if i > 0 {
          assert b[i] == rest[i - 1] && s[2 * i] == s[2..][2 * (i - 1)] && s[2 * i + 1] == s[2..][2 * (i - 1) + 1];
        }
      }
    }
  }

  /** A record of the wire format: ranges, small hexadecimal digests, and flags that agree with the scores. */
  ghost predicate WellFormed(r: Result)
  {
    && r.window < 4294967296 && r.uid < 65536
    && Digits(r.modelId, 64) && Digits(r.policy, 24) && Digits(r.evidence, 64)
    && r.flags < 16 && r.quality < 65536 && r.reward < 65536 && r.kingQuality < 65536 && r.kingReward < 65536
    && r.reward <= r.quality && r.kingReward <= r.kingQuality
    && (r.flags / 2 % 2 == 1 ==> r.quality == 0 && r.reward == 0)
    && (r.flags / 8 % 2 == 1 ==> r.flags / 4 % 2 == 0 && r.flags / 2 % 2 == 0 && r.flags % 2 == 1)
  }

  ghost predicate Digits(s: string, n: nat)
  {
    |s| == n && forall i :: 0 <= i < |s| ==> HexCharacter(s[i])
  }

  ghost predicate HexCharacter(c: char) { exists v :: HexDigitOf(c, v) }

  lemma DigestMeans(s: string, n: nat)
    ensures Digest(s, n) <==> Digits(s, n)
  {
    hide IsHex, HexCharacter;
    forall i | 0 <= i < |s|
      ensures IsHex(s[i]) <==> HexCharacter(s[i])
    {
      HexMeans(s[i]);
    }
  }

  lemma HexMeans(c: char)
    ensures IsHex(c) <==> HexCharacter(c)
  {
    if IsHex(c) {
      assert HexDigitOf(c, HexDigit(c));
    }
  }

  lemma ValidMeans(r: Result)
    ensures r.Valid() <==> WellFormed(r)
  {
    DigestMeans(r.modelId, 64);
    DigestMeans(r.policy, 24);
    DigestMeans(r.evidence, 64);
    hide Digest, Digits;
  }

  /** Window, uid, three digests, four scores and the flags, in 91 bytes. */
  ghost predicate LaidOut(r: Result, b: seq<byte>)
  {
    && |b| == 91 && Value(b[..4]) == r.window && Value(b[4..6]) == r.uid
    && Spells(b[6..38], r.modelId) && Spells(b[38..50], r.policy) && Spells(b[50..82], r.evidence)
    && Value(b[82..84]) == r.quality && Value(b[84..86]) == r.reward
    && Value(b[86..88]) == r.kingQuality && Value(b[88..90]) == r.kingReward && b[90] == r.flags
  }

  lemma PackLaidOut(r: Result)
    requires r.Valid()
    ensures LaidOut(r, r.Pack())
  {
    var b := r.Pack();
    UnpackPacked(r);
    ValueRead(b[..4]);
    ValueRead(b[4..6]);
    ValueRead(b[82..84]);
    ValueRead(b[84..86]);
    ValueRead(b[86..88]);
    ValueRead(b[88..90]);
    hide Spells, Value;
    PackedDigests(r);
  }

  lemma PackedDigests(r: Result)
    requires r.Valid()
    ensures var b := r.Pack();
      |b| == 91 && Spells(b[6..38], r.modelId) && Spells(b[38..50], r.policy) && Spells(b[50..82], r.evidence)
  {
    var b := r.Pack();
    hide Spells, FromHex, IsHex;
    HexSpells(r.modelId);
    HexSpells(r.policy);
    HexSpells(r.evidence);
    assert b[6..38] == FromHex(r.modelId);
    assert b[38..50] == FromHex(r.policy);
    assert b[50..82] == FromHex(r.evidence);
  }

  /**
   Which strings are results, and what they say: the prefix, and the text of 91 bytes that lay out a
   well-formed record.
   */
  lemma ParsedMeans(value: string, r: Result)
    ensures Parse(value) == Ok(r) <==>
      WellFormed(r) && exists b: seq<byte> :: LaidOut(r, b) && value == "wr2|" + EncodeBytes(b)
  {
    ValidMeans(r);
    hide WellFormed, Result.Valid, EncodeBytes;
    if Parse(value) == Ok(r) {
      CommitParsed(value);
      PackLaidOut(r);
      assert value == "wr2|" + EncodeBytes(r.Pack());
    }
    if WellFormed(r) {
      forall b: seq<byte> | LaidOut(r, b) && value == "wr2|" + EncodeBytes(b)
        ensures Parse(value) == Ok(r)
      {
        PackLaidOut(r);
        OneLayout(r, b, r.Pack());
        ParseCommitment(r);
      }
    }
  }

  /** Equal values and digests have equal bytes. */
  lemma OneLayout(r: Result, a: seq<byte>, b: seq<byte>)
    requires LaidOut(r, a) && LaidOut(r, b)
    ensures a == b
  {
    hide Spells;
    SameValue(a[..4], b[..4]);
    SameValue(a[4..6], b[4..6]);
    SameSpelling(a[6..38], b[6..38], r.modelId);
    SameSpelling(a[38..50], b[38..50], r.policy);
    SameSpelling(a[50..82], b[50..82], r.evidence);
    SameValue(a[82..84], b[82..84]);
    SameValue(a[84..86], b[84..86]);
    SameValue(a[86..88], b[86..88]);
    SameValue(a[88..90], b[88..90]);
    hide Value;
    assert a == a[..4] + a[4..6] + a[6..38] + a[38..50] + a[50..82]
        + (a[82..84] + a[84..86] + a[86..88] + a[88..90] + [a[90]]);
    assert b == b[..4] + b[4..6] + b[6..38] + b[38..50] + b[50..82]
        + (b[82..84] + b[84..86] + b[86..88] + b[88..90] + [b[90]]);
  }

  lemma {:induction false} SameValue(a: seq<byte>, b: seq<byte>)
    requires |a| == |b| && Value(a) == Value(b)
    ensures a == b
    decreases |a|
  {
    if a != [] {
      var n := |a| - 1;
      assert a == a[..n] + [a[n]] && b == b[..n] + [b[n]];
      SameValue(a[..n], b[..n]);
    }
  }

  lemma SameSpelling(a: seq<byte>, b: seq<byte>, s: string)
    requires Spells(a, s) && Spells(b, s)
    ensures a == b
  {
    forall i | 0 <= i < |a|
      ensures a[i] == b[i]
    {
      assert HexDigitOf(s[2 * i], a[i] / 16) && HexDigitOf(s[2 * i], b[i] / 16);
      assert HexDigitOf(s[2 * i + 1], a[i] % 16) && HexDigitOf(s[2 * i + 1], b[i] % 16);
    }
  }
}
