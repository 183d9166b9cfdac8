/**
 The compact result commitment: 91 bytes, big-endian, carried as `wr2|` followed by
 122 characters of unpadded base64url (section 5 of RFC 4648).
 */
module Wire {
  import opened Common

  type byte = x: int | 0 <= x < 256

  // ---------------------------------------------------------------- base64url

  type sextet = x: int | 0 <= x < 64

  function Symbol(x: sextet): char
  {
    if x < 26 then ('A' as int + x) as char
    else if x < 52 then ('a' as int + (x - 26)) as char
    else if x < 62 then ('0' as int + (x - 52)) as char
    else if x == 62 then '-' else '_'
  }

  /** The decoder also accepts the two symbols of the standard alphabet. */
  function Digit(c: char): (r: Option<int>)
    ensures r.Some? ==> 0 <= r.value < 64
  {
    if 'A' <= c <= 'Z' then Some(c as int - 'A' as int)
    else if 'a' <= c <= 'z' then Some(c as int - 'a' as int + 26)
    else if '0' <= c <= '9' then Some(c as int - '0' as int + 52)
    else if c == '-' || c == '+' then Some(62)
    else if c == '_' || c == '/' then Some(63)
    else None
  }

  /** Three bytes as four symbols. */
  function Quad(a: byte, b: byte, c: byte): (s: string)
    ensures |s| == 4 && forall i :: 0 <= i < 4 ==> s[i] != '='
  {
    [Symbol(a / 4), Symbol(a % 4 * 16 + b / 16), Symbol(b % 16 * 4 + c / 64), Symbol(c % 64)]
  }

  function EncodePadded(data: seq<byte>): string
  {
    if |data| == 0 then ""
    else if |data| == 1 then [Symbol(data[0] / 4), Symbol(data[0] % 4 * 16), '=', '=']
    else if |data| == 2 then
      [Symbol(data[0] / 4), Symbol(data[0] % 4 * 16 + data[1] / 16), Symbol(data[1] % 16 * 4), '=']
    else Quad(data[0], data[1], data[2]) + EncodePadded(data[3..])
  }

  /** `rstrip("=")` */
  function Strip(s: string): string
  {
    if s != [] && s[|s| - 1] == '=' then Strip(s[..|s| - 1]) else s
  }

  function EncodeBytes(data: seq<byte>): string { Strip(EncodePadded(data)) }

  function Pads(n: nat): string
  {
    if n == 0 then "" else Pads(n - 1) + "="
  }

  function Missing(n: nat): nat { (4 - n % 4) % 4 }

  /** Strict decoding of padded text; unused trailing bits are ignored. */
  function DecodeQuads(s: string): Option<seq<byte>>
  {
    if s == [] then Some([])
    else if |s| < 4 then None
    else
      match (Digit(s[0]), Digit(s[1]), Digit(s[2]), Digit(s[3]))
      case (Some(a), Some(b), Some(c), Some(d)) =>
        (match DecodeQuads(s[4..])
         case None => None
         case Some(rest) => Some([a * 4 + b / 16, b % 16 * 16 + c / 4, c % 4 * 64 + d] + rest))
      case (Some(a), Some(b), Some(c), None) =>
        if s[3..] == "=" then Some([a * 4 + b / 16, b % 16 * 16 + c / 4]) else None
      case (Some(a), Some(b), None, None) =>
        if s[2..] == "==" then Some([a * 4 + b / 16]) else None
      case _ => None
  }

  function DecodeBytes(value: string, size: nat): (r: Try<seq<byte>>)
    ensures r.Ok? ==> |r.value| == size
  {
    match DecodeQuads(value + Pads(Missing(|value|)))
    case None => Err("invalid_commitment_encoding")
    case Some(data) =>
      if |data| != size || EncodeBytes(data) != value then Err("noncanonical_commitment") else Ok(data)
  }

  lemma SymbolDigit(x: sextet)
    ensures Digit(Symbol(x)) == Some(x)
  {
  }

  /** The padded text without its padding; symbols are never the padding character. */
  function Unpadded(data: seq<byte>): (s: string)
    ensures |s| == (4 * |data| + 2) / 3
    ensures forall i :: 0 <= i < |s| ==> s[i] != '='
  {
    if |data| == 0 then ""
    else if |data| == 1 then [Symbol(data[0] / 4), Symbol(data[0] % 4 * 16)]
    else if |data| == 2 then
      [Symbol(data[0] / 4), Symbol(data[0] % 4 * 16 + data[1] / 16), Symbol(data[1] % 16 * 4)]
    else Quad(data[0], data[1], data[2]) + Unpadded(data[3..])
  }

  lemma {:induction false} PaddingShape(data: seq<byte>)
    ensures EncodePadded(data) == Unpadded(data) + Pads(Missing(|Unpadded(data)|))
    decreases |data|
  {
    hide Quad, EncodePadded, Unpadded, Pads, Missing;
    if |data| < 3 {
      ShortShape(data);
    } else {
      EncodeThree(data);
      PaddingShape(data[3..]);
      SameMissing(|Unpadded(data[3..])|);
      Regroup(Quad(data[0], data[1], data[2]), Unpadded(data[3..]), Pads(Missing(|Unpadded(data)|)));
    }
  }

  lemma ShortShape(data: seq<byte>)
    requires |data| < 3
    ensures EncodePadded(data) == Unpadded(data) + Pads(Missing(|Unpadded(data)|))
  {
    hide Symbol;
    assert Pads(2) == "==" && Pads(1) == "=" && Pads(0) == "";
  }

  lemma EncodeThree(data: seq<byte>)
    requires |data| >= 3
    ensures EncodePadded(data) == Quad(data[0], data[1], data[2]) + EncodePadded(data[3..])
    ensures Unpadded(data) == Quad(data[0], data[1], data[2]) + Unpadded(data[3..])
  {
    hide Quad;
  }

  lemma SameMissing(n: nat)
    ensures Missing(n + 4) == Missing(n)
  {
  }

  lemma Regroup<T>(a: seq<T>, b: seq<T>, c: seq<T>)
    ensures (a + b) + c == a + (b + c)
  {
  }

  lemma {:induction false} StripPads(s: string, n: nat)
    requires s == [] || s[|s| - 1] != '='
    ensures Strip(s + Pads(n)) == s
  {
    if n == 0 {
      assert s + Pads(0) == s;
    } else {
      assert (s + Pads(n))[..|s + Pads(n)| - 1] == s + Pads(n - 1);
      StripPads(s, n - 1);
    }
  }

  lemma {:induction false} DecodeEncoded(data: seq<byte>)
    ensures DecodeQuads(EncodePadded(data)) == Some(data)
    decreases |data|
  {
    hide Quad, EncodePadded, DecodeQuads;
    if |data| < 3 {
      DecodeShort(data);
    } else {
      EncodeThree(data);
      DecodeEncoded(data[3..]);
      DecodeThree(data[0], data[1], data[2], EncodePadded(data[3..]));
      assert data == [data[0], data[1], data[2]] + data[3..];
    }
  }

  /** The bits of three bytes survive being cut into sextets. */
  lemma Sextets(a: byte, b: byte, c: byte)
    ensures a / 4 * 4 + (a % 4 * 16 + b / 16) / 16 == a
    ensures (a % 4 * 16 + b / 16) % 16 * 16 + (b % 16 * 4 + c / 64) / 4 == b
    ensures (b % 16 * 4 + c / 64) % 4 * 64 + c % 64 == c
  {
    assert (a % 4 * 16 + b / 16) / 16 == a % 4 && (a % 4 * 16 + b / 16) % 16 == b / 16;
    assert (b % 16 * 4 + c / 64) / 4 == b % 16 && (b % 16 * 4 + c / 64) % 4 == c / 64;
  }

  lemma DecodeThree(a: byte, b: byte, c: byte, s: string)
    ensures DecodeQuads(Quad(a, b, c) + s) ==
            (match DecodeQuads(s) case None => None case Some(rest) => Some([a, b, c] + rest))
  {
    Sextets(a, b, c);
    SymbolDigit(a / 4);
    SymbolDigit(a % 4 * 16 + b / 16);
    SymbolDigit(b % 16 * 4 + c / 64);
    SymbolDigit(c % 64);
    hide Symbol, Digit;
    assert (Quad(a, b, c) + s)[4..] == s;
    DecodeFour(Quad(a, b, c) + s);
  }

  /** Four digits at the head of a text are three bytes. */
  lemma DecodeFour(s: string)
    requires |s| >= 4 && Digit(s[0]).Some? && Digit(s[1]).Some? && Digit(s[2]).Some? && Digit(s[3]).Some?
    ensures var a, b, c, d := Digit(s[0]).value, Digit(s[1]).value, Digit(s[2]).value, Digit(s[3]).value;
      DecodeQuads(s) == (match DecodeQuads(s[4..])
                         case None => None
                         case Some(rest) => Some([a * 4 + b / 16, b % 16 * 16 + c / 4, c % 4 * 64 + d] + rest))
  {
    hide Digit;
  }

  lemma DecodeTwo(a: byte, b: byte)
    ensures DecodeQuads([Symbol(a / 4), Symbol(a % 4 * 16 + b / 16), Symbol(b % 16 * 4), '=']) == Some([a, b])
  {
    Sextets(a, b, 0);
    SymbolDigit(a / 4);
    SymbolDigit(a % 4 * 16 + b / 16);
    SymbolDigit(b % 16 * 4);
    assert Digit('=') == None;
    hide Symbol, Digit;
    assert [Symbol(a / 4), Symbol(a % 4 * 16 + b / 16), Symbol(b % 16 * 4), '='][3..] == "=";
  }

  lemma DecodeOne(a: byte)
    ensures DecodeQuads([Symbol(a / 4), Symbol(a % 4 * 16), '=', '=']) == Some([a])
  {
    Sextets(a, 0, 0);
    SymbolDigit(a / 4);
    SymbolDigit(a % 4 * 16);
    assert Digit('=') == None;
    hide Symbol, Digit;
    assert [Symbol(a / 4), Symbol(a % 4 * 16), '=', '='][2..] == "==";
  }

  lemma DecodeShort(data: seq<byte>)
    requires |data| < 3
    ensures DecodeQuads(EncodePadded(data)) == Some(data)
  {
    hide Symbol, DecodeQuads;
    if |data| == 2 {
      DecodeTwo(data[0], data[1]);
      assert data == [data[0], data[1]];
    } else if |data| == 1 {
      DecodeOne(data[0]);
      assert data == [data[0]];
    } else {
      DecodeNothing();
      assert data == [];
    }
  }

  lemma DecodeNothing()
    ensures DecodeQuads(EncodePadded([])) == Some([])
  {
  }

  /** Encoding followed by decoding is the identity, and fixes the length of the text. */
  lemma EncodingRoundTrip(data: seq<byte>)
    ensures DecodeBytes(EncodeBytes(data), |data|) == Ok(data)
    ensures |EncodeBytes(data)| == (4 * |data| + 2) / 3
  {
    PaddingShape(data);
    StripPads(Unpadded(data), Missing(|Unpadded(data)|));
    DecodeEncoded(data);
  }

  // ---------------------------------------------------------------- big-endian fields

  function BigEndian(n: nat, width: nat): (r: seq<byte>)
    ensures |r| == width
  {
    if width == 0 then [] else BigEndian(n / 256, width - 1) + [n % 256]
  }

  function FromBigEndian(b: seq<byte>): nat
  {
    if b == [] then 0 else FromBigEndian(b[..|b| - 1]) * 256 + b[|b| - 1]
  }

  function Power256(width: nat): nat
  {
    if width == 0 then 1 else 256 * Power256(width - 1)
  }

  lemma {:induction false} BigEndianRead(n: nat, width: nat)
    requires n < Power256(width)
    ensures FromBigEndian(BigEndian(n, width)) == n
    decreases width
  {
    if width > 0 {
      BigEndianRead(n / 256, width - 1);
      assert BigEndian(n, width)[..width - 1] == BigEndian(n / 256, width - 1);
    }
  }

  lemma {:induction false} BigEndianWrite(b: seq<byte>)
    ensures FromBigEndian(b) < Power256(|b|)
    ensures BigEndian(FromBigEndian(b), |b|) == b
    decreases |b|
  {
    if b != [] {
      var front, last := b[..|b| - 1], b[|b| - 1];
      BigEndianWrite(front);
      LastByte(FromBigEndian(front), last);
      assert BigEndian(FromBigEndian(b), |b|) == BigEndian(FromBigEndian(front), |front|) + [last];
      assert b == front + [last];
    }
  }

  lemma LastByte(n: nat, x: byte)
    ensures (n * 256 + x) / 256 == n && (n * 256 + x) % 256 == x
  {
  }

  // ---------------------------------------------------------------- hexadecimal digests

  predicate IsHex(c: char) { '0' <= c <= '9' || 'a' <= c <= 'f' }

  function HexDigit(c: char): (r: int)
    requires IsHex(c)
    ensures 0 <= r < 16
  {
    if c <= '9' then c as int - '0' as int else c as int - 'a' as int + 10
  }

  function HexSymbol(x: int): (c: char)
    requires 0 <= x < 16
    ensures IsHex(c) && HexDigit(c) == x
  {
    if x < 10 then ('0' as int + x) as char else ('a' as int + (x - 10)) as char
  }

  predicate Digest(s: string, length: nat)
  {
    |s| == length && forall i :: 0 <= i < |s| ==> IsHex(s[i])
  }

  function FromHex(s: string): (b: seq<byte>)
    requires |s| % 2 == 0 && forall i :: 0 <= i < |s| ==> IsHex(s[i])
    ensures |b| == |s| / 2
  {
    if s == "" then [] else [HexDigit(s[0]) * 16 + HexDigit(s[1])] + FromHex(s[2..])
  }

  function ToHex(b: seq<byte>): (s: string)
    ensures Digest(s, 2 * |b|)
  {
    if b == [] then "" else [HexSymbol(b[0] / 16), HexSymbol(b[0] % 16)] + ToHex(b[1..])
  }

  lemma HexInjective(a: char, x: int)
    requires IsHex(a) && HexDigit(a) == x
    ensures HexSymbol(x) == a
  {
  }

  lemma {:induction false} HexRead(s: string)
    requires |s| % 2 == 0 && forall i :: 0 <= i < |s| ==> IsHex(s[i])
    ensures ToHex(FromHex(s)) == s
    decreases |s|
  {
    if s != "" {
      HexPair(s);
      HexRead(s[2..]);
      hide HexDigit, HexSymbol;
      assert s == [s[0], s[1]] + s[2..];
    }
  }

  /** One byte of a digest and back. */
  lemma HexPair(s: string)
    requires |s| >= 2 && |s| % 2 == 0 && forall i :: 0 <= i < |s| ==> IsHex(s[i])
    ensures ToHex(FromHex(s)) == [s[0], s[1]] + ToHex(FromHex(s[2..]))
  {
    var x, y := HexDigit(s[0]), HexDigit(s[1]);
    HexInjective(s[0], x);
    HexInjective(s[1], y);
    hide HexDigit, HexSymbol, IsHex;
    Nibbles(x, y);
    assert FromHex(s)[1..] == FromHex(s[2..]);
  }

  lemma Nibbles(x: int, y: int)
    requires 0 <= x < 16 && 0 <= y < 16
    ensures (x * 16 + y) / 16 == x && (x * 16 + y) % 16 == y
  {
  }

  lemma {:induction false} HexWrite(b: seq<byte>)
    ensures FromHex(ToHex(b)) == b
    decreases |b|
  {
    if b != [] {
      HexWrite(b[1..]);
      assert ToHex(b)[2..] == ToHex(b[1..]);
      assert b == [b[0]] + b[1..];
    }
  }

  // ---------------------------------------------------------------- the record

  const CONTROLS_OK: nat := 1
  const REJECTED: nat := 2
  const BASELINE: nat := 4
  const EARLY_STOP: nat := 8

  const PREFIX := "wr2|"
  const RECORD_SIZE: nat := 91
  const MAX_COMMITMENT: nat := 128

  /** `flags & bit` for a single bit */
  predicate Has(flags: nat, bit: nat)
    requires bit > 0
  {
    flags / bit % 2 == 1
  }

  datatype Result = Result(window: nat, uid: nat, modelId: string, policy: string, evidence: string,
                           quality: nat, reward: nat, kingQuality: nat, kingReward: nat, flags: nat)
  {
    predicate Rejected() { Has(flags, REJECTED) }
    predicate Baseline() { Has(flags, BASELINE) }
    predicate Partial() { Has(flags, EARLY_STOP) }
    predicate ControlsOk() { Has(flags, CONTROLS_OK) }

    /** The checks of the record's constructor, in order. */
    function Checked(): Try<Result>
    {
      if !(window < 0x1_0000_0000 && uid < 0x1_0000) then Err("invalid_window_or_uid")
      else if !(Digest(modelId, 64) && Digest(policy, 24) && Digest(evidence, 64)) then Err("invalid_digest")
      else if flags > 15 || quality > SCALE || reward > SCALE || kingQuality > SCALE || kingReward > SCALE
      then Err("invalid_result")
      else if reward > quality || kingReward > kingQuality then Err("reward_exceeds_quality")
      else if Rejected() && (quality > 0 || reward > 0) then Err("rejected_result_must_score_zero")
      else if Partial() && (Baseline() || Rejected() || !ControlsOk()) then Err("invalid_early_stop_flags")
      else Ok(this)
    }

    predicate Valid() { Checked().Ok? }

    function Scores(): (s: seq<byte>)
      ensures |s| == 8
    {
      BigEndian(quality, 2) + BigEndian(reward, 2) + BigEndian(kingQuality, 2) + BigEndian(kingReward, 2)
    }

    function Pack(): seq<byte>
      requires Valid()
    {
      (BigEndian(window, 4) + BigEndian(uid, 2)) + (FromHex(modelId) + (FromHex(policy) + (FromHex(evidence)
      + (Scores() + [flags]))))
    }

    function Commitment(): string
      requires Valid()
    {
      PREFIX + EncodeBytes(Pack())
    }
  }

  function Unpack(b: seq<byte>): Result
    requires |b| == RECORD_SIZE
  {
    Result(FromBigEndian(b[..4]), FromBigEndian(b[4..6]), ToHex(b[6..38]), ToHex(b[38..50]), ToHex(b[50..82]),
           FromBigEndian(b[82..84]), FromBigEndian(b[84..86]), FromBigEndian(b[86..88]), FromBigEndian(b[88..90]),
           b[90])
  }

  /** ASCII text: the length in bytes is the number of characters; other text never decodes. */
  function Parse(value: string): Try<Result>
  {
    if !(PREFIX <= value) || |value| > MAX_COMMITMENT then Err("not_a_v2_result")
    else
      match DecodeBytes(value[4..], RECORD_SIZE)
      case Err(e) => Err(e)
      case Ok(data) => Unpack(data).Checked()
  }

  lemma Powers()
    ensures Power256(2) == 0x1_0000 && Power256(4) == 0x1_0000_0000
  {
    assert Power256(1) == 256 && Power256(3) == 256 * Power256(2);
  }

  lemma Slice6<T>(a: seq<T>, m: seq<T>, p: seq<T>, e: seq<T>, s: seq<T>, f: seq<T>)
    requires |a| == 6 && |m| == 32 && |p| == 12 && |e| == 32 && |s| == 8 && |f| == 1
    ensures var b := a + (m + (p + (e + (s + f))));
            |b| == 91 && b[..6] == a && b[6..38] == m && b[38..50] == p && b[50..82] == e && b[82..90] == s
              && b[90] == f[0]
  {
  }

  lemma HeadRead(r: Result, b: seq<byte>)
    requires r.Valid() && |b| == RECORD_SIZE && b[..6] == BigEndian(r.window, 4) + BigEndian(r.uid, 2)
    ensures FromBigEndian(b[..4]) == r.window && FromBigEndian(b[4..6]) == r.uid
  {
    Powers();
    BigEndianRead(r.window, 4);
    BigEndianRead(r.uid, 2);
    assert b[..4] == b[..6][..4] && b[4..6] == b[..6][4..];
  }

  lemma Part<T>(b: seq<T>, lo: nat, hi: nat, i: nat, j: nat)
    requires lo <= hi <= |b| && i <= j <= hi - lo
    ensures b[lo..hi][i..j] == b[lo + i..lo + j]
  {
    forall k | 0 <= k < j - i
      ensures b[lo..hi][i..j][k] == b[lo + i..lo + j][k]
    {
      assert b[lo..hi][i + k] == b[lo + (i + k)];
    }
  }

  lemma ScoresRead(r: Result, b: seq<byte>)
    requires r.Valid() && |b| == RECORD_SIZE && b[82..90] == r.Scores()
    ensures FromBigEndian(b[82..84]) == r.quality && FromBigEndian(b[84..86]) == r.reward
    ensures FromBigEndian(b[86..88]) == r.kingQuality && FromBigEndian(b[88..90]) == r.kingReward
  {
    Powers();
    var s := b[82..90];
    Part(b, 82, 90, 0, 2);
    Part(b, 82, 90, 2, 4);
    Part(b, 82, 90, 4, 6);
    Part(b, 82, 90, 6, 8);
    assert s[0..2] == BigEndian(r.quality, 2) && s[2..4] == BigEndian(r.reward, 2);
    assert s[4..6] == BigEndian(r.kingQuality, 2) && s[6..8] == BigEndian(r.kingReward, 2);
    BigEndianRead(r.quality, 2);
    BigEndianRead(r.reward, 2);
    BigEndianRead(r.kingQuality, 2);
    BigEndianRead(r.kingReward, 2);
  }

  lemma UnpackPacked(r: Result)
    requires r.Valid()
    ensures |r.Pack()| == RECORD_SIZE && Unpack(r.Pack()) == r
  {
    hide BigEndian, FromBigEndian, ToHex, FromHex, Result.Scores;
    Slice6(BigEndian(r.window, 4) + BigEndian(r.uid, 2), FromHex(r.modelId), FromHex(r.policy),
           FromHex(r.evidence), r.Scores(), [r.flags]);
    HeadRead(r, r.Pack());
    ScoresRead(r, r.Pack());
    HexRead(r.modelId);
    HexRead(r.policy);
    HexRead(r.evidence);
  }

  lemma ScoresWrite(b: seq<byte>)
    requires |b| == RECORD_SIZE
    ensures Unpack(b).Scores() == b[82..90]
  {
    BigEndianWrite(b[82..84]);
    BigEndianWrite(b[84..86]);
    BigEndianWrite(b[86..88]);
    BigEndianWrite(b[88..90]);
    assert b[82..84] + b[84..86] + b[86..88] + b[88..90] == b[82..90];
  }

  lemma PackUnpacked(b: seq<byte>)
    requires |b| == RECORD_SIZE && Unpack(b).Valid()
    ensures Unpack(b).Pack() == b
  {
    hide BigEndian, FromBigEndian, ToHex, FromHex, Result.Scores;
    BigEndianWrite(b[..4]);
    BigEndianWrite(b[4..6]);
    HexWrite(b[6..38]);
    HexWrite(b[38..50]);
    HexWrite(b[50..82]);
    ScoresWrite(b);
    assert b[..4] + b[4..6] == b[..6];
    assert b == b[..6] + (b[6..38] + (b[38..50] + (b[50..82] + (b[82..90] + [b[90]]))));
  }

  /** Every valid record survives the wire, in exactly 126 characters. */
  lemma ParseCommitment(r: Result)
    requires r.Valid()
    ensures Parse(r.Commitment()) == Ok(r) && |r.Commitment()| == 126
  {
    UnpackPacked(r);
    hide Unpack, Result.Pack, EncodeBytes, DecodeBytes;
    EncodingRoundTrip(r.Pack());
    assert r.Commitment()[4..] == EncodeBytes(r.Pack());
  }

  /** Every accepted string is the canonical text of the record it parses to. */
  lemma CommitParsed(value: string)
    requires Parse(value).Ok?
    ensures Parse(value).value.Valid() && Parse(value).value.Commitment() == value && |value| == 126
  {
    var data := DecodeBytes(value[4..], RECORD_SIZE).value;
    PackUnpacked(data);
    EncodingRoundTrip(data);
    assert value == PREFIX + value[4..];
  }

  /** The wire format is a bijection between valid records and accepted strings. */
  lemma Bijection(a: string, b: string)
    requires Parse(a).Ok? && Parse(a) == Parse(b)
    ensures a == b
  {
    CommitParsed(a);
    CommitParsed(b);
  }
}
