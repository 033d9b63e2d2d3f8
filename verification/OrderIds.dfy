/** The order identifier codec: three big-endian words and a checksum over them, printed as
    hexadecimal (Base16, section 8 of RFC 4648). The checksum is any function of the bytes it
    covers, so nothing below depends on CRC-32 itself. */
module OrderIds {
  import opened Wrappers

  type byte = b: int | 0 <= b < 256
  type word = w: int | 0 <= w < 0x1_0000_0000

  datatype OrderId = OrderId(botID: word, dealID: word, botEventID: word)

  /** One submission: an order at a venue, placed from a wallet. */
  datatype Ident = Ident(venue: string, wallet: string, order: OrderId)

  datatype Error = HexTooShort | IncorrectChecksum | NotHex

  datatype Result = Ok(id: OrderId) | Err(error: Error)

  // ---------- words as bytes ----------

  /** Most significant byte first. */
  function BigEndian(w: word): (b: seq<byte>)
    ensures |b| == 4
  {
    var upper24: int := w / 256;
    var upper16: int := upper24 / 256;
    [upper16 / 256, upper16 % 256, upper24 % 256, w % 256]
  }

  function FromBigEndian(b: seq<byte>): word
    requires |b| == 4
  {
    (((b[0] as int) * 256 + b[1]) * 256 + b[2]) * 256 + b[3]
  }

  lemma WordRoundTrip(w: word)
    ensures FromBigEndian(BigEndian(w)) == w
  {
  }

  lemma BytesRoundTrip(b: seq<byte>)
    requires |b| == 4
    ensures BigEndian(FromBigEndian(b)) == b
  {
    var w: int := FromBigEndian(b);
    assert w / 256 == ((b[0] as int) * 256 + b[1]) * 256 + b[2];
    assert w / 256 / 256 == (b[0] as int) * 256 + b[1];
  }

  // ---------- bytes as hexadecimal text ----------

  const DIGITS := "0123456789abcdef"

  function HexValue(c: char): Option<int> {
    if '0' <= c <= '9' then Some(c as int - '0' as int)
    else if 'a' <= c <= 'f' then Some(c as int - 'a' as int + 10)
    else if 'A' <= c <= 'F' then Some(c as int - 'A' as int + 10)
    else None
  }

  function EncodeToString(b: seq<byte>): string {
    if b == [] then "" else [DIGITS[b[0] / 16], DIGITS[b[0] % 16]] + EncodeToString(b[1..])
  }

  function PairValue(high: char, low: char): Option<byte> {
    if HexValue(high).None? || HexValue(low).None? then None
    else Some(HexValue(high).value * 16 + HexValue(low).value)
  }

  function DecodeString(s: string): Option<seq<byte>> {
    if s == "" then Some([])
    else if |s| == 1 || PairValue(s[0], s[1]).None? || DecodeString(s[2..]).None? then None
    else Some([PairValue(s[0], s[1]).value] + DecodeString(s[2..]).value)
  }

  function LowerChar(c: char): char { if 'A' <= c <= 'Z' then c - 'A' + 'a' else c }

  function Lower(s: string): string {
    seq(|s|, i requires 0 <= i < |s| => LowerChar(s[i]))
  }

  /** Two characters stand for a byte exactly when they are its digits, in either case. */
  lemma PairIffDigits(high: char, low: char, b: byte)
    ensures PairValue(high, low) == Some(b)
       <==> LowerChar(high) == DIGITS[b / 16] && LowerChar(low) == DIGITS[b % 16]
  {
    ValueIffDigit(high, b / 16);
    ValueIffDigit(low, b % 16);
    if PairValue(high, low).Some? {
      Nibbles(HexValue(high).value, HexValue(low).value, b);
    }
  }

  lemma Nibbles(high: int, low: int, b: int)
    requires 0 <= low < 16
    ensures high * 16 + low == b <==> high == b / 16 && low == b % 16
  {
  }

  lemma ValueIffDigit(c: char, n: int)
    requires 0 <= n < 16
    ensures HexValue(c) == Some(n) <==> LowerChar(c) == DIGITS[n]
  {
  }

  /** Text decodes to b exactly when it is, up to letter case, what encoding b prints. */
  lemma {:induction false} DecodesIffEncoded(s: string, b: seq<byte>)
    ensures DecodeString(s) == Some(b) <==> Lower(s) == EncodeToString(b)
    decreases |s|
  {
    if |s| >= 2 && b != [] {
      DecodesIffEncoded(s[2..], b[1..]);
      PairIffDigits(s[0], s[1], b[0]);
      var l, e := Lower(s), EncodeToString(b);
      assert l[2..] == Lower(s[2..]) && e[2..] == EncodeToString(b[1..]);
      assert l == [l[0], l[1]] + l[2..] && e == [e[0], e[1]] + e[2..];
      assert b == [b[0]] + b[1..];
    } else {
      assert |s| == |Lower(s)|;
    }
  }

  lemma DigitIsLower(n: int)
    requires 0 <= n < 16
    ensures LowerChar(DIGITS[n]) == DIGITS[n] && DIGITS[n] != ' '
  {
  }

  lemma LowerPair(high: char, low: char, rest: string)
    requires LowerChar(high) == high != ' ' && LowerChar(low) == low != ' '
    requires Lower(rest) == rest && ' ' !in rest
    ensures Lower([high, low] + rest) == [high, low] + rest && ' ' !in [high, low] + rest
  {
    var e := [high, low] + rest;
    forall i | 0 <= i < |e| ensures LowerChar(e[i]) == e[i] && e[i] != ' ' {
      assert i >= 2 ==> e[i] == rest[i - 2] && Lower(rest)[i - 2] == LowerChar(rest[i - 2]);
    }
  }

  lemma {:induction false} EncodedIsLower(b: seq<byte>)
    ensures Lower(EncodeToString(b)) == EncodeToString(b)
    ensures ' ' !in EncodeToString(b) && |EncodeToString(b)| == 2 * |b|
    decreases |b|
  {
    if b != [] {
      EncodedIsLower(b[1..]);
      DigitIsLower(b[0] / 16);
      DigitIsLower(b[0] % 16);
      LowerPair(DIGITS[b[0] / 16], DIGITS[b[0] % 16], EncodeToString(b[1..]));
      hide Lower, LowerChar;
    }
  }

  // ---------- identifiers ----------

  function RemoveSpaces(s: string): string {
    if s == "" then "" else (if s[0] == ' ' then "" else [s[0]]) + RemoveSpaces(s[1..])
  }

  function TrimPrefix(s: string): string { if "0x" <= s then s[2..] else s }

  /** The digits FromHexString looks at. */
  function Digits(s: string): string { RemoveSpaces(TrimPrefix(s)) }

  lemma {:induction false} NothingToRemove(s: string)
    requires ' ' !in s
    ensures RemoveSpaces(s) == s
    decreases |s|
  {
    if s != "" {
      NothingToRemove(s[1..]);
    }
  }

  datatype Codec = Codec(checksum: seq<byte> -> word) {

    function Words(id: OrderId): (b: seq<byte>)
      ensures |b| == 12
    {
      BigEndian(id.botID) + BigEndian(id.dealID) + BigEndian(id.botEventID)
    }

    /** The sixteen bytes an identifier is written as. */
    function Bytes(id: OrderId): (b: seq<byte>)
      ensures |b| == 16
    {
      Words(id) + BigEndian(checksum(Words(id)))
    }

    method AsHex(id: OrderId) returns (out: seq<byte>)
      ensures out == Bytes(id)
    {
      out := [];
      out := out + BigEndian(id.botID);
      out := out + BigEndian(id.dealID);
      out := out + BigEndian(id.botEventID);
      assert out == Words(id);
      out := out + BigEndian(checksum(out));
    }

    function Hex(id: OrderId): string { "0x" + EncodeToString(Bytes(id)) }

    function FromHex(v: seq<byte>): Result {
      if |v| != 16 then Err(HexTooShort)
      else if checksum(v[..12]) != FromBigEndian(v[12..16]) then Err(IncorrectChecksum)
      else Ok(OrderId(FromBigEndian(v[0..4]), FromBigEndian(v[4..8]), FromBigEndian(v[8..12])))
    }

    function FromHexString(s: string): Result {
      match DecodeString(Digits(s))
      case None => Err(NotHex)
      case Some(b) => FromHex(b)
    }

    /** Bytes are accepted exactly when they are the encoding of the identifier returned. */
    lemma FromHexAcceptsEncodingsOnly(v: seq<byte>, id: OrderId)
      ensures FromHex(v) == Ok(id) <==> v == Bytes(id)
    {
      WordRoundTrip(id.botID);
      WordRoundTrip(id.dealID);
      WordRoundTrip(id.botEventID);
      WordRoundTrip(checksum(Words(id)));
      var b := Bytes(id);
      assert b[..12] == Words(id);
      assert b[0..4] == BigEndian(id.botID) && b[4..8] == BigEndian(id.dealID);
      assert b[8..12] == BigEndian(id.botEventID) && b[12..16] == BigEndian(checksum(Words(id)));
      if FromHex(v) == Ok(id) {
        BytesRoundTrip(v[0..4]);
        BytesRoundTrip(v[4..8]);
        BytesRoundTrip(v[8..12]);
        BytesRoundTrip(v[12..16]);
        assert v[..12] == v[0..4] + v[4..8] + v[8..12];
        assert v == v[..12] + v[12..16];
      }
    }

    /** Text is accepted exactly when its digits, spaces and letter case aside, are the ones Hex
        prints for the identifier returned. */
    lemma FromHexStringAcceptsPrintedOnly(s: string, id: OrderId)
      ensures FromHexString(s) == Ok(id) <==> "0x" + Lower(Digits(s)) == Hex(id)
    {
      DecodesIffEncoded(Digits(s), Bytes(id));
      assert "0x" + Lower(Digits(s)) == Hex(id) <==> Lower(Digits(s)) == EncodeToString(Bytes(id)) by {
        if "0x" + Lower(Digits(s)) == Hex(id) {
          assert ("0x" + Lower(Digits(s)))[2..] == Lower(Digits(s));
          assert Hex(id)[2..] == EncodeToString(Bytes(id));
        }
      }
      match DecodeString(Digits(s)) {
        case None =>
        case Some(b) => FromHexAcceptsEncodingsOnly(b, id);
      }
      FromHexAcceptsEncodingsOnly(Bytes(id), id);
    }

    /** Printing and parsing an identifier gives it back. */
    lemma RoundTrip(id: OrderId)
      ensures FromHexString(Hex(id)) == Ok(id)
    {
      var e := EncodeToString(Bytes(id));
      EncodedIsLower(Bytes(id));
      NothingToRemove(e);
      assert TrimPrefix(Hex(id)) == e;
      FromHexStringAcceptsPrintedOnly(Hex(id), id);
    }

    /** Different identifiers print differently. */
    lemma HexInjective(a: OrderId, b: OrderId)
      ensures Hex(a) == Hex(b) ==> a == b
    {
      RoundTrip(a);
      RoundTrip(b);
    }
  }
}
