/** Comparing printed identifiers compares the numbers in them. */
module PrintedOrder {
  import opened OrderIds
  import opened Targeting

  function Sign(x: int): int { if x < 0 then -1 else if x > 0 then 1 else 0 }

  /** Byte strings compared byte by byte. */
  function CompareBytes(a: seq<byte>, b: seq<byte>): int
    requires |a| == |b|
  {
    if a == [] then 0
    else if a[0] != b[0] then Sign(a[0] as int - b[0] as int)
    else CompareBytes(a[1..], b[1..])
  }

  /** The parts before the first difference do not matter, nor those after it. */
  lemma {:induction false} CompareConcat(a: seq<byte>, b: seq<byte>, c: seq<byte>, d: seq<byte>)
    requires |a| == |c| && |b| == |d|
    ensures CompareBytes(a + b, c + d) == if CompareBytes(a, c) != 0 then CompareBytes(a, c) else CompareBytes(b, d)
    decreases |a|
  {
    if a == [] {
      assert a + b == b && c + d == d;
    } else {
      assert (a + b)[1..] == a[1..] + b && (c + d)[1..] == c[1..] + d;
      CompareConcat(a[1..], b, c[1..], d);
    }
  }

  lemma {:induction false} CompareSame(a: seq<byte>)
    ensures CompareBytes(a, a) == 0
    decreases |a|
  {
    if a != [] {
      CompareSame(a[1..]);
    }
  }

  // ---------- words ----------

  lemma CompareOne(x: byte, y: byte)
    ensures CompareBytes([x], [y]) == Sign(x as int - y as int)
  {
    assert [x][1..] == [] && [y][1..] == [];
  }

  /** The high digits decide; the last digit decides only between equals. */
  lemma Decided(u: int, v: int, x: int, y: int)
    requires 0 <= x < 256 && 0 <= y < 256
    ensures Sign((u * 256 + x) - (v * 256 + y)) == if u != v then Sign(u - v) else Sign(x - y)
  {
  }

  function Value(b: seq<byte>): int { if b == [] then 0 else Value(b[..|b| - 1]) * 256 + b[|b| - 1] }

  /** Bytes of equal length, most significant first, compare as the numbers they stand for. */
  lemma {:induction false} BytesCompareAsNumbers(a: seq<byte>, b: seq<byte>)
    requires |a| == |b|
    ensures CompareBytes(a, b) == Sign(Value(a) - Value(b))
    decreases |a|
  {
    if a != [] {
      var n := |a| - 1;
      assert a == a[..n] + [a[n]] && b == b[..n] + [b[n]];
      BytesCompareAsNumbers(a[..n], b[..n]);
      CompareConcat(a[..n], [a[n]], b[..n], [b[n]]);
      CompareOne(a[n], b[n]);
      Decided(Value(a[..n]), Value(b[..n]), a[n], b[n]);
    }
  }

  lemma WordValue(w: word)
    ensures Value(BigEndian(w)) == w
  {
    var b := BigEndian(w);
    assert b[..3][..2] == b[..2] && b[..2][..1] == b[..1] && b[..1][..0] == [];
    WordRoundTrip(w);
    assert Value(b[..1]) == b[0] as int && Value(b[..2]) == b[0] as int * 256 + b[1];
    assert Value(b[..3]) == (b[0] as int * 256 + b[1]) * 256 + b[2];
  }

  lemma WordsCompareAsNumbers(a: word, b: word)
    ensures CompareBytes(BigEndian(a), BigEndian(b)) == Sign(a as int - b as int)
  {
    BytesCompareAsNumbers(BigEndian(a), BigEndian(b));
    WordValue(a);
    WordValue(b);
  }

  // ---------- hexadecimal text ----------

  lemma DigitsAscend(m: int, n: int)
    requires 0 <= m < 16 && 0 <= n < 16
    ensures DIGITS[m] < DIGITS[n] <==> m < n
  {
  }

  lemma PairDecides(x: byte, y: byte)
    ensures x < y <==> x / 16 < y / 16 || (x / 16 == y / 16 && x % 16 < y % 16)
    ensures x == y <==> x / 16 == y / 16 && x % 16 == y % 16
  {
  }

  lemma CompareTextFirst(a: char, s: string, b: char, t: string)
    ensures CompareText([a] + s, [b] + t) == if a < b then -1 else if a > b then 1 else CompareText(s, t)
  {
    assert ([a] + s)[1..] == s && ([b] + t)[1..] == t;
  }

  /** Encoding bytes as hexadecimal text keeps their order. */
  lemma {:induction false} TextCompareAsBytes(a: seq<byte>, b: seq<byte>)
    requires |a| == |b|
    ensures CompareText(EncodeToString(a), EncodeToString(b)) == CompareBytes(a, b)
    decreases |a|
  {
    if a != [] {
      TextCompareAsBytes(a[1..], b[1..]);
      var s, t := EncodeToString(a[1..]), EncodeToString(b[1..]);
      var ah, al, bh, bl := DIGITS[a[0] / 16], DIGITS[a[0] % 16], DIGITS[b[0] / 16], DIGITS[b[0] % 16];
      assert EncodeToString(a) == [ah] + ([al] + s) && EncodeToString(b) == [bh] + ([bl] + t);
      CompareTextFirst(ah, [al] + s, bh, [bl] + t);
      CompareTextFirst(al, s, bl, t);
      PairDecides(a[0], b[0]);
      DigitsAscend(a[0] / 16, b[0] / 16);
      DigitsAscend(b[0] / 16, a[0] / 16);
      DigitsAscend(a[0] % 16, b[0] % 16);
      DigitsAscend(b[0] % 16, a[0] % 16);
      hide CompareText, EncodeToString;
    }
  }

  // ---------- identifiers ----------

  /** Bot first, then deal, then event. */
  function CompareOrders(a: OrderId, b: OrderId): int {
    if a.botID != b.botID then Sign(a.botID as int - b.botID as int)
    else if a.dealID != b.dealID then Sign(a.dealID as int - b.dealID as int)
    else Sign(a.botEventID as int - b.botEventID as int)
  }

  lemma BytesCompareAsOrders(codec: Codec, a: OrderId, b: OrderId)
    ensures CompareBytes(codec.Bytes(a), codec.Bytes(b)) == CompareOrders(a, b)
  {
    var bot, deal, event := BigEndian(a.botID), BigEndian(a.dealID), BigEndian(a.botEventID);
    var bot', deal', event' := BigEndian(b.botID), BigEndian(b.dealID), BigEndian(b.botEventID);
    WordsCompareAsNumbers(a.botID, b.botID);
    WordsCompareAsNumbers(a.dealID, b.dealID);
    WordsCompareAsNumbers(a.botEventID, b.botEventID);
    CompareConcat(bot, deal, bot', deal');
    CompareConcat(bot + deal, event, bot' + deal', event');
    var sum, sum' := BigEndian(codec.checksum(codec.Words(a))), BigEndian(codec.checksum(codec.Words(b)));
    CompareConcat(codec.Words(a), sum, codec.Words(b), sum');
    if a == b {
      CompareSame(sum);
    }
    hide BigEndian, CompareBytes;
  }

  /** Bytes are accepted exactly when there are sixteen and the last four are, as a number, the
      checksum of the first twelve; the first twelve are then the identifier's three numbers. */
  lemma AcceptedExactlyWhenChecked(codec: Codec, v: seq<byte>)
    ensures codec.FromHex(v).Ok? <==> |v| == 16 && Value(v[12..16]) == codec.checksum(v[..12])
    ensures codec.FromHex(v).Ok? ==>
              var id := codec.FromHex(v).id;
              id.botID == Value(v[0..4]) && id.dealID == Value(v[4..8]) && id.botEventID == Value(v[8..12])
  {
    if |v| == 16 {
      NumberValue(v[0..4]);
      NumberValue(v[4..8]);
      NumberValue(v[8..12]);
      NumberValue(v[12..16]);
    }
    hide Value, FromBigEndian;
  }

  lemma NumberValue(b: seq<byte>)
    requires |b| == 4
    ensures Value(b) == FromBigEndian(b)
  {
    BytesRoundTrip(b);
    WordValue(FromBigEndian(b));
  }

  /** Sorting identifiers by what they print sorts them by bot, deal and event: the printed form is
      three fixed-width numbers, most significant digit first, before anything else. */
  lemma PrintedOrderIsNumberOrder(codec: Codec, a: OrderId, b: OrderId)
    ensures CompareText(codec.Hex(a), codec.Hex(b)) == CompareOrders(a, b)
  {
    var s, t := EncodeToString(codec.Bytes(a)), EncodeToString(codec.Bytes(b));
    assert codec.Hex(a) == ['0'] + (['x'] + s) && codec.Hex(b) == ['0'] + (['x'] + t);
    CompareTextFirst('0', ['x'] + s, '0', ['x'] + t);
    CompareTextFirst('x', s, 'x', t);
    TextCompareAsBytes(codec.Bytes(a), codec.Bytes(b));
    BytesCompareAsOrders(codec, a, b);
  }

  /** So submissions are listed by venue, then wallet, then what their identifier prints. */
  lemma ListedByWhatTheyPrint(codec: Codec, a: Ident, b: Ident)
    ensures Compare(a, b) ==
              if CompareText(a.venue, b.venue) != 0 then CompareText(a.venue, b.venue)
              else if CompareText(a.wallet, b.wallet) != 0 then CompareText(a.wallet, b.wallet)
              else CompareText(codec.Hex(a.order), codec.Hex(b.order))
  {
    PrintedOrderIsNumberOrder(codec, a.order, b.order);
    hide CompareText;
  }

  /** No later by venue, then by wallet, then by printed identifier. */
  predicate NoLater(codec: Codec, a: Ident, b: Ident) {
    || CompareText(a.venue, b.venue) < 0
    || (a.venue == b.venue && CompareText(a.wallet, b.wallet) < 0)
    || (a.venue == b.venue && a.wallet == b.wallet && CompareText(codec.Hex(a.order), codec.Hex(b.order)) <= 0)
  }

  lemma {:induction false} CompareTextSame(a: string, b: string)
    ensures CompareText(a, b) == 0 <==> a == b
    decreases |a|
  {
    if a != "" && b != "" && a[0] == b[0] {
      CompareTextSame(a[1..], b[1..]);
      assert a == [a[0]] + a[1..] && b == [b[0]] + b[1..];
    }
  }

  /** The order targets are listed in, told from the texts. */
  lemma InOrderMeans(codec: Codec, list: seq<Ident>, i: nat)
    requires InOrder(list) && 0 < i < |list|
    ensures NoLater(codec, list[i - 1], list[i])
  {
    var a, b := list[i - 1], list[i];
    assert NotAfter(a, b);
    ListedByWhatTheyPrint(codec, a, b);
    CompareTextSame(a.venue, b.venue);
    CompareTextSame(a.wallet, b.wallet);
    hide CompareText, Compare;
  }
}
