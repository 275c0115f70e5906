/** UTF-8 over byte sequences: the encoder of RFC 3629 section 3, and a decoder for the syntax of its section 4. */
module Utf8 {
  import opened Sequences
  import opened Datagrams

  /** A Python `str` holds any code point, surrogates included; those cannot be encoded. */
  type Rune = x: int | 0 <= x < 0x110000
  type Text = seq<Rune>

  predicate Surrogate(r: Rune) {
    0xD800 <= r < 0xE000
  }

  predicate Encodable(t: Text) {
    forall i :: 0 <= i < |t| ==> !Surrogate(t[i])
  }

  function EncodeRune(r: Rune): (b: Message)
    requires !Surrogate(r)
    ensures 1 <= |b| <= 4
  {
    if r < 0x80 then [r]
    else if r < 0x800 then [0xC0 + r / 64, 0x80 + r % 64]
    else if r < 0x10000 then [0xE0 + r / 64 / 64, 0x80 + r / 64 % 64, 0x80 + r % 64]
    else [0xF0 + r / 64 / 64 / 64, 0x80 + r / 64 / 64 % 64, 0x80 + r / 64 % 64, 0x80 + r % 64]
  }

  function Encode(t: Text): Option<Message> {
    if t == [] then Some([])
    else if Surrogate(t[0]) then None
    else
      match Encode(t[1..])
      case None => None
      case Some(rest) => Some(EncodeRune(t[0]) + rest)
  }

  predicate Tail(b: Byte) {
    0x80 <= b <= 0xBF
  }

  /** The six bits a continuation byte carries. */
  function Six(b: Byte): int {
    b as int - 0x80
  }

  /** The high digits of a code point, followed by one more digit in base 64. */
  function Shift(high: int, low: int): int {
    64 * high + low
  }

  datatype Head = Head(rune: Rune, size: nat)

  /** The code point at the front of `b` and the bytes it takes: no overlong form, no surrogate, nothing past 10FFFF. */
  function DecodeHead(b: Message): (h: Option<Head>)
    ensures h.Some? ==> 1 <= h.value.size <= |b|
  {
    if |b| >= 1 && b[0] < 0x80 then
      Some(Head(b[0], 1))
    else if |b| >= 2 && 0xC2 <= b[0] <= 0xDF && Tail(b[1]) then
      Some(Head(Shift(b[0] as int - 0xC0, Six(b[1])), 2))
    else if |b| >= 3 && 0xE0 <= b[0] <= 0xEF && Tail(b[1]) && Tail(b[2])
         && (b[0] == 0xE0 ==> b[1] >= 0xA0) && (b[0] == 0xED ==> b[1] <= 0x9F) then
      Some(Head(Shift(Shift(b[0] as int - 0xE0, Six(b[1])), Six(b[2])), 3))
    else if |b| >= 4 && 0xF0 <= b[0] <= 0xF4 && Tail(b[1]) && Tail(b[2]) && Tail(b[3])
         && (b[0] == 0xF0 ==> b[1] >= 0x90) && (b[0] == 0xF4 ==> b[1] <= 0x8F) then
      Some(Head(Shift(Shift(Shift(b[0] as int - 0xF0, Six(b[1])), Six(b[2])), Six(b[3])), 4))
    else None
  }

  function Decode(b: Message): Option<Text> {
    if b == [] then Some([])
    else
      match DecodeHead(b)
      case None => None
      case Some(h) =>
        match Decode(b[h.size..])
        case None => None
        case Some(rest) => Some([h.rune] + rest)
  }

  lemma Digits(a: int, b: int, c: int, d: int)
    requires 0 <= b < 64 && 0 <= c < 64 && 0 <= d < 64
    ensures var n := Shift(Shift(Shift(a, b), c), d);
            n / 64 == Shift(Shift(a, b), c) && n / 64 / 64 == Shift(a, b) && n / 64 / 64 / 64 == a
            && n % 64 == d && n / 64 % 64 == c && n / 64 / 64 % 64 == b
  {
  }

  /** Two to four bytes that stand for `r`: the first is `lead` plus the high bits, each other carries six bits. */
  predicate Spells(b: Message, lead: int, r: int) {
    && (forall i :: 1 <= i < |b| ==> Tail(b[i]))
    && |b| > 1 && b[0] as int >= lead
    && r == match |b|
            case 2 => (b[0] as int - lead) * 0x40 + (b[1] as int - 0x80)
            case 3 => (b[0] as int - lead) * 0x1000 + (b[1] as int - 0x80) * 0x40 + (b[2] as int - 0x80)
            case 4 => (b[0] as int - lead) * 0x40000 + (b[1] as int - 0x80) * 0x1000 + (b[2] as int - 0x80) * 0x40
                      + (b[3] as int - 0x80)
            case _ => -1
  }

  /** The table of RFC 3629, section 3: how many bytes each range of code points takes, and what they are. */
  lemma RuneBytes(r: Rune)
    requires !Surrogate(r)
    ensures r <= 0x7F ==> EncodeRune(r) == [r]
    ensures 0x80 <= r <= 0x7FF ==> |EncodeRune(r)| == 2 && EncodeRune(r)[0] <= 0xDF && Spells(EncodeRune(r), 0xC0, r)
    ensures 0x800 <= r <= 0xFFFF ==> |EncodeRune(r)| == 3 && EncodeRune(r)[0] <= 0xEF && Spells(EncodeRune(r), 0xE0, r)
    ensures 0x10000 <= r ==> |EncodeRune(r)| == 4 && EncodeRune(r)[0] <= 0xF7 && Spells(EncodeRune(r), 0xF0, r)
  {
    var r1 := r / 64;
    var r2 := r1 / 64;
    assert r == 64 * r1 + r % 64 && r1 == 64 * r2 + r1 % 64 && r2 == 64 * (r2 / 64) + r2 % 64;
  }

  /** What the encoder writes for a code point is what the decoder reads, whatever follows. */
  lemma HeadOfRune(r: Rune, rest: Message)
    requires !Surrogate(r)
    ensures DecodeHead(EncodeRune(r) + rest) == Some(Head(r, |EncodeRune(r)|))
  {
    var b, e := EncodeRune(r) + rest, EncodeRune(r);
    assert b[0] == e[0];
    assert |e| >= 2 ==> b[1] == e[1];
    assert |e| >= 3 ==> b[2] == e[2];
    assert |e| >= 4 ==> b[3] == e[3];
    var r1 := r / 64;
    var r2 := r1 / 64;
    assert r == Shift(r1, r % 64) && r1 == Shift(r2, r1 % 64) && r2 == Shift(r2 / 64, r2 % 64);
  }

  /** What the decoder reads is the encoding of a code point that is not a surrogate. */
  lemma RuneOfHead(b: Message)
    requires DecodeHead(b).Some?
    ensures var h := DecodeHead(b).value; !Surrogate(h.rune) && EncodeRune(h.rune) == b[..h.size]
  {
    var h := DecodeHead(b).value;
    if h.size == 4 {
      RuneOfFour(b[..4]);
      assert DecodeHead(b[..4]) == DecodeHead(b);
    } else if h.size == 3 {
      Digits(0, b[0] as int - 0xE0, Six(b[1]), Six(b[2]));
      assert b[..3] == [b[0], b[1], b[2]];
    } else if h.size == 2 {
      assert b[..2] == [b[0], b[1]];
    }
  }

  lemma RuneOfFour(b: Message)
    requires |b| == 4 && DecodeHead(b).Some? && DecodeHead(b).value.size == 4
    ensures var h := DecodeHead(b).value; !Surrogate(h.rune) && EncodeRune(h.rune) == b
  {
    Digits(b[0] as int - 0xF0, Six(b[1]), Six(b[2]), Six(b[3]));
    assert b == [b[0], b[1], b[2], b[3]];
  }

  /** A text can be encoded exactly when it has no surrogates, and decoding then gives it back. */
  lemma {:induction false} DecodeEncode(t: Text)
    ensures Encode(t).Some? <==> Encodable(t)
    ensures Encode(t).Some? ==> Decode(Encode(t).value) == Some(t)
  {
    if t != [] {
      DecodeEncode(t[1..]);
      if !Surrogate(t[0]) && Encode(t[1..]).Some? {
        var head, rest := EncodeRune(t[0]), Encode(t[1..]).value;
        HeadOfRune(t[0], rest);
        assert (head + rest)[|head|..] == rest;
        assert [t[0]] + t[1..] == t;
      }
    }
  }

  lemma EncodeOne(r: Rune, rest: Text)
    requires !Surrogate(r) && Encode(rest).Some?
    ensures Encode([r] + rest) == Some(EncodeRune(r) + Encode(rest).value)
  {
    assert ([r] + rest)[1..] == rest;
  }

  /** Valid UTF-8 is exactly what the encoder produces. */
  lemma {:induction false} EncodeDecode(b: Message)
    requires Decode(b).Some?
    ensures Encode(Decode(b).value) == Some(b)
    decreases |b|
  {
    if b != [] {
      var h := DecodeHead(b).value;
      EncodeDecode(b[h.size..]);
      RuneOfHead(b);
      EncodeOne(h.rune, Decode(b[h.size..]).value);
      assert b[..h.size] + b[h.size..] == b;
    }
  }

  /** Reading one code point looks at no byte beyond it. */
  lemma HeadIsLocal(b: Message, n: nat)
    requires n <= |b|
    ensures DecodeHead(b[..n]) == if DecodeHead(b).Some? && DecodeHead(b).value.size <= n then DecodeHead(b) else None
  {
  }

  /** After the first byte of a code point, every byte has its top bit set. */
  lemma HeadTail(b: Message)
    requires DecodeHead(b).Some?
    ensures forall i :: 0 < i < DecodeHead(b).value.size ==> b[i] >= 0x80
    ensures DecodeHead(b).value.size > 1 ==> b[0] >= 0x80
    ensures DecodeHead(b).value.size == 1 ==> DecodeHead(b).value.rune == b[0]
    ensures DecodeHead(b).value.size > 1 ==> DecodeHead(b).value.rune >= 0x80
  {
  }
}
