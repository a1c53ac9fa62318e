/** The URL-safe base64 text of pagination cursors: sections 4 and 5 of RFC 4648, without the padding
    as section 3.2 allows, and Python's lenient decoder. */
module Base64Url {
  import opened Prelude

  type Byte = b: int | 0 <= b < 256
  type Sextet = v: int | 0 <= v < 64

  // --- The alphabet ---

  function Digit(v: Sextet): char {
    if v < 26 then ('A' as int + v) as char
    else if v < 52 then ('a' as int + v - 26) as char
    else if v < 62 then ('0' as int + v - 52) as char
    else if v == 62 then '-'
    else '_'
  }

  /** The decoder takes both alphabets. */
  function ValueOf(c: char): Option<Sextet> {
    if 'A' <= c <= 'Z' then Some(c as int - 'A' as int)
    else if 'a' <= c <= 'z' then Some(c as int - 'a' as int + 26)
    else if '0' <= c <= '9' then Some(c as int - '0' as int + 52)
    else if c == '-' || c == '+' then Some(62)
    else if c == '_' || c == '/' then Some(63)
    else None
  }

  lemma DigitHasValue(v: Sextet)
    ensures ValueOf(Digit(v)) == Some(v) && Digit(v) != '=' && Digit(v) as int < 128
  {
  }

  // --- Encoding ---

  function EncodePadded(data: seq<Byte>): string {
    if data == [] then ""
    else if |data| == 1 then [Digit(data[0] / 4), Digit(data[0] % 4 * 16), '=', '=']
    else if |data| == 2 then
      [Digit(data[0] / 4), Digit(data[0] % 4 * 16 + data[1] / 16), Digit(data[1] % 16 * 4), '=']
    else Quad(data[0], data[1], data[2]) + EncodePadded(data[3..])
  }

  function Quad(a: Byte, b: Byte, c: Byte): string {
    [Digit(a / 4), Digit(a % 4 * 16 + b / 16), Digit(b % 16 * 4 + c / 64), Digit(c % 64)]
  }

  /** str.rstrip("="). */
  function StripPadding(s: string): string {
    if s != "" && s[|s| - 1] == '=' then StripPadding(s[..|s| - 1]) else s
  }

  function Padding(count: nat): string {
    seq(count, _ => '=')
  }

  function Encode(data: seq<Byte>): string {
    StripPadding(EncodePadded(data))
  }

  // --- Decoding ---

  /** The decoder's loop: `quad` characters of the current group have been read, `left` holds their
      unused bits, and `pads` padding characters have been seen in a row. Characters outside the alphabet
      are skipped, and enough padding ends the data. */
  function DecodeFrom(s: string, quad: nat, left: nat, pads: nat): Option<seq<int>> {
    if s == "" then
      if quad == 0 then Some([]) else None
    else if s[0] == '=' then
      if quad >= 2 && quad + pads + 1 >= 4 then Some([])
      else DecodeFrom(s[1..], quad, left, if quad >= 2 then pads + 1 else pads)
    else if ValueOf(s[0]).None? then DecodeFrom(s[1..], quad, left, pads)
    else
      var v := ValueOf(s[0]).value;
      if quad == 0 then DecodeFrom(s[1..], 1, v, 0)
      else if quad == 1 then Prepend(left * 4 + v / 16, DecodeFrom(s[1..], 2, v % 16, 0))
      else if quad == 2 then Prepend(left * 16 + v / 4, DecodeFrom(s[1..], 3, v % 4, 0))
      else Prepend(left * 64 + v, DecodeFrom(s[1..], 0, 0, 0))
  }

  function Prepend(b: int, rest: Option<seq<int>>): Option<seq<int>> {
    if rest.Some? then Some([b] + rest.value) else None
  }

  /** Padding is restored from the length, and non-ASCII text refused. */
  function Decode(s: string): Option<seq<int>> {
    if exists i :: 0 <= i < |s| && s[i] as int >= 128 then None
    else DecodeFrom(s + Padding((-|s|) % 4), 0, 0, 0)
  }

  // --- Round trip ---

  /** The digits alone. */
  function Digits(data: seq<Byte>): string {
    if data == [] then ""
    else if |data| == 1 then [Digit(data[0] / 4), Digit(data[0] % 4 * 16)]
    else if |data| == 2 then
      [Digit(data[0] / 4), Digit(data[0] % 4 * 16 + data[1] / 16), Digit(data[1] % 16 * 4)]
    else Quad(data[0], data[1], data[2]) + Digits(data[3..])
  }

  ghost predicate Plain(s: string) {
    forall i :: 0 <= i < |s| ==> s[i] != '=' && s[i] as int < 128
  }

  lemma QuadIsPlain(a: Byte, b: Byte, c: Byte)
    ensures |Quad(a, b, c)| == 4 && Plain(Quad(a, b, c))
  {
    DigitHasValue(a / 4);
    DigitHasValue(a % 4 * 16 + b / 16);
    DigitHasValue(b % 16 * 4 + c / 64);
    DigitHasValue(c % 64);
  }

  lemma ShortIsPlain(data: seq<Byte>)
    requires 0 < |data| < 3
    ensures EncodePadded(data) == Digits(data) + Padding((-|Digits(data)|) % 4) && Plain(Digits(data))
  {
    DigitHasValue(data[0] / 4);
    if |data| == 2 {
      DigitHasValue(data[0] % 4 * 16 + data[1] / 16);
      DigitHasValue(data[1] % 16 * 4);
      assert Padding(1) == "=";
    } else {
      DigitHasValue(data[0] % 4 * 16);
      assert Padding(2) == "==";
    }
  }

  lemma {:induction false} PaddedIsDigitsAndPadding(data: seq<Byte>)
    ensures EncodePadded(data) == Digits(data) + Padding((-|Digits(data)|) % 4)
    ensures Plain(Digits(data))
    decreases |data|
  {
    if |data| >= 3 {
      var head, tail := Quad(data[0], data[1], data[2]), Digits(data[3..]);
      PaddedIsDigitsAndPadding(data[3..]);
      QuadIsPlain(data[0], data[1], data[2]);
      assert (-(4 + |tail|)) % 4 == (-|tail|) % 4;
      Regroup(head, tail, Padding((-|tail|) % 4));
    } else if |data| > 0 {
      ShortIsPlain(data);
    }
  }

  lemma {:induction false} StripRemovesPadding(s: string, count: nat)
    requires Plain(s)
    ensures StripPadding(s + Padding(count)) == s
    decreases count
  {
    if count == 0 {
      assert s + Padding(0) == s;
    } else {
      assert (s + Padding(count))[..|s| + count - 1] == s + Padding(count - 1);
      StripRemovesPadding(s, count - 1);
    }
  }

  /** The cursor has exactly the digits, and the decoder restores exactly the padding. */
  lemma EncodeIsDigits(data: seq<Byte>)
    ensures Encode(data) == Digits(data) && Plain(Encode(data))
    ensures Encode(data) + Padding((-|Encode(data)|) % 4) == EncodePadded(data)
  {
    PaddedIsDigitsAndPadding(data);
    StripRemovesPadding(Digits(data), (-|Digits(data)|) % 4);
  }

  lemma OneDigit(v: Sextet, tail: string, quad: nat, left: nat, pads: nat)
    ensures DecodeFrom([Digit(v)] + tail, quad, left, pads) ==
            if quad == 0 then DecodeFrom(tail, 1, v, 0)
            else if quad == 1 then Prepend(left * 4 + v / 16, DecodeFrom(tail, 2, v % 16, 0))
            else if quad == 2 then Prepend(left * 16 + v / 4, DecodeFrom(tail, 3, v % 4, 0))
            else Prepend(left * 64 + v, DecodeFrom(tail, 0, 0, 0))
  {
    DigitHasValue(v);
    assert ([Digit(v)] + tail)[1..] == tail;
  }

  lemma FirstByte(a: Byte, low: int, tail: string)
    requires 0 <= low < 16
    ensures DecodeFrom([Digit(a / 4)] + ([Digit(a % 4 * 16 + low)] + tail), 0, 0, 0) ==
            Prepend(a, DecodeFrom(tail, 2, low, 0))
  {
    TopOfByte(a, low);
    OneDigit(a / 4, [Digit(a % 4 * 16 + low)] + tail, 0, 0, 0);
    OneDigit(a % 4 * 16 + low, tail, 1, a / 4, 0);
  }

  lemma TopOfByte(a: Byte, low: int)
    requires 0 <= low < 16
    ensures var v := a % 4 * 16 + low;
            0 <= v < 64 && v / 16 == a % 4 && v % 16 == low && a / 4 * 4 + v / 16 == a
  {
  }

  lemma SecondByte(b: Byte, low: int, tail: string)
    requires 0 <= low < 4
    ensures DecodeFrom([Digit(b % 16 * 4 + low)] + tail, 2, b / 16, 0) == Prepend(b, DecodeFrom(tail, 3, low, 0))
  {
    OneDigit(b % 16 * 4 + low, tail, 2, b / 16, 0);
  }

  lemma QuadDecodes(a: Byte, b: Byte, c: Byte, tail: string)
    ensures DecodeFrom(Quad(a, b, c) + tail, 0, 0, 0) ==
            Prepend(a, Prepend(b, Prepend(c, DecodeFrom(tail, 0, 0, 0))))
  {
    var d1, d2, d3 := Digit(a % 4 * 16 + b / 16), Digit(b % 16 * 4 + c / 64), Digit(c % 64);
    assert Quad(a, b, c) + tail == [Digit(a / 4)] + ([d1] + ([d2] + ([d3] + tail)));
    FirstByte(a, b / 16, [d2] + ([d3] + tail));
    SecondByte(b, c / 64, [d3] + tail);
    OneDigit(c % 64, tail, 3, c / 64, 0);
  }

  lemma LastByte(a: Byte)
    ensures DecodeFrom([Digit(a / 4), Digit(a % 4 * 16), '=', '='], 0, 0, 0) == Some([a])
  {
    var tail := ['=', '='];
    assert [Digit(a / 4), Digit(a % 4 * 16), '=', '='] == [Digit(a / 4)] + ([Digit(a % 4 * 16 + 0)] + tail);
    FirstByte(a, 0, tail);
    assert tail[1..] == ['='];
    assert DecodeFrom(['='], 2, 0, 1) == Some([]);
    assert [a] + [] == [a];
  }

  lemma LastTwoBytes(a: Byte, b: Byte)
    ensures DecodeFrom([Digit(a / 4), Digit(a % 4 * 16 + b / 16), Digit(b % 16 * 4), '='], 0, 0, 0) == Some([a, b])
  {
    var tail := [Digit(b % 16 * 4 + 0)] + ['='];
    assert [Digit(a / 4), Digit(a % 4 * 16 + b / 16), Digit(b % 16 * 4), '='] ==
           [Digit(a / 4)] + ([Digit(a % 4 * 16 + b / 16)] + tail);
    FirstByte(a, b / 16, tail);
    SecondByte(b, 0, ['=']);
    assert DecodeFrom(['='], 3, 0, 0) == Some([]);
    assert [b] + [] == [b] && [a] + [b] == [a, b];
  }

  lemma {:induction false} PaddedReadsBack(data: seq<Byte>)
    ensures DecodeFrom(EncodePadded(data), 0, 0, 0) == Some(data)
    decreases |data|
  {
    if |data| >= 3 {
      PaddedReadsBack(data[3..]);
      QuadDecodes(data[0], data[1], data[2], EncodePadded(data[3..]));
      assert data == [data[0]] + ([data[1]] + ([data[2]] + data[3..]));
    } else if |data| == 2 {
      LastTwoBytes(data[0], data[1]);
      assert data == [data[0], data[1]];
    } else if |data| == 1 {
      LastByte(data[0]);
      assert data == [data[0]];
    }
  }

  /** Decoding an unpadded encoding gives the bytes back, for every length. */
  lemma RoundTrip(data: seq<Byte>)
    ensures Decode(Encode(data)) == Some(data)
    ensures Encode(data) == "" <==> data == []
  {
    EncodeIsDigits(data);
    PaddedReadsBack(data);
  }

  // --- What is readable ---

  /** The decoder reads exactly the encoder's digits, each as what it stands for, and '+' and '/' for the
      last two. */
  lemma ReadsBothAlphabets(c: char, v: Sextet)
    ensures ValueOf(c) == Some(v) <==> c == Digit(v) || (c == '+' && v == 62) || (c == '/' && v == 63)
  {
  }

  ghost predicate AllDigits(s: string) {
    forall i :: 0 <= i < |s| ==> ValueOf(s[i]).Some? && s[i] as int < 128
  }

  lemma {:induction false} PaddingDecodes(count: nat, quad: nat, left: nat, pads: nat)
    requires quad < 4 && (quad < 2 ==> pads == 0) && quad + pads < 4
    ensures DecodeFrom(Padding(count), quad, left, pads).Some? <==>
              quad == 0 || (quad >= 2 && quad + pads + count >= 4)
    decreases count
  {
    if count > 0 {
      var s := Padding(count);
      assert s[0] == '=' && s[1..] == Padding(count - 1);
      if !(quad >= 2 && quad + pads + 1 >= 4) {
        PaddingDecodes(count - 1, quad, left, if quad >= 2 then pads + 1 else pads);
      }
    }
  }

  lemma DigitTaken(s: string, quad: nat, left: nat) returns (next: nat)
    requires s != "" && ValueOf(s[0]).Some? && quad < 4
    ensures DecodeFrom(s, quad, left, 0).Some? <==> DecodeFrom(s[1..], (quad + 1) % 4, next, 0).Some?
  {
    var v := ValueOf(s[0]).value;
    next := if quad == 0 then v else if quad == 1 then v % 16 else if quad == 2 then v % 4 else 0;
  }

  lemma NextPlace(quad: nat, rest: nat)
    requires quad < 4
    ensures ((quad + 1) % 4 + rest) % 4 == (quad + (rest + 1)) % 4
  {
  }

  ghost predicate Closes(last: nat, count: nat) {
    last == 0 || (last >= 2 && last + count >= 4)
  }

  lemma {:induction false} DigitsDecode(s: string, count: nat, quad: nat, left: nat, last: nat)
    requires AllDigits(s) && quad < 4 && last == (quad + |s|) % 4
    ensures DecodeFrom(s + Padding(count), quad, left, 0).Some? <==> Closes(last, count)
    decreases |s|
  {
    if s == "" {
      assert s + Padding(count) == Padding(count);
      PaddingDecodes(count, quad, left, 0);
    } else {
      var all := s + Padding(count);
      assert all[0] == s[0] && all[1..] == s[1..] + Padding(count);
      var next := DigitTaken(all, quad, left);
      NextPlace(quad, |s| - 1);
      DigitsDecode(s[1..], count, (quad + 1) % 4, next, last);
    }
  }

  /** A text of digits alone is readable exactly if one digit is not left over. */
  lemma DigitsAreReadableIff(s: string)
    requires AllDigits(s)
    ensures Decode(s).Some? <==> |s| % 4 != 1
  {
    DigitsDecode(s, (-|s|) % 4, 0, 0, |s| % 4);
  }

  /** Text that is not ASCII is refused. */
  lemma OnlyAsciiIsRead(s: string, i: nat)
    requires i < |s| && s[i] as int >= 128
    ensures Decode(s) == None
  {
  }
}
