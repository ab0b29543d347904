/** myLibraries/RandomNumberGenerator.cpp: the Base16 form in which hashes are kept in the databases. */
module Hex {
  import opened Base

  /** The table "0123456789ABCDEF". */
  function Digit(d: bv8): char
    requires d < 16
  {
    match d
    case 0 => '0'
    case 1 => '1'
    case 2 => '2'
    case 3 => '3'
    case 4 => '4'
    case 5 => '5'
    case 6 => '6'
    case 7 => '7'
    case 8 => '8'
    case 9 => '9'
    case 10 => 'A'
    case 11 => 'B'
    case 12 => 'C'
    case 13 => 'D'
    case 14 => 'E'
    case _ => 'F'
  }

  /** The lookup table hex_values; None stands for its -1 entries. */
  function HexValue(c: char): Option<bv8> {
    match c
    case '0' => Some(0)
    case '1' => Some(1)
    case '2' => Some(2)
    case '3' => Some(3)
    case '4' => Some(4)
    case '5' => Some(5)
    case '6' => Some(6)
    case '7' => Some(7)
    case '8' => Some(8)
    case '9' => Some(9)
    case 'A' => Some(10)
    case 'B' => Some(11)
    case 'C' => Some(12)
    case 'D' => Some(13)
    case 'E' => Some(14)
    case 'F' => Some(15)
    case 'a' => Some(10)
    case 'b' => Some(11)
    case 'c' => Some(12)
    case 'd' => Some(13)
    case 'e' => Some(14)
    case 'f' => Some(15)
    case _ => None
  }

  function Upper(c: char): char {
    match c
    case 'a' => 'A'
    case 'b' => 'B'
    case 'c' => 'C'
    case 'd' => 'D'
    case 'e' => 'E'
    case 'f' => 'F'
    case _ => c
  }

  function Encode(input: Bytes): string {
    if input == [] then "" else [Digit(input[0] >> 4), Digit(input[0] & 15)] + Encode(input[1..])
  }

  /** None is the exception for an odd length or an invalid digit. */
  function Decode(input: string): Option<Bytes> {
    if input == "" then Some([])
    else if |input| == 1 then None
    else
      var hi, lo, rest := HexValue(input[0]), HexValue(input[1]), Decode(input[2..]);
      if hi.None? || lo.None? || rest.None? then None
      else Some([(hi.value << 4) | lo.value] + rest.value)
  }

  /** string_to_hex. */
  method StringToHex(input: Bytes) returns (output: string)
    ensures output == Encode(input)
  {
    hide Digit, Encode;
    output := "";
    assert input[0..] == input;
    for i := 0 to |input|
      invariant output + Encode(input[i..]) == Encode(input)
    {
      EncodeNext(input, i);
      output := output + [Digit(input[i] >> 4)];
      output := output + [Digit(input[i] & 15)];
    }
    assert input[|input|..] == [];
    NothingToEncode();
  }

  lemma NothingToEncode()
    ensures Encode([]) == ""
  {
  }

  lemma EncodeNext(input: Bytes, i: nat)
    requires i < |input|
    ensures (input[i] >> 4) < 16 && (input[i] & 15) < 16
    ensures Encode(input[i..]) == [Digit(input[i] >> 4)] + ([Digit(input[i] & 15)] + Encode(input[i + 1..]))
  {
    hide Digit;
    Nibbles(input[i]);
    assert input[i..][0] == input[i] && input[i..][1..] == input[i + 1..];
  }

  /** hex_to_string: an odd length is refused first, then a wrong digit as it comes. */
  method HexToString(input: string) returns (output: Option<Bytes>)
    ensures output == Decode(input)
  {
    if |input| % 2 == 1 {
      OddLength(input);
      return None;
    }
    hide HexValue;
    var bytes: Bytes := [];
    var i := 0;
    assert input[0..] == input;
    NothingPrepended(Decode(input));
    while i < |input|
      invariant i <= |input| && i % 2 == 0
      invariant Decode(input) == Prepended(bytes, Decode(input[i..]))
    {
      assert input[i..][0] == input[i] && input[i..][1] == input[i + 1] && input[i..][2..] == input[i + 2..];
      var hi, lo := HexValue(input[i]), HexValue(input[i + 1]);
      if hi.None? || lo.None? {
        return None;
      }
      ByteAfterByte(bytes, (hi.value << 4) | lo.value, Decode(input[i + 2..]));
      bytes := bytes + [(hi.value << 4) | lo.value];
      i := i + 2;
    }
    assert input[i..] == "" && bytes + [] == bytes;
    return Some(bytes);
  }

  function Prepended(bytes: Bytes, r: Option<Bytes>): Option<Bytes> {
    if r.None? then None else Some(bytes + r.value)
  }

  lemma NothingPrepended(r: Option<Bytes>)
    ensures Prepended([], r) == r
  {
    if r.Some? {
      assert [] + r.value == r.value;
    }
  }

  lemma ByteAfterByte(bytes: Bytes, b: bv8, r: Option<Bytes>)
    ensures Prepended(bytes, Prepended([b], r)) == Prepended(bytes + [b], r)
  {
    if r.Some? {
      assert bytes + ([b] + r.value) == bytes + [b] + r.value;
    }
  }

  lemma {:induction false} OddLength(input: string)
    requires |input| % 2 == 1
    ensures Decode(input) == None
  {
    if |input| > 1 {
      OddLength(input[2..]);
    }
  }

  lemma DigitValue(d: bv8)
    requires d < 16
    ensures HexValue(Digit(d)) == Some(d)
  {
  }

  lemma ValueDigit(c: char)
    requires HexValue(c).Some?
    ensures HexValue(c).value < 16 && Digit(HexValue(c).value) == Upper(c)
  {
  }

  /** Shifting and masking take a byte apart; shifting and or-ing put it together. */
  lemma Nibbles(b: bv8)
    ensures (b >> 4) < 16 && (b & 15) < 16 && ((b >> 4) << 4) | (b & 15) == b
  {
  }

  lemma Joined(hi: bv8, lo: bv8)
    requires hi < 16 && lo < 16
    ensures ((hi << 4) | lo) >> 4 == hi && ((hi << 4) | lo) & 15 == lo
  {
  }

  lemma {:induction false} DecodeEncode(input: Bytes)
    ensures Decode(Encode(input)) == Some(input)
  {
    hide Digit, HexValue;
    if input != [] {
      Nibbles(input[0]);
      DigitValue(input[0] >> 4);
      DigitValue(input[0] & 15);
      var e := Encode(input);
      assert e[0] == Digit(input[0] >> 4) && e[1] == Digit(input[0] & 15) && e[2..] == Encode(input[1..]);
      DecodeEncode(input[1..]);
      assert [input[0]] + input[1..] == input;
    }
  }

  function UpperAll(s: string): string {
    if s == "" then "" else [Upper(s[0])] + UpperAll(s[1..])
  }

  predicate ValidHex(s: string) { |s| % 2 == 0 && forall i :: 0 <= i < |s| ==> HexValue(s[i]).Some? }

  lemma SplitDigits(s: string)
    ensures |s| < 2 ==> (ValidHex(s) <==> s == "")
    ensures |s| >= 2 ==> (ValidHex(s) <==> HexValue(s[0]).Some? && HexValue(s[1]).Some? && ValidHex(s[2..]))
  {
    hide HexValue;
    if |s| >= 2 {
      assert forall i :: 2 <= i < |s| ==> s[i] == s[2..][i - 2];
    }
  }

  /** What decodes, and to what: every string of an even number of hexadecimal digits, to the bytes
      whose encoding is its upper-case form; and nothing else. */
  lemma {:induction false} EncodeDecode(s: string)
    ensures Decode(s).Some? <==> ValidHex(s)
    ensures Decode(s).Some? ==> Encode(Decode(s).value) == UpperAll(s)
  {
    hide Digit, HexValue, Upper, ValidHex, Encode;
    SplitDigits(s);
    if |s| < 2 {
      NothingToEncode();
    } else {
      EncodeDecode(s[2..]);
      assert s[1..][1..] == s[2..];
      if ValidHex(s) {
        JoinedDigits(s[0], s[1], Decode(s[2..]).value);
      }
    }
  }

  lemma JoinedDigits(a: char, b: char, rest: Bytes)
    requires HexValue(a).Some? && HexValue(b).Some?
    ensures Encode([(HexValue(a).value << 4) | HexValue(b).value] + rest) == [Upper(a)] + ([Upper(b)] + Encode(rest))
  {
    hide Digit, HexValue, Upper;
    ValueDigit(a);
    ValueDigit(b);
    var byte := (HexValue(a).value << 4) | HexValue(b).value;
    Joined(HexValue(a).value, HexValue(b).value);
    assert ([byte] + rest)[1..] == rest;
  }
}
