/**
 * The base-32 encodings the token and request-id generators rely on, as
 * section 6 of RFC 4648 defines them: the input is read as a bit string,
 * cut into 5-bit groups (the last one filled up with zero bits), and every
 * group is spelled with one letter of a 32-letter alphabet. The padded form
 * appends '=' until the length is a multiple of 8.
 */
module Base32 {

  type Byte = b: int | 0 <= b < 256

  /** Twenty random bytes, the amount both generators draw. */
  type RandomBytes = b: seq<Byte> | |b| == 20 witness seq(20, _ => 0)

  const UpperAlphabet: string := "ABCDEFGHIJKLMNOPQRSTUVWXYZ234567"
  const LowerAlphabet: string := "abcdefghijklmnopqrstuvwxyz234567"

  /** The eight bits of a byte, most significant first. */
  function ByteBits(b: Byte): (bits: seq<bool>)
    ensures |bits| == 8
  {
    [b / 128 % 2 == 1, b / 64 % 2 == 1, b / 32 % 2 == 1, b / 16 % 2 == 1,
     b / 8 % 2 == 1, b / 4 % 2 == 1, b / 2 % 2 == 1, b % 2 == 1]
  }

  function Bits(bytes: seq<Byte>): (bits: seq<bool>)
    ensures |bits| == 8 * |bytes|
  {
    if bytes == [] then [] else ByteBits(bytes[0]) + Bits(bytes[1..])
  }

  /** The number a group of five bits stands for, most significant first. */
  function Quintet(bits: seq<bool>): (v: nat)
    requires |bits| == 5
    ensures v < 32
  {
    (if bits[0] then 16 else 0) + (if bits[1] then 8 else 0) + (if bits[2] then 4 else 0)
    + (if bits[3] then 2 else 0) + (if bits[4] then 1 else 0)
  }

  /** Cuts a bit string into 5-bit groups; a short last group is filled with zeros. */
  function Quintets(bits: seq<bool>): (vs: seq<nat>)
    ensures |vs| == (|bits| + 4) / 5
    ensures forall i :: 0 <= i < |vs| ==> vs[i] < 32
    decreases |bits|
  {
    if |bits| == 0 then []
    else if |bits| < 5 then [Quintet(bits + seq(5 - |bits|, _ => false))]
    else [Quintet(bits[..5])] + Quintets(bits[5..])
  }

  function Spell(vs: seq<nat>, alphabet: string): (s: string)
    requires |alphabet| == 32
    requires forall i :: 0 <= i < |vs| ==> vs[i] < 32
    ensures |s| == |vs|
    ensures forall i :: 0 <= i < |s| ==> s[i] == alphabet[vs[i]]
  {
    if vs == [] then [] else [alphabet[vs[0]]] + Spell(vs[1..], alphabet)
  }

  /** `encodeBase32LowerCaseNoPadding`: lower-case alphabet, no '=' padding. */
  function EncodeBase32LowerCaseNoPadding(bytes: seq<Byte>): (s: string)
    ensures |s| == (8 * |bytes| + 4) / 5
    ensures forall i :: 0 <= i < |s| ==> s[i] in LowerAlphabet
  {
    Spell(Quintets(Bits(bytes)), LowerAlphabet)
  }

  /** Appends '=' until the length is a multiple of 8. */
  function Pad(body: string): (s: string)
    ensures |s| % 8 == 0 && |body| <= |s| < |body| + 8
    ensures s[..|body|] == body
    ensures forall i :: |body| <= i < |s| ==> s[i] == '='
    ensures |body| % 8 == 0 ==> s == body
  {
    var n := (8 - |body| % 8) % 8;
    assert (|body| + n) % 8 == 0;
    body + seq(n, _ => '=')
  }

  /** `encodeBase32`: upper-case alphabet, padded with '=' to a multiple of 8. */
  function EncodeBase32(bytes: seq<Byte>): (s: string)
    ensures |s| % 8 == 0
    ensures |s| - 7 <= (8 * |bytes| + 4) / 5 <= |s|
    ensures forall i :: 0 <= i < |s| ==> s[i] in UpperAlphabet || s[i] == '='
  {
    var body := Spell(Quintets(Bits(bytes)), UpperAlphabet);
    var s := Pad(body);
    assert forall i :: 0 <= i < |body| ==> s[i] == body[i];
    s
  }

  /** `toLowerCase` on characters outside the ASCII range is not modelled. */
  function ToLowerAscii(c: char): char
  {
    if 'A' <= c <= 'Z' then (c as int - 'A' as int + 'a' as int) as char else c
  }

  function ToLowerCase(s: string): (r: string)
    ensures |r| == |s|
    ensures forall i :: 0 <= i < |s| ==> r[i] == ToLowerAscii(s[i])
  {
    if s == [] then [] else [ToLowerAscii(s[0])] + ToLowerCase(s[1..])
  }

  lemma UpperLetterLowers(i: nat)
    requires i < 32
    ensures ToLowerAscii(UpperAlphabet[i]) == LowerAlphabet[i]
  {
  }

  lemma LowerLetterStays(i: nat)
    requires i < 32
    ensures ToLowerAscii(LowerAlphabet[i]) == LowerAlphabet[i]
  {
  }

  /** Every 5 bytes spell 8 characters, so whole blocks need no padding. */
  lemma WholeBlocksFillWholeGroups(n: nat)
    requires n % 5 == 0
    ensures (8 * n + 4) / 5 == 8 * (n / 5)
    ensures (8 * n + 4) / 5 % 8 == 0
  {
    var k := n / 5;
    assert 8 * n + 4 == 5 * (8 * k) + 4;
  }

  /**
   * Lower-casing the padded upper-case encoding of a whole number of 5-byte
   * blocks gives the unpadded lower-case encoding: there is no padding to drop.
   */
  lemma {:induction false} LowercasedEncodingIsUnpadded(bytes: seq<Byte>)
    requires |bytes| % 5 == 0
    ensures ToLowerCase(EncodeBase32(bytes)) == EncodeBase32LowerCaseNoPadding(bytes)
  {
    var vs := Quintets(Bits(bytes));
    var upper := Spell(vs, UpperAlphabet);
    WholeBlocksFillWholeGroups(|bytes|);
    assert EncodeBase32(bytes) == Pad(upper) == upper;
    var lower := ToLowerCase(upper);
    forall i | 0 <= i < |lower|
      ensures lower[i] == EncodeBase32LowerCaseNoPadding(bytes)[i]
    {
      UpperLetterLowers(vs[i]);
    }
  }

  /** Lower-casing the lower-case encoding changes nothing. */
  lemma LowerEncodingIsLowerCase(bytes: seq<Byte>)
    ensures ToLowerCase(EncodeBase32LowerCaseNoPadding(bytes)) == EncodeBase32LowerCaseNoPadding(bytes)
  {
    var vs := Quintets(Bits(bytes));
    var s := Spell(vs, LowerAlphabet);
    forall i | 0 <= i < |s| ensures ToLowerAscii(s[i]) == s[i] {
      LowerLetterStays(vs[i]);
    }
  }

  /** A 20-byte value is 32 characters in either spelling, with no padding. */
  lemma TwentyBytesAreThirtyTwoCharacters(bytes: RandomBytes)
    ensures |EncodeBase32LowerCaseNoPadding(bytes)| == 32
    ensures |EncodeBase32(bytes)| == 32
    ensures '=' !in EncodeBase32(bytes)
  {
    LowercasedEncodingIsUnpadded(bytes);
    var s := EncodeBase32(bytes);
    forall i | 0 <= i < |s| ensures s[i] != '=' {
      assert ToLowerAscii(s[i]) in LowerAlphabet;
    }
  }
}
