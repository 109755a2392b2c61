/**
 The URL-safe base64 text of a byte sequence, section 5 of RFC 4648, written without padding
 (section 3.2) and read back by Python's lenient decoder.
 */
module Base64Url {
  import opened Options

  type Byte = b: int | 0 <= b < 256

  type Sextet = v: int | 0 <= v < 64

  function Letter(v: Sextet): char {
    if v < 26 then ('A' as int + v) as char
    else if v < 52 then ('a' as int + v - 26) as char
    else if v < 62 then ('0' as int + v - 52) as char
    else if v == 62 then '-'
    else '_'
  }

  /** The decoder also reads the standard alphabet's `+` and `/`; any other character is no sextet. */
  function SextetOf(c: char): Option<Sextet> {
    if 'A' <= c <= 'Z' then Some(c as int - 'A' as int)
    else if 'a' <= c <= 'z' then Some(c as int - 'a' as int + 26)
    else if '0' <= c <= '9' then Some(c as int - '0' as int + 52)
    else if c == '-' || c == '+' then Some(62)
    else if c == '_' || c == '/' then Some(63)
    else None
  }

  function Encode(raw: seq<Byte>): (text: string)
  {
    if |raw| == 0 then []
    else if |raw| == 1 then
      [Letter(raw[0] / 4), Letter(raw[0] % 4 * 16)]
    else if |raw| == 2 then
      [Letter(raw[0] / 4), Letter(raw[0] % 4 * 16 + raw[1] / 16), Letter(raw[1] % 16 * 4)]
    else
      Group(raw[0], raw[1], raw[2]) + Encode(raw[3..])
  }

  function Group(a: Byte, b: Byte, c: Byte): string {
    [Letter(a / 4), Letter(a % 4 * 16 + b / 16), Letter(b % 16 * 4 + c / 64), Letter(c % 64)]
  }

  function Prefixed(b: Byte, rest: Option<seq<Byte>>): Option<seq<Byte>> {
    match rest case None => None case Some(bytes) => Some([b] + bytes)
  }

  /**
   Scan with `quad` sextets of the current group read and `left` holding their bits not yet
   written out. Characters outside the alphabet are skipped; enough padding ends the scan.
   */
  function Scan(s: string, quad: nat, left: nat, pads: nat): Option<seq<Byte>>
    requires quad < 4 && left < 64
    requires quad == 2 ==> left < 16
    requires quad == 3 ==> left < 4
  {
    if s == [] then
      if quad == 0 then Some([]) else None
    else if s[0] == '=' then
      if quad >= 2 && quad + pads + 1 >= 4 then Some([])
      else Scan(s[1..], quad, left, if quad >= 2 then pads + 1 else pads)
    else
      match SextetOf(s[0])
      case None => Scan(s[1..], quad, left, pads)
      case Some(v) =>
        if quad == 0 then Scan(s[1..], 1, v, 0)
        else if quad == 1 then Prefixed(left * 4 + v / 16, Scan(s[1..], 2, v % 16, 0))
        else if quad == 2 then Prefixed(left * 16 + v / 4, Scan(s[1..], 3, v % 4, 0))
        else Prefixed(left * 64 + v, Scan(s[1..], 0, 0, 0))
  }

  predicate Ascii(s: string) {
    forall c | c in s :: c as int < 128
  }

  function Padding(length: nat): string {
    if length % 4 == 1 then "===" else if length % 4 == 2 then "==" else if length % 4 == 3 then "=" else ""
  }

  /** `urlsafe_b64decode` after the padding is restored; `None` is its ValueError. */
  function Decode(text: string): Option<seq<Byte>> {
    if Ascii(text) then Scan(text + Padding(|text|), 0, 0, 0) else None
  }

  lemma SextetOfLetter(v: Sextet)
    ensures SextetOf(Letter(v)) == Some(v)
    ensures Letter(v) != '=' && Letter(v) != '.' && Letter(v) as int < 128
  {
  }

  lemma ScanLetter(v: Sextet, rest: string, quad: nat, left: nat)
    requires quad < 4 && left < 64
    requires quad == 2 ==> left < 16
    requires quad == 3 ==> left < 4
    ensures Scan([Letter(v)] + rest, quad, left, 0)
         == if quad == 0 then Scan(rest, 1, v, 0)
            else if quad == 1 then Prefixed(left * 4 + v / 16, Scan(rest, 2, v % 16, 0))
            else if quad == 2 then Prefixed(left * 16 + v / 4, Scan(rest, 3, v % 4, 0))
            else Prefixed(left * 64 + v, Scan(rest, 0, 0, 0))
  {
    SextetOfLetter(v);
    assert ([Letter(v)] + rest)[1..] == rest;
  }

  lemma ScanFour(v0: Sextet, v1: Sextet, v2: Sextet, v3: Sextet, rest: string)
    ensures Scan([Letter(v0), Letter(v1), Letter(v2), Letter(v3)] + rest, 0, 0, 0)
         == Prefixed(v0 * 4 + v1 / 16, Prefixed(v1 % 16 * 16 + v2 / 4,
              Prefixed(v2 % 4 * 64 + v3, Scan(rest, 0, 0, 0))))
  {
    var t3 := [Letter(v3)] + rest;
    var t2 := [Letter(v2)] + t3;
    var t1 := [Letter(v1)] + t2;
    assert [Letter(v0), Letter(v1), Letter(v2), Letter(v3)] + rest == [Letter(v0)] + t1;
    ScanLetter(v0, t1, 0, 0);
    ScanLetter(v1, t2, 1, v0);
    ScanLetter(v2, t3, 2, v1 % 16);
    ScanLetter(v3, rest, 3, v2 % 4);
  }

  lemma FirstByte(a: Byte, low: nat)
    requires low < 16
    ensures a / 4 * 4 + (a % 4 * 16 + low) / 16 == a
    ensures (a % 4 * 16 + low) % 16 == low
  {
  }

  lemma SecondByte(b: Byte, low: nat)
    requires low < 4
    ensures b / 16 * 16 + 0 <= b < 256
    ensures b / 16 * 16 + b % 16 == b
    ensures (b % 16 * 4 + low) / 4 == b % 16
    ensures (b % 16 * 4 + low) % 4 == low
  {
  }

  lemma ScanGroup(a: Byte, b: Byte, c: Byte, rest: string)
    ensures Scan(Group(a, b, c) + rest, 0, 0, 0)
         == Prefixed(a, Prefixed(b, Prefixed(c, Scan(rest, 0, 0, 0))))
  {
    FirstByte(a, b / 16);
    SecondByte(b, c / 64);
    ScanFour(a / 4, a % 4 * 16 + b / 16, b % 16 * 4 + c / 64, c % 64, rest);
  }

  lemma ScanOne(a: Byte)
    ensures Scan([Letter(a / 4), Letter(a % 4 * 16)] + "==", 0, 0, 0) == Some([a])
  {
    var v0, v1 := a / 4, a % 4 * 16;
    FirstByte(a, 0);
    var t1 := [Letter(v1)] + "==";
    assert [Letter(v0), Letter(v1)] + "==" == [Letter(v0)] + t1;
    ScanLetter(v0, t1, 0, 0);
    ScanLetter(v1, "==", 1, v0);
    assert "=="[1..] == "=";
    assert Scan("==", 2, 0, 0) == Scan("=", 2, 0, 1) == Some([]);
    assert [a] + [] == [a];
  }

  lemma ScanTwo(a: Byte, b: Byte)
    ensures Scan([Letter(a / 4), Letter(a % 4 * 16 + b / 16), Letter(b % 16 * 4)] + "=", 0, 0, 0) == Some([a, b])
  {
    var v0, v1, v2 := a / 4, a % 4 * 16 + b / 16, b % 16 * 4;
    FirstByte(a, b / 16);
    SecondByte(b, 0);
    var t2 := [Letter(v2)] + "=";
    var t1 := [Letter(v1)] + t2;
    assert [Letter(v0), Letter(v1), Letter(v2)] + "=" == [Letter(v0)] + t1;
    ScanLetter(v0, t1, 0, 0);
    ScanLetter(v1, t2, 1, v0);
    ScanLetter(v2, "=", 2, b / 16);
    assert Scan("=", 3, 0, 0) == Some([]);
    assert [a] + ([b] + []) == [a, b];
  }

  lemma PaddingPeriod(n: nat)
    ensures Padding(n + 4) == Padding(n)
  {
  }

  lemma {:induction false} ScanEncoded(raw: seq<Byte>)
    ensures Scan(Encode(raw) + Padding(|Encode(raw)|), 0, 0, 0) == Some(raw)
    decreases raw, 1
  {
    if |raw| == 0 {
    } else if |raw| == 1 {
      ScanOne(raw[0]);
      assert [raw[0]] == raw;
    } else if |raw| == 2 {
      ScanTwo(raw[0], raw[1]);
      assert [raw[0], raw[1]] == raw;
    } else {
      ScanEncodedStep(raw);
    }
  }

  lemma {:induction false} ScanEncodedStep(raw: seq<Byte>)
    requires |raw| >= 3
    ensures Scan(Encode(raw) + Padding(|Encode(raw)|), 0, 0, 0) == Some(raw)
    decreases raw, 0
  {
    var rest, group := Encode(raw[3..]), Group(raw[0], raw[1], raw[2]);
    assert Encode(raw) == group + rest;
    PaddingPeriod(|rest|);
    var pad := Padding(|rest|);
    assert Encode(raw) + pad == group + (rest + pad);
    ScanGroup(raw[0], raw[1], raw[2], rest + pad);
    ScanEncoded(raw[3..]);
    assert [raw[0]] + ([raw[1]] + ([raw[2]] + raw[3..])) == raw;
  }

  lemma {:induction false} EncodedLetters(raw: seq<Byte>)
    ensures Ascii(Encode(raw)) && '.' !in Encode(raw) && (raw != [] ==> Encode(raw) != [])
  {
    if |raw| >= 3 {
      EncodedLetters(raw[3..]);
    }
  }

  /** Unpadded base64url text decodes to the bytes it was made from, whatever their number. */
  lemma DecodeEncode(raw: seq<Byte>)
    ensures Decode(Encode(raw)) == Some(raw)
  {
    EncodedLetters(raw);
    ScanEncoded(raw);
  }

  lemma EncodeInjective(a: seq<Byte>, b: seq<Byte>)
    ensures Encode(a) == Encode(b) <==> a == b
  {
    DecodeEncode(a);
    DecodeEncode(b);
  }

  /** The test vectors of section 10 of RFC 4648 without their padding, and the two letters of the URL-safe alphabet. */
  lemma Rfc4648Vectors()
    ensures Encode([]) == "" && Encode([102]) == "Zg" && Encode([102, 111]) == "Zm8" && Encode([102, 111, 111]) == "Zm9v"
    ensures Encode([102, 111, 111, 98]) == "Zm9vYg" && Encode([102, 111, 111, 98, 97]) == "Zm9vYmE"
    ensures Encode([102, 111, 111, 98, 97, 114]) == "Zm9vYmFy"
    ensures Encode([251, 255]) == "-_8"
  {
    var foobar: seq<Byte> := [102, 111, 111, 98, 97, 114];
    assert foobar[..4][3..] == [98] && foobar[..5][3..] == [98, 97] && foobar[3..] == [98, 97, 114];
    assert [102, 111, 111][3..] == [] && [98, 97, 114][3..] == [];
    assert foobar[..4] == [102, 111, 111, 98] && foobar[..5] == [102, 111, 111, 98, 97];
  }
}
