/**
 The DSSE pre-authentication encoding (scripts/build-provenance.js): what is
 signed determines both the payload type and the payload.
 */
module Provenance {
  import opened Common
  import opened Decimals

  const SPACE: Byte := 32

  predicate IsAscii(s: string) {
    forall i :: 0 <= i < |s| ==> s[i] < 128 as char
  }

  function Ascii(s: string): Bytes
    requires IsAscii(s)
  {
    seq(|s|, i requires 0 <= i < |s| => s[i] as int)
  }

  function Numeral(n: nat): Bytes {
    Ascii(Decimal(n))
  }

  /** "DSSEv1" SP LEN(type) SP type SP LEN(payload) SP payload. */
  function Pae(payloadType: Bytes, payload: Bytes): Bytes {
    Ascii("DSSEv1") + [SPACE] + (Numeral(|payloadType|) + [SPACE]
    + (payloadType + ([SPACE] + (Numeral(|payload|) + [SPACE] + payload))))
  }

  lemma NumeralHasNoSpace(n: nat)
    ensures forall i :: 0 <= i < |Numeral(n)| ==> Numeral(n)[i] != SPACE
  {
    forall i | 0 <= i < |Numeral(n)| ensures Numeral(n)[i] != SPACE {
      assert IsDigit(Decimal(n)[i]);
    }
  }

  lemma NumeralIsInjective(m: nat, n: nat)
    requires Numeral(m) == Numeral(n)
    ensures m == n
  {
    var dm, dn := Decimal(m), Decimal(n);
    assert |dm| == |Numeral(m)| == |dn|;
    forall i | 0 <= i < |dm| ensures dm[i] == dn[i] {
      assert Numeral(m)[i] == dm[i] as int && Numeral(n)[i] == dn[i] as int;
    }
    assert dm == dn;
    ValueOfDecimal(m);
    ValueOfDecimal(n);
  }

  lemma WithoutSpaces(x: Bytes, rest: Bytes)
    requires forall i :: 0 <= i < |x| ==> x[i] != SPACE
    ensures forall i :: 0 <= i < |x| ==> (x + [SPACE] + rest)[i] != SPACE
    ensures (x + [SPACE] + rest)[|x|] == SPACE
  {
  }

  /** A length and what follows it are determined, whatever follows. */
  lemma LengthIsDetermined(m: nat, n: nat, a: Bytes, b: Bytes)
    requires Numeral(m) + [SPACE] + a == Numeral(n) + [SPACE] + b
    ensures m == n && a == b
  {
    var x, y := Numeral(m), Numeral(n);
    var whole := x + [SPACE] + a;
    NumeralHasNoSpace(m);
    NumeralHasNoSpace(n);
    WithoutSpaces(x, a);
    WithoutSpaces(y, b);
    assert |x| == |y|;
    assert x == whole[..|x|] == y;
    assert a == whole[|x| + 1..] == b;
    NumeralIsInjective(m, n);
  }

  lemma SameLengthPrefix(x: Bytes, y: Bytes, a: Bytes, b: Bytes)
    requires |x| == |y| && x + a == y + b
    ensures x == y && a == b
  {
    assert x == (x + a)[..|x|] == y;
    assert a == (x + a)[|x|..] == b;
  }

  /** Equal encodings force equal types and equal payloads, for all byte strings,
      spaces and digits in them included. */
  lemma PaeIsInjective(type1: Bytes, payload1: Bytes, type2: Bytes, payload2: Bytes)
    requires Pae(type1, payload1) == Pae(type2, payload2)
    ensures type1 == type2 && payload1 == payload2
  {
    var tail1 := [SPACE] + (Numeral(|payload1|) + [SPACE] + payload1);
    var tail2 := [SPACE] + (Numeral(|payload2|) + [SPACE] + payload2);
    var head := Ascii("DSSEv1") + [SPACE];
    SameLengthPrefix(head, head, Numeral(|type1|) + [SPACE] + (type1 + tail1),
                     Numeral(|type2|) + [SPACE] + (type2 + tail2));
    LengthIsDetermined(|type1|, |type2|, type1 + tail1, type2 + tail2);
    SameLengthPrefix(type1, type2, tail1, tail2);
    SameLengthPrefix([SPACE], [SPACE], Numeral(|payload1|) + [SPACE] + payload1,
                     Numeral(|payload2|) + [SPACE] + payload2);
    LengthIsDetermined(|payload1|, |payload2|, payload1, payload2);
  }

  // ------------------------------------------------------------ reading it back

  /** How far it is to the first space. */
  function ToSpace(b: Bytes): (n: nat)
    ensures n <= |b| && (forall i :: 0 <= i < n ==> b[i] != 32) && (n < |b| ==> b[n] == 32)
  {
    if b == [] || b[0] == 32 then 0 else 1 + ToSpace(b[1..])
  }

  function Text(b: Bytes): (s: string)
    ensures |s| == |b|
  {
    seq(|b|, i requires 0 <= i < |b| => b[i] as char)
  }

  /** A numeral, a space, and what follows. */
  function ReadLength(b: Bytes): Option<(int, Bytes)> {
    var n := ToSpace(b);
    if n == |b| || !IsNumeral(Text(b[..n])) then None else Some((Value(Text(b[..n])), b[n + 1..]))
  }

  /** The type and the payload, if this is an encoding. */
  function Parse(b: Bytes): Option<(Bytes, Bytes)> {
    if |b| < 7 || b[..7] != [68, 83, 83, 69, 118, 49, 32] then None
    else match ReadLength(b[7..])
      case None => None
      case Some((length, rest)) =>
        if length < 0 || |rest| <= length || rest[length] != 32 then None
        else match ReadLength(rest[length + 1..])
          case None => None
          case Some((left, payload)) => if |payload| == left then Some((rest[..length], payload)) else None
  }

  lemma TextOfNumeral(n: nat)
    ensures Text(Numeral(n)) == Decimal(n)
  {
  }

  lemma NumeralOfText(b: Bytes)
    requires IsNumeral(Text(b))
    ensures Value(Text(b)) >= 0 && Numeral(Value(Text(b))) == b
  {
    NumeralIsDecimal(Text(b));
    var d := Decimal(Value(Text(b)));
    forall i | 0 <= i < |b| ensures Numeral(Value(Text(b)))[i] == b[i] {
      assert d[i] == b[i] as char;
    }
  }

  lemma LengthReadsBack(n: nat, rest: Bytes)
    ensures ReadLength(Numeral(n) + [SPACE] + rest) == Some((n, rest))
  {
    var b := Numeral(n) + [SPACE] + rest;
    NumeralHasNoSpace(n);
    WithoutSpaces(Numeral(n), rest);
    assert ToSpace(b) == |Numeral(n)|;
    assert b[..|Numeral(n)|] == Numeral(n) && b[|Numeral(n)| + 1..] == rest;
    TextOfNumeral(n);
    DecimalIsNumeral(n);
    ValueOfDecimal(n);
  }

  lemma OnlyLengthsRead(b: Bytes)
    requires ReadLength(b).Some?
    ensures var (n, rest) := ReadLength(b).value; n >= 0 && b == Numeral(n) + [SPACE] + rest
  {
    var n := ToSpace(b);
    NumeralOfText(b[..n]);
    assert b == b[..n] + [b[n]] + b[n + 1..];
  }

  lemma PrefixIs()
    ensures Ascii("DSSEv1") + [SPACE] == [68, 83, 83, 69, 118, 49, 32]
  {
  }

  /** What is signed can be read back, whatever bytes the type and the payload hold. */
  lemma PaeReadsBack(payloadType: Bytes, payload: Bytes)
    ensures Parse(Pae(payloadType, payload)) == Some((payloadType, payload))
  {
    var b, n := Pae(payloadType, payload), |payloadType|;
    var end := Numeral(|payload|) + [SPACE] + payload;
    var rest := payloadType + ([SPACE] + end);
    PrefixIs();
    assert b == [68, 83, 83, 69, 118, 49, 32] + (Numeral(n) + [SPACE] + rest);
    assert b[..7] == [68, 83, 83, 69, 118, 49, 32] && b[7..] == Numeral(n) + [SPACE] + rest;
    LengthReadsBack(n, rest);
    assert rest[n] == SPACE && rest[..n] == payloadType && rest[n + 1..] == end;
    LengthReadsBack(|payload|, payload);
  }

  /** And nothing else can be: what reads as an encoding is the encoding of what was read. */
  lemma OnlyPaeParses(b: Bytes)
    requires Parse(b).Some?
    ensures var (payloadType, payload) := Parse(b).value; b == Pae(payloadType, payload)
  {
    OnlyLengthsRead(b[7..]);
    var (n, rest) := ReadLength(b[7..]).value;
    OnlyLengthsRead(rest[n + 1..]);
    var (m, payload) := ReadLength(rest[n + 1..]).value;
    PutTogether(b, rest, n, payload);
  }

  lemma PutTogether(b: Bytes, rest: Bytes, n: nat, payload: Bytes)
    requires |b| >= 7 && b[..7] == [68, 83, 83, 69, 118, 49, 32] && b[7..] == Numeral(n) + [SPACE] + rest
    requires n < |rest| && rest[n] == SPACE && rest[n + 1..] == Numeral(|payload|) + [SPACE] + payload
    ensures b == Pae(rest[..n], payload)
  {
    PrefixIs();
    assert b == b[..7] + b[7..];
    assert rest == rest[..n] + ([SPACE] + rest[n + 1..]);
  }
}
