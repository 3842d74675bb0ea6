/**
 Base64 as the column codec and the Fernet token use it: sections 4 (standard) and 5
 (URL-safe) of RFC 4648, over ASCII codes. Decoding is the validating kind: only alphabet
 characters, mandatory padding, no data after it; unused trailing bits are ignored.
 */
module Base64 {
  import opened Results

  datatype Alphabet = Standard | UrlSafe

  type sextet = x: int | 0 <= x < 64

  const PAD: byte := '=' as int

  function Char62(a: Alphabet): byte { if a.Standard? then '+' as int else '-' as int }

  function Char63(a: Alphabet): byte { if a.Standard? then '/' as int else '_' as int }

  /** The ASCII code of a six-bit value. */
  function Symbol(a: Alphabet, v: sextet): byte {
    if v < 26 then 65 + v
    else if v < 52 then 71 + v
    else if v < 62 then v - 4
    else if v == 62 then Char62(a)
    else Char63(a)
  }

  predicate InAlphabet(a: Alphabet, c: byte) {
    65 <= c <= 90 || 97 <= c <= 122 || 48 <= c <= 57 || c == Char62(a) || c == Char63(a)
  }

  function ValueOf(a: Alphabet, c: byte): (v: sextet)
    requires InAlphabet(a, c)
    ensures Symbol(a, v) == c
  {
    if 65 <= c <= 90 then c - 65
    else if 97 <= c <= 122 then c - 71
    else if 48 <= c <= 57 then c + 4
    else if c == Char62(a) then 62
    else 63
  }

  lemma SymbolInAlphabet(a: Alphabet, v: sextet)
    ensures InAlphabet(a, Symbol(a, v)) && ValueOf(a, Symbol(a, v)) == v
    ensures Symbol(a, v) != PAD && 0x2B <= Symbol(a, v) < 128
  {
  }

  // The four six-bit slices of three bytes (missing bytes count as zero).
  function Slice0(b0: byte): sextet { b0 / 4 }
  function Slice1(b0: byte, b1: byte): sextet { b0 % 4 * 16 + b1 / 16 }
  function Slice2(b1: byte, b2: byte): sextet { b1 % 16 * 4 + b2 / 64 }
  function Slice3(b2: byte): sextet { b2 % 64 }

  // And the three bytes back from them.
  function Join0(v0: sextet, v1: sextet): byte { v0 * 4 + v1 / 16 }
  function Join1(v1: sextet, v2: sextet): byte { v1 % 16 * 16 + v2 / 4 }
  function Join2(v2: sextet, v3: sextet): byte { v2 % 4 * 64 + v3 }

  lemma JoinSlices(b0: byte, b1: byte, b2: byte)
    ensures Join0(Slice0(b0), Slice1(b0, b1)) == b0
    ensures Join1(Slice1(b0, b1), Slice2(b1, b2)) == b1
    ensures Join2(Slice2(b1, b2), Slice3(b2)) == b2
  {
    assert Slice1(b0, b1) / 16 == b0 % 4;
    assert Slice1(b0, b1) % 16 == b1 / 16;
    assert Slice2(b1, b2) / 4 == b1 % 16;
    assert Slice2(b1, b2) % 4 == b2 / 64;
  }

  function Quantum(a: Alphabet, b: bytes): (s: bytes)
    requires 1 <= |b| <= 3
    ensures |s| == 4
  {
    if |b| == 1 then
      [Symbol(a, Slice0(b[0])), Symbol(a, Slice1(b[0], 0)), PAD, PAD]
    else if |b| == 2 then
      [Symbol(a, Slice0(b[0])), Symbol(a, Slice1(b[0], b[1])), Symbol(a, Slice2(b[1], 0)), PAD]
    else
      [Symbol(a, Slice0(b[0])), Symbol(a, Slice1(b[0], b[1])),
       Symbol(a, Slice2(b[1], b[2])), Symbol(a, Slice3(b[2]))]
  }

  /** Four characters per three bytes, the last group perhaps short of bytes. */
  function EncodedLength(n: nat): nat { (n + 2) / 3 * 4 }

  lemma OneGroupMore(n: nat)
    requires n > 3
    ensures EncodedLength(n) == 4 + EncodedLength(n - 3)
  {
    assert (n + 2) / 3 == (n - 1) / 3 + 1;
  }

  function Encode(a: Alphabet, b: bytes): (s: bytes)
    ensures |s| == EncodedLength(|b|)
  {
    if |b| == 0 then []
    else if |b| <= 3 then Quantum(a, b)
    else
      OneGroupMore(|b|);
      Quantum(a, b[..3]) + Encode(a, b[3..])
  }

  /** One group of four characters; padding is legal only when it is the last group. */
  function Unquantum(a: Alphabet, s: bytes, last: bool): (r: Option<bytes>)
    requires |s| == 4
  {
    if !InAlphabet(a, s[0]) || !InAlphabet(a, s[1]) then None
    else
      var v0, v1 := ValueOf(a, s[0]), ValueOf(a, s[1]);
      if last && s[2] == PAD && s[3] == PAD then Some([Join0(v0, v1)])
      else if !InAlphabet(a, s[2]) then None
      else
        var v2 := ValueOf(a, s[2]);
        if last && s[3] == PAD then Some([Join0(v0, v1), Join1(v1, v2)])
        else if !InAlphabet(a, s[3]) then None
        else Some([Join0(v0, v1), Join1(v1, v2), Join2(v2, ValueOf(a, s[3]))])
  }

  predicate AllPad(s: bytes) {
    forall i :: 0 <= i < |s| ==> s[i] == PAD
  }

  /** a2b_base64 in strict mode: padding may not lead, and after a complete group any amount of it is skipped. */
  function Decode(a: Alphabet, s: bytes): Result<bytes> {
    if s != [] && s[0] == PAD then Raise(BinasciiError) else DecodeGroups(a, s)
  }

  function DecodeGroups(a: Alphabet, s: bytes): Result<bytes> {
    if AllPad(s) then Ok([])
    else if |s| < 4 then Raise(BinasciiError)
    else
      match Unquantum(a, s[..4], |s| == 4)
      case None => Raise(BinasciiError)
      case Some(b) =>
        var rest :- DecodeGroups(a, s[4..]);
        Ok(b + rest)
  }

  lemma UnquantumSymbols(a: Alphabet, v0: sextet, v1: sextet, v2: sextet, v3: sextet, last: bool)
    ensures Unquantum(a, [Symbol(a, v0), Symbol(a, v1), Symbol(a, v2), Symbol(a, v3)], last)
         == Some([Join0(v0, v1), Join1(v1, v2), Join2(v2, v3)])
    ensures Unquantum(a, [Symbol(a, v0), Symbol(a, v1), Symbol(a, v2), PAD], true)
         == Some([Join0(v0, v1), Join1(v1, v2)])
    ensures Unquantum(a, [Symbol(a, v0), Symbol(a, v1), PAD, PAD], true) == Some([Join0(v0, v1)])
  {
    SymbolInAlphabet(a, v0);
    SymbolInAlphabet(a, v1);
    SymbolInAlphabet(a, v2);
    SymbolInAlphabet(a, v3);
  }

  lemma RoundTrip3(a: Alphabet, b0: byte, b1: byte, b2: byte, last: bool)
    ensures Unquantum(a, Quantum(a, [b0, b1, b2]), last) == Some([b0, b1, b2])
  {
    JoinSlices(b0, b1, b2);
    UnquantumSymbols(a, Slice0(b0), Slice1(b0, b1), Slice2(b1, b2), Slice3(b2), last);
  }

  lemma RoundTrip2(a: Alphabet, b0: byte, b1: byte)
    ensures Unquantum(a, Quantum(a, [b0, b1]), true) == Some([b0, b1])
  {
    JoinSlices(b0, b1, 0);
    UnquantumSymbols(a, Slice0(b0), Slice1(b0, b1), Slice2(b1, 0), 0, true);
  }

  lemma RoundTrip1(a: Alphabet, b0: byte)
    ensures Unquantum(a, Quantum(a, [b0]), true) == Some([b0])
  {
    var v1 := Slice1(b0, 0);
    assert Join0(Slice0(b0), v1) == b0 by { JoinSlices(b0, 0, 0); }
    UnquantumSymbols(a, Slice0(b0), v1, v1, v1, true);
  }

  lemma QuantumRoundTrip(a: Alphabet, b: bytes, last: bool)
    requires 1 <= |b| <= 3 && (|b| < 3 ==> last)
    ensures Unquantum(a, Quantum(a, b), last) == Some(b)
  {
    if |b| == 1 {
      assert b == [b[0]];
      RoundTrip1(a, b[0]);
    } else if |b| == 2 {
      assert b == [b[0], b[1]];
      RoundTrip2(a, b[0], b[1]);
    } else {
      assert b == [b[0], b[1], b[2]];
      RoundTrip3(a, b[0], b[1], b[2], last);
    }
  }

  lemma QuantumStarts(a: Alphabet, b: bytes)
    requires 1 <= |b| <= 3
    ensures Quantum(a, b)[0] != PAD
  {
    SymbolInAlphabet(a, Slice0(b[0]));
  }

  lemma GroupThen(a: Alphabet, q: bytes, t: bytes, b: bytes)
    requires |q| == 4 && q[0] != PAD && t != []
    requires Unquantum(a, q, false) == Some(b) && DecodeGroups(a, t).Ok?
    ensures DecodeGroups(a, q + t) == Ok(b + DecodeGroups(a, t).value)
  {
    assert (q + t)[..4] == q && (q + t)[4..] == t && (q + t)[0] == q[0];
  }

  lemma LastGroup(a: Alphabet, b: bytes)
    requires 1 <= |b| <= 3
    ensures DecodeGroups(a, Quantum(a, b)) == Ok(b)
  {
    var q := Quantum(a, b);
    QuantumStarts(a, b);
    QuantumRoundTrip(a, b, true);
    assert q[..4] == q && q[4..] == [];
    assert b + [] == b;
  }

  lemma {:induction false} GroupsRoundTrip(a: Alphabet, b: bytes)
    ensures DecodeGroups(a, Encode(a, b)) == Ok(b)
    ensures b != [] ==> Encode(a, b)[0] != PAD
  {
    if |b| == 0 {
    } else if |b| <= 3 {
      QuantumStarts(a, b);
      LastGroup(a, b);
    } else {
      var q, t := Quantum(a, b[..3]), Encode(a, b[3..]);
      QuantumStarts(a, b[..3]);
      QuantumRoundTrip(a, b[..3], false);
      GroupsRoundTrip(a, b[3..]);
      GroupThen(a, q, t, b[..3]);
      assert b[..3] + b[3..] == b;
    }
  }

  lemma DecodeEncode(a: Alphabet, b: bytes)
    ensures Decode(a, Encode(a, b)) == Ok(b)
  {
    GroupsRoundTrip(a, b);
  }

  lemma {:induction false} EncodeIsAscii(a: Alphabet, b: bytes)
    ensures forall i :: 0 <= i < |Encode(a, b)| ==> 0x2B <= Encode(a, b)[i] < 128
  {
    if |b| > 3 {
      EncodeIsAscii(a, b[3..]);
      QuantumIsAscii(a, b[..3]);
    } else if |b| > 0 {
      QuantumIsAscii(a, b);
    }
  }

  lemma QuantumIsAscii(a: Alphabet, b: bytes)
    requires 1 <= |b| <= 3
    ensures forall i :: 0 <= i < 4 ==> 0x2B <= Quantum(a, b)[i] < 128
  {
  }

  /**
   What it is to be base64 text, said of whole strings and without decoding: alphabet characters
   and then `pad` times '=', as many as finish the last group. A complete last group needs none
   and may have any number, only not all of the text.
   */
  ghost predicate WellFormed(a: Alphabet, s: bytes) {
    (s == [] || s[0] != PAD) && GroupsFormed(a, s)
  }

  ghost predicate GroupsFormed(a: Alphabet, s: bytes) {
    exists pad: nat :: PaddedBy(a, s, pad)
  }

  ghost predicate PaddedBy(a: Alphabet, s: bytes, pad: nat) {
    && pad <= |s|
    && Finishes(|s| - pad, pad)
    && (forall i :: 0 <= i < |s| - pad ==> InAlphabet(a, s[i]))
    && (forall i :: |s| - pad <= i < |s| ==> s[i] == PAD)
  }

  predicate Finishes(data: nat, pad: nat) {
    data % 4 == 0 || (data % 4 == 2 && pad == 2) || (data % 4 == 3 && pad == 1)
  }

  /** Decoding accepts exactly the well-formed texts. */
  lemma DecodeAcceptsWellFormed(a: Alphabet, s: bytes)
    ensures Decode(a, s).Ok? <==> WellFormed(a, s)
    ensures Decode(a, s).Raise? ==> Decode(a, s).exn == BinasciiError
  {
    GroupsAccepted(a, s);
  }

  lemma {:induction false} GroupsAccepted(a: Alphabet, s: bytes)
    ensures DecodeGroups(a, s).Ok? <==> GroupsFormed(a, s)
    ensures DecodeGroups(a, s).Raise? ==> DecodeGroups(a, s).exn == BinasciiError
  {
    if AllPad(s) {
      assert PaddedBy(a, s, |s|);
    } else if |s| < 4 {
      TooShort(a, s);
    } else if |s| == 4 {
      assert s[..4] == s && s[4..] == [];
      LastQuantum(a, s);
    } else {
      GroupsAccepted(a, s[4..]);
      FormedTail(a, s);
    }
  }

  lemma TooShort(a: Alphabet, s: bytes)
    requires |s| < 4 && !AllPad(s)
    ensures !GroupsFormed(a, s)
  {
  }

  lemma FormedTail(a: Alphabet, s: bytes)
    requires |s| > 4 && !AllPad(s)
    ensures GroupsFormed(a, s) <==> Unquantum(a, s[..4], false).Some? && GroupsFormed(a, s[4..])
  {
    if Unquantum(a, s[..4], false).Some? && GroupsFormed(a, s[4..]) {
      var pad: nat :| PaddedBy(a, s[4..], pad);
      PadTail(a, s, pad);
    }
    if GroupsFormed(a, s) {
      var pad: nat :| PaddedBy(a, s, pad);
      PadTail(a, s, pad);
    }
  }

  lemma LastQuantum(a: Alphabet, s: bytes)
    requires |s| == 4 && !AllPad(s)
    ensures Unquantum(a, s, true).Some? <==> GroupsFormed(a, s)
  {
    if Unquantum(a, s, true).Some? {
      var pad := if s[2] == PAD then 2 else if s[3] == PAD then 1 else 0;
      assert PaddedBy(a, s, pad);
    }
  }

  lemma PadTail(a: Alphabet, s: bytes, pad: nat)
    requires |s| > 4 && !AllPad(s)
    ensures PaddedBy(a, s, pad) <==> Unquantum(a, s[..4], false).Some? && PaddedBy(a, s[4..], pad)
  {
    var h, t := s[..4], s[4..];
    assert Unquantum(a, h, false).Some? <==> forall i :: 0 <= i < 4 ==> InAlphabet(a, h[i]);
    assert forall i :: 0 <= i < 4 ==> s[i] == h[i];
    assert forall i :: 4 <= i < |s| ==> s[i] == t[i - 4];
    assert forall i :: 0 <= i < |t| ==> t[i] == s[i + 4];
  }

  // ---- The tables of RFC 4648, and groups as numbers ----

  const UPPER: string := "ABCDEFGHIJKLMNOPQRSTUVWXYZ"
  const LOWER: string := "abcdefghijklmnopqrstuvwxyz"
  const DIGITS: string := "0123456789"

  /** Table 1, and Table 2 for the URL-safe alphabet: position is value. */
  function Letters(a: Alphabet): string {
    UPPER + LOWER + DIGITS + if a.Standard? then "+/" else "-_"
  }

  lemma LettersRise(a: Alphabet)
    ensures |Letters(a)| == 64
    ensures forall i :: 0 <= i < 26 ==> Letters(a)[i] as int == 65 + i
    ensures forall i :: 26 <= i < 52 ==> Letters(a)[i] as int == 97 + (i - 26)
    ensures forall i :: 52 <= i < 62 ==> Letters(a)[i] as int == 48 + (i - 52)
    ensures Letters(a)[62..] == if a.Standard? then "+/" else "-_"
  {
    assert forall i :: 0 <= i < |UPPER| ==> UPPER[i] as int == 65 + i;
    assert forall i :: 0 <= i < |LOWER| ==> LOWER[i] as int == 97 + i;
    assert forall i :: 0 <= i < |DIGITS| ==> DIGITS[i] as int == 48 + i;
  }

  /** The characters used are exactly the table's, each for its position. */
  lemma AlphabetIs(a: Alphabet)
    ensures |Letters(a)| == 64
    ensures forall v: sextet :: Symbol(a, v) == Letters(a)[v] as int
    ensures forall c: byte :: InAlphabet(a, c) <==> c as char in Letters(a)
    ensures forall c: byte :: InAlphabet(a, c) ==> Letters(a)[ValueOf(a, c)] as int == c
  {
    LettersRise(a);
    assert Letters(a)[62] == Letters(a)[62..][0] && Letters(a)[63] == Letters(a)[62..][1];
    forall c: byte
      ensures InAlphabet(a, c) <==> c as char in Letters(a)
    {
      if InAlphabet(a, c) {
        assert Letters(a)[ValueOf(a, c)] as int == c;
      }
    }
  }

  /** Up to three bytes read big-endian, missing ones as zero. */
  function BytesNumber(b: bytes): nat
    requires 1 <= |b| <= 3
  {
    var b0: nat, b1: nat, b2: nat := b[0], if |b| > 1 then b[1] else 0, if |b| > 2 then b[2] else 0;
    b0 * 65536 + b1 * 256 + b2
  }

  /** The value of a character, padding as zero. */
  function DigitOf(a: Alphabet, c: byte): sextet {
    if InAlphabet(a, c) then ValueOf(a, c) else 0
  }

  /** Four characters read as a number in base 64. */
  function CharsNumber(a: Alphabet, s: bytes): nat
    requires |s| == 4
  {
    DigitOf(a, s[0]) * 262144 + DigitOf(a, s[1]) * 4096 + DigitOf(a, s[2]) * 64 + DigitOf(a, s[3])
  }

  /** The group of bytes, and the group of characters, number `g`; only a last group of bytes is short. */
  function BytesGroup(b: bytes, g: nat): (group: bytes)
    requires 3 * g < |b|
    ensures 1 <= |group| <= 3
  {
    if 3 * g + 3 <= |b| then b[3 * g..3 * g + 3] else b[3 * g..]
  }

  function CharsGroup(s: bytes, g: nat): (group: bytes)
    requires 4 * g + 4 <= |s|
    ensures |group| == 4
  {
    s[4 * g..4 * g + 4]
  }

  // ---- Encoding, group by group ----

  /** Group `g` of the text is the quantum of group `g` of the bytes. */
  ghost predicate GroupEncoded(a: Alphabet, b: bytes, g: nat)
    requires 3 * g < |b|
  {
    4 * g + 4 <= |Encode(a, b)| && CharsGroup(Encode(a, b), g) == Quantum(a, BytesGroup(b, g))
  }

  lemma {:induction false} EncodedGroup(a: Alphabet, b: bytes, g: nat)
    requires 3 * g < |b|
    ensures GroupEncoded(a, b, g)
    decreases g
  {
    if g == 0 {
      FirstEncoded(a, b);
    } else {
      EncodedGroup(a, b[3..], g - 1);
      LaterEncoded(a, b, g);
    }
  }

  lemma FirstEncoded(a: Alphabet, b: bytes)
    requires b != []
    ensures GroupEncoded(a, b, 0)
  {
    if |b| <= 3 {
      assert BytesGroup(b, 0) == b && CharsGroup(Encode(a, b), 0) == Encode(a, b);
    } else {
      FirstGroup(Quantum(a, b[..3]), Encode(a, b[3..]));
      assert BytesGroup(b, 0) == b[..3];
    }
  }

  lemma LaterEncoded(a: Alphabet, b: bytes, g: nat)
    requires 0 < g && 3 * g < |b| && GroupEncoded(a, b[3..], g - 1)
    ensures GroupEncoded(a, b, g)
  {
    LaterGroup(Quantum(a, b[..3]), Encode(a, b[3..]), g);
    BytesShift(b, g);
  }

  lemma FirstGroup(q: bytes, t: bytes)
    requires |q| == 4
    ensures CharsGroup(q + t, 0) == q
  {
  }

  lemma LaterGroup(q: bytes, t: bytes, g: nat)
    requires |q| == 4 && 0 < g && 4 * g <= |t|
    ensures CharsGroup(q + t, g) == CharsGroup(t, g - 1)
  {
    GroupShifts(q + t, g);
    assert (q + t)[4..] == t;
  }

  lemma BytesShift(b: bytes, g: nat)
    requires 0 < g && 3 * g < |b|
    ensures BytesGroup(b[3..], g - 1) == BytesGroup(b, g)
  {
  }

  lemma GroupShifts(s: bytes, g: nat)
    requires 0 < g && 4 * g + 4 <= |s|
    ensures CharsGroup(s[4..], g - 1) == CharsGroup(s, g)
  {
  }

  lemma DigitOfSymbol(a: Alphabet, v: sextet)
    ensures InAlphabet(a, Symbol(a, v)) && DigitOf(a, Symbol(a, v)) == v
    ensures DigitOf(a, PAD) == 0
  {
  }

  lemma SlicesMakeNumber(b0: byte, b1: byte, b2: byte)
    ensures Slice0(b0) * 262144 + Slice1(b0, b1) * 4096 + Slice2(b1, b2) * 64 + Slice3(b2) == b0 * 65536 + b1 * 256 + b2
  {
  }

  lemma QuantumDigits(a: Alphabet, v0: sextet, v1: sextet, v2: sextet, v3: sextet)
    ensures CharsNumber(a, [Symbol(a, v0), Symbol(a, v1), Symbol(a, v2), Symbol(a, v3)]) ==
            v0 * 262144 + v1 * 4096 + v2 * 64 + v3
    ensures CharsNumber(a, [Symbol(a, v0), Symbol(a, v1), Symbol(a, v2), PAD]) == v0 * 262144 + v1 * 4096 + v2 * 64
    ensures CharsNumber(a, [Symbol(a, v0), Symbol(a, v1), PAD, PAD]) == v0 * 262144 + v1 * 4096
  {
    DigitOfSymbol(a, v0);
    DigitOfSymbol(a, v1);
    DigitOfSymbol(a, v2);
    DigitOfSymbol(a, v3);
  }

  lemma QuantumNumber(a: Alphabet, b: bytes)
    requires 1 <= |b| <= 3
    ensures CharsNumber(a, Quantum(a, b)) == BytesNumber(b)
  {
    var b1, b2 := if |b| > 1 then b[1] else 0, if |b| > 2 then b[2] else 0;
    QuantumDigits(a, Slice0(b[0]), Slice1(b[0], b1), Slice2(b1, b2), Slice3(b2));
    SlicesMakeNumber(b[0], b1, b2);
  }

  /** Which characters of a group of `n` bytes are padding: the last two for one byte, the last for two. */
  predicate PaddedFor(a: Alphabet, s: bytes, n: nat)
    requires |s| == 4
  {
    && InAlphabet(a, s[0]) && InAlphabet(a, s[1])
    && (if n > 1 then InAlphabet(a, s[2]) else s[2] == '=' as int)
    && (if n > 2 then InAlphabet(a, s[3]) else s[3] == '=' as int)
  }

  lemma QuantumPadding(a: Alphabet, b: bytes)
    requires 1 <= |b| <= 3
    ensures PaddedFor(a, Quantum(a, b), |b|)
  {
    var b1, b2 := if |b| > 1 then b[1] else 0, if |b| > 2 then b[2] else 0;
    SymbolInAlphabet(a, Slice0(b[0]));
    SymbolInAlphabet(a, Slice1(b[0], b1));
    SymbolInAlphabet(a, Slice2(b1, b2));
    SymbolInAlphabet(a, Slice3(b2));
  }

  /**
   Encoded text, group by group: four characters that, read in base 64, are the number of their
   three bytes; '=' stands exactly where no byte is behind a character.
   */
  lemma EncodedGroups(a: Alphabet, b: bytes, g: nat)
    requires 3 * g < |b|
    ensures 4 * g + 4 <= |Encode(a, b)|
    ensures CharsNumber(a, CharsGroup(Encode(a, b), g)) == BytesNumber(BytesGroup(b, g))
    ensures PaddedFor(a, CharsGroup(Encode(a, b), g), |BytesGroup(b, g)|)
  {
    EncodedGroup(a, b, g);
    QuantumNumber(a, BytesGroup(b, g));
    QuantumPadding(a, BytesGroup(b, g));
  }

  // ---- Decoding, group by group ----

  /** The first group's bytes and then the rest's; only a last group has fewer than three. */
  lemma GroupsSplit(a: Alphabet, s: bytes)
    requires DecodeGroups(a, s).Ok? && DecodeGroups(a, s).value != []
    ensures |s| >= 4 && Unquantum(a, s[..4], |s| == 4).Some? && DecodeGroups(a, s[4..]).Ok?
    ensures var head, rest := Unquantum(a, s[..4], |s| == 4).value, DecodeGroups(a, s[4..]).value;
            && DecodeGroups(a, s).value == head + rest
            && 1 <= |head| <= 3 && (rest != [] ==> |head| == 3)
  {
    UnquantumLength(a, s[..4], |s| == 4);
    assert |s| == 4 ==> s[4..] == [];
  }

  lemma UnquantumLength(a: Alphabet, s: bytes, last: bool)
    requires |s| == 4 && Unquantum(a, s, last).Some?
    ensures 1 <= |Unquantum(a, s, last).value| <= 3
    ensures !last ==> |Unquantum(a, s, last).value| == 3
  {
  }

  lemma {:induction false} DecodedGroup(a: Alphabet, s: bytes, g: nat)
    requires DecodeGroups(a, s).Ok? && 3 * g < |DecodeGroups(a, s).value|
    ensures 4 * g + 4 <= |s|
    ensures Unquantum(a, CharsGroup(s, g), |s| == 4 * g + 4) == Some(BytesGroup(DecodeGroups(a, s).value, g))
    decreases g
  {
    GroupsSplit(a, s);
    var head, rest := Unquantum(a, s[..4], |s| == 4).value, DecodeGroups(a, s[4..]).value;
    if g == 0 {
      assert BytesGroup(head + rest, 0) == head;
    } else {
      DecodedGroup(a, s[4..], g - 1);
      GroupShifts(s, g);
      assert (head + rest)[3..] == rest;
      BytesShift(head + rest, g);
    }
  }

  lemma JoinsMakeNumber(v0: sextet, v1: sextet, v2: sextet, v3: sextet)
    ensures var n := v0 * 262144 + v1 * 4096 + v2 * 64 + v3;
            && n == Join0(v0, v1) * 65536 + Join1(v1, v2) * 256 + Join2(v2, v3)
            && Join0(v0, v1) * 65536 <= n < Join0(v0, v1) * 65536 + 65536
            && Join0(v0, v1) * 65536 + Join1(v1, v2) * 256 <= n < Join0(v0, v1) * 65536 + Join1(v1, v2) * 256 + 256
  {
  }

  /** How far a group's number can be above its bytes: the bits behind the last of them are ignored. */
  function Slack(n: nat): nat {
    if n == 1 then 65536 else if n == 2 then 256 else 1
  }

  lemma UnquantumNumber(a: Alphabet, s: bytes, last: bool)
    requires |s| == 4 && Unquantum(a, s, last).Some?
    ensures var b := Unquantum(a, s, last).value;
            && 1 <= |b| <= 3
            && BytesNumber(b) <= CharsNumber(a, s) < BytesNumber(b) + Slack(|b|)
  {
    JoinsMakeNumber(DigitOf(a, s[0]), DigitOf(a, s[1]), DigitOf(a, s[2]), DigitOf(a, s[3]));
  }

  /** Decoded bytes, group by group, on any text accepted: the characters' number, less the bits behind the last byte. */
  lemma DecodedGroups(a: Alphabet, s: bytes, g: nat)
    requires Decode(a, s).Ok? && 3 * g < |Decode(a, s).value|
    ensures 4 * g + 4 <= |s|
    ensures var b := BytesGroup(Decode(a, s).value, g);
            BytesNumber(b) <= CharsNumber(a, CharsGroup(s, g)) < BytesNumber(b) + Slack(|b|)
  {
    DecodedGroup(a, s, g);
    UnquantumNumber(a, CharsGroup(s, g), |s| == 4 * g + 4);
  }

  /** Three bytes for four characters that are not padding, and the remainder rounded down. */
  lemma DecodedLength(a: Alphabet, s: bytes, pad: nat)
    requires PaddedBy(a, s, pad) && Decode(a, s).Ok?
    ensures |Decode(a, s).value| == (|s| - pad) * 3 / 4
  {
    GroupsLength(a, s, pad);
  }

  lemma {:induction false} GroupsLength(a: Alphabet, s: bytes, pad: nat)
    requires PaddedBy(a, s, pad) && DecodeGroups(a, s).Ok?
    ensures |DecodeGroups(a, s).value| == (|s| - pad) * 3 / 4
  {
    if AllPad(s) {
    } else if |s| == 4 {
      assert s[..4] == s && s[4..] == [];
    } else {
      PadTail(a, s, pad);
      GroupsLength(a, s[4..], pad);
    }
  }

  // Stored text: str.encode("ascii") and bytes.decode("ascii").

  function AsciiDecode(b: bytes): string
    requires forall i :: 0 <= i < |b| ==> b[i] < 128
  {
    seq(|b|, i requires 0 <= i < |b| => b[i] as char)
  }

  predicate IsAscii(s: string) {
    forall i :: 0 <= i < |s| ==> s[i] as int < 128
  }

  function AsciiEncode(s: string): Result<bytes> {
    if IsAscii(s) then Ok(seq(|s|, i requires 0 <= i < |s| => s[i] as int))
    else Raise(UnicodeEncodeError)
  }

  lemma AsciiRoundTrip(b: bytes)
    requires forall i :: 0 <= i < |b| ==> b[i] < 128
    ensures IsAscii(AsciiDecode(b)) && AsciiEncode(AsciiDecode(b)) == Ok(b)
  {
    assert AsciiEncode(AsciiDecode(b)).value == b;
  }

  /** base64.b64encode(b).decode("ascii") */
  function ToText(b: bytes): (s: string)
    ensures IsAscii(s)
    ensures FromText(s) == Ok(b)
  {
    EncodeIsAscii(Standard, b);
    DecodeEncode(Standard, b);
    AsciiRoundTrip(Encode(Standard, b));
    AsciiDecode(Encode(Standard, b))
  }

  /** base64.b64decode(s.encode("ascii"), validate=True) */
  function FromText(s: string): Result<bytes> {
    var a :- AsciiEncode(s);
    Decode(Standard, a)
  }

  /** Stored text is the standard alphabet's encoding, one character per code, and is read back as such. */
  lemma TextIs(b: bytes, s: string)
    ensures |ToText(b)| == |Encode(Standard, b)|
    ensures forall i :: 0 <= i < |ToText(b)| ==> ToText(b)[i] as int == Encode(Standard, b)[i]
    ensures forall codes: bytes :: |codes| == |s| && (forall i :: 0 <= i < |s| ==> codes[i] == s[i] as int < 128) ==>
              FromText(s) == Decode(Standard, codes)
  {
    EncodeIsAscii(Standard, b);
    forall codes: bytes | |codes| == |s| && forall i :: 0 <= i < |s| ==> codes[i] == s[i] as int < 128
      ensures FromText(s) == Decode(Standard, codes)
    {
      assert AsciiEncode(s).value == codes;
    }
  }

  /** Text is rejected exactly when it is not ASCII or not well-formed base64. */
  lemma FromTextAccepts(s: string)
    ensures FromText(s).Ok? <==> IsAscii(s) && WellFormed(Standard, AsciiEncode(s).value)
    ensures FromText(s).Raise? ==> FromText(s).exn in {BinasciiError, UnicodeEncodeError}
  {
    if IsAscii(s) {
      DecodeAcceptsWellFormed(Standard, AsciiEncode(s).value);
    }
  }
}
