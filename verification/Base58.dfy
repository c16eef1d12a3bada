/** Base 58: bytes as text without look-alike characters. */
module Base58 {
  import opened Basics
  import opened Arithmetic

  // ----- Positional numbers

  /** The number that digits denote, most significant first. */
  function Number(s: seq<byte>, base: nat): nat {
    if s == [] then 0 else Number(s[..|s| - 1], base) * base + s[|s| - 1] as int
  }

  ghost predicate DigitsOf(s: seq<byte>, base: nat) {
    forall i :: 0 <= i < |s| ==> s[i] as int < base
  }

  /** The digits of a number, without leading zeros. */
  function Minimal(v: nat, base: nat): seq<byte>
    requires 2 <= base <= 256
  {
    if v == 0 then [] else Minimal(v / base, base) + [(v % base) as byte]
  }

  lemma {:induction false} DivideBack(q: nat, d: nat, base: nat)
    requires d < base
    ensures (q * base + d) / base == q && (q * base + d) % base == d
  {
    var x := q * base + d;
    QuotientUnique(x / base, x % base, q, d, base);
  }

  lemma {:induction false} MinimalDenotes(v: nat, base: nat)
    requires 2 <= base <= 256
    ensures Number(Minimal(v, base), base) == v && DigitsOf(Minimal(v, base), base)
    ensures Minimal(v, base) != [] ==> Minimal(v, base)[0] != 0
  {
    hide Number, DigitsOf, Minimal;
    NoDigits(base);
    if v != 0 {
      var q, d := Split(v, base);
      Quotient(q, d, base);
      MinimalStep(q, d, base);
      MinimalDenotes(q, base);
      LastDigit(Minimal(q, base), d as byte, base);
      if q == 0 {
        assert [] + [d as byte] == [d as byte];
      }
    }
  }

  lemma {:induction false} NoDigits(base: nat)
    ensures Number([], base) == 0 && DigitsOf([], base) && (2 <= base <= 256 ==> Minimal(0, base) == [])
  {
  }

  lemma {:induction false} Quotient(q: nat, d: nat, base: nat)
    requires 2 <= base && d < base && q * base + d > 0
    ensures q < q * base + d
    ensures q == 0 ==> d > 0
  {
    if q > 0 {
      AtLeast(q, base);
      assert q * base >= q * 2;
    }
  }

  lemma {:induction false} MinimalStep(q: nat, d: nat, base: nat)
    requires 2 <= base <= 256 && d < base && (q > 0 || d > 0)
    ensures Minimal(q * base + d, base) == Minimal(q, base) + [d as byte]
  {
    DivideBack(q, d, base);
    assert q * base + d != 0 by {
      if q > 0 {
        AtLeast(q, base);
      }
    }
    hide Power;
  }

  lemma {:induction false} LastDigit(s: seq<byte>, d: byte, base: nat)
    ensures Number(s + [d], base) == Number(s, base) * base + d as int
    ensures DigitsOf(s, base) && d as int < base ==> DigitsOf(s + [d], base)
    ensures s != [] ==> (s + [d])[0] == s[0]
  {
  }

  lemma {:induction false} NumberIsPositive(s: seq<byte>, base: nat)
    requires s != [] && s[0] != 0 && base > 0
    ensures Number(s, base) > 0
  {
    if |s| > 1 {
      NumberIsPositive(s[..|s| - 1], base);
      assert Number(s[..|s| - 1], base) * base >= 1;
    }
  }

  /** Digits without a leading zero are the digits of the number they denote. */
  lemma {:induction false} MinimalIsUnique(s: seq<byte>, base: nat)
    requires 2 <= base <= 256 && DigitsOf(s, base) && (s == [] || s[0] != 0)
    ensures Minimal(Number(s, base), base) == s
  {
    if s != [] {
      var most, d := s[..|s| - 1], s[|s| - 1];
      NumberIsPositive(s, base);
      if most != [] {
        NumberIsPositive(most, base);
      }
      MinimalStep(Number(most, base), d as int, base);
      MinimalIsUnique(most, base);
      assert s == most + [d];
    }
  }

  lemma {:induction false} NumberIsBelow(s: seq<byte>, base: nat)
    requires base > 0 && DigitsOf(s, base)
    ensures Number(s, base) < Power(base, |s|)
  {
    if s != [] {
      NumberIsBelow(s[..|s| - 1], base);
      Below(Number(s[..|s| - 1], base), s[|s| - 1] as int, base, Power(base, |s| - 1));
    }
  }

  lemma {:induction false} Below(n: nat, d: nat, base: nat, p: nat)
    requires n < p && d < base
    ensures n * base + d < base * p
  {
    assert (n + 1) * base <= p * base;
  }

  /** A number split at its most significant digit. */
  lemma {:induction false} NumberHead(d: byte, s: seq<byte>, base: nat)
    ensures Number([d] + s, base) == d as int * Power(base, |s|) + Number(s, base)
  {
    var all := [d] + s;
    if s == [] {
      assert all[..0] == [];
    } else {
      var most := s[..|s| - 1];
      NumberHead(d, most, base);
      assert all[..|s|] == [d] + most;
      HeadArithmetic(d as int, Power(base, |most|), Number(most, base), base, s[|s| - 1] as int);
    }
  }

  lemma {:induction false} HeadArithmetic(d: nat, p: nat, n: nat, base: nat, last: nat)
    ensures (d * p + n) * base + last == d * (base * p) + (n * base + last)
  {
  }

  lemma {:induction false} LeadingZeros(z: seq<byte>, s: seq<byte>, base: nat)
    requires forall i :: 0 <= i < |z| ==> z[i] == 0
    ensures Number(z + s, base) == Number(s, base)
  {
    if s != [] {
      assert (z + s)[..|z + s| - 1] == z + s[..|s| - 1];
      LeadingZeros(z, s[..|s| - 1], base);
    } else if z != [] {
      assert z + s == z[..|z| - 1] + [0] && (z + s)[..|z| - 1] == z[..|z| - 1] + [];
      LeadingZeros(z[..|z| - 1], [], base);
    }
  }

  // ----- The buffer is large enough

  lemma {:induction false} PowerSum(base: nat, a: nat, b: nat)
    ensures Power(base, a + b) == Power(base, a) * Power(base, b)
  {
    if a > 0 {
      PowerSum(base, a - 1, b);
      Associate(base, Power(base, a - 1), Power(base, b));
    }
  }

  lemma {:induction false} Associate(a: nat, b: nat, c: nat)
    ensures a * (b * c) == a * b * c
  {
  }

  /** Digits reserved for n bytes. */
  function Room(n: nat): nat {
    n * 138 / 100 + 1
  }

  lemma {:induction false} SmallPowers58()
    ensures Power(58, 1) == 58 && Power(58, 2) == 3_364 && Power(58, 3) == 195_112
    ensures Power(58, 5) == 656_356_768 && Power(58, 6) == 38_068_692_544 && Power(58, 7) == 2_207_984_167_552
    ensures Power(58, 9) == 7_427_658_739_644_928 && Power(58, 10) == 430_804_206_899_405_824
    ensures Power(58, 11) == 24_986_644_000_165_537_792
  {
  }

  lemma {:induction false} Larger(a: nat, p: nat)
    requires a > 0
    ensures a * p >= p
  {
  }

  lemma {:induction false} PowerGrows(base: nat, a: nat, b: nat)
    requires base > 0 && a <= b
    ensures Power(base, a) <= Power(base, b)
  {
    if a < b {
      PowerGrows(base, a, b - 1);
      Larger(base, Power(base, b - 1));
    }
  }

  lemma {:induction false} Product(a: nat, b: nat, c: nat, d: nat)
    requires a <= c && b <= d
    ensures a * b <= c * d
  {
  }

  /** 58^11 exceeds 256^8, so 11 digits do for every 8 bytes, and the rounding leaves enough for the rest. */
  lemma {:induction false} RoomIsEnough(n: nat)
    ensures Power(256, n) <= Power(58, Room(n))
  {
    SmallPowers58();
    if n < 8 {
      assert Room(0) == 1 && Room(1) == 2 && Room(2) == 3 && Room(3) == 5 && Room(4) == 6 && Room(5) == 7 &&
             Room(6) == 9 && Room(7) == 10;
    } else {
      RoomIsEnough(n - 8);
      PowerSum(256, 8, n - 8);
      PowerSum(58, 11, Room(n - 8));
      Product(Power(256, 8), Power(256, n - 8), Power(58, 11), Power(58, Room(n - 8)));
      PowerGrows(58, 11 + Room(n - 8), Room(n));
    }
  }

  // ----- Characters

  function CharRun(c: char, n: nat): string
    requires c as int + n < 0x80
  {
    seq(n, i requires 0 <= i < n => (c as int + i) as char)
  }

  /** All alphanumeric characters except 0, I, O and l, in the order of their codes. */
  const BASE58_ALPHABET: string := CharRun('1', 9) + CharRun('A', 8) + CharRun('J', 5) + CharRun('P', 11) +
                                   CharRun('a', 11) + CharRun('m', 14)

  lemma {:induction false} Alphabet()
    ensures |BASE58_ALPHABET| == 58 && forall i, j :: 0 <= i < j < 58 ==> BASE58_ALPHABET[i] < BASE58_ALPHABET[j]
    ensures forall c :: c in BASE58_ALPHABET ==>
              ('1' <= c <= '9' || 'A' <= c <= 'Z' || 'a' <= c <= 'z') && c != 'I' && c != 'O' && c != 'l'
    ensures BASE58_ALPHABET[0] == '1' &&
            forall i :: 0 <= i < 58 ==> !IsSpace(BASE58_ALPHABET[i]) && BASE58_ALPHABET[i] != '\0'
  {
  }

  /** isspace. */
  predicate IsSpace(c: char) {
    c == ' ' || '\t' <= c <= '\r'
  }

  ghost predicate AllSpace(s: string, lo: nat, hi: nat) {
    lo <= hi <= |s| && forall i :: lo <= i < hi ==> IsSpace(s[i])
  }

  /** The characters of base 58 digits. */
  ghost predicate IsText(s: string, lo: nat, hi: nat, ds: seq<byte>) {
    && lo <= hi <= |s| && |ds| == hi - lo && DigitsOf(ds, 58)
    && |BASE58_ALPHABET| == 58 && forall i :: lo <= i < hi ==> s[i] == BASE58_ALPHABET[ds[i - lo]]
  }

  lemma {:induction false} TextDetermines(s: string, lo: nat, hi: nat, ds: seq<byte>, es: seq<byte>)
    requires IsText(s, lo, hi, ds) && IsText(s, lo, hi, es)
    ensures ds == es
  {
    Alphabet();
    forall i | 0 <= i < |ds| ensures ds[i] == es[i] {
      assert s[lo + i] == BASE58_ALPHABET[ds[lo + i - lo]] == BASE58_ALPHABET[es[lo + i - lo]];
    }
  }

  /** Text made of spaces, digits and spaces. */
  ghost predicate SpellsAt(s: string, ds: seq<byte>, a: nat, b: nat) {
    AllSpace(s, 0, a) && IsText(s, a, b, ds) && AllSpace(s, b, |s|)
  }

  ghost predicate Spells(s: string, ds: seq<byte>) {
    exists a: nat, b: nat :: SpellsAt(s, ds, a, b)
  }

  lemma {:induction false} TextIsNotSpace(s: string, ds: seq<byte>, a: nat, b: nat, i: nat)
    requires SpellsAt(s, ds, a, b) && i < |s|
    ensures IsSpace(s[i]) <==> !(a <= i < b)
    ensures a <= i < b ==> s[i] in BASE58_ALPHABET
  {
  }

  lemma {:induction false} SpellsWithin(s: string, ds: seq<byte>, a: nat, b: nat, es: seq<byte>, c: nat, d: nat)
    requires SpellsAt(s, ds, a, b) && SpellsAt(s, es, c, d)
    ensures a < b ==> c <= a && b <= d
  {
    if a < b {
      TextIsNotSpace(s, ds, a, b, a);
      TextIsNotSpace(s, ds, a, b, b - 1);
      TextIsNotSpace(s, es, c, d, a);
      TextIsNotSpace(s, es, c, d, b - 1);
    }
  }

  lemma {:induction false} SpellsOnce(s: string, ds: seq<byte>, es: seq<byte>)
    requires Spells(s, ds) && Spells(s, es)
    ensures ds == es
  {
    var a: nat, b: nat :| SpellsAt(s, ds, a, b);
    var c: nat, d: nat :| SpellsAt(s, es, c, d);
    SpellsWithin(s, ds, a, b, es, c, d);
    SpellsWithin(s, es, c, d, ds, a, b);
    if a < b {
      TextDetermines(s, a, b, ds, es);
    }
  }

  /** A character that is not a digit, between two that are not spaces, spoils the text. */
  lemma {:induction false} SpellsNothing(s: string, i: nat, p: nat, q: nat)
    requires i <= p <= q < |s| && !IsSpace(s[i]) && !IsSpace(s[q]) && s[p] !in BASE58_ALPHABET
    ensures forall ds :: !Spells(s, ds)
    ensures forall psz :: CString(psz) == s ==> !Decodable(psz)
  {
  }

  // ----- Encoding

  /** One step of the conversion: the number in the buffer is multiplied by 256 and a byte is added. */
  method MultiplyAdd(b58: array<byte>, ch: byte)
    requires DigitsOf(b58[..], 58) && Number(b58[..], 58) * 256 + ch as int < Power(58, b58.Length)
    modifies b58
    ensures DigitsOf(b58[..], 58) && Number(b58[..], 58) == old(Number(b58[..], 58)) * 256 + ch as int
  {
    hide Carried, DigitsOf, Number, Power;
    var carry := ch as int;
    ghost var before := b58[..];
    NothingCarried(before, ch);
    for i := b58.Length downto 0
      invariant 0 <= carry < 256 && Carried(before, b58[..], i, carry, ch)
    {
      ghost var now := b58[..];
      CarryDigit(before, now, i, carry, ch);
      carry := carry + 256 * b58[i] as int;
      b58[i] := (carry % 58) as byte;
      carry := carry / 58;
      assert b58[..] == now[i := b58[i]];
    }
    AllCarried(before, b58[..], carry, ch);
    assert carry == 0;
  }

  /** The digits from place i on have been multiplied, and the carry still has to be added there. */
  ghost predicate Carried(before: seq<byte>, now: seq<byte>, i: nat, carry: nat, ch: byte) {
    && |now| == |before| && i <= |now| && now[..i] == before[..i] && DigitsOf(now, 58)
    && Number(now[i..], 58) + carry * Power(58, |now| - i) == Number(before[i..], 58) * 256 + ch as int
  }

  lemma {:induction false} NothingCarried(before: seq<byte>, ch: byte)
    requires DigitsOf(before, 58)
    ensures Carried(before, before, |before|, ch as int, ch)
  {
  }

  lemma {:induction false} CarryDigit(before: seq<byte>, now: seq<byte>, i: nat, carry: nat, ch: byte)
    requires i < |now| && Carried(before, now, i + 1, carry, ch) && carry < 256
    ensures now[i] < 58
    ensures var c := carry + 256 * now[i] as int;
            c / 58 < 256 && Carried(before, now[i := (c % 58) as byte], i, c / 58, ch)
  {
    var c := carry + 256 * now[i] as int;
    var later := now[i := (c % 58) as byte];
    var m, n := Number(before[i + 1..], 58), Number(now[i + 1..], 58);
    StepArithmetic(now[i], carry, n, m, ch as int, Power(58, |now| - i - 1));
    assert before[i] == before[..i + 1][i] == now[..i + 1][i] == now[i];
    assert before[i..] == [before[i]] + before[i + 1..];
    assert later[i..] == [later[i]] + now[i + 1..];
    NumberHead(before[i], before[i + 1..], 58);
    NumberHead(later[i], now[i + 1..], 58);
    hide Number;
    assert later[..i] == now[..i + 1][..i] == before[..i + 1][..i] == before[..i];
  }

  lemma {:induction false} AllCarried(before: seq<byte>, now: seq<byte>, carry: nat, ch: byte)
    requires Carried(before, now, 0, carry, ch) && Number(before, 58) * 256 + ch as int < Power(58, |before|)
    ensures carry == 0 && DigitsOf(now, 58) && Number(now, 58) == Number(before, 58) * 256 + ch as int
  {
    hide Number, Power;
    assert now[0..] == now && before[0..] == before;
    NoCarry(carry, Number(now, 58), Power(58, |now|));
  }

  lemma {:induction false} StepArithmetic(d: byte, carry: nat, n: nat, m: nat, ch: nat, p: nat)
    requires n + carry * p == m * 256 + ch && carry < 256 && d < 58
    ensures var c := carry + 256 * d as int;
            c / 58 < 256 && (c % 58) * p + n + c / 58 * (58 * p) == (d as int * p + m) * 256 + ch
  {
  }

  lemma {:induction false} NoCarry(carry: nat, n: nat, p: nat)
    requires n + carry * p < p
    ensures carry == 0
  {
  }

  ghost function Zeros(n: nat): seq<byte> {
    seq(n, i => 0)
  }

  function Stripped(s: seq<byte>): (r: seq<byte>)
    ensures |r| <= |s|
  {
    if s != [] && s[0] == 0 then Stripped(s[1..]) else s
  }

  lemma {:induction false} StrippedFacts(s: seq<byte>)
    ensures |Stripped(s)| <= |s| && s == Zeros(|s| - |Stripped(s)|) + Stripped(s)
    ensures Stripped(s) != [] ==> Stripped(s)[0] != 0
    ensures Stripped(s) == s <==> s == [] || s[0] != 0
  {
    hide Zeros;
    if s != [] && s[0] == 0 {
      StrippedFacts(s[1..]);
      assert s == [s[0]] + s[1..];
      OneMoreZero(|s[1..]| - |Stripped(s[1..])|);
    } else {
      NoZeros();
    }
  }

  lemma {:induction false} OneMoreZero(n: nat)
    ensures Zeros(n + 1) == [0] + Zeros(n)
  {
  }

  lemma {:induction false} NoZeros()
    ensures Zeros(0) == []
  {
  }

  /** The digits that encode some bytes: a zero for each leading zero byte, then the number. */
  ghost function EncodedDigits(b: seq<byte>): seq<byte> {
    Zeros(|b| - |Stripped(b)|) + Minimal(Number(b, 256), 58)
  }

  /** Digits of the number that the digits in the buffer denote, once leading zeros are skipped. */
  lemma {:induction false} BufferDigits(buffer: seq<byte>, skip: nat, v: nat)
    requires skip <= |buffer| && DigitsOf(buffer, 58) && Number(buffer, 58) == v
    requires (forall i :: 0 <= i < skip ==> buffer[i] == 0) && (skip < |buffer| ==> buffer[skip] != 0)
    ensures buffer[skip..] == Minimal(v, 58) && DigitsOf(buffer[skip..], 58)
  {
    assert buffer == buffer[..skip] + buffer[skip..];
    LeadingZeros(buffer[..skip], buffer[skip..], 58);
    MinimalIsUnique(buffer[skip..], 58);
  }

  method EncodeBase58(bytes: seq<byte>) returns (str: string)
    ensures IsText(str, 0, |str|, EncodedDigits(bytes))
  {
    hide Number, Power, Minimal, Stripped, DigitsOf, IsText;
    var zeroes := SkipZeros(bytes);
    var b58 := new byte[Room(|bytes| - zeroes)](_ => 0);
    ZeroBuffer(b58[..]);
    assert bytes[zeroes..zeroes] == [];
    for i := zeroes to |bytes|
      invariant DigitsOf(b58[..], 58) && Number(b58[..], 58) == Number(bytes[zeroes..i], 256)
    {
      Fits(bytes[zeroes..i + 1], |bytes| - zeroes);
      PushByte(bytes, zeroes, i);
      MultiplyAdd(b58, bytes[i]);
    }
    var it := 0;
    while it < b58.Length && b58[it] == 0
      invariant 0 <= it <= b58.Length && forall j :: 0 <= j < it ==> b58[j] == 0
    {
      it := it + 1;
    }
    NumberOfStripped(bytes, zeroes);
    BufferDigits(b58[..], it, Number(bytes, 256));
    str := Translate(zeroes, b58[it..]);
  }

  /** The leading zero bytes. */
  method SkipZeros(bytes: seq<byte>) returns (zeroes: nat)
    ensures zeroes <= |bytes| && bytes[zeroes..] == Stripped(bytes)
  {
    zeroes := 0;
    while zeroes < |bytes| && bytes[zeroes] == 0
      invariant zeroes <= |bytes| && Stripped(bytes[zeroes..]) == Stripped(bytes)
    {
      zeroes := zeroes + 1;
    }
  }

  /** A '1' for each leading zero byte, then the characters of the digits. */
  method Translate(zeroes: nat, digits: seq<byte>) returns (str: string)
    requires DigitsOf(digits, 58)
    ensures IsText(str, 0, |str|, Zeros(zeroes) + digits)
  {
    Alphabet();
    str := seq(zeroes, i => '1');
    for i := 0 to |digits|
      invariant |str| == zeroes + i
      invariant forall j :: 0 <= j < zeroes ==> str[j] == '1'
      invariant forall j :: zeroes <= j < zeroes + i ==> str[j] == BASE58_ALPHABET[digits[j - zeroes]]
    {
      str := str + [BASE58_ALPHABET[digits[i]]];
    }
  }

  lemma {:induction false} ZeroBuffer(s: seq<byte>)
    requires forall i :: 0 <= i < |s| ==> s[i] == 0
    ensures DigitsOf(s, 58) && Number(s, 58) == 0
    ensures Number([], 256) == 0
  {
    LeadingZeros(s, [], 58);
    assert s + [] == s;
  }

  /** The number of the first bytes fits the room reserved for all of them. */
  lemma {:induction false} Fits(s: seq<byte>, n: nat)
    requires |s| <= n
    ensures Number(s, 256) < Power(58, Room(n))
  {
    NumberIsBelow(s, 256);
    PowerGrows(256, |s|, n);
    RoomIsEnough(n);
  }

  lemma {:induction false} PushByte(bytes: seq<byte>, from: nat, i: nat)
    requires from <= i < |bytes|
    ensures Number(bytes[from..i + 1], 256) == Number(bytes[from..i], 256) * 256 + bytes[i] as int
  {
    assert bytes[from..i + 1][..i - from] == bytes[from..i];
  }

  lemma {:induction false} NumberOfStripped(bytes: seq<byte>, zeroes: nat)
    requires zeroes <= |bytes| && bytes[zeroes..] == Stripped(bytes)
    ensures Number(bytes[zeroes..|bytes|], 256) == Number(bytes, 256) && bytes[zeroes..|bytes|] == Stripped(bytes)
  {
    StrippedFacts(bytes);
    LeadingZeros(Zeros(zeroes), Stripped(bytes), 256);
    assert bytes[zeroes..|bytes|] == bytes[zeroes..];
  }

  // ----- Decoding

  /** The characters before the terminating NUL. */
  function CString(s: string): string {
    if s == [] || s[0] == '\0' then [] else [s[0]] + CString(s[1..])
  }

  /** strchr on the alphabet. */
  method FindDigit(c: char) returns (digit: Option<byte>)
    ensures digit == None <==> c !in BASE58_ALPHABET
    ensures digit.Some? ==> digit.value < 58 && |BASE58_ALPHABET| == 58 && BASE58_ALPHABET[digit.value] == c
  {
    Alphabet();
    for i := 0 to 58
      invariant c !in BASE58_ALPHABET[..i]
    {
      if BASE58_ALPHABET[i] == c {
        return Some(i as byte);
      }
    }
    return None;
  }

  /** getvch of a non-negative number: its bytes, least significant first, with a zero byte for the sign where
      the most significant bit is set. */
  function SignedBytes(v: nat): seq<byte> {
    var magnitude := Reversed(Minimal(v, 256));
    if magnitude != [] && magnitude[|magnitude| - 1] >= 0x80 then magnitude + [0] else magnitude
  }

  lemma {:induction false} ReversedFacts<T>(s: seq<T>)
    ensures |Reversed(s)| == |s| && forall i :: 0 <= i < |s| ==> Reversed(s)[i] == s[|s| - 1 - i]
  {
    if s != [] {
      ReversedFacts(s[..|s| - 1]);
    }
  }

  lemma {:induction false} ReversedTwice<T>(s: seq<T>)
    ensures Reversed(Reversed(s)) == s
  {
    ReversedFacts(s);
    ReversedFacts(Reversed(s));
  }

  /** Trims the sign byte. */
  method Trimmed(vch: seq<byte>, ghost v: nat) returns (trimmed: seq<byte>)
    requires vch == SignedBytes(v)
    ensures trimmed == Reversed(Minimal(v, 256))
  {
    ReversedFacts(Minimal(v, 256));
    MinimalDenotes(v, 256);
    hide Minimal, Reversed;
    trimmed := vch;
    if |vch| >= 2 && vch[|vch| - 1] == 0 && vch[|vch| - 2] >= 0x80 {
      trimmed := vch[..|vch| - 1];
    }
  }

  /** The text is spaces, then digits, then spaces. */
  ghost predicate Decodable(psz: string) {
    exists ds :: Spells(CString(psz), ds)
  }

  ghost predicate DecodesTo(psz: string, out: seq<byte>) {
    exists ds :: Spells(CString(psz), ds) && out == Minimal(Number(ds, 58), 256)
  }

  /** The run of '1's from a position on. */
  method CountOnes(s: string, from: nat) returns (n: nat)
    requires from <= |s|
    ensures from + n <= |s| && (forall i :: from <= i < from + n ==> s[i] == '1') &&
            (from + n < |s| ==> s[from + n] != '1')
  {
    n := 0;
    while from + n < |s| && s[from + n] == '1'
      invariant from + n <= |s| && forall i :: from <= i < from + n ==> s[i] == '1'
    {
      n := n + 1;
    }
  }

  /** Skips spaces and leading '1's, accumulates the digits, and accepts only spaces after them. The leading zeros
      are counted again after the leading '1's were skipped, so none are found. */
  method DecodeBase58(psz: string) returns (ok: bool, vchRet: seq<byte>)
    ensures ok <==> Decodable(psz)
    ensures ok ==> DecodesTo(psz, vchRet)
    ensures !ok ==> vchRet == []
  {
    hide Number, Minimal, CString, IsText, Spells, Decodable, DecodesTo, Reversed, SignedBytes;
    var s := CString(psz);
    var start := 0;
    while start < |s| && IsSpace(s[start])
      invariant start <= |s| && AllSpace(s, 0, start)
    {
      start := start + 1;
    }
    var zeroes := CountOnes(s, start);
    var first := start + zeroes;
    OnesAreZeros(s, start, first);
    ghost var ds := Zeros(first - start);
    var bn, p := 0, first;
    while p < |s|
      invariant start <= p <= |s| && IsText(s, start, p, ds) && bn == Number(ds, 58)
      invariant start < |s| ==> !IsSpace(s[start])
    {
      var digit := FindDigit(s[p]);
      if digit == None {
        break;
      }
      TextGrows(s, start, p, ds, digit.value);
      ds := ds + [digit.value];
      bn := bn * 58 + digit.value as int;
      p := p + 1;
    }
    var end := p;
    while end < |s| && IsSpace(s[end])
      invariant p <= end <= |s| && AllSpace(s, p, end)
    {
      end := end + 1;
    }
    if end < |s| {
      SpellsNothing(s, start, p, end);
      return false, [];
    }
    SpelledBy(psz, ds, start, p);
    var vchTmp := Trimmed(SignedBytes(bn), bn);
    ReversedTwice(Minimal(bn, 256));
    var nLeadingZeros := CountOnes(s, first);
    assert nLeadingZeros == 0;
    vchRet := seq(nLeadingZeros, i => 0) + Reversed(vchTmp);
    assert seq(nLeadingZeros, i => 0) + Reversed(vchTmp) == Minimal(bn, 256);
    return true, vchRet;
  }

  lemma {:induction false} OnesAreZeros(s: string, lo: nat, hi: nat)
    requires lo <= hi <= |s| && forall i :: lo <= i < hi ==> s[i] == '1'
    ensures IsText(s, lo, hi, Zeros(hi - lo)) && Number(Zeros(hi - lo), 58) == 0
  {
    Alphabet();
    ZeroBuffer(Zeros(hi - lo));
  }

  lemma {:induction false} TextGrows(s: string, lo: nat, p: nat, ds: seq<byte>, d: byte)
    requires p < |s| && IsText(s, lo, p, ds) && d < 58 && s[p] == BASE58_ALPHABET[d]
    ensures IsText(s, lo, p + 1, ds + [d]) && Number(ds + [d], 58) == Number(ds, 58) * 58 + d as int
  {
  }

  lemma {:induction false} SpelledBy(psz: string, ds: seq<byte>, a: nat, b: nat)
    requires SpellsAt(CString(psz), ds, a, b)
    ensures Spells(CString(psz), ds) && Decodable(psz) && DecodesTo(psz, Minimal(Number(ds, 58), 256))
  {
  }

  // ----- Round trips

  lemma {:induction false} NoNulInside(s: string)
    requires forall i :: 0 <= i < |s| ==> s[i] != '\0'
    ensures CString(s) == s
  {
    if s != [] {
      NoNulInside(s[1..]);
    }
  }

  /** Text of digits spells exactly those digits. */
  lemma {:induction false} TextSpells(str: string, ds: seq<byte>)
    requires IsText(str, 0, |str|, ds)
    ensures CString(str) == str && Spells(str, ds)
  {
    Alphabet();
    forall i | 0 <= i < |str| ensures str[i] != '\0' {
      assert str[i] == BASE58_ALPHABET[ds[i - 0]];
    }
    NoNulInside(str);
    SpelledBy(str, ds, 0, |str|);
  }

  /** What decoding an encoding gives: the bytes without their leading zeros. */
  lemma {:induction false} DecodeOfEncode(bytes: seq<byte>, str: string, out: seq<byte>)
    requires IsText(str, 0, |str|, EncodedDigits(bytes))
    ensures DecodesTo(str, out) <==> out == Stripped(bytes)
  {
    var ds := EncodedDigits(bytes);
    TextSpells(str, ds);
    LeadingZeros(Zeros(|bytes| - |Stripped(bytes)|), Minimal(Number(bytes, 256), 58), 58);
    MinimalDenotes(Number(bytes, 256), 58);
    StrippedFacts(bytes);
    LeadingZeros(Zeros(|bytes| - |Stripped(bytes)|), Stripped(bytes), 256);
    MinimalIsUnique(Stripped(bytes), 256);
    hide Minimal, Number, Stripped, Zeros, IsText, Spells;
    if DecodesTo(str, out) {
      var es :| Spells(str, es) && out == Minimal(Number(es, 58), 256);
      SpellsOnce(str, ds, es);
    }
  }

  /** Decoding gives back the bytes that were encoded exactly when they do not begin with a zero byte. */
  lemma {:induction false} RoundTripIff(bytes: seq<byte>, str: string)
    requires IsText(str, 0, |str|, EncodedDigits(bytes))
    ensures DecodesTo(str, bytes) <==> bytes == [] || bytes[0] != 0
  {
    DecodeOfEncode(bytes, str, bytes);
    StrippedFacts(bytes);
  }

  /** The bytes 0, 0, 1 come back as 1. */
  lemma {:induction false} LeadingZerosAreLost(str: string)
    requires IsText(str, 0, |str|, EncodedDigits([0, 0, 1]))
    ensures DecodesTo(str, [1]) && !DecodesTo(str, [0, 0, 1])
  {
    var bytes: seq<byte> := [0, 0, 1];
    assert bytes[1..] == [0, 1] && bytes[1..][1..] == [1];
    assert Stripped(bytes) == Stripped(bytes[1..]) == Stripped(bytes[1..][1..]) == [1];
    DecodeOfEncode(bytes, str, [1]);
    DecodeOfEncode(bytes, str, bytes);
  }

  /** In the other direction, whatever was decoded encodes to digits of the same number, without leading ones. */
  lemma {:induction false} EncodeOfDecode(psz: string, ds: seq<byte>, out: seq<byte>)
    requires Spells(CString(psz), ds) && DecodesTo(psz, out)
    ensures Number(out, 256) == Number(ds, 58) && EncodedDigits(out) == Stripped(ds)
  {
    var es :| Spells(CString(psz), es) && out == Minimal(Number(es, 58), 256);
    SpellsOnce(CString(psz), ds, es);
    MinimalDenotes(Number(ds, 58), 256);
    StrippedFacts(out);
    SpelledDigits(CString(psz), ds);
    StrippedDigits(ds);
    assert Zeros(0) + Minimal(Number(out, 256), 58) == Minimal(Number(out, 256), 58);
  }

  lemma {:induction false} SpelledDigits(s: string, ds: seq<byte>)
    requires Spells(s, ds)
    ensures DigitsOf(ds, 58)
  {
  }

  lemma {:induction false} StrippedDigits(ds: seq<byte>)
    requires DigitsOf(ds, 58)
    ensures Minimal(Number(ds, 58), 58) == Stripped(ds)
  {
    StrippedFacts(ds);
    var zeros := Zeros(|ds| - |Stripped(ds)|);
    forall i | 0 <= i < |Stripped(ds)| ensures (Stripped(ds)[i] as int) < 58 {
      assert Stripped(ds)[i] == (zeros + Stripped(ds))[|zeros| + i] == ds[|zeros| + i];
    }
    LeadingZeros(zeros, Stripped(ds), 58);
    MinimalIsUnique(Stripped(ds), 58);
  }

  // ----- With a checksum

  /** The first four bytes of the hash of some bytes. */
  type Checksum = c: seq<byte> -> seq<byte> | forall b :: |c(b)| == 4 witness (b => [0, 0, 0, 0])

  ghost predicate ChecksTo(psz: string, payload: seq<byte>, checksum: Checksum) {
    DecodesTo(psz, payload + checksum(payload))
  }

  method EncodeBase58Check(vchIn: seq<byte>, checksum: Checksum) returns (str: string)
    ensures IsText(str, 0, |str|, EncodedDigits(vchIn + checksum(vchIn)))
  {
    str := EncodeBase58(vchIn + checksum(vchIn));
  }

  method DecodeBase58Check(psz: string, checksum: Checksum) returns (ok: bool, vchRet: seq<byte>)
    ensures ok <==> exists payload :: ChecksTo(psz, payload, checksum)
    ensures ok ==> forall payload :: ChecksTo(psz, payload, checksum) <==> payload == vchRet
    ensures !ok ==> vchRet == []
  {
    hide ChecksTo, DecodesTo, Decodable;
    ok, vchRet := DecodeBase58(psz);
    PayloadOf(psz, ok, vchRet, checksum);
    if !ok || |vchRet| < 4 {
      return false, [];
    }
    var size := |vchRet| - 4;
    if checksum(vchRet[..size]) != vchRet[size..] {
      return false, [];
    }
    assert ChecksTo(psz, vchRet[..size], checksum);
    return true, vchRet[..size];
  }

  lemma {:induction false} PayloadOf(psz: string, ok: bool, out: seq<byte>, checksum: Checksum)
    requires ok == Decodable(psz) && (ok ==> DecodesTo(psz, out))
    ensures !ok || |out| < 4 ==> forall payload :: !ChecksTo(psz, payload, checksum)
    ensures ok && |out| >= 4 ==> forall payload :: ChecksTo(psz, payload, checksum) <==>
              payload == out[..|out| - 4] && checksum(out[..|out| - 4]) == out[|out| - 4..]
  {
    NotDecodable(psz);
    if ok {
      DecodesOnce(psz, out);
      hide DecodesTo, Decodable;
      if |out| >= 4 {
        SplitChecksum(out, checksum);
      } else {
        forall payload: seq<byte> ensures payload + checksum(payload) != out {
          assert |payload + checksum(payload)| >= 4;
        }
      }
    }
  }

  lemma {:induction false} NotDecodable(psz: string)
    ensures !Decodable(psz) ==> forall out :: !DecodesTo(psz, out)
  {
  }

  lemma {:induction false} DecodesOnce(psz: string, out: seq<byte>)
    requires DecodesTo(psz, out)
    ensures forall other :: DecodesTo(psz, other) <==> other == out
  {
    var ds :| Spells(CString(psz), ds) && out == Minimal(Number(ds, 58), 256);
    hide Spells, Minimal, Number, CString;
    forall other | DecodesTo(psz, other) ensures other == out {
      var es :| Spells(CString(psz), es) && other == Minimal(Number(es, 58), 256);
      SpellsOnce(CString(psz), ds, es);
    }
  }

  lemma {:induction false} SplitChecksum(out: seq<byte>, checksum: Checksum)
    requires |out| >= 4
    ensures forall payload :: payload + checksum(payload) == out <==>
              payload == out[..|out| - 4] && checksum(out[..|out| - 4]) == out[|out| - 4..]
  {
  }

  /** Decoding with the checksum gives back what was encoded exactly when the bytes with their checksum do not
      begin with a zero byte. */
  lemma {:induction false} CheckRoundTripIff(payload: seq<byte>, checksum: Checksum, str: string)
    requires IsText(str, 0, |str|, EncodedDigits(payload + checksum(payload)))
    ensures ChecksTo(str, payload, checksum) <==> (payload + checksum(payload))[0] != 0
  {
    RoundTripIff(payload + checksum(payload), str);
  }
}
