/**
 * The variable-length integers of CVarInt: base 128, most significant group first, with one subtracted from
 * every group but the last so that each number has one encoding.
 */
module VarInt {
  import opened Basics
  import opened Arithmetic

  // ----- Specification

  /** The groups before the last one, each carrying the continuation bit. */
  function Continued(n: nat): seq<byte> {
    if n <= 0x7F then [(0x80 + n) as byte] else Continued(n / 128 - 1) + [(0x80 + n % 128) as byte]
  }

  function Encoding(n: nat): seq<byte> {
    if n <= 0x7F then [n as byte] else Continued(n / 128 - 1) + [(n % 128) as byte]
  }

  /** All bytes but the last carry the continuation bit. */
  ghost predicate WellFormed(a: seq<byte>) {
    a != [] && a[|a| - 1] < 0x80 && AllContinue(a[..|a| - 1])
  }

  ghost predicate AllContinue(a: seq<byte>) {
    forall i :: 0 <= i < |a| ==> a[i] >= 0x80
  }

  /** The number that groups before the last one contribute: sum over i of 128^i * (group + 1), with i
      counting from 1 at the right end. */
  ghost function GroupSum(a: seq<byte>): nat {
    if a == [] then 0 else Power(128, |a|) * (a[0] as int % 128 + 1) + GroupSum(a[1..])
  }

  /** The number a well-formed byte sequence denotes. */
  ghost function Denotes(a: seq<byte>): nat
    requires a != []
  {
    a[|a| - 1] as int % 128 + GroupSum(a[..|a| - 1])
  }

  // ----- Lemmas

  /** What the reading loop has accumulated after reading groups that all continue. */
  function Accumulated(a: seq<byte>): nat {
    if a == [] then 0 else 128 * Accumulated(a[..|a| - 1]) + a[|a| - 1] as int % 128 + 1
  }

  lemma {:induction false} GroupSumLast(a: seq<byte>)
    requires a != []
    ensures GroupSum(a) == 128 * GroupSum(a[..|a| - 1]) + 128 * (a[|a| - 1] as int % 128 + 1)
  {
    if |a| > 1 {
      var rest := a[1..];
      GroupSumLast(rest);
      assert rest[..|rest| - 1] == a[..|a| - 1][1..];
      Distribute(Power(128, |a| - 1), a[0] as int % 128 + 1);
    } else {
      assert GroupSum(a[1..]) == 0 && GroupSum(a[..0]) == 0 && Power(128, 1) == 128;
    }
  }

  lemma {:induction false} Distribute(p: nat, x: nat)
    ensures 128 * p * x == 128 * (p * x)
  {
  }

  /** The loop of ReadVarInt computes the documented sum. */
  lemma {:induction false} AccumulatedIsGroupSum(a: seq<byte>)
    ensures 128 * Accumulated(a) == GroupSum(a)
  {
    if a != [] {
      AccumulatedIsGroupSum(a[..|a| - 1]);
      GroupSumLast(a);
    }
  }

  lemma {:induction false} ContinuedInverse(n: nat)
    ensures AllContinue(Continued(n)) && Continued(n) != [] && Accumulated(Continued(n)) == n + 1
  {
    var a := Continued(n);
    if n > 0x7F {
      ContinuedInverse(n / 128 - 1);
      assert a[..|a| - 1] == Continued(n / 128 - 1);
    } else {
      assert a[..0] == [];
    }
  }

  lemma {:induction false} LastGroup(c: seq<byte>, x: byte)
    requires AllContinue(c) && x < 0x80
    ensures WellFormed(c + [x]) && Denotes(c + [x]) == x as int + GroupSum(c)
  {
  }

  /** The encoding of a number is well formed and denotes it. */
  lemma {:induction false} EncodingDenotes(n: nat)
    ensures WellFormed(Encoding(n)) && Denotes(Encoding(n)) == n
  {
    hide Continued, WellFormed, Denotes, AllContinue, GroupSum, Accumulated;
    if n > 0x7F {
      ContinuedInverse(n / 128 - 1);
      AccumulatedIsGroupSum(Continued(n / 128 - 1));
      LastGroup(Continued(n / 128 - 1), (n % 128) as byte);
    } else {
      NoGroups();
      LastGroup([], n as byte);
      assert [] + [n as byte] == [n as byte];
    }
  }

  lemma {:induction false} NoGroups()
    ensures AllContinue([]) && GroupSum([]) == 0
  {
  }

  lemma {:induction false} GroupOf(q: nat, x: nat)
    requires x < 128
    ensures (128 * q + x) / 128 == q && (128 * q + x) % 128 == x
  {
  }

  lemma {:induction false} ContinuedUnique(a: seq<byte>)
    requires a != [] && AllContinue(a)
    ensures Accumulated(a) > 0 && Continued(Accumulated(a) - 1) == a
  {
    var most, x := a[..|a| - 1], a[|a| - 1] as int - 0x80;
    assert a == most + [(0x80 + x) as byte];
    GroupOf(Accumulated(most), x);
    assert a[|a| - 1] as int % 128 == x by {
      GroupOf(1, x);
    }
    if most != [] {
      ContinuedUnique(most);
    }
  }

  /** Every well-formed byte sequence is the encoding of the number it denotes, so no number has two. */
  lemma {:induction false} EncodingUnique(a: seq<byte>)
    requires WellFormed(a)
    ensures Encoding(Denotes(a)) == a
  {
    var most, x := a[..|a| - 1], a[|a| - 1];
    assert a == most + [x];
    LastGroup(most, x);
    AccumulatedIsGroupSum(most);
    if most == [] {
      NoGroups();
    } else {
      ContinuedUnique(most);
      GroupOf(Accumulated(most), x as int);
    }
    hide WellFormed, Denotes, GroupSum, Accumulated, AllContinue, Continued;
  }

  lemma {:induction false} Power2Step(w: nat)
    requires w >= 7
    ensures Power(2, w) == 128 * Power(2, w - 7)
  {
    assert Power(2, w) == 2 * Power(2, w - 1) == 4 * Power(2, w - 2) == 8 * Power(2, w - 3) == 16 * Power(2, w - 4);
    assert Power(2, w - 4) == 2 * Power(2, w - 5) == 4 * Power(2, w - 6) == 8 * Power(2, w - 7);
  }

  lemma {:induction false} SmallPower(w: nat)
    ensures w <= 7 ==> Power(2, w) <= 128
    ensures Power(2, w) >= 1
  {
    if w > 0 {
      SmallPower(w - 1);
      assert w <= 7 ==> w == 1 || w == 2 || w == 3 || w == 4 || w == 5 || w == 6 || w == 7;
    }
  }

  /** The number left after one group of a w-bit number has w - 7 bits. */
  lemma {:induction false} GroupShrinks(n: nat, w: nat)
    requires n < Power(2, w) && n > 0x7F
    ensures w > 7 && n / 128 - 1 < Power(2, w - 7)
  {
    SmallPower(w);
    Power2Step(w);
  }

  // ----- The code

  method GetSizeOfVarInt(n: int) returns (nRet: nat)
    ensures nRet == if n >= 0 then |Encoding(n)| else 1
  {
    var m := n;
    nRet := 0;
    ghost var tail := 0;
    while true
      invariant n < 0 ==> m == n && nRet == 0
      invariant n >= 0 && nRet == 0 ==> m == n
      invariant n >= 0 && nRet > 0 ==> m >= 0 && |Encoding(n)| == |Continued(m)| + nRet
      decreases m
    {
      nRet := nRet + 1;
      if m <= 0x7F {
        return nRet;
      }
      m := m / 128 - 1;
    }
  }

  lemma {:induction false} ReversedOne()
    ensures Reversed<byte>([]) == []
  {
  }

  lemma {:induction false} ReversedLast(s: seq<byte>)
    requires s != []
    ensures Reversed(s) == [s[|s| - 1]] + Reversed(s[..|s| - 1])
  {
  }

  /** The group of m that goes to place len of the buffer. */
  function Group(m: int, len: nat): byte {
    (m % 128 + if len > 0 then 0x80 else 0) as byte
  }

  /** A group written to the end of the buffer comes out in front of the others. */
  lemma {:induction false} GroupWritten(m: int, s: seq<byte>)
    requires s != [] && s[|s| - 1] == Group(m, |s| - 1)
    ensures m < 0 && |s| == 1 ==> Reversed(s) == [(m % 128) as byte]
    ensures 0 <= m <= 0x7F && |s| == 1 ==> Reversed(s) == Encoding(m)
    ensures 0 <= m <= 0x7F && |s| > 1 ==> Reversed(s) == Continued(m) + Reversed(s[..|s| - 1])
    ensures m > 0x7F && |s| == 1 ==> Encoding(m) == Continued(m / 128 - 1) + Reversed(s)
    ensures m > 0x7F && |s| > 1 ==> Continued(m) + Reversed(s[..|s| - 1]) == Continued(m / 128 - 1) + Reversed(s)
  {
  }

  /** What WriteVarInt writes. */
  function Written(n: int): seq<byte> {
    if n >= 0 then Encoding(n) else [(n % 128) as byte]
  }

  /** The groups s are in the buffer and m is what is left of n. */
  ghost predicate InProgress(n: int, m: int, w: nat, s: seq<byte>) {
    && 0 <= 7 * |s| < w
    && (n < 0 ==> m == n && s == [])
    && (n >= 0 ==>
      && 0 <= m < Power(2, w - 7 * |s|)
      && Encoding(n) == if s == [] then Encoding(m) else Continued(m) + Reversed(s))
  }

  lemma {:induction false} NothingInBuffer(n: int, w: nat)
    requires w >= 1 && n < Power(2, w)
    ensures (w + 6) / 7 >= 1 && InProgress(n, n, w, [])
  {
  }

  lemma {:induction false} OneMoreGroup(n: int, m: int, w: nat, s: seq<byte>)
    requires InProgress(n, m, w, s) && m > 0x7F
    ensures |s| + 1 < (w + 6) / 7 && InProgress(n, m / 128 - 1, w, s + [Group(m, |s|)])
  {
    var more := s + [Group(m, |s|)];
    assert more[..|s|] == s;
    GroupWritten(m, more);
    GroupShrinks(m, w - 7 * |s|);
    hide Encoding, Continued, Group, Reversed, Power;
  }

  lemma {:induction false} LastGroupWritten(n: int, m: int, w: nat, s: seq<byte>)
    requires InProgress(n, m, w, s) && m <= 0x7F
    ensures |s| < (w + 6) / 7 && Reversed(s + [Group(m, |s|)]) == Written(n)
  {
    var more := s + [Group(m, |s|)];
    assert more[..|s|] == s;
    GroupWritten(m, more);
    hide Encoding, Continued, Group, Reversed, Power;
  }

  /**
   * Writes a w-bit integer: the groups go into a temporary buffer, least significant first, and out in reverse.
   * The buffer is never overrun. A negative number leaves after one group.
   */
  method WriteVarInt(os: seq<byte>, n: int, w: nat) returns (written: seq<byte>)
    requires w >= 1 && n < Power(2, w)
    ensures written == os + Written(n)
  {
    hide InProgress, Reversed, Group, Written, Power;
    NothingInBuffer(n, w);
    var tmp := new byte[(w + 6) / 7];
    var len := 0;
    var m := n;
    assert tmp[..0] == [];
    while m > 0x7F
      invariant 0 <= len < tmp.Length && InProgress(n, m, w, tmp[..len])
      decreases m
    {
      OneMoreGroup(n, m, w, tmp[..len]);
      ghost var s := tmp[..len];
      tmp[len] := Group(m, len);
      assert tmp[..len + 1] == s + [Group(m, len)];
      m := m / 128 - 1;
      len := len + 1;
    }
    LastGroupWritten(n, m, w, tmp[..len]);
    ghost var s := tmp[..len];
    tmp[len] := Group(m, len);
    assert tmp[..len + 1] == s + [Group(m, len)];
    written := WriteReversed(os, tmp, len);
  }

  /** The second loop of WriteVarInt: the bytes up to place len, last first. */
  method WriteReversed(os: seq<byte>, tmp: array<byte>, len: nat) returns (written: seq<byte>)
    requires len < tmp.Length
    ensures written == os + Reversed(tmp[..len + 1])
  {
    hide Reversed;
    ReversedOne();
    var i := len;
    written := os;
    while true
      invariant 0 <= i <= len
      invariant written + Reversed(tmp[..i + 1]) == os + Reversed(tmp[..len + 1])
      decreases i
    {
      ReversedLast(tmp[..i + 1]);
      assert tmp[..i + 1][..i] == tmp[..i];
      written := written + [tmp[i]];
      if i == 0 {
        break;
      }
      i := i - 1;
    }
  }

  // ----- Reading

  /** The modulus of a w-bit unsigned type. */
  ghost predicate IsModulus(modulus: nat) {
    modulus > 0 && modulus % 128 == 0
  }

  lemma {:induction false} ShiftModulo(a: nat, modulus: nat, y: nat)
    requires IsModulus(modulus)
    ensures (a % modulus * 128 % modulus + y) % modulus == (128 * a + y) % modulus
    ensures y < 128 ==> a % modulus * 128 % modulus + y == (128 * a + y) % modulus
  {
    var q, r := Split(a, modulus);
    var s, t := Split(r * 128, modulus);
    ShiftModuloParts(a, modulus, y, q, r, s, t);
  }

  lemma {:induction false} ShiftModuloParts(a: nat, modulus: nat, y: nat, q: nat, r: nat, s: nat, t: nat)
    requires IsModulus(modulus) && a == q * modulus + r && r * 128 == s * modulus + t && r < modulus && t < modulus
    ensures (t + y) % modulus == (128 * a + y) % modulus
    ensures y < 128 ==> t + y == (128 * a + y) % modulus
  {
    Regroup(a, y, modulus, q, r, s, t);
    RemainderUnchanged(128 * q + s, modulus, t + y);
    if y < 128 {
      MultipleModulo(r, s, t, modulus);
      SmallRemainder(t + y, modulus);
    }
  }

  lemma {:induction false} Regroup(a: nat, y: nat, m: nat, q: nat, r: nat, s: nat, t: nat)
    requires a == q * m + r && r * 128 == s * m + t
    ensures 128 * a + y == (128 * q + s) * m + (t + y)
  {
  }

  /** A multiple of 128 leaves a multiple of 128, so there is room for seven more bits. */
  lemma {:induction false} MultipleModulo(r: nat, s: nat, t: nat, modulus: nat)
    requires IsModulus(modulus) && r * 128 == s * modulus + t && t < modulus
    ensures t + 128 <= modulus
  {
    var c := modulus / 128;
    assert modulus == 128 * c;
    assert s * modulus == 128 * (s * c);
    assert t == 128 * (r - s * c);
  }

  /** What ReadVarInt returns. */
  ghost predicate Reads(input: seq<byte>, modulus: nat, n: nat, rest: seq<byte>)
    requires modulus > 0
  {
    exists k :: 0 < k <= |input| && WellFormed(input[..k]) && n == Denotes(input[..k]) % modulus && rest == input[k..]
  }

  lemma {:induction false} NothingRead(modulus: nat)
    requires modulus > 0
    ensures AllContinue([]) && Accumulated([]) % modulus == 0
  {
  }

  lemma {:induction false} GroupRead(input: seq<byte>, pos: nat, modulus: nat)
    requires IsModulus(modulus) && pos < |input| && AllContinue(input[..pos])
    ensures var n, x := Accumulated(input[..pos]) % modulus * 128 % modulus, input[pos] as int % 128;
            && (input[pos] >= 0x80 ==>
                AllContinue(input[..pos + 1]) && (n + x + 1) % modulus == Accumulated(input[..pos + 1]) % modulus)
            && (input[pos] < 0x80 ==> !AllContinue(input) && Reads(input, modulus, n + x, input[pos + 1..]))
  {
    var a, x := input[..pos + 1], input[pos] as int % 128;
    assert a[..pos] == input[..pos];
    ShiftModulo(Accumulated(input[..pos]), modulus, x);
    ShiftModulo(Accumulated(input[..pos]), modulus, x + 1);
    AccumulatedIsGroupSum(input[..pos]);
    hide GroupSum, Accumulated, IsModulus;
    if input[pos] < 0x80 {
      assert WellFormed(input[..pos + 1]);
    }
  }

  /** Reads one number of a type with the given modulus; nothing when the stream ends too early. */
  method ReadVarInt(input: seq<byte>, modulus: nat) returns (result: Option<(nat, seq<byte>)>)
    requires IsModulus(modulus)
    ensures result == None <==> AllContinue(input)
    ensures result.Some? ==> Reads(input, modulus, result.value.0, result.value.1)
  {
    hide Accumulated, AllContinue, Reads;
    NothingRead(modulus);
    var n := 0;
    for pos := 0 to |input|
      invariant AllContinue(input[..pos]) && n == Accumulated(input[..pos]) % modulus
    {
      var chData := input[pos];
      GroupRead(input, pos, modulus);
      n := n * 128 % modulus + chData as int % 128;
      if chData >= 0x80 {
        n := (n + 1) % modulus;
      } else {
        return Some((n, input[pos + 1..]));
      }
    }
    assert input[..|input|] == input;
    return None;
  }

  // ----- Reading what was written

  /** Where one number ends does not depend on what follows it. */
  lemma {:induction false} OnePrefix(input: seq<byte>, j: nat, k: nat)
    requires 0 < j <= |input| && 0 < k <= |input| && WellFormed(input[..j]) && WellFormed(input[..k])
    ensures j == k
  {
  }

  /** Reading inverts writing, whatever follows, exactly for the numbers of the type. */
  lemma {:induction false} ReadInvertsWrite(n: nat, rest: seq<byte>, modulus: nat, m: nat, left: seq<byte>)
    requires modulus > 0
    ensures Reads(Encoding(n) + rest, modulus, m, left) <==> m == n % modulus && left == rest
  {
    EncodingDenotes(n);
    var input := Encoding(n) + rest;
    assert input[..|Encoding(n)|] == Encoding(n) && input[|Encoding(n)|..] == rest;
    if Reads(input, modulus, m, left) {
      var k :| 0 < k <= |input| && WellFormed(input[..k]) && m == Denotes(input[..k]) % modulus && left == input[k..];
      OnePrefix(input, k, |Encoding(n)|);
    }
  }

  /** A number is read back if and only if it is one of the unsigned type: a negative one comes back as its last
      seven bits. */
  lemma {:induction false} ReadsBackIff(n: int, rest: seq<byte>, modulus: nat)
    requires modulus >= 128
    ensures (forall m, left :: Reads(Written(n) + rest, modulus, m, left) ==> m == n && left == rest) <==>
            0 <= n < modulus
    ensures n < 0 ==> forall m, left :: Reads(Written(n) + rest, modulus, m, left) <==> m == n % 128 && left == rest
  {
    var k := if n >= 0 then n else n % 128;
    if n < 0 {
      assert Encoding(k) == Written(n);
      SmallRemainder(k, modulus);
    }
    forall m: nat, left ensures Reads(Written(n) + rest, modulus, m, left) <==> m == k % modulus && left == rest {
      ReadInvertsWrite(k, rest, modulus, m, left);
    }
    assert Reads(Written(n) + rest, modulus, k % modulus, rest);
    if 0 <= n < modulus {
      SmallRemainder(n, modulus);
    }
  }
}
