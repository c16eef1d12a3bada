/**
 * The rule of AcceptBlock that the script of a coinbase begins with the height of its block, and why coinbases at
 * different heights then differ.
 */
module CoinbaseHeight {
  import opened Basics
  import opened Ledger

  const OP_PUSHDATA1 := 0x4c
  const OP_1 := 0x51
  /** The largest height that the int nHeight holds. */
  const MAX_HEIGHT: nat := 0x7FFF_FFFF

  // ----- CBigNum::getvch

  /** The base-256 digits of a number, least significant first. */
  function Digits(n: nat): seq<byte> {
    if n == 0 then [] else [(n % 256) as byte] + Digits(n / 256)
  }

  function Number(digits: seq<byte>): nat {
    if digits == [] then 0 else digits[0] as nat + 256 * Number(digits[1..])
  }

  /** Little endian, with a zero byte at the end where the last byte would read as a sign. */
  function GetVch(n: nat): seq<byte> {
    var digits := Digits(n);
    if digits != [] && digits[|digits| - 1] >= 0x80 then digits + [0] else digits
  }

  lemma {:induction false} NumberOfDigits(n: nat)
    ensures Number(Digits(n)) == n
    decreases n
  {
    if n != 0 {
      NumberOfDigits(n / 256);
    }
  }

  lemma {:induction false} TrailingZero(digits: seq<byte>)
    ensures Number(digits + [0]) == Number(digits)
  {
    if digits != [] {
      TrailingZero(digits[1..]);
      assert (digits + [0])[1..] == digits[1..] + [0];
    }
  }

  lemma {:induction false} NumberOfVch(n: nat)
    ensures Number(GetVch(n)) == n
  {
    NumberOfDigits(n);
    TrailingZero(Digits(n));
  }

  lemma {:induction false} FourDigits(n: nat)
    requires n <= MAX_HEIGHT
    ensures |Digits(n)| <= 4
  {
    var n1, n2, n3 := n / 256, n / 256 / 256, n / 256 / 256 / 256;
    assert n3 < 256 && n3 / 256 == 0;
    assert Digits(n3 / 256) == [] && |Digits(n3)| <= 1;
    assert |Digits(n2)| <= 2 && |Digits(n1)| <= 3;
  }

  // ----- CScript() << nHeight

  /** A push of fewer bytes than OP_PUSHDATA1. */
  function Push(data: seq<byte>): Script
    requires |data| < OP_PUSHDATA1
  {
    [|data| as byte] + data
  }

  function HeightScript(nHeight: nat): (script: Script)
    requires nHeight <= MAX_HEIGHT
    ensures 1 <= |script| <= 6
  {
    FourDigits(nHeight);
    if 1 <= nHeight <= 16 then [(nHeight + OP_1 - 1) as byte] else Push(GetVch(nHeight))
  }

  /** The forms a height takes below 2^15; from 17 on its bytes are pushed, and a byte that would read as a sign gets
      another after it. */
  lemma {:induction false} SmallHeights(n: nat)
    requires n < 0x8000
    ensures HeightScript(n) ==
            if n == 0 then [0]
            else if n <= 16 then [(0x50 + n) as byte]
            else if n < 0x80 then [1, n as byte]
            else if n < 0x100 then [2, n as byte, 0]
            else [2, (n % 0x100) as byte, (n / 0x100) as byte]
  {
    assert n / 0x100 / 0x100 == 0 && Digits(0) == [];
    if n >= 0x100 {
      assert Digits(n) == [(n % 0x100) as byte] + Digits(n / 0x100);
      assert Digits(n / 0x100) == [(n / 0x100) as byte];
    } else if n > 0 {
      assert Digits(n) == [n as byte];
    }
  }

  /** No script begins with two heights. */
  lemma {:induction false} OneHeight(script: Script, a: nat, b: nat)
    requires a <= MAX_HEIGHT && b <= MAX_HEIGHT && HeightScript(a) <= script && HeightScript(b) <= script
    ensures a == b
  {
    FirstByte(a);
    FirstByte(b);
    if !(1 <= a <= 16) && !(1 <= b <= 16) {
      SameData(script, a, b);
    }
  }

  lemma {:induction false} FirstByte(n: nat)
    requires n <= MAX_HEIGHT
    ensures if 1 <= n <= 16 then HeightScript(n)[0] as int == n + 0x50
            else HeightScript(n)[0] as int <= 5 && HeightScript(n)[0] as int == |GetVch(n)| &&
                 HeightScript(n)[1..] == GetVch(n)
  {
    FourDigits(n);
  }

  lemma {:induction false} SameData(script: Script, a: nat, b: nat)
    requires a <= MAX_HEIGHT && b <= MAX_HEIGHT && HeightScript(a) <= script && HeightScript(b) <= script
    requires !(1 <= a <= 16) && !(1 <= b <= 16)
    ensures a == b
  {
    hide GetVch, HeightScript;
    FirstByte(a);
    FirstByte(b);
    NumberOfVch(a);
    NumberOfVch(b);
    assert script[0] == HeightScript(a)[0] == HeightScript(b)[0];
    assert HeightScript(a)[1..] == script[1..|HeightScript(a)|] == HeightScript(b)[1..];
  }

  // ----- The rule

  ghost predicate NamesHeight(tx: Tx, nHeight: nat) {
    nHeight <= MAX_HEIGHT && tx.IsCoinBase() && HeightScript(nHeight) <= tx.vin[0].scriptSig
  }

  /** A coinbase is acceptable at one height at most. */
  lemma {:induction false} CoinBasesDiffer(tx: Tx, a: nat, b: nat)
    requires NamesHeight(tx, a) && NamesHeight(tx, b)
    ensures a == b
  {
    OneHeight(tx.vin[0].scriptSig, a, b);
  }

  /** The comparison AcceptBlock makes: the sizes, then byte by byte. */
  method BeginsWithHeight(tx: Tx, nHeight: nat) returns (ok: bool)
    requires nHeight <= MAX_HEIGHT && tx.IsCoinBase()
    ensures ok <==> NamesHeight(tx, nHeight)
  {
    hide HeightScript;
    var expected, script := HeightScript(nHeight), tx.vin[0].scriptSig;
    if |script| < |expected| {
      return false;
    }
    for i := 0 to |expected|
      invariant forall j :: 0 <= j < i ==> expected[j] == script[j]
    {
      if expected[i] != script[i] {
        return false;
      }
    }
    return true;
  }
}
