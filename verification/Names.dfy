/** create_new_entry: what a rescued inode is called in lost+found. */
module Names {
  import opened Bytes
  import opened DirBlock

  const ZERO_DIGIT: nat := 48

  /** The digits of `n`, least significant first; empty for zero. */
  function RevDigits(n: nat): (s: seq<byte>)
    ensures forall c <- s :: ZERO_DIGIT <= c < ZERO_DIGIT + 10
  {
    if n == 0 then [] else [n % 10 + ZERO_DIGIT] + RevDigits(n / 10)
  }

  function Reverse(s: seq<byte>): (r: seq<byte>)
    ensures |r| == |s|
  {
    if s == [] then [] else Reverse(s[1..]) + [s[0]]
  }

  function Decimal(n: nat): (s: seq<byte>) {
    Reverse(RevDigits(n))
  }

  /** Reading a name as a decimal number. */
  function Value(s: seq<byte>): int {
    if s == [] then 0 else 10 * Value(s[..|s| - 1]) + (s[|s| - 1] as int - ZERO_DIGIT)
  }

  /** Reading the name back gives the number, so two rescued inodes never share a name. */
  lemma {:induction false} NameRoundTrip(n: nat)
    ensures Value(Decimal(n)) == n
    decreases n
  {
    if n != 0 {
      NameRoundTrip(n / 10);
      var d: byte := n % 10 + ZERO_DIGIT;
      assert RevDigits(n)[1..] == RevDigits(n / 10);
      assert Decimal(n) == Decimal(n / 10) + [d];
      assert Decimal(n)[..|Decimal(n)| - 1] == Decimal(n / 10);
    }
  }

  lemma NamesDiffer(m: nat, n: nat)
    requires m != n
    ensures Decimal(m) != Decimal(n)
  {
    NameRoundTrip(m);
    NameRoundTrip(n);
  }

  /** A 32-bit number has at most ten digits. */
  lemma {:induction false} DigitCount(n: nat, k: nat, limit: nat)
    requires n < limit && limit == Pow10(k)
    ensures |RevDigits(n)| <= k
    decreases k
  {
    if n != 0 && k > 0 {
      assert RevDigits(n) == [n % 10 + ZERO_DIGIT] + RevDigits(n / 10);
      DigitCount(n / 10, k - 1, Pow10(k - 1));
    }
  }

  function Pow10(k: nat): (p: nat)
    ensures p > 0
  {
    if k == 0 then 1 else 10 * Pow10(k - 1)
  }

  lemma {:induction false} ReverseKeeps(s: seq<byte>)
    ensures forall c :: c in Reverse(s) <==> c in s
  {
    if s != [] { ReverseKeeps(s[1..]); }
  }

  lemma {:induction false} NoNul(s: seq<byte>)
    requires forall c :: c in s ==> c != 0
    ensures CStr(s) == s
  {
    if s != [] {
      assert s[0] in s;
      forall c | c in s[1..]
        ensures c != 0
      {
        assert c in s;
      }
      NoNul(s[1..]);
    }
  }

  /** The name fits every field it is stored in: at most ten characters, each a
      digit, and so the C string is the whole name. */
  lemma NameShape(n: nat)
    requires 0 < n < U32_LIMIT
    ensures 0 < |Decimal(n)| <= 10
    ensures forall c :: c in Decimal(n) ==> ZERO_DIGIT <= c < ZERO_DIGIT + 10
    ensures CStr(Decimal(n)) == Decimal(n)
  {
    TenDigits();
    DigitCount(n, 10, Pow10(10));
    ReverseKeeps(RevDigits(n));
    NoNul(Decimal(n));
  }

  lemma TenDigits()
    ensures Pow10(10) > U32_LIMIT
  {
    assert Pow10(2) == 10 * Pow10(1) == 100;
    assert Pow10(4) == 10 * Pow10(3) == 100 * Pow10(2);
    assert Pow10(6) == 10 * Pow10(5) == 100 * Pow10(4);
    assert Pow10(8) == 10 * Pow10(7) == 100 * Pow10(6);
    assert Pow10(10) == 10 * Pow10(9) == 100 * Pow10(8);
  }

  /** The new entry: its record length is the least multiple of four that holds
      the eight-byte header and the name. */
  function NewEntry(n: nat, isDir: bool): Entry {
    Entry(n, Pad4(PREFIX_LEN + |Decimal(n)|), if isDir then DIR_TYPE else REG_TYPE, Decimal(n))
  }

  lemma DigitOff(digits: seq<byte>, n: nat)
    requires n != 0
    ensures digits + [n % 10 + ZERO_DIGIT] + RevDigits(n / 10) == digits + RevDigits(n)
  {
    var d: seq<byte> := [n % 10 + ZERO_DIGIT];
    assert RevDigits(n) == d + RevDigits(n / 10);
  }

  lemma AllDigits(digits: seq<byte>)
    ensures digits + RevDigits(0) == digits && Reverse(digits[|digits|..]) == []
  {
  }

  lemma ReverseOn(digits: seq<byte>, k: nat)
    requires k < |digits|
    ensures Reverse(digits[k..]) == Reverse(digits[k + 1..]) + [digits[k]]
  {
    assert digits[k..][1..] == digits[k + 1..];
  }

  /** create_new_entry's two loops: digits are collected backwards, then reversed. */
  method CreateNewEntry(inodeNum: nat, isDir: bool) returns (e: Entry)
    ensures e == NewEntry(inodeNum, isDir)
  {
    hide RevDigits, Reverse, Pad4;
    var digits: seq<byte> := [];
    var n: nat := inodeNum;
    while n != 0
      invariant digits + RevDigits(n) == RevDigits(inodeNum)
    {
      DigitOff(digits, n);
      digits := digits + [n % 10 + ZERO_DIGIT];
      n := n / 10;
    }
    AllDigits(digits);
    var name: seq<byte> := [];
    var i := 0;
    while i < |digits|
      invariant 0 <= i <= |digits|
      invariant name == Reverse(digits[|digits| - i..])
    {
      ReverseOn(digits, |digits| - 1 - i);
      name := name + [digits[|digits| - 1 - i]];
      i := i + 1;
    }
    assert digits[0..] == digits;
    e := Entry(inodeNum, Pad4(PREFIX_LEN + |name|), if isDir then DIR_TYPE else REG_TYPE, name);
  }
}
