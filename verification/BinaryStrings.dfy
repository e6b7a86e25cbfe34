/**
 bindings/python/rad_util.py: numbers as binary strings, most significant digit first: `int2bin`,
 `bin2int` and `binary_range`.
 */
module BinaryStrings {
  import opened Sequences

  predicate IsBits(s: string) {
    forall i :: 0 <= i < |s| ==> s[i] == '0' || s[i] == '1'
  }

  function Bit(c: char): nat {
    if c == '1' then 1 else 0
  }

  /** What `bin2int` returns for a string of binary digits. */
  function Value(s: string): nat {
    if s == [] then 0 else 2 * Value(s[..|s| - 1]) + Bit(s[|s| - 1])
  }

  function Pow2(n: nat): nat {
    if n == 0 then 1 else 2 * Pow2(n - 1)
  }

  // ---------------------------------------------------------------- int2bin

  /** The four binary digits of a hexadecimal one. */
  function Nibble(d: nat): string
    requires d < 16
  {
    [if d / 8 % 2 == 1 then '1' else '0', if d / 4 % 2 == 1 then '1' else '0',
     if d / 2 % 2 == 1 then '1' else '0', if d % 2 == 1 then '1' else '0']
  }

  function HexBits(i: nat): string {
    if i < 16 then Nibble(i) else HexBits(i / 16) + Nibble(i % 16)
  }

  function Zeros(n: nat): string {
    if n == 0 then "" else Zeros(n - 1) + "0"
  }

  /** s[:-n]: a slice up to minus zero is empty. */
  function UpToLast(s: string, n: nat): string {
    if n == 0 || n > |s| then "" else s[..|s| - n]
  }

  /** s[-n:]: a slice from minus zero is everything. */
  function Last(s: string, n: nat): string {
    if n == 0 || n > |s| then s else s[|s| - n..]
  }

  function Int2Bin(i: nat, n: nat): Option<string> {
    var result := HexBits(i);
    if '1' in UpToLast(result, n) then None
    else
      var last := Last(result, n);
      Some(Zeros(if n > |last| then n - |last| else 0) + last)
  }

  lemma TwiceTheRest(a: nat, width: nat, rest: nat)
    ensures 2 * (a * width + rest) == a * (2 * width) + 2 * rest
  {
  }

  lemma {:induction false} ValueConcat(a: string, b: string)
    ensures Value(a + b) == Value(a) * Pow2(|b|) + Value(b)
    decreases |b|
  {
    if b == [] {
      assert a + b == a;
    } else {
      var front := b[..|b| - 1];
      assert (a + b)[..|a + b| - 1] == a + front;
      ValueConcat(a, front);
      TwiceTheRest(Value(a), Pow2(|front|), Value(front));
    }
  }

  lemma {:induction false} ValueBound(s: string)
    ensures Value(s) < Pow2(|s|)
  {
    if s != [] {
      ValueBound(s[..|s| - 1]);
    }
  }

  /** A string holds a one exactly when its value is not zero. */
  lemma {:induction false} ValueZeroIff(s: string)
    ensures '1' in s <==> Value(s) > 0
  {
    if s != [] {
      ValueZeroIff(s[..|s| - 1]);
      assert s == s[..|s| - 1] + [s[|s| - 1]];
    }
  }

  lemma {:induction false} SameValue(a: string, b: string)
    requires IsBits(a) && IsBits(b) && |a| == |b| && Value(a) == Value(b)
    ensures a == b
  {
    if a != [] {
      SameValue(a[..|a| - 1], b[..|b| - 1]);
      assert a == a[..|a| - 1] + [a[|a| - 1]] && b == b[..|b| - 1] + [b[|b| - 1]];
    }
  }

  lemma {:induction false} ZerosAreZero(n: nat)
    ensures |Zeros(n)| == n && IsBits(Zeros(n)) && Value(Zeros(n)) == 0
  {
    if n > 0 {
      ZerosAreZero(n - 1);
    }
  }

  lemma NibbleValue(d: nat)
    requires d < 16
    ensures IsBits(Nibble(d)) && Value(Nibble(d)) == d
  {
    var s := Nibble(d);
    assert s[..3][..2] == s[..2] && s[..2][..1] == s[..1] && s[..1][..0] == [];
    assert Value(s[..1]) == Bit(s[0]);
    assert Value(s[..2]) == 2 * Bit(s[0]) + Bit(s[1]);
    assert Value(s[..3]) == 4 * Bit(s[0]) + 2 * Bit(s[1]) + Bit(s[2]);
  }

  lemma AppendNibble(s: string, d: nat)
    requires d < 16 && IsBits(s)
    ensures IsBits(s + Nibble(d)) && Value(s + Nibble(d)) == 16 * Value(s) + d
  {
    NibbleValue(d);
    ValueConcat(s, Nibble(d));
    assert Pow2(1) == 2 && Pow2(2) == 4 && Pow2(3) == 8 && Pow2(4) == 16;
  }

  lemma {:induction false} HexBitsValue(i: nat)
    ensures IsBits(HexBits(i)) && Value(HexBits(i)) == i
    decreases i
  {
    if i < 16 {
      NibbleValue(i);
    } else {
      HexBitsValue(i / 16);
      AppendNibble(HexBits(i / 16), i % 16);
    }
  }

  lemma CutInTwo(s: string, n: nat)
    requires 0 < n
    ensures s == UpToLast(s, n) + Last(s, n)
    ensures |Last(s, n)| == if n > |s| then |s| else n
  {
  }

  lemma Quotient(head: nat, width: nat, last: nat)
    requires last < width
    ensures head * width + last < width <==> head == 0
  {
    if head > 0 {
      assert head * width >= width;
    }
  }

  /** What is cut off is zero exactly when the rest is the whole value. */
  lemma CutValue(s: string, n: nat)
    requires n > 0
    ensures '1' in UpToLast(s, n) <==> Value(s) >= Pow2(n)
    ensures Value(s) < Pow2(n) ==> Value(Last(s, n)) == Value(s)
  {
    var head, last := UpToLast(s, n), Last(s, n);
    CutInTwo(s, n);
    ValueZeroIff(head);
    ValueBound(last);
    if n > |s| {
      PowGrows(|s|, n);
    } else {
      ValueConcat(head, last);
      Quotient(Value(head), Pow2(n), Value(last));
    }
  }

  lemma Padded(last: string, n: nat)
    requires |last| <= n && IsBits(last)
    ensures var s := Zeros(n - |last|) + last; |s| == n && IsBits(s) && Value(s) == Value(last)
  {
    var zeros := Zeros(n - |last|);
    ZerosAreZero(n - |last|);
    ValueConcat(zeros, last);
    assert Value(zeros) * Pow2(|last|) == 0;
    BitsConcat(zeros, last);
  }

  lemma BitsConcat(a: string, b: string)
    requires IsBits(a) && IsBits(b)
    ensures IsBits(a + b)
  {
  }

  /** With room for at least one digit: an error exactly when the number needs more, else its n digits. */
  lemma Int2BinIsExact(i: nat, n: nat)
    requires n > 0
    ensures Int2Bin(i, n).None? <==> i >= Pow2(n)
    ensures Int2Bin(i, n).Some? ==>
      var s := Int2Bin(i, n).value; |s| == n && IsBits(s) && Value(s) == i
  {
    HexBitsValue(i);
    CutInTwo(HexBits(i), n);
    CutValue(HexBits(i), n);
    Padded(Last(HexBits(i), n), n);
  }

  lemma {:induction false} PowGrows(m: nat, n: nat)
    requires m <= n
    ensures Pow2(m) <= Pow2(n)
  {
    if m < n {
      PowGrows(m, n - 1);
    }
  }

  /** The error means "too large" exactly when there is room for a digit: with none, no number is refused. */
  lemma ErrorMeansTooLargeIff(n: nat)
    ensures (forall i: nat :: Int2Bin(i, n).None? <==> i >= Pow2(n)) <==> n > 0
  {
    if n > 0 {
      forall i: nat
        ensures Int2Bin(i, n).None? <==> i >= Pow2(n)
      {
        Int2BinIsExact(i, n);
      }
    } else {
      assert UpToLast(HexBits(1), 0) == "";
      assert Int2Bin(1, 0).Some? && 1 >= Pow2(0);
    }
  }

  // ---------------------------------------------------------------- binary_range

  /** Digits from the least significant one on. */
  function LowFirst(v: seq<char>): nat {
    if v == [] then 0 else Bit(v[0]) + 2 * LowFirst(v[1..])
  }

  function Reversed(v: seq<char>): string {
    if v == [] then [] else Reversed(v[1..]) + [v[0]]
  }

  lemma {:induction false} ReversedValue(v: seq<char>)
    requires IsBits(v)
    ensures |Reversed(v)| == |v| && IsBits(Reversed(v)) && Value(Reversed(v)) == LowFirst(v)
  {
    if v != [] {
      ReversedValue(v[1..]);
      assert Reversed(v)[..|v| - 1] == Reversed(v[1..]);
    }
  }

  /** One is added: the low ones become zeros and the first zero, if there is one, a one. */
  predicate Carried(was: seq<char>, now: seq<char>, i: nat) {
    && |was| == |now| && i <= |was|
    && (forall j :: 0 <= j < i ==> was[j] == '1' && now[j] == '0')
    && (i < |was| ==> was[i] == '0' && now[i] == '1')
    && (forall j :: i < j < |was| ==> now[j] == was[j])
  }

  lemma {:induction false} CarriedCounts(a: seq<char>, b: seq<char>, i: nat)
    requires IsBits(a) && Carried(a, b, i)
    ensures IsBits(b)
    ensures if i < |a| then LowFirst(b) == LowFirst(a) + 1 else LowFirst(a) + 1 == Pow2(|a|) && LowFirst(b) == 0
  {
    if i > 0 {
      CarriedCounts(a[1..], b[1..], i - 1);
      assert b == [b[0]] + b[1..];
    } else if a != [] {
      assert a[1..] == b[1..];
    }
  }

  /** The numbers below 2^bits in order, each as written by `Int2Bin`. */
  ghost predicate InOrder(l: seq<string>, bits: nat) {
    forall k :: 0 <= k < |l| ==> Int2Bin(k, bits) == Some(l[k])
  }

  lemma ReversedIsInt2Bin(v: seq<char>)
    requires |v| > 0 && IsBits(v)
    ensures Int2Bin(LowFirst(v), |v|) == Some(Reversed(v))
  {
    ReversedValue(v);
    ValueBound(Reversed(v));
    Int2BinIsExact(LowFirst(v), |v|);
    SameValue(Int2Bin(LowFirst(v), |v|).value, Reversed(v));
  }

  lemma OneMoreAt(l: seq<string>, bits: nat, s: string, k: nat)
    requires InOrder(l, bits) && Int2Bin(|l|, bits) == Some(s) && k <= |l|
    ensures Int2Bin(k, bits) == Some((l + [s])[k])
  {
    if k < |l| {
      assert (l + [s])[k] == l[k];
    }
  }

  lemma OneMore(l: seq<string>, bits: nat, s: string)
    requires InOrder(l, bits) && Int2Bin(|l|, bits) == Some(s)
    ensures InOrder(l + [s], bits)
  {
    forall k | 0 <= k < |l + [s]|
      ensures Int2Bin(k, bits) == Some((l + [s])[k])
    {
      OneMoreAt(l, bits, s, k);
    }
  }

  method CopyReversed(v: array<char>) returns (s: string)
    ensures s == Reversed(v[..])
  {
    s := "";
    assert v[0..] == v[..];
    for i := 0 to v.Length
      invariant Reversed(v[..]) == Reversed(v[i..]) + s
    {
      assert v[i..][1..] == v[i + 1..];
      s := [v[i]] + s;
    }
  }

  /** The inner loop: toggles digits from the lowest on, as long as there is a carry. */
  method AddOne(v: array<char>) returns (toggle: array<int>)
    requires IsBits(v[..])
    modifies v
    ensures fresh(toggle) && toggle.Length == v.Length + 1
    ensures IsBits(v[..])
    ensures toggle[v.Length] == 1 <==> LowFirst(old(v[..])) + 1 == Pow2(v.Length)
    ensures LowFirst(v[..]) == if toggle[v.Length] == 1 then 0 else LowFirst(old(v[..])) + 1
    ensures LowFirst(v[..]) < Pow2(v.Length)
  {
    ghost var was := v[..];
    toggle := new int[v.Length + 1](i => if i == 0 then 1 else 0);
    var i := 0;
    while i < v.Length && toggle[i] == 1
      invariant i <= v.Length
      invariant forall j :: i < j <= v.Length ==> toggle[j] == 0
      invariant toggle[i] == 0 || toggle[i] == 1
      invariant toggle[i] == 1 ==> (forall j :: 0 <= j < i ==> was[j] == '1' && v[j] == '0') && v[i..] == was[i..]
      invariant toggle[i] == 0 ==> i > 0 && Carried(was, v[..], i - 1)
    {
      if v[i] == '0' {
        v[i] := '1';
        toggle[i + 1] := 0;
      } else {
        v[i] := '0';
        toggle[i + 1] := 1;
      }
      i := i + 1;
    }
    CarriedSum(was, v[..], if toggle[i] == 1 then v.Length else i - 1);
  }

  /** What the carry does to the number, and that there is an overflow only when no digit is left. */
  lemma CarriedSum(a: seq<char>, b: seq<char>, i: nat)
    requires IsBits(a) && Carried(a, b, i)
    ensures IsBits(b) && LowFirst(b) < Pow2(|a|)
    ensures i == |a| <==> LowFirst(a) + 1 == Pow2(|a|)
    ensures LowFirst(b) == if i == |a| then 0 else LowFirst(a) + 1
  {
    CarriedCounts(a, b, i);
    ReversedValue(b);
    ValueBound(Reversed(b));
  }

  /** The digits are copied, highest first, to the end of the list. */
  method WriteDown(v: array<char>, l: seq<string>) returns (l': seq<string>)
    requires v.Length > 0 && IsBits(v[..]) && LowFirst(v[..]) == |l| && InOrder(l, v.Length)
    ensures |l'| == |l| + 1 && InOrder(l', v.Length)
  {
    var s := CopyReversed(v);
    ReversedIsInt2Bin(v[..]);
    OneMore(l, v.Length, s);
    l' := l + [s];
  }

  /** Zeros read as nothing. */
  lemma {:induction false} LowFirstOfZeros(v: seq<char>)
    requires forall i :: 0 <= i < |v| ==> v[i] == '0'
    ensures LowFirst(v) == 0
  {
    if v != [] {
      LowFirstOfZeros(v[1..]);
    }
  }

  /** All the numbers that fit, in order; with no digit at all, none. */
  method BinaryRange(bits: nat) returns (l: seq<string>)
    ensures InOrder(l, bits)
    ensures |l| == if bits == 0 then 0 else Pow2(bits)
  {
    l := [];
    var v := new char[bits](_ => '0');
    var toggle := new int[bits + 1](i => if i == 0 then 1 else 0);
    LowFirstOfZeros(v[..]);
    PowGrows(0, bits);
    while toggle[bits] != 1
      invariant fresh(v) && fresh(toggle) && v.Length == bits && toggle.Length == bits + 1
      invariant IsBits(v[..]) && InOrder(l, bits)
      invariant if toggle[bits] == 1 then |l| == (if bits == 0 then 0 else Pow2(bits))
                else bits > 0 && LowFirst(v[..]) == |l| < Pow2(bits)
      decreases Pow2(bits) - |l|, if toggle[bits] == 1 then 0 else 1
    {
      l := WriteDown(v, l);
      toggle := AddOne(v);
    }
  }
}
