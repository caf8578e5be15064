/** Paths as the bytes that the program compares and measures (src/apath.rs, src/hunk_index.rs). */
module Utf8 {
  import opened Base
  import opened Apaths
  import opened Entries
  import opened HunkIndex

  function Continuation(n: nat): Byte {
    (0x80 + n % 0x40) as Byte
  }

  /** The UTF-8 form of one character. */
  function Encode(c: char): (bytes: Bytes)
    ensures bytes != []
  {
    var n := c as int;
    if n < 0x80 then [n as Byte]
    else if n < 0x800 then [(0xC0 + n / 0x40) as Byte, Continuation(n)]
    else if n < 0x1_0000 then [(0xE0 + n / 0x1000) as Byte, Continuation(n / 0x40), Continuation(n)]
    else [(0xF0 + n / 0x4_0000) as Byte, Continuation(n / 0x1000), Continuation(n / 0x40), Continuation(n)]
  }

  function EncodeAll(s: string): Bytes {
    if s == "" then [] else Encode(s[0]) + EncodeAll(s[1..])
  }

  function CompareBytes(a: Bytes, b: Bytes): Ordering {
    if a == [] then (if b == [] then Equal else Less)
    else if b == [] then Greater
    else if a[0] < b[0] then Less
    else if a[0] > b[0] then Greater
    else CompareBytes(a[1..], b[1..])
  }

  lemma {:induction false} CompareSame(a: Bytes, x: Bytes, y: Bytes)
    ensures CompareBytes(a + x, a + y) == CompareBytes(x, y)
  {
    if a == [] {
      assert a + x == x && a + y == y;
    } else {
      assert (a + x)[1..] == a[1..] + x && (a + y)[1..] == a[1..] + y;
      CompareSame(a[1..], x, y);
    }
  }

  lemma {:induction false} CompareFlips(a: Bytes, b: Bytes)
    ensures CompareBytes(b, a) == CompareBytes(a, b).Flip()
  {
    if a != [] && b != [] {
      CompareFlips(a[1..], b[1..]);
    }
  }

  /** The first byte where two forms part decides, whatever comes after. */
  lemma FirstByteDecides(common: Bytes, a: Bytes, b: Bytes, x: Bytes, y: Bytes)
    requires a != [] && b != [] && a[0] < b[0]
    ensures CompareBytes(common + a + x, common + b + y) == Less
  {
    CompareSame(common, a + x, b + y);
    assert common + a + x == common + (a + x) && common + b + y == common + (b + y);
  }

  /** In base 64 the first digit where two numbers part decides. */
  lemma Digits(n: nat, m: nat)
    ensures n < m <==> n / 0x40 < m / 0x40 || (n / 0x40 == m / 0x40 && n % 0x40 < m % 0x40)
  {
  }

  lemma HigherDigits(n: nat)
    ensures n / 0x40 / 0x40 == n / 0x1000 && n / 0x1000 / 0x40 == n / 0x4_0000
  {
  }

  /** Forms of different length part at the first byte. */
  lemma ShorterIsLower(c: char, d: char)
    requires c < d && |Encode(c)| != |Encode(d)|
    ensures Encode(c)[0] < Encode(d)[0]
  {
  }

  lemma PartingTwo(c: char, d: char) returns (k: nat)
    requires c < d && |Encode(c)| == |Encode(d)| == 2
    ensures k < 2 && Encode(c)[..k] == Encode(d)[..k] && Encode(c)[k] < Encode(d)[k]
  {
    Digits(c as int, d as int);
    k := if c as int / 0x40 < d as int / 0x40 then 0 else 1;
  }

  lemma PartingThree(c: char, d: char) returns (k: nat)
    requires c < d && |Encode(c)| == |Encode(d)| == 3
    ensures k < 3 && Encode(c)[..k] == Encode(d)[..k] && Encode(c)[k] < Encode(d)[k]
  {
    var n, m := c as int, d as int;
    Digits(n, m);
    Digits(n / 0x40, m / 0x40);
    HigherDigits(n);
    HigherDigits(m);
    k := if n / 0x1000 < m / 0x1000 then 0 else if n / 0x40 < m / 0x40 then 1 else 2;
  }

  lemma PartingFour(c: char, d: char) returns (k: nat)
    requires c < d && |Encode(c)| == |Encode(d)| == 4
    ensures k < 4 && Encode(c)[..k] == Encode(d)[..k] && Encode(c)[k] < Encode(d)[k]
  {
    var n, m := c as int, d as int;
    Digits(n, m);
    Digits(n / 0x40, m / 0x40);
    Digits(n / 0x1000, m / 0x1000);
    HigherDigits(n);
    HigherDigits(m);
    k := if n / 0x4_0000 < m / 0x4_0000 then 0 else if n / 0x1000 < m / 0x1000 then 1
         else if n / 0x40 < m / 0x40 then 2 else 3;
  }

  /** Where the forms of two characters part: at some byte that they both have, before which they are the same. */
  lemma PartingByte(c: char, d: char) returns (k: nat)
    requires c < d
    ensures k < |Encode(c)| && k < |Encode(d)| && Encode(c)[..k] == Encode(d)[..k] && Encode(c)[k] < Encode(d)[k]
  {
    if |Encode(c)| != |Encode(d)| {
      k := 0;
      ShorterIsLower(c, d);
    } else if |Encode(c)| == 1 {
      k := 0;
    } else if |Encode(c)| == 2 {
      k := PartingTwo(c, d);
    } else if |Encode(c)| == 3 {
      k := PartingThree(c, d);
    } else {
      k := PartingFour(c, d);
    }
  }

  lemma CharOrder(c: char, d: char, x: Bytes, y: Bytes)
    requires c < d
    ensures CompareBytes(Encode(c) + x, Encode(d) + y) == Less
  {
    var a, b := Encode(c), Encode(d);
    var k := PartingByte(c, d);
    FirstByteDecides(a[..k], a[k..], b[k..], x, y);
    assert a[..k] + a[k..] == a && a[..k] + b[k..] == b;
  }

  /** Comparing texts character by character is the same as comparing their bytes, which the program does. */
  lemma {:induction false} ByteOrder(a: string, b: string)
    ensures CompareBytes(EncodeAll(a), EncodeAll(b)) == CompareNames(a, b)
  {
    if a != "" && b != "" {
      if a[0] == b[0] {
        CompareSame(Encode(a[0]), EncodeAll(a[1..]), EncodeAll(b[1..]));
        ByteOrder(a[1..], b[1..]);
      } else if a[0] < b[0] {
        CharOrder(a[0], b[0], EncodeAll(a[1..]), EncodeAll(b[1..]));
      } else {
        CharOrder(b[0], a[0], EncodeAll(b[1..]), EncodeAll(a[1..]));
        CompareFlips(EncodeAll(b), EncodeAll(a));
      }
    }
  }

  /** The length of a text, as the program measures it, is that of its bytes. */
  lemma {:induction false} LengthInBytes(s: string)
    ensures Utf8Len(s) == |EncodeAll(s)|
  {
    if s != "" {
      LengthInBytes(s[1..]);
    }
  }

  lemma {:induction false} EncodeAppend(s: string, t: string)
    ensures EncodeAll(s + t) == EncodeAll(s) + EncodeAll(t)
  {
    if s == "" {
      assert s + t == t;
    } else {
      assert (s + t)[1..] == s[1..] + t;
      EncodeAppend(s[1..], t);
    }
  }

  /** Cutting a text at a byte gives the rest exactly if some front part of it has that many bytes. */
  lemma {:induction false} CutAtByte(t: string, n: nat, rest: string)
    ensures FromByte(t, n) == Some(rest) <==> exists k :: 0 <= k <= |t| && rest == t[k..] && |EncodeAll(t[..k])| == n
    decreases t
  {
    if n == 0 {
      assert t[0..] == t && t[..0] == "";
      forall k | 0 <= k <= |t| && |EncodeAll(t[..k])| == 0 ensures k == 0 {
      }
    } else if t != "" {
      var w := Utf8Width(t[0]);
      assert |Encode(t[0])| == w;
      forall k | 0 < k <= |t|
        ensures |EncodeAll(t[..k])| == w + |EncodeAll(t[1..][..k - 1])| && t[k..] == t[1..][k - 1..]
      {
        assert t[..k][1..] == t[1..][..k - 1];
      }
      assert t[..0] == "";
      if w <= n {
        CutAtByte(t[1..], n - w, rest);
        if k :| 0 <= k <= |t[1..]| && rest == t[1..][k..] && |EncodeAll(t[1..][..k])| == n - w {
          assert 0 < k + 1 <= |t| && t[k + 1..] == rest;
        }
      }
    }
  }
}
