/**
 * `convert_vreg_version_to_readable` of velib_python's ve_utils: a VE.Can register version
 * number rendered as "v" followed by its hexadecimal digits in dot-separated groups of two
 * (0x10104 becomes "v1.01.04").
 *
 * The specification functions follow the source's steps: format with "%x", upper-case,
 * pad to an even length when the length is 1, 3 or 5, split into chunks of two, drop a
 * leading '0' from the first chunk, join with dots and prefix 'v'. The methods are the
 * source's loops, proved against them.
 */
module VregVersion {

  const LowerHexDigits: string := "0123456789abcdef"

  /** The digits "%x" gives for a non-negative number: lower case, no leading zero. */
  function HexDigits(n: nat): string
    decreases n
  {
    if n < 16 then [LowerHexDigits[n]] else HexDigits(n / 16) + [LowerHexDigits[n % 16]]
  }

  /** `"%x" % version`; a negative number gets a minus sign in front of its digits. */
  function FormatHex(version: int): string
  {
    if version < 0 then "-" + HexDigits(-version) else HexDigits(version)
  }

  function UpperChar(c: char): char
  {
    if 'a' <= c <= 'z' then (c as int - 32) as char else c
  }

  /** `str.upper()` on the ASCII characters that "%x" can produce. */
  function Upper(s: string): (r: string)
    ensures |r| == |s|
    ensures forall i | 0 <= i < |s| :: r[i] == UpperChar(s[i])
  {
    seq(|s|, i requires 0 <= i < |s| => UpperChar(s[i]))
  }

  /** A string of length 1, 3 or 5 gets a '0' in front. */
  function Padded(x: string): string
  {
    if |x| == 5 || |x| == 3 || |x| == 1 then "0" + x else x
  }

  /** `str_to_arr(x, length)`: consecutive pieces of `length` characters, the last one shorter. */
  function Chunks(x: string, length: nat): seq<string>
    requires length > 0
    decreases |x|
  {
    if |x| == 0 then []
    else if |x| <= length then [x]
    else [x[..length]] + Chunks(x[length..], length)
  }

  function Concat(a: seq<string>): string
  {
    if a == [] then "" else Concat(a[..|a| - 1]) + a[|a| - 1]
  }

  /** With two or more chunks, a first chunk "0d" becomes "d". */
  function TrimFirst(a: seq<string>): seq<string>
  {
    if |a| >= 2 && |a[0]| >= 2 && a[0][..1] == "0" then a[0 := a[0][1..2]] else a
  }

  /** The `result +=` loop: items joined by '.', no dot before the first non-empty item. */
  function Joined(a: seq<string>): string
  {
    if a == [] then ""
    else
      var r := Joined(a[..|a| - 1]);
      r + (if r != "" then "." else "") + a[|a| - 1]
  }

  /** The chunks of the upper-cased, padded hexadecimal form. */
  function HexChunks(version: int): seq<string>
  {
    Chunks(Padded(Upper(FormatHex(version))), 2)
  }

  function Readable(version: int): string
  {
    "v" + Joined(TrimFirst(HexChunks(version)))
  }

  // ---------------------------------------------------------------- the source's loops

  /** `str_to_arr`: a `for` loop over `range(0, len(x), length)` appending slices. */
  method StrToArr(x: string, length: int) returns (a: seq<string>)
    requires length != 0
    ensures length < 0 ==> a == []
    ensures length > 0 ==> a == Chunks(x, length)
  {
    a := [];
    if length < 0 {
      return;
    }
    var i := 0;
    while i < |x|
      invariant 0 <= i
      invariant a + Chunks(x[Min(i, |x|)..], length) == Chunks(x, length)
      decreases |x| - i
    {
      ChunksStep(x, i, length, a);
      a := a + [x[i..Min(i + length, |x|)]];
      i := i + length;
    }
    ChunksDone(x, i, length, a);
  }

  /** `convert_vreg_version_to_readable`. */
  method ConvertVregVersionToReadable(version: int) returns (result: string)
    ensures result == Readable(version)
  {
    var x := FormatHex(version);
    x := Upper(x);
    if |x| == 5 || |x| == 3 || |x| == 1 {
      x := "0" + x;
    }
    var a := StrToArr(x, 2);
    assert x == Padded(Upper(FormatHex(version)));
    assert a == HexChunks(version);
    FirstChunkNotDoubleZero(version);
    if |a| == 3 && a[0] == "00" {
      // `a.remove(0)` would raise here, but no version reaches this line
      assert false;
    }
    if |a| >= 2 && a[0][..1] == "0" {
      assert |a[0]| == 2;
      a := a[0 := a[0][1..2]];
    }
    assert a == TrimFirst(HexChunks(version));
    result := JoinWithDots(a);
    result := "v" + result;
  }

  /** The `result +=` loop of `convert_vreg_version_to_readable`. */
  method JoinWithDots(a: seq<string>) returns (result: string)
    ensures result == Joined(a)
  {
    result := "";
    var i := 0;
    while i < |a|
      invariant 0 <= i <= |a|
      invariant result == Joined(a[..i])
    {
      assert a[..i + 1][..i] == a[..i];
      result := result + (if result != "" then "." else "") + a[i];
      i := i + 1;
    }
    assert a[..|a|] == a;
  }

  // ---------------------------------------------------------------- lemmas

  function Min(a: int, b: int): int
  {
    if a <= b then a else b
  }

  lemma {:induction false} ChunksAt(x: string, i: nat, length: nat)
    requires length > 0 && i < |x|
    ensures Chunks(x[i..], length) ==
            [x[i..Min(i + length, |x|)]] + Chunks(x[Min(i + length, |x|)..], length)
  {
    if i + length >= |x| {
      assert x[i..Min(i + length, |x|)] == x[i..];
      assert x[Min(i + length, |x|)..] == [];
      assert Chunks(x[i..], length) == [x[i..]];
    } else {
      assert x[i..][..length] == x[i..i + length];
      assert x[i..][length..] == x[i + length..];
    }
  }

  /** One pass of the `str_to_arr` loop keeps the pieces cut so far a prefix of all of them. */
  lemma {:induction false} ChunksStep(x: string, i: nat, length: nat, a: seq<string>)
    requires length > 0 && i < |x|
    requires a + Chunks(x[Min(i, |x|)..], length) == Chunks(x, length)
    ensures (a + [x[i..Min(i + length, |x|)]]) + Chunks(x[Min(i + length, |x|)..], length) == Chunks(x, length)
  {
    ChunksAt(x, i, length);
    var piece := x[i..Min(i + length, |x|)];
    assert a + ([piece] + Chunks(x[Min(i + length, |x|)..], length)) ==
           (a + [piece]) + Chunks(x[Min(i + length, |x|)..], length);
  }

  lemma {:induction false} ChunksDone(x: string, i: nat, length: nat, a: seq<string>)
    requires length > 0 && i >= |x|
    requires a + Chunks(x[Min(i, |x|)..], length) == Chunks(x, length)
    ensures a == Chunks(x, length)
  {
    assert x[Min(i, |x|)..] == [];
    assert a + [] == a;
  }

  lemma {:induction false} ConcatAppend(a: seq<string>, b: seq<string>)
    ensures Concat(a + b) == Concat(a) + Concat(b)
    decreases |b|
  {
    if b == [] {
      assert a + b == a;
    } else {
      var init := b[..|b| - 1];
      assert a + b == (a + init) + [b[|b| - 1]];
      assert (a + b)[..|a + b| - 1] == a + init;
      ConcatAppend(a, init);
    }
  }

  /** Joining the chunks back together gives the string that was cut. */
  lemma {:induction false} ConcatChunks(x: string, length: nat)
    requires length > 0
    ensures Concat(Chunks(x, length)) == x
    decreases |x|
  {
    if |x| == 0 {
    } else if |x| <= length {
      assert Concat([x]) == Concat([]) + x;
    } else {
      ConcatChunks(x[length..], length);
      ConcatAppend([x[..length]], Chunks(x[length..], length));
      assert Concat([x[..length]]) == Concat([]) + x[..length];
      assert x[..length] + x[length..] == x;
    }
  }

  /** All chunks have `length` characters except the last, which is not empty. */
  lemma {:induction false} ChunkSizes(x: string, length: nat)
    requires length > 0
    ensures |x| > length ==> |Chunks(x, length)| >= 2 && Chunks(x, length)[0] == x[..length]
    ensures |x| <= length ==> |Chunks(x, length)| <= 1
    ensures forall k | 0 <= k < |Chunks(x, length)| :: 0 < |Chunks(x, length)[k]| <= length
    ensures forall k | 0 <= k < |Chunks(x, length)| - 1 :: |Chunks(x, length)[k]| == length
    decreases |x|
  {
    if |x| > length {
      ChunkSizes(x[length..], length);
    }
  }

  /** A string of even length is cut into pairs. */
  lemma {:induction false} ChunksOfEven(x: string)
    requires |x| % 2 == 0
    ensures forall k | 0 <= k < |Chunks(x, 2)| :: |Chunks(x, 2)[k]| == 2
    decreases |x|
  {
    if |x| > 2 {
      ChunksOfEven(x[2..]);
    }
  }

  /** Every piece holds only characters of the string it was cut from. */
  lemma {:induction false} ChunksKeepChars(x: string, length: nat)
    requires length > 0
    requires forall j | 0 <= j < |x| :: HexOrMinus(x[j])
    ensures forall k, j | 0 <= k < |Chunks(x, length)| && 0 <= j < |Chunks(x, length)[k]| ::
              HexOrMinus(Chunks(x, length)[k][j])
    decreases |x|
  {
    if |x| > length {
      ChunksKeepChars(x[length..], length);
    }
  }

  function DigitValue(c: char): nat
  {
    if '0' <= c <= '9' then c as nat - '0' as nat
    else if 'a' <= c <= 'f' then c as nat - 'a' as nat + 10
    else if 'A' <= c <= 'F' then c as nat - 'A' as nat + 10
    else 0
  }

  /** The number a string of hexadecimal digits denotes. */
  function HexValue(s: string): nat
  {
    if s == [] then 0 else HexValue(s[..|s| - 1]) * 16 + DigitValue(s[|s| - 1])
  }

  /** "%x" is positional base 16: reading the digits back gives the number. */
  lemma {:induction false} HexDigitsValue(n: nat)
    ensures HexValue(HexDigits(n)) == n
    decreases n
  {
    var s := HexDigits(n);
    if n >= 16 {
      HexDigitsValue(n / 16);
      assert s[..|s| - 1] == HexDigits(n / 16);
      assert DigitValue(LowerHexDigits[n % 16]) == n % 16;
    } else {
      assert s[..0] == [];
      assert DigitValue(LowerHexDigits[n]) == n;
    }
  }

  /** "%x" uses lower-case digits and writes no leading zero. */
  lemma {:induction false} HexDigitsShape(n: nat)
    ensures |HexDigits(n)| >= 1
    ensures n > 0 ==> HexDigits(n)[0] != '0'
    ensures forall i | 0 <= i < |HexDigits(n)| :: IsLowerHexDigit(HexDigits(n)[i])
    decreases n
  {
    if n >= 16 {
      HexDigitsShape(n / 16);
    }
  }

  function Pow16(k: nat): nat
  {
    if k == 0 then 1 else 16 * Pow16(k - 1)
  }

  /** "%x" writes at most `k` digits exactly for the numbers below 16 to the `k`. */
  lemma {:induction false} HexDigitsLength(n: nat, k: nat)
    requires k >= 1
    ensures |HexDigits(n)| <= k <==> n < Pow16(k)
    decreases n
  {
    if n >= 16 {
      if k > 1 {
        HexDigitsLength(n / 16, k - 1);
        assert n / 16 < Pow16(k - 1) <==> n < 16 * Pow16(k - 1);
      } else {
        assert |HexDigits(n)| == |HexDigits(n / 16)| + 1;
        HexDigitsShape(n / 16);
      }
    } else {
      PowPositive(k);
    }
  }

  lemma {:induction false} PowPositive(k: nat)
    ensures Pow16(k) >= 16 || k == 0
    decreases k
  {
    if k > 1 {
      PowPositive(k - 1);
    }
  }

  predicate IsLowerHexDigit(c: char) { '0' <= c <= '9' || 'a' <= c <= 'f' }

  predicate IsUpperHexDigit(c: char) { '0' <= c <= '9' || 'A' <= c <= 'F' }

  predicate HexOrMinus(c: char) { IsUpperHexDigit(c) || c == '-' }

  /** Upper-casing "%x" output gives upper-case digits and keeps the leading digit non-zero. */
  lemma {:induction false} UpperHexDigitsShape(n: nat)
    ensures var h := Upper(HexDigits(n));
            |h| == |HexDigits(n)| && (n > 0 ==> h[0] != '0') &&
            forall i | 0 <= i < |h| :: IsUpperHexDigit(h[i])
  {
    HexDigitsShape(n);
  }

  /** With two or more chunks the first is never "00", so the `a.remove(0)` branch is dead. */
  lemma {:induction false} FirstChunkNotDoubleZero(version: int)
    ensures |HexChunks(version)| >= 2 ==> HexChunks(version)[0] != "00"
  {
    var h := Upper(FormatHex(version));
    var p := Padded(h);
    LeadingChar(version);
    if |p| > 2 {
      assert HexChunks(version) == [p[..2]] + Chunks(p[2..], 2);
      assert p[0] != '0' || p[1] != '0';
    } else if |p| > 0 {
      assert HexChunks(version) == [p];
    }
  }

  /** The upper-cased "%x" form starts with a character other than '0', except for 0 itself. */
  lemma {:induction false} LeadingChar(version: int)
    ensures var h := Upper(FormatHex(version));
            |h| >= 1 && (version == 0 ==> h == "0") && (version != 0 ==> h[0] != '0')
  {
    if version < 0 {
      HexDigitsShape(-version);
      assert FormatHex(version)[0] == '-';
    } else {
      HexDigitsShape(version);
      assert IsLowerHexDigit(FormatHex(version)[0]);
      assert version == 0 ==> FormatHex(version) == "0";
    }
  }

  /** Every character is a hexadecimal digit in upper case, a minus sign or a dot. */
  predicate VersionChar(c: char)
  {
    IsUpperHexDigit(c) || c == '-' || c == '.'
  }

  /** The groups of the hexadecimal form: never empty, never holding a dot. */
  lemma {:induction false} GroupsShape(version: int)
    ensures var g := TrimFirst(HexChunks(version));
            |g| >= 1 &&
            forall k | 0 <= k < |g| :: |g[k]| > 0 && forall j | 0 <= j < |g[k]| :: HexOrMinus(g[k][j])
  {
    var p := Padded(Upper(FormatHex(version)));
    PaddedChars(version);
    ChunkSizes(p, 2);
    ChunksKeepChars(p, 2);
    TrimFirstKeepsShape(Chunks(p, 2));
  }

  /** The padded, upper-cased "%x" form: hexadecimal digits and at most a minus sign. */
  lemma {:induction false} PaddedChars(version: int)
    ensures var p := Padded(Upper(FormatHex(version)));
            |p| >= 1 && forall j | 0 <= j < |p| :: HexOrMinus(p[j])
  {
    FormatChars(version);
    UpperChars(FormatHex(version));
    PadChars(Upper(FormatHex(version)));
  }

  lemma {:induction false} FormatChars(version: int)
    ensures var f := FormatHex(version);
            |f| >= 1 && forall j | 0 <= j < |f| :: IsLowerHexDigit(f[j]) || f[j] == '-'
  {
    if version < 0 {
      HexDigitsShape(-version);
      MinusChars(HexDigits(-version));
    } else {
      HexDigitsShape(version);
    }
  }

  lemma {:induction false} MinusChars(d: string)
    requires forall j | 0 <= j < |d| :: IsLowerHexDigit(d[j])
    ensures forall j | 0 <= j < |"-" + d| :: IsLowerHexDigit(("-" + d)[j]) || ("-" + d)[j] == '-'
  {
    assert forall j | 1 <= j < |d| + 1 :: ("-" + d)[j] == d[j - 1];
  }

  lemma {:induction false} UpperChars(f: string)
    requires forall j | 0 <= j < |f| :: IsLowerHexDigit(f[j]) || f[j] == '-'
    ensures forall j | 0 <= j < |Upper(f)| :: HexOrMinus(Upper(f)[j])
  {
  }

  lemma {:induction false} PadChars(h: string)
    requires |h| >= 1 && forall j | 0 <= j < |h| :: HexOrMinus(h[j])
    ensures |Padded(h)| >= 1 && forall j | 0 <= j < |Padded(h)| :: HexOrMinus(Padded(h)[j])
  {
    if |h| == 5 || |h| == 3 || |h| == 1 {
      assert forall j | 1 <= j < |h| + 1 :: ("0" + h)[j] == h[j - 1];
    }
  }

  /** Trimming the first group keeps every group non-empty and its characters. */
  lemma {:induction false} TrimFirstKeepsShape(a: seq<string>)
    requires |a| >= 1
    requires forall k | 0 <= k < |a| :: |a[k]| > 0 && forall j | 0 <= j < |a[k]| :: HexOrMinus(a[k][j])
    ensures var g := TrimFirst(a);
            |g| >= 1 &&
            forall k | 0 <= k < |g| :: |g[k]| > 0 && forall j | 0 <= j < |g[k]| :: HexOrMinus(g[k][j])
  {
    if |a| >= 2 && |a[0]| >= 2 && a[0][..1] == "0" {
      assert a[0][1..2][0] == a[0][1];
    }
  }

  /** The shape of the result: 'v', then groups joined by single dots, none at either end. */
  lemma {:induction false} ReadableForm(version: int)
    ensures var r := Readable(version);
            |r| >= 2 && r[0] == 'v' && r[1] != '.' && r[|r| - 1] != '.' &&
            (forall i | 1 <= i < |r| :: VersionChar(r[i])) &&
            (forall i | 1 <= i < |r| - 1 :: r[i] == '.' ==> r[i + 1] != '.')
  {
    var g := TrimFirst(HexChunks(version));
    GroupsShape(version);
    JoinedForm(g);
  }

  lemma {:induction false} JoinedForm(g: seq<string>)
    requires |g| >= 1
    requires forall k | 0 <= k < |g| :: |g[k]| > 0 && forall j | 0 <= j < |g[k]| :: HexOrMinus(g[k][j])
    ensures var s := Joined(g);
            |s| >= 1 && s[0] != '.' && s[|s| - 1] != '.' &&
            (forall i | 0 <= i < |s| :: VersionChar(s[i])) &&
            (forall i | 0 <= i < |s| - 1 :: s[i] == '.' ==> s[i + 1] != '.')
    decreases |g|
  {
    var last := g[|g| - 1];
    if |g| == 1 {
      assert g[..0] == [];
      assert Joined(g) == last;
    } else {
      var init := g[..|g| - 1];
      JoinedForm(init);
      var r := Joined(init);
      assert Joined(g) == r + "." + last;
    }
  }

  /** The characters of `s` other than dots. */
  function WithoutDots(s: string): string
  {
    if s == [] then ""
    else WithoutDots(s[..|s| - 1]) + (if s[|s| - 1] == '.' then "" else [s[|s| - 1]])
  }

  lemma {:induction false} WithoutDotsAppend(a: string, b: string)
    ensures WithoutDots(a + b) == WithoutDots(a) + WithoutDots(b)
    decreases |b|
  {
    if b != [] {
      assert (a + b)[..|a + b| - 1] == a + b[..|b| - 1];
      WithoutDotsAppend(a, b[..|b| - 1]);
    } else {
      assert a + b == a;
    }
  }

  lemma {:induction false} WithoutDotsNoDots(s: string)
    requires forall j | 0 <= j < |s| :: HexOrMinus(s[j])
    ensures WithoutDots(s) == s
    decreases |s|
  {
    if s != [] {
      WithoutDotsNoDots(s[..|s| - 1]);
    }
  }

  lemma {:induction false} WithoutDotsJoin(r: string, last: string)
    requires forall j | 0 <= j < |last| :: HexOrMinus(last[j])
    ensures WithoutDots(r + (if r != "" then "." else "") + last) == WithoutDots(r) + last
  {
    WithoutDotsNoDots(last);
    if r != "" {
      assert r + (if r != "" then "." else "") + last == (r + ".") + last;
      WithoutDotsAppend(r + ".", last);
      WithoutDotsAppend(r, ".");
      WithoutDotsOfDot();
    } else {
      assert r + "" + last == last;
      assert WithoutDots(r) == "";
    }
  }

  lemma {:induction false} WithoutDotsOfDot()
    ensures WithoutDots(".") == ""
  {
    assert "."[..0] == "";
  }

  /** Dropping the dots of the joined groups gives the groups run together. */
  lemma {:induction false} JoinedWithoutDots(g: seq<string>)
    requires forall k | 0 <= k < |g| :: forall j | 0 <= j < |g[k]| :: HexOrMinus(g[k][j])
    ensures WithoutDots(Joined(g)) == Concat(g)
    decreases |g|
  {
    if g != [] {
      var init, last := g[..|g| - 1], g[|g| - 1];
      JoinedWithoutDots(init);
      WithoutDotsJoin(Joined(init), last);
    }
  }

  lemma {:induction false} HexValueLeadingZero(s: string)
    ensures HexValue("0" + s) == HexValue(s)
    decreases |s|
  {
    if s == [] {
      assert ("0" + s)[..0] == [];
    } else {
      assert ("0" + s)[..|"0" + s| - 1] == "0" + s[..|s| - 1];
      HexValueLeadingZero(s[..|s| - 1]);
    }
  }

  lemma {:induction false} HexValueUpper(s: string)
    ensures HexValue(Upper(s)) == HexValue(s)
    decreases |s|
  {
    if s != [] {
      assert Upper(s)[..|s| - 1] == Upper(s[..|s| - 1]);
      HexValueUpper(s[..|s| - 1]);
    }
  }

  lemma {:induction false} ConcatFirst(a: seq<string>)
    requires |a| >= 1
    ensures Concat(a) == a[0] + Concat(a[1..])
  {
    ConcatAppend([a[0]], a[1..]);
    assert [a[0]] + a[1..] == a;
    assert Concat([a[0]]) == a[0] by {
      assert [a[0]][..0] == [];
    }
  }

  /** Taking away the '0' that padding put in front of the first chunk leaves the digits of "%X". */
  lemma {:induction false} DigitsOfGroups(version: nat)
    ensures var h := Upper(HexDigits(version));
            Concat(TrimFirst(HexChunks(version))) == if version < 0x100 then Padded(h) else h
  {
    var h := Upper(HexDigits(version));
    UpperHexDigitsShape(version);
    HexDigitsLength(version, 2);
    assert Pow16(2) == 0x100;
    if |h| >= 3 {
      TrimPadded(h);
    } else {
      var p := Padded(h);
      assert |p| == 2 && Chunks(p, 2) == [p];
      assert Concat([p]) == p by {
        assert [p][..0] == [];
      }
    }
  }

  /** For three digits or more, trimming the first chunk undoes the padding. */
  lemma {:induction false} TrimPadded(h: string)
    requires |h| >= 3 && h[0] != '0'
    ensures Concat(TrimFirst(Chunks(Padded(h), 2))) == h
  {
    if |h| == 3 || |h| == 5 {
      TrimPaddedOdd(h);
    } else {
      var a := Chunks(h, 2);
      assert Padded(h) == h;
      ChunkSizes(h, 2);
      assert a[0] == h[..2] && a[0][..1] == h[..1];
      assert TrimFirst(a) == a;
      ConcatChunks(h, 2);
    }
  }

  lemma {:induction false} TrimPaddedOdd(h: string)
    requires |h| == 3 || |h| == 5
    ensures Concat(TrimFirst(Chunks(Padded(h), 2))) == h
  {
    var p := "0" + h;
    assert Padded(h) == p;
    var rest := Chunks(p[2..], 2);
    assert |rest| >= 1;
    assert Chunks(p, 2) == [p[..2]] + rest;
    assert p[..2] == ['0', h[0]] && p[2..] == h[1..];
    assert p[..2][..1] == "0" && p[..2][1..2] == [h[0]];
    assert TrimFirst([p[..2]] + rest) == [[h[0]]] + rest;
    ConcatFirst([[h[0]]] + rest);
    assert ([[h[0]]] + rest)[1..] == rest;
    ConcatChunks(h[1..], 2);
    assert [h[0]] + h[1..] == h;
  }

  /**
   * What the result says: dropping the 'v' and the dots leaves hexadecimal digits that
   * denote the version, so nothing was lost or added but a leading zero.
   */
  lemma {:induction false} ReadableDenotesVersion(version: nat)
    ensures HexValue(WithoutDots(Readable(version)[1..])) == version
  {
    var h := Upper(HexDigits(version));
    var g := TrimFirst(HexChunks(version));
    GroupsShape(version);
    JoinedWithoutDots(g);
    assert Readable(version)[1..] == Joined(g);
    DigitsOfGroups(version);
    HexDigitsValue(version);
    HexValueUpper(HexDigits(version));
    if |h| == 1 || |h| == 3 || |h| == 5 {
      HexValueLeadingZero(h);
    }
  }

  /** Below 0x1000000 every group after the first holds exactly one byte: two digits. */
  lemma {:induction false} GroupSizes(version: nat)
    requires 0x100 <= version < 0x100_0000
    ensures var g := TrimFirst(HexChunks(version));
            |g| >= 2 && 1 <= |g[0]| <= 2 && forall k | 1 <= k < |g| :: |g[k]| == 2
  {
    var h := Upper(HexDigits(version));
    var p := Padded(h);
    UpperHexDigitsShape(version);
    HexDigitsLength(version, 2);
    HexDigitsLength(version, 6);
    assert Pow16(2) == 0x100;
    assert Pow16(6) == 0x100_0000;
    assert 3 <= |h| <= 6;
    assert |p| % 2 == 0;
    ChunkSizes(p, 2);
    ChunksOfEven(p);
  }

  /** A single group keeps its padding. */
  lemma {:induction false} ReadableZero()
    ensures Readable(0) == "v00"
  {
    assert Chunks("00", 2) == ["00"];
  }

  /** A leading '0' is dropped from the first of two groups. */
  lemma {:induction false} ReadableTwoGroups()
    ensures Readable(0x101) == "v1.01"
  {
    HexChunksOf0x101();
    assert "01"[..1] == "0" && "01"[1..2] == "1";
    assert TrimFirst(["01", "01"]) == ["1", "01"];
    JoinedOf1And01();
  }

  lemma {:induction false} JoinedOf1And01()
    ensures Joined(["1", "01"]) == "1.01"
  {
    assert ["1", "01"][..1] == ["1"];
    assert Joined(["1"]) == "1" by {
      assert ["1"][..0] == [];
    }
  }

  lemma {:induction false} HexChunksOf0x101()
    ensures HexChunks(0x101) == ["01", "01"]
  {
    assert HexDigits(0x101) == "101" by {
      assert HexDigits(1) == "1";
      assert HexDigits(0x10) == "10";
    }
    assert Upper("101") == "101";
    assert Padded("101") == "0101";
    assert Chunks("0101", 2) == ["01", "01"] by {
      assert "0101"[..2] == "01" && "0101"[2..] == "01";
      assert Chunks("01", 2) == ["01"];
    }
  }
}
