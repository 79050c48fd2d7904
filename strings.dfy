/** The handful of Python `str` operations the synchronisation core relies on
    (`startswith`, `in`, `lower`, `replace`, `strip`, `split`, `join`, `str(int)`,
    `int(str)`), written out over `seq<char>`. Case mapping covers the
    regular one-to-one blocks `LowerChar` lists. */
module Strings {
  import opened Wrappers

  predicate StartsWith(s: string, prefix: string) {
    |prefix| <= |s| && s[..|prefix|] == prefix
  }

  predicate EndsWith(s: string, suffix: string) {
    |suffix| <= |s| && s[|s| - |suffix|..] == suffix
  }

  /** `needle` occurs in `hay` starting at index `i`. */
  predicate OccursAt(hay: string, needle: string, i: int) {
    0 <= i <= |hay| - |needle| && hay[i..i + |needle|] == needle
  }

  /** Python's `needle in hay` for strings: `needle` occurs as a contiguous slice. */
  predicate Contains(hay: string, needle: string) {
    exists i | 0 <= i <= |hay| - |needle| :: OccursAt(hay, needle, i)
  }

  /** Python's lower case of one character, for the capitals whose lower
      case is one character, does not depend on the context and follows a
      regular pattern: ASCII; Latin-1; Latin Extended-A; the digraphs and the
      paired letters of Latin Extended-B; Latin Extended Additional and `ẞ`;
      Greek and Coptic, accented capitals included (final-sigma `Σ` excepted);
      Cyrillic and Cyrillic Supplement; Armenian; Georgian Asomtavruli; Roman numerals;
      circled letters; full-width Latin. Every other character is left as it is. */
  function LowerChar(c: char): char {
    if InLatinBlocks(c) then LowerLatin(c)
    else if InGreekCyrillicBlocks(c) then LowerGreekCyrillic(c)
    else LowerOther(c)
  }

  predicate InLatinBlocks(c: char) {
    c < '\U{0370}' || '\U{1E00}' <= c <= '\U{1EFF}'
  }

  predicate InGreekCyrillicBlocks(c: char) {
    '\U{0370}' <= c < '\U{0530}'
  }

  /** ASCII, Latin-1, Latin Extended-A and -B, IPA, Latin Extended Additional. */
  function LowerLatin(c: char): char {
    var n := c as int;
    var even := n % 2 == 0;
    if 'A' <= c <= 'Z' || (0xC0 <= n <= 0xDE && n != 0xD7) then (n + 0x20) as char
    else if even && (0x100 <= n <= 0x12F || 0x132 <= n <= 0x137 || 0x14A <= n <= 0x177) then (n + 1) as char
    else if !even && (0x139 <= n <= 0x148 || 0x179 <= n <= 0x17E) then (n + 1) as char
    else if n == 0x178 then 0xFF as char
    else if n == 0x1C4 || n == 0x1C7 || n == 0x1CA || n == 0x1F1 then (n + 2) as char
    else if n == 0x1C5 || n == 0x1C8 || n == 0x1CB || n == 0x1F2 || n == 0x1F4 then (n + 1) as char
    else if !even && 0x1CD <= n <= 0x1DB then (n + 1) as char
    else if even && (0x1DE <= n <= 0x1EE || 0x1F8 <= n <= 0x21E || 0x222 <= n <= 0x232 || 0x246 <= n <= 0x24E) then (n + 1) as char
    else if even && (0x1E00 <= n <= 0x1E94 || 0x1EA0 <= n <= 0x1EFE) then (n + 1) as char
    else if n == 0x1E9E then 0xDF as char
    else c
  }

  /** Greek and Coptic, Cyrillic and Cyrillic Supplement. */
  function LowerGreekCyrillic(c: char): char {
    var n := c as int;
    var even := n % 2 == 0;
    if 0x391 <= n <= 0x3AB && n != 0x3A2 && n != 0x3A3 then (n + 0x20) as char
    else if n == 0x386 then 0x3AC as char
    else if 0x388 <= n <= 0x38A then (n + 0x25) as char
    else if n == 0x38C then 0x3CC as char
    else if 0x38E <= n <= 0x38F then (n + 0x3F) as char
    else if n == 0x370 || n == 0x372 || n == 0x376 || n == 0x3F7 || n == 0x3FA then (n + 1) as char
    else if even && 0x3D8 <= n <= 0x3EE then (n + 1) as char
    else if n == 0x37F then 0x3F3 as char
    else if n == 0x3CF then 0x3D7 as char
    else if n == 0x3F4 then 0x3B8 as char
    else if n == 0x3F9 then 0x3F2 as char
    else if 0x3FD <= n <= 0x3FF then (n - 0x82) as char
    else if 0x410 <= n <= 0x42F then (n + 0x20) as char
    else if 0x400 <= n <= 0x40F then (n + 0x50) as char
    else if even && (0x460 <= n <= 0x480 || 0x48A <= n <= 0x4BE || 0x4D0 <= n <= 0x52E) then (n + 1) as char
    else if n == 0x4C0 then 0x4CF as char
    else if !even && 0x4C1 <= n <= 0x4CD then (n + 1) as char
    else c
  }

  /** Armenian, Georgian, Roman numerals, circled letters, full-width Latin. */
  function LowerOther(c: char): char {
    var n := c as int;
    if 0x531 <= n <= 0x556 then (n + 0x30) as char
    else if 0x10A0 <= n <= 0x10C5 || n == 0x10C7 || n == 0x10CD then (n + 0x1C60) as char
    else if 0x2160 <= n <= 0x216F then (n + 0x10) as char
    else if 0x24B6 <= n <= 0x24CF then (n + 0x1A) as char
    else if 0xFF21 <= n <= 0xFF3A then (n + 0x20) as char
    else c
  }

  /** Each block's lower case stays in the block and is its own lower case. */
  lemma LowerLatinFacts(c: char)
    requires InLatinBlocks(c)
    ensures InLatinBlocks(LowerLatin(c))
    ensures LowerLatin(LowerLatin(c)) == LowerLatin(c)
    ensures LowerLatin(c) == '\\' <==> c == '\\'
    ensures 'a' <= LowerLatin(c) <= 'z' <==> 'A' <= c <= 'Z' || 'a' <= c <= 'z'
  {
  }

  lemma LowerGreekCyrillicFacts(c: char)
    requires InGreekCyrillicBlocks(c)
    ensures InGreekCyrillicBlocks(LowerGreekCyrillic(c))
    ensures LowerGreekCyrillic(LowerGreekCyrillic(c)) == LowerGreekCyrillic(c)
  {
  }

  lemma LowerOtherFacts(c: char)
    requires !InLatinBlocks(c) && !InGreekCyrillicBlocks(c)
    ensures !InLatinBlocks(LowerOther(c)) && !InGreekCyrillicBlocks(LowerOther(c))
    ensures LowerOther(LowerOther(c)) == LowerOther(c)
  {
  }

  /** Lower case is lower case already, and only `\\` lowers to `\\`. */
  lemma LowerCharFacts(c: char)
    ensures LowerChar(LowerChar(c)) == LowerChar(c)
    ensures LowerChar(c) == '\\' <==> c == '\\'
    ensures 'a' <= LowerChar(c) <= 'z' <==> 'A' <= c <= 'Z' || 'a' <= c <= 'z'
  {
    if InLatinBlocks(c) {
      LowerLatinFacts(c);
    } else if InGreekCyrillicBlocks(c) {
      LowerGreekCyrillicFacts(c);
    } else {
      LowerOtherFacts(c);
    }
  }

  /** `s.lower()`, character by character. */
  function Lower(s: string): (r: string)
    ensures |r| == |s|
    ensures forall i :: 0 <= i < |s| ==> r[i] == LowerChar(s[i])
  {
    seq(|s|, i requires 0 <= i < |s| => LowerChar(s[i]))
  }

  /** `s.replace(a, b)` for single characters. */
  function ReplaceChar(s: string, a: char, b: char): (r: string)
    ensures |r| == |s|
    ensures forall i :: 0 <= i < |s| ==> r[i] == (if s[i] == a then b else s[i])
    ensures a != b ==> a !in r
  {
    seq(|s|, i requires 0 <= i < |s| => if s[i] == a then b else s[i])
  }

  /** Replacing a character that does not occur changes nothing. */
  lemma ReplaceCharAbsent(s: string, a: char, b: char)
    requires a !in s
    ensures ReplaceChar(s, a, b) == s
  {
    assert forall i :: 0 <= i < |s| ==> ReplaceChar(s, a, b)[i] == s[i];
  }

  /** Python's `str.isspace()` for one character. */
  predicate IsSpace(c: char) {
    '\t' <= c <= '\r' || '\U{001C}' <= c <= ' ' || c == '\U{0085}' || c == '\U{00A0}' || c == '\U{1680}'
    || '\U{2000}' <= c <= '\U{200A}' || c == '\U{2028}' || c == '\U{2029}' || c == '\U{202F}'
    || c == '\U{205F}' || c == '\U{3000}'
  }

  /** The characters Python's argument-less `strip()` removes. */
  const Whitespace: set<char> := set c: char | '\0' <= c <= '\U{3000}' && IsSpace(c)

  /** `s.lstrip(chars)`: the longest suffix of `s` that does not start with one of `chars`. */
  function LStrip(s: string, chars: set<char>): (r: string)
    ensures |r| <= |s| && r == s[|s| - |r|..]
    ensures |r| > 0 ==> r[0] !in chars
    ensures forall i :: 0 <= i < |s| - |r| ==> s[i] in chars
  {
    if |s| > 0 && s[0] in chars then LStrip(s[1..], chars) else s
  }

  /** `s.rstrip(chars)`: the longest prefix of `s` that does not end with one of `chars`. */
  function RStrip(s: string, chars: set<char>): (r: string)
    ensures |r| <= |s| && r == s[..|r|]
    ensures |r| > 0 ==> r[|r| - 1] !in chars
    ensures forall i :: |r| <= i < |s| ==> s[i] in chars
  {
    if |s| > 0 && s[|s| - 1] in chars then RStrip(s[..|s| - 1], chars) else s
  }

  /** `s.strip(chars)`. */
  function Strip(s: string, chars: set<char>): string {
    LStrip(RStrip(s, chars), chars)
  }

  /** Index of the first `c` in `s`, or -1 (`s.find(c)`). */
  function Find(s: string, c: char): (r: int)
    ensures -1 <= r < |s|
    ensures r == -1 <==> c !in s
    ensures r >= 0 ==> s[r] == c && forall j :: 0 <= j < r ==> s[j] != c
  {
    if |s| == 0 then -1
    else if s[0] == c then 0
    else
      var k := Find(s[1..], c);
      if k == -1 then -1 else k + 1
  }

  /** Index of the last `c` in `s`, or -1 (`s.rfind(c)`). */
  function RFind(s: string, c: char): (r: int)
    ensures -1 <= r < |s|
    ensures r == -1 <==> c !in s
    ensures r >= 0 ==> s[r] == c && forall j :: r < j < |s| ==> s[j] != c
  {
    if |s| == 0 then -1
    else if s[|s| - 1] == c then |s| - 1
    else
      var k := RFind(s[..|s| - 1], c);
      assert forall j :: 0 <= j < |s| - 1 ==> s[..|s| - 1][j] == s[j];
      k
  }

  /** `s.split(sep)` for a one-character separator: never empty, one more
      piece than there are separators. */
  function Split(s: string, sep: char): (r: seq<string>)
    ensures |r| >= 1
  {
    if |s| == 0 then [""]
    else
      var t := Split(s[1..], sep);
      if s[0] == sep then [""] + t else [[s[0]] + t[0]] + t[1..]
  }

  lemma {:induction false} SplitPiecesNoSep(s: string, sep: char)
    ensures forall i :: 0 <= i < |Split(s, sep)| ==> sep !in Split(s, sep)[i]
  {
    if |s| > 0 {
      SplitPiecesNoSep(s[1..], sep);
    }
  }

  /** `sep.join(parts)`. */
  function JoinWith(parts: seq<string>, sep: char): string
  {
    if |parts| == 0 then ""
    else if |parts| == 1 then parts[0]
    else parts[0] + [sep] + JoinWith(parts[1..], sep)
  }

  /** The pieces of `s` that are not empty, in order (`[x for x in s.split(sep) if x]`). */
  function NonEmpty(parts: seq<string>): (r: seq<string>)
    ensures |r| <= |parts|
    ensures forall i :: 0 <= i < |r| ==> r[i] != "" && r[i] in parts
  {
    if |parts| == 0 then []
    else (if parts[0] == "" then [] else [parts[0]]) + NonEmpty(parts[1..])
  }

  lemma {:induction false} NonEmptyConcat(a: seq<string>, b: seq<string>)
    ensures NonEmpty(a + b) == NonEmpty(a) + NonEmpty(b)
  {
    if |a| == 0 {
      assert a + b == b;
    } else {
      assert (a + b)[1..] == a[1..] + b;
      NonEmptyConcat(a[1..], b);
    }
  }

  lemma {:induction false} NonEmptyIdentity(parts: seq<string>)
    requires forall i :: 0 <= i < |parts| ==> parts[i] != ""
    ensures NonEmpty(parts) == parts
  {
    if |parts| > 0 {
      NonEmptyIdentity(parts[1..]);
    }
  }

  /** One step of `Split`, stated for a string written as a first character and the rest. */
  lemma SplitCons(c: char, s: string, sep: char)
    ensures var t := Split(s, sep);
      Split([c] + s, sep) == if c == sep then [""] + t else [[c] + t[0]] + t[1..]
  {
    assert ([c] + s)[1..] == s;
  }

  lemma {:induction false} SplitNoSep(s: string, sep: char)
    requires sep !in s
    ensures Split(s, sep) == [s]
  {
    if |s| > 0 {
      SplitNoSep(s[1..], sep);
      SplitCons(s[0], s[1..], sep);
      assert s == [s[0]] + s[1..];
    }
  }

  /** Splitting `a + b` splits `a` and `b` and glues `a`'s last piece to `b`'s first. */
  lemma {:induction false} SplitGlue(a: string, b: string, sep: char)
    ensures var pa, pb := Split(a, sep), Split(b, sep);
      Split(a + b, sep) == pa[..|pa| - 1] + [pa[|pa| - 1] + pb[0]] + pb[1..]
  {
    if |a| == 0 {
      SplitGlueEmpty(a, b, sep);
    } else {
      var pb := Split(b, sep);
      var c, a' := a[0], a[1..];
      assert a == [c] + a';
      assert a + b == [c] + (a' + b);
      SplitGlue(a', b, sep);
      SplitCons(c, a', sep);
      SplitCons(c, a' + b, sep);
      GlueStep(c, Split(a', sep), pb, Split(a' + b, sep), sep);
    }
  }

  /** The base case of `SplitGlue`: gluing to the empty string. */
  lemma SplitGlueEmpty(a: string, b: string, sep: char)
    requires a == ""
    ensures var pa, pb := Split(a, sep), Split(b, sep);
      Split(a + b, sep) == pa[..|pa| - 1] + [pa[|pa| - 1] + pb[0]] + pb[1..]
  {
    var pb := Split(b, sep);
    assert a + b == b;
    assert Split(a, sep) == [""];
    assert "" + pb[0] == pb[0];
    assert [pb[0]] + pb[1..] == pb;
  }

  /** The inductive step of `SplitGlue`, on the pieces alone. */
  lemma GlueStep(c: char, p: seq<string>, pb: seq<string>, q: seq<string>, sep: char)
    requires |p| >= 1 && |pb| >= 1
    requires q == p[..|p| - 1] + [p[|p| - 1] + pb[0]] + pb[1..]
    ensures var pa := if c == sep then [""] + p else [[c] + p[0]] + p[1..];
      var r := if c == sep then [""] + q else [[c] + q[0]] + q[1..];
      r == pa[..|pa| - 1] + [pa[|pa| - 1] + pb[0]] + pb[1..]
  {
    if c == sep {
      assert ([""] + p)[..|p|] == [""] + p[..|p| - 1];
    } else if |p| == 1 {
      assert q[0] == p[0] + pb[0] && q[1..] == pb[1..];
      assert [c] + (p[0] + pb[0]) == ([c] + p[0]) + pb[0];
    } else {
      assert q[0] == p[0];
      assert q[1..] == p[1..|p| - 1] + [p[|p| - 1] + pb[0]] + pb[1..];
    }
  }

  lemma SplitAtSep(a: string, b: string, sep: char)
    ensures Split(a + [sep] + b, sep) == Split(a, sep) + Split(b, sep)
  {
    SplitGlue(a, [sep] + b, sep);
    assert a + [sep] + b == a + ([sep] + b);
    assert ([sep] + b)[1..] == b;
    var pa := Split(a, sep);
    assert pa[|pa| - 1] + "" == pa[|pa| - 1];
    assert pa[..|pa| - 1] + [pa[|pa| - 1]] == pa;
  }

  /** Joining the pieces of a split gives the string back. */
  lemma {:induction false} JoinSplit(s: string, sep: char)
    ensures JoinWith(Split(s, sep), sep) == s
  {
    if |s| > 0 {
      JoinSplit(s[1..], sep);
      var t := Split(s[1..], sep);
      if s[0] == sep {
        assert ([""] + t)[1..] == t;
        assert s == [s[0]] + s[1..];
      } else if |t| == 1 {
        assert s == [s[0]] + s[1..];
      } else {
        assert ([[s[0]] + t[0]] + t[1..])[1..] == t[1..];
        assert s == [s[0]] + s[1..];
      }
    }
  }

  /** Splitting a join of separator-free pieces gives the pieces back. */
  lemma {:induction false} SplitJoin(parts: seq<string>, sep: char)
    requires |parts| >= 1
    requires forall i :: 0 <= i < |parts| ==> sep !in parts[i]
    ensures Split(JoinWith(parts, sep), sep) == parts
  {
    if |parts| == 1 {
      SplitNoSep(parts[0], sep);
    } else {
      SplitJoin(parts[1..], sep);
      SplitNoSep(parts[0], sep);
      SplitAtSep(parts[0], JoinWith(parts[1..], sep), sep);
    }
  }

  lemma {:induction false} JoinWithNoSep(parts: seq<string>, sep: char, c: char)
    requires c != sep
    requires forall i :: 0 <= i < |parts| ==> c !in parts[i]
    ensures c !in JoinWith(parts, sep)
  {
    if |parts| > 1 {
      JoinWithNoSep(parts[1..], sep, c);
    }
  }

  // ----- decimal numbers -----

  function DigitChar(d: nat): char
    requires d < 10
  {
    "0123456789"[d]
  }

  predicate IsDigit(c: char) {
    '0' <= c <= '9'
  }

  predicate AllDigits(s: string) {
    forall i :: 0 <= i < |s| ==> IsDigit(s[i])
  }

  /** `str(n)` for a natural number. */
  function NatToString(n: nat): (r: string)
    ensures |r| >= 1 && AllDigits(r)
  {
    if n < 10 then [DigitChar(n)] else NatToString(n / 10) + [DigitChar(n % 10)]
  }

  /** The absolute value. */
  function Magnitude(i: int): nat {
    if i < 0 then -i else i
  }

  /** `str(i)`. */
  function IntToString(i: int): (r: string)
    ensures |r| >= 1
  {
    if i < 0 then "-" + NatToString(Magnitude(i)) else NatToString(i)
  }

  /** The value of a string of decimal digits. */
  function DigitsValue(s: string): nat
    requires AllDigits(s)
  {
    if |s| == 0 then 0 else 10 * DigitsValue(s[..|s| - 1]) + (s[|s| - 1] as int - '0' as int)
  }

  /** `int(s)` for the forms the library file uses: surrounding whitespace, an
      optional sign, then at least one ASCII digit; anything else is `None`
      (Python raises `ValueError`). */
  function ParseInt(s: string): Option<int> {
    var t := Strip(s, Whitespace);
    if |t| > 0 && (t[0] == '-' || t[0] == '+') then
      (if |t| > 1 && AllDigits(t[1..]) then
         var v: int := DigitsValue(t[1..]);
         Some(if t[0] == '-' then -v else v)
       else None)
    else if |t| > 0 && AllDigits(t) then Some(DigitsValue(t))
    else None
  }

  lemma {:induction false} DigitsOfNat(n: nat)
    ensures DigitsValue(NatToString(n)) == n
  {
    var s := NatToString(n);
    if n >= 10 {
      DigitsOfNat(n / 10);
      assert s[..|s| - 1] == NatToString(n / 10);
    }
  }

  /** `s.strip(chars)` is a slice of `s`. */
  lemma StripSlice(s: string, chars: set<char>) returns (lo: nat)
    ensures lo + |Strip(s, chars)| <= |s|
    ensures forall i :: 0 <= i < |Strip(s, chars)| ==> Strip(s, chars)[i] == s[lo + i]
  {
    var rs := RStrip(s, chars);
    var st := LStrip(rs, chars);
    lo := |rs| - |st|;
    SuffixAt(rs, st);
    PrefixAt(s, rs);
    assert Strip(s, chars) == st;
    forall i | 0 <= i < |st|
      ensures st[i] == s[lo + i]
    {
      assert st[i] == rs[lo + i];
    }
  }

  /** The characters of a suffix, by position. */
  lemma SuffixAt(s: string, t: string)
    requires |t| <= |s| && t == s[|s| - |t|..]
    ensures forall i :: 0 <= i < |t| ==> t[i] == s[|s| - |t| + i]
  {
  }

  /** The characters of a prefix, by position. */
  lemma PrefixAt(s: string, t: string)
    requires |t| <= |s| && t == s[..|t|]
    ensures forall i :: 0 <= i < |t| ==> t[i] == s[i]
  {
  }

  lemma StripNoOp(s: string, chars: set<char>)
    requires |s| > 0 && s[0] !in chars && s[|s| - 1] !in chars
    ensures Strip(s, chars) == s
  {
  }

  lemma ParseDigits(s: string)
    requires |s| > 0 && AllDigits(s)
    ensures ParseInt(s) == Some(DigitsValue(s))
  {
    assert IsDigit(s[0]) && IsDigit(s[|s| - 1]);
    DigitNotSpace(s[0]);
    DigitNotSpace(s[|s| - 1]);
    StripNoOp(s, Whitespace);
  }

  lemma ParseNegative(s: string, n: string)
    requires |n| > 0 && AllDigits(n) && s == "-" + n
    ensures ParseInt(s) == Some(-(DigitsValue(n) as int))
  {
    assert Strip(s, Whitespace) == s by {
      assert s[|s| - 1] == n[|n| - 1];
      assert IsDigit(s[|s| - 1]);
      DigitNotSpace(s[|s| - 1]);
      assert s[0] == '-' && '-' !in Whitespace;
      StripNoOp(s, Whitespace);
    }
    assert s[1..] == n;
  }

  /** No digit is whitespace. */
  lemma DigitNotSpace(c: char)
    requires IsDigit(c)
    ensures c !in Whitespace
  {
  }

  /** `int(str(i)) == i`. */
  lemma ParseIntOfString(i: int)
    ensures ParseInt(IntToString(i)) == Some(i)
  {
    if i < 0 {
      ParseNegativeString(i);
    } else {
      ParseNatString(i);
    }
  }

  /** `int(str(n)) == n` for a natural number. */
  lemma ParseNatString(n: nat)
    ensures ParseInt(IntToString(n)) == Some(n as int)
  {
    DigitsOfNat(n);
    ParseDigits(NatToString(n));
  }

  /** `int(str(i)) == i` for a negative number. */
  lemma ParseNegativeString(i: int)
    requires i < 0
    ensures ParseInt(IntToString(i)) == Some(i)
  {
    var n := NatToString(Magnitude(i));
    DigitsOfNat(Magnitude(i));
    ParseNegative(IntToString(i), n);
  }
}
