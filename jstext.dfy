/** The JavaScript string operations the engine uses, on Dafny strings.
    A `char` stands for one UTF-16 code unit when lengths are counted. */
module JsText {

  /** The characters `String.prototype.trim` removes: the ECMAScript
      WhiteSpace set (tab, vertical tab, form feed, space, no-break space,
      byte order mark and the Zs space separators) and the LineTerminator
      set (line feed, carriage return, line and paragraph separators). */
  predicate IsWhiteSpace(c: char) {
    var n := c as int;
    || (0x09 <= n <= 0x0D) || n == 0x20 || n == 0xA0 || n == 0x1680
    || (0x2000 <= n <= 0x200A) || n == 0x2028 || n == 0x2029 || n == 0x202F
    || n == 0x205F || n == 0x3000 || n == 0xFEFF
  }

  /** No leading and no trailing white space. */
  predicate IsTrimmed(s: string) {
    s != [] ==> !IsWhiteSpace(s[0]) && !IsWhiteSpace(s[|s| - 1])
  }

  predicate AllWhiteSpace(s: string) {
    forall k :: 0 <= k < |s| ==> IsWhiteSpace(s[k])
  }

  /** `s` without its leading white space. */
  function TrimStart(s: string): string
  {
    if s != [] && IsWhiteSpace(s[0]) then TrimStart(s[1..]) else s
  }

  /** `s` without its trailing white space. */
  function TrimEnd(s: string): string
  {
    if s != [] && IsWhiteSpace(s[|s| - 1]) then TrimEnd(s[..|s| - 1]) else s
  }

  /** TrimStart keeps a suffix of `s` and drops only white space. */
  lemma {:induction false} TrimStartShape(s: string)
    ensures var r := TrimStart(s);
      && |r| <= |s| && r == s[|s| - |r|..]
      && AllWhiteSpace(s[..|s| - |r|])
      && (r != [] ==> !IsWhiteSpace(r[0]))
  {
    if s != [] && IsWhiteSpace(s[0]) {
      TrimStartShape(s[1..]);
      var r := TrimStart(s[1..]);
      assert s[..|s| - |r|] == [s[0]] + s[1..][..|s| - 1 - |r|];
    }
  }

  /** TrimEnd keeps a prefix of `s` and drops only white space. */
  lemma {:induction false} TrimEndShape(s: string)
    ensures var r := TrimEnd(s);
      && |r| <= |s| && r == s[..|r|]
      && AllWhiteSpace(s[|r|..])
      && (r != [] ==> !IsWhiteSpace(r[|r| - 1]))
  {
    if s != [] && IsWhiteSpace(s[|s| - 1]) {
      TrimEndShape(s[..|s| - 1]);
      var r := TrimEnd(s[..|s| - 1]);
      assert s[|r|..] == s[..|s| - 1][|r|..] + [s[|s| - 1]];
    }
  }

  /** `String.prototype.trim`. */
  function Trim(s: string): string
  {
    TrimEnd(TrimStart(s))
  }

  /** What `trim` keeps: a trimmed piece of `s`, empty exactly when `s` is
      all white space. */
  lemma TrimmedPiece(s: string)
    ensures IsTrimmed(Trim(s)) && |Trim(s)| <= |s|
    ensures Trim(s) == [] <==> AllWhiteSpace(s)
  {
    var t := TrimStart(s);
    var r := TrimEnd(t);
    TrimStartShape(s);
    TrimEndShape(t);
    if r != [] {
      assert r[0] == t[0] == s[|s| - |t|];
    } else {
      assert t[|r|..] == t;
      assert t == [];
      assert s[..|s| - |t|] == s;
    }
  }

  /** A trailing space never survives `trim`. */
  lemma TrimIgnoresTrailingSpace(s: string)
    ensures Trim(s + " ") == Trim(s)
  {
    TrimStartAppend(s, " ");
    var t := TrimStart(s);
    if t != [] {
      assert (t + " ")[..|t + " "| - 1] == t;
    }
  }

  lemma {:induction false} TrimStartAppend(s: string, w: string)
    requires AllWhiteSpace(w)
    ensures TrimStart(s + w) == if TrimStart(s) == [] then TrimStart(w) else TrimStart(s) + w
  {
    if s != [] {
      assert (s + w)[0] == s[0];
      if IsWhiteSpace(s[0]) {
        assert (s + w)[1..] == s[1..] + w;
        TrimStartAppend(s[1..], w);
      }
    } else {
      assert s + w == w;
    }
  }

  /** ASCII case folding: `A`..`Z` become `a`..`z`, every other character
      is kept. */
  function LowerChar(c: char): char {
    if 'A' <= c <= 'Z' then (c as int + 32) as char else c
  }

  /** `toLowerCase`, restricted to the ASCII letters. */
  function Lower(s: string): (r: string)
    ensures |r| == |s|
    ensures forall k :: 0 <= k < |r| ==> r[k] == LowerChar(s[k])
  {
    seq(|s|, k requires 0 <= k < |s| => LowerChar(s[k]))
  }

  /** `needle` occurs in `hay` at position `i`. */
  predicate OccursAt(hay: string, needle: string, i: int) {
    0 <= i && i + |needle| <= |hay| && hay[i..i + |needle|] == needle
  }

  /** `String.prototype.includes`. */
  function Includes(hay: string, needle: string): bool
    decreases |hay|
  {
    if |needle| > |hay| then false
    else if hay[..|needle|] == needle then true
    else Includes(hay[1..], needle)
  }

  /** `includes` answers whether the needle occurs anywhere. */
  lemma {:induction false} IncludesOccurs(hay: string, needle: string)
    ensures Includes(hay, needle) <==> exists i :: OccursAt(hay, needle, i)
    decreases |hay|
  {
    if |needle| > |hay| {
    } else if hay[..|needle|] == needle {
      assert OccursAt(hay, needle, 0);
    } else {
      IncludesOccurs(hay[1..], needle);
      if Includes(hay[1..], needle) {
        var i :| OccursAt(hay[1..], needle, i);
        SliceOfTail(hay, i + 1, |needle|);
        assert OccursAt(hay, needle, i + 1);
      } else {
        assert hay[0..|needle|] == hay[..|needle|];
        OccursInTail(hay, needle);
      }
    }
  }

  /** A slice of the tail is the slice of the whole shifted by one. */
  lemma SliceOfTail(hay: string, i: nat, n: nat)
    requires 1 <= i && i + n <= |hay|
    ensures hay[1..][i - 1..i - 1 + n] == hay[i..i + n]
  {
    var a := hay[1..][i - 1..i - 1 + n];
    var b := hay[i..i + n];
    forall t | 0 <= t < n ensures a[t] == b[t] {
      assert a[t] == hay[i + t];
    }
    assert a == b;
  }

  /** An occurrence after position 0 is an occurrence in the tail. */
  lemma OccursInTail(hay: string, needle: string)
    ensures forall i :: OccursAt(hay, needle, i) && i >= 1 ==> OccursAt(hay[1..], needle, i - 1)
  {
    forall i | OccursAt(hay, needle, i) && i >= 1 ensures OccursAt(hay[1..], needle, i - 1) {
      SliceOfTail(hay, i, |needle|);
    }
  }

  /** `parts.join(sep)`. */
  function Join(parts: seq<string>, sep: string): string
  {
    if parts == [] then ""
    else if |parts| == 1 then parts[0]
    else Join(parts[..|parts| - 1], sep) + sep + parts[|parts| - 1]
  }

  /** The joined text starts with the first part. */
  lemma {:induction false} JoinStartsWithFirst(parts: seq<string>, sep: string)
    requires parts != []
    ensures |parts[0]| <= |Join(parts, sep)|
    ensures Join(parts, sep)[..|parts[0]|] == parts[0]
  {
    if |parts| > 1 {
      var init := parts[..|parts| - 1];
      var last := sep + parts[|parts| - 1];
      JoinStartsWithFirst(init, sep);
      assert init[0] == parts[0];
      var j := Join(init, sep);
      assert Join(parts, sep) == j + last;
      assert (j + last)[..|parts[0]|] == j[..|parts[0]|];
    }
  }

  /** The decimal digit `d`. */
  function DigitChar(d: int): (c: char)
    requires 0 <= d < 10
    ensures '0' <= c <= '9' && c as int - '0' as int == d
  {
    ('0' as int + d) as char
  }

  /** Decimal rendering of a natural number, as template literals do. */
  function NatToString(n: nat): (r: string)
    ensures |r| >= 1
    ensures forall k :: 0 <= k < |r| ==> '0' <= r[k] <= '9'
    ensures n >= 10 ==> |r| >= 2
  {
    if n < 10 then [DigitChar(n)] else NatToString(n / 10) + [DigitChar(n % 10)]
  }

  /** The value of a string of decimal digits (the inverse of NatToString). */
  function ParseDecimal(s: string): nat
    requires forall k :: 0 <= k < |s| ==> '0' <= s[k] <= '9'
  {
    if s == [] then 0
    else ParseDecimal(s[..|s| - 1]) * 10 + (s[|s| - 1] as int - '0' as int)
  }

  lemma {:induction false} ParseNatToString(n: nat)
    ensures ParseDecimal(NatToString(n)) == n
  {
    if n >= 10 {
      var r := NatToString(n);
      assert r[..|r| - 1] == NatToString(n / 10);
      ParseNatToString(n / 10);
    }
  }

  /** Distinct numbers render as distinct strings. */
  lemma NatToStringInjective(m: nat, n: nat)
    requires NatToString(m) == NatToString(n)
    ensures m == n
  {
    ParseNatToString(m);
    ParseNatToString(n);
  }

  /** The UTF-16 code units of one character: one unit inside the Basic
      Multilingual Plane, a surrogate pair outside it. */
  function CodeUnitsOf(c: char): (u: seq<int>)
    ensures 1 <= |u| <= 2
    ensures forall k :: 0 <= k < |u| ==> 0 <= u[k] < 0x1_0000
    ensures c as int < 0x1_0000 ==> u == [c as int]
  {
    var n := c as int;
    if n < 0x1_0000 then [n]
    else
      var m := n - 0x1_0000;
      [0xD800 + m / 0x400, 0xDC00 + m % 0x400]
  }

  /** `s.split('').map(ch => ch.charCodeAt(0))`: the code units of `s`. */
  function CodeUnits(s: string): (u: seq<int>)
    ensures |u| >= |s|
    ensures forall k :: 0 <= k < |u| ==> 0 <= u[k] < 0x1_0000
  {
    if s == [] then [] else CodeUnits(s[..|s| - 1]) + CodeUnitsOf(s[|s| - 1])
  }
}
