/** The JavaScript string operations the sessions code relies on:
    `String.prototype.trim`, `split` on one delimiter, `Array.prototype.join`,
    `toLowerCase` (on the capitals of Latin, Greek and Cyrillic), `includes`
    and `length` in UTF-16 code units. */
module Text {

  /** The characters `trim()` removes: ECMAScript's WhiteSpace and
      LineTerminator code points. */
  predicate IsSpace(c: char) {
    var n := c as int;
    n == 0x09 || n == 0x0A || n == 0x0B || n == 0x0C || n == 0x0D || n == 0x20
    || n == 0xA0 || n == 0x1680 || (0x2000 <= n <= 0x200A)
    || n == 0x2028 || n == 0x2029 || n == 0x202F || n == 0x205F
    || n == 0x3000 || n == 0xFEFF
  }

  /** The characters a regular expression's `.` does not match. */
  predicate IsLineTerminator(c: char) {
    var n := c as int;
    n == 0x0A || n == 0x0D || n == 0x2028 || n == 0x2029
  }

  predicate AllSpace(s: string) {
    forall i :: 0 <= i < |s| ==> IsSpace(s[i])
  }

  /** No whitespace at either end: what `trim()` leaves. */
  predicate IsTrimmed(s: string) {
    s == [] || (!IsSpace(s[0]) && !IsSpace(s[|s| - 1]))
  }

  /** `trimStart()`: drops the leading whitespace. */
  function TrimStart(s: string): string {
    if s != [] && IsSpace(s[0]) then TrimStart(s[1..]) else s
  }

  /** What `trimStart()` drops is a prefix of whitespace, and what it keeps
      does not start with whitespace. */
  lemma {:induction false} TrimStartSlice(s: string)
    ensures var r := TrimStart(s);
      && |r| <= |s| && r == s[|s| - |r|..]
      && AllSpace(s[..|s| - |r|])
      && (r != [] ==> !IsSpace(r[0]))
  {
    if s != [] && IsSpace(s[0]) {
      TrimStartSlice(s[1..]);
      var r := TrimStart(s);
      assert s[..|s| - |r|] == [s[0]] + s[1..][..|s| - 1 - |r|];
    }
  }

  /** `trimEnd()`: drops the trailing whitespace. */
  function TrimEnd(s: string): string {
    if s != [] && IsSpace(s[|s| - 1]) then TrimEnd(s[..|s| - 1]) else s
  }

  /** What `trimEnd()` drops is a suffix of whitespace, and what it keeps
      does not end with whitespace. */
  lemma {:induction false} TrimEndSlice(s: string)
    ensures var r := TrimEnd(s);
      && |r| <= |s| && r == s[..|r|]
      && AllSpace(s[|r|..])
      && (r != [] ==> !IsSpace(r[|r| - 1]))
  {
    if s != [] && IsSpace(s[|s| - 1]) {
      var t := s[..|s| - 1];
      TrimEndSlice(t);
      var r := TrimEnd(s);
      assert s[|r|..] == t[|r|..] + [s[|s| - 1]];
    }
  }

  /** `trim()`: the input with its leading and trailing whitespace cut off.
      The result is trimmed, and it is empty exactly when the input is all
      whitespace. */
  function Trim(s: string): (r: string)
    ensures |r| <= |s|
    ensures exists i, j :: 0 <= i <= j <= |s| && r == s[i..j] && AllSpace(s[..i]) && AllSpace(s[j..])
    ensures IsTrimmed(r)
    ensures r == [] <==> AllSpace(s)
  {
    var t := TrimStart(s);
    var r := TrimEnd(t);
    TrimStartSlice(s);
    TrimEndSlice(t);
    var i := |s| - |t|;
    assert r == s[i..i + |r|] && s[i + |r|..] == t[|r|..];
    assert r == [] ==> AllSpace(s) by {
      if r == [] {
        assert s == s[..|s| - |t|] + t;
        assert t == t[..0] + t[0..];
      }
    }
    r
  }

  /** JavaScript's `!s.trim()`: the string is empty or only whitespace. */
  predicate IsBlank(s: string) {
    Trim(s) == []
  }

  lemma {:induction false} TrimStartOfTrimmed(s: string)
    requires s == [] || !IsSpace(s[0])
    ensures TrimStart(s) == s
  {
  }

  lemma {:induction false} TrimEndOfTrimmed(s: string)
    requires s == [] || !IsSpace(s[|s| - 1])
    ensures TrimEnd(s) == s
  {
  }

  /** Trimming a trimmed string changes nothing (so `trim` is idempotent). */
  lemma TrimOfTrimmed(s: string)
    requires IsTrimmed(s)
    ensures Trim(s) == s
  {
    TrimStartOfTrimmed(s);
    TrimEndOfTrimmed(s);
  }

  lemma TrimIdempotent(s: string)
    ensures Trim(Trim(s)) == Trim(s)
  {
    TrimOfTrimmed(Trim(s));
  }

  /** A leading whitespace character makes no difference to `trim()`. */
  lemma TrimDropsLeadingSpace(c: char, s: string)
    requires IsSpace(c)
    ensures Trim([c] + s) == Trim(s)
  {
    assert ([c] + s)[1..] == s;
  }

  /** `trim()` only removes characters: whatever it keeps was in the input. */
  lemma TrimKeeps(s: string, c: char)
    requires c in Trim(s)
    ensures c in s
  {
    var t := TrimStart(s);
    TrimStartSlice(s);
    TrimEndSlice(t);
    var i :| 0 <= i < |Trim(s)| && Trim(s)[i] == c;
    assert t[i] == c;
    assert s[|s| - |t| + i] == c;
  }

  /** `s.split(d)`: the pieces between occurrences of `d`, in order. Like
      JavaScript, the empty string splits into one empty piece. */
  function Split(s: string, d: char): (r: seq<string>)
    ensures |r| >= 1
  {
    if s == [] then [[]]
    else
      var rest := Split(s[1..], d);
      if s[0] == d then [[]] + rest
      else [[s[0]] + rest[0]] + rest[1..]
  }

  /** No piece of a split contains the delimiter. */
  lemma {:induction false} SplitPiecesFree(s: string, d: char)
    ensures forall i :: 0 <= i < |Split(s, d)| ==> d !in Split(s, d)[i]
  {
    if s != [] {
      SplitPiecesFree(s[1..], d);
      var rest := Split(s[1..], d);
      if s[0] != d {
        assert d !in [s[0]] + rest[0];
        var r := Split(s, d);
        forall i | 1 <= i < |r| ensures d !in r[i] {
          assert r[i] == rest[i];
        }
      }
    }
  }

  /** `xs.join(sep)`. */
  function Join(xs: seq<string>, sep: string): (r: string)
    ensures xs != [] ==> xs[0] <= r
  {
    if |xs| == 0 then []
    else if |xs| == 1 then xs[0]
    else xs[0] + sep + Join(xs[1..], sep)
  }

  /** Splitting, then joining with the delimiter, gives the input back. */
  lemma {:induction false} JoinSplit(s: string, d: char)
    ensures Join(Split(s, d), [d]) == s
  {
    if s != [] {
      var rest := Split(s[1..], d);
      JoinSplit(s[1..], d);
      if s[0] == d {
        assert Split(s, d)[1..] == rest;
      } else {
        var r := Split(s, d);
        assert r[1..] == rest[1..];
        if |rest| > 1 {
          assert rest[1..][1..] == rest[2..];
        }
      }
    }
  }

  /** A delimiter-free prefix glues onto the first piece. */
  lemma {:induction false} SplitPrefix(a: string, b: string, d: char)
    requires d !in a
    ensures Split(a + b, d) == [a + Split(b, d)[0]] + Split(b, d)[1..]
  {
    var r := Split(b, d);
    if a == [] {
      assert a + b == b && a + r[0] == r[0];
      assert r == [r[0]] + r[1..];
    } else {
      var c, t := a[0], a[1..];
      ConsAppend(a, b);
      assert c != d && d !in t;
      SplitPrefix(t, b, d);
      SplitCons(c, t + b, d);
      PrefixStep([c], t, r[0], r[1..]);
    }
  }

  lemma ConsAppend(a: string, b: string)
    requires a != []
    ensures a == [a[0]] + a[1..] && a + b == [a[0]] + (a[1..] + b)
  {
  }

  /** The list algebra of one step of `SplitPrefix`. */
  lemma PrefixStep(p: string, t: string, h: string, rest: seq<string>)
    ensures ([t + h] + rest)[0] == t + h && ([t + h] + rest)[1..] == rest
    ensures p + (t + h) == (p + t) + h
  {
  }

  /** A string without the delimiter is one piece. */
  lemma SplitWithout(a: string, d: char)
    requires d !in a
    ensures Split(a, d) == [a]
  {
    SplitPrefix(a, [], d);
    assert a + [] == a;
  }

  /** `Split` one character at a time. */
  lemma SplitCons(c: char, s: string, d: char)
    ensures Split([c] + s, d) ==
      if c == d then [[]] + Split(s, d) else [[c] + Split(s, d)[0]] + Split(s, d)[1..]
  {
    assert ([c] + s)[1..] == s;
  }

  /** Splitting at a delimiter between `a` and `b`: the pieces of `a`, then
      the pieces of `b`. */
  lemma {:induction false} SplitGlue(a: string, b: string, d: char)
    ensures Split(a + [d] + b, d) == Split(a, d) + Split(b, d)
  {
    if a == [] {
      assert a + [d] + b == [d] + b;
      SplitAtDelimiter(b, d);
    } else {
      var c, t := a[0], a[1..];
      var y := t + [d] + b;
      GlueFront(a, d, b);
      SplitGlue(t, b, d);
      SplitCons(c, y, d);
      SplitCons(c, t, d);
      SplitGlueStep(c, d, Split(t, d), Split(b, d));
    }
  }

  lemma GlueFront(a: string, d: char, b: string)
    requires a != []
    ensures a + [d] + b == [a[0]] + (a[1..] + [d] + b)
    ensures a == [a[0]] + a[1..]
  {
  }

  /** The list algebra of one step of `SplitGlue`. */
  lemma SplitGlueStep(c: char, d: char, rt: seq<string>, rb: seq<string>)
    requires |rt| >= 1
    ensures c == d ==> [[]] + (rt + rb) == ([[]] + rt) + rb
    ensures c != d ==> [[c] + (rt + rb)[0]] + (rt + rb)[1..] == ([[c] + rt[0]] + rt[1..]) + rb
  {
    assert (rt + rb)[0] == rt[0] && (rt + rb)[1..] == rt[1..] + rb;
  }

  /** The delimiter starts a new piece. */
  lemma SplitAtDelimiter(b: string, d: char)
    ensures Split([d] + b, d) == [[]] + Split(b, d)
  {
    assert ([d] + b)[1..] == b;
  }

  /** The capitals this model lowers: A-Z, the Latin-1 capitals (not the
      multiplication sign), the Greek capitals except sigma, whose lower case
      depends on the position in the word, and the basic Cyrillic capitals.
      Each lowers to exactly one character. */
  predicate IsUpper(c: char) {
    var n := c as int;
    ('A' as int <= n <= 'Z' as int)
    || (0xC0 <= n <= 0xDE && n != 0xD7)
    || (0x391 <= n <= 0x3A9 && n != 0x3A2 && n != 0x3A3)
    || (0x400 <= n <= 0x42F)
  }

  /** `toLowerCase()` on one character: a capital becomes its small letter,
      anything else is kept. */
  function LowerChar(c: char): (r: char)
    ensures IsSpace(r) <==> IsSpace(c)
    ensures r != ',' <==> c != ','
    ensures !IsUpper(r)
    ensures IsUpper(c) <==> r != c
  {
    var n := c as int;
    if 0x400 <= n <= 0x40F then (n + 80) as char
    else if IsUpper(c) then (n + 32) as char
    else c
  }

  /** Free of the capitals above. */
  predicate IsLower(s: string) {
    forall i :: 0 <= i < |s| ==> !IsUpper(s[i])
  }

  function ToLower(s: string): (r: string)
    ensures |r| == |s|
    ensures forall i :: 0 <= i < |s| ==> r[i] == LowerChar(s[i])
    ensures IsLower(r)
  {
    if s == [] then [] else [LowerChar(s[0])] + ToLower(s[1..])
  }

  /** Lower-casing a string without upper-case letters changes nothing. */
  lemma ToLowerOfLower(s: string)
    requires IsLower(s)
    ensures ToLower(s) == s
  {
  }

  /** `s.length`: JavaScript counts UTF-16 code units, so a character
      beyond U+FFFF counts twice. */
  function Utf16Length(s: string): (n: nat)
    ensures |s| <= n <= 2 * |s|
  {
    if s == [] then 0 else (if s[0] as int > 0xFFFF then 2 else 1) + Utf16Length(s[1..])
  }

  /** The length of a concatenation is the sum of the lengths. */
  lemma {:induction false} Utf16LengthAppend(a: string, b: string)
    ensures Utf16Length(a + b) == Utf16Length(a) + Utf16Length(b)
  {
    if a != [] {
      assert (a + b)[0] == a[0] && (a + b)[1..] == a[1..] + b;
      Utf16LengthAppend(a[1..], b);
    } else {
      assert a + b == b;
    }
  }

  /** A string inside the Basic Multilingual Plane has as many code units as
      characters. */
  lemma {:induction false} Utf16LengthBmp(s: string)
    requires forall i :: 0 <= i < |s| ==> s[i] as int <= 0xFFFF
    ensures Utf16Length(s) == |s|
  {
    if s != [] {
      Utf16LengthBmp(s[1..]);
    }
  }

  /** A string of characters beyond U+FFFF has two code units per character. */
  lemma {:induction false} Utf16LengthAstral(s: string)
    requires forall i :: 0 <= i < |s| ==> s[i] as int > 0xFFFF
    ensures Utf16Length(s) == 2 * |s|
  {
    if s != [] {
      Utf16LengthAstral(s[1..]);
    }
  }

  /** `trim()` never makes a string longer in code units either. */
  lemma TrimUtf16Length(s: string)
    ensures Utf16Length(Trim(s)) <= Utf16Length(s)
  {
    var i, j :| 0 <= i <= j <= |s| && Trim(s) == s[i..j] && AllSpace(s[..i]) && AllSpace(s[j..]);
    assert s == s[..i] + (s[i..j] + s[j..]);
    Utf16LengthAppend(s[..i], s[i..j] + s[j..]);
    Utf16LengthAppend(s[i..j], s[j..]);
  }

  /** `sub` occurs in `s` starting at position `i`. */
  predicate OccursAt(s: string, sub: string, i: int) {
    0 <= i && i + |sub| <= |s| && s[i..i + |sub|] == sub
  }

  /** `s.includes(sub)`. */
  function Contains(s: string, sub: string): bool {
    if sub <= s then true
    else if s == [] then false
    else Contains(s[1..], sub)
  }

  lemma OccursAtTail(s: string, sub: string, i: int)
    requires s != [] && 0 <= i
    ensures OccursAt(s[1..], sub, i) <==> OccursAt(s, sub, i + 1)
  {
    if i + 1 + |sub| <= |s| {
      assert s[1..][i..i + |sub|] == s[i + 1..i + 1 + |sub|];
    }
  }

  /** `includes` holds exactly when `sub` occurs somewhere in `s`. */
  lemma {:induction false} ContainsOccurs(s: string, sub: string)
    ensures Contains(s, sub) <==> exists i :: OccursAt(s, sub, i)
  {
    if sub <= s {
      assert OccursAt(s, sub, 0);
    } else if s == [] {
      assert forall i :: !OccursAt(s, sub, i);
    } else {
      ContainsOccurs(s[1..], sub);
      if Contains(s, sub) {
        var i :| OccursAt(s[1..], sub, i);
        OccursAtTail(s, sub, i);
      } else {
        forall i | OccursAt(s, sub, i) ensures false {
          if i > 0 {
            OccursAtTail(s, sub, i - 1);
          }
        }
      }
    }
  }
}
