/**
 * String helpers with the JavaScript semantics the shell relies on:
 * `split` on one character, `join`, `includes`, `startsWith`, `endsWith`,
 * `trim`, splitting on `/\s+/`, `toLowerCase`, number rendering and padding.
 * A `string` here is a sequence of Unicode scalar values; a JavaScript
 * string is a sequence of UTF-16 code units, and the two agree on text
 * within the Basic Multilingual Plane.
 */
module Text {

  /** JavaScript `s.split(c)` for a one-character separator. */
  function Split(s: string, c: char): (parts: seq<string>)
    ensures |parts| >= 1
    decreases |s|
  {
    if |s| == 0 then [""]
    else
      var rest := Split(s[1..], c);
      if s[0] == c then [""] + rest
      else [[s[0]] + rest[0]] + rest[1..]
  }

  /** JavaScript `parts.join(sep)`. */
  function Join(parts: seq<string>, sep: string): string
  {
    if |parts| == 0 then ""
    else if |parts| == 1 then parts[0]
    else parts[0] + sep + Join(parts[1..], sep)
  }

  /** Number of occurrences of `c` in `s`. */
  function Count(s: string, c: char): nat
  {
    if |s| == 0 then 0 else (if s[0] == c then 1 else 0) + Count(s[1..], c)
  }

  /** Joining the pieces of a split with the separator gives back the text. */
  lemma {:induction false} JoinSplit(s: string, c: char)
    ensures Join(Split(s, c), [c]) == s
    decreases |s|
  {
    if |s| > 0 {
      JoinSplit(s[1..], c);
      var rest := Split(s[1..], c);
      if s[0] != c && |rest| > 1 {
        assert Split(s, c)[1..] == rest[1..];
      }
    }
  }

  /** A split yields one piece more than there are separators, none containing it. */
  lemma {:induction false} SplitPieces(s: string, c: char)
    ensures |Split(s, c)| == Count(s, c) + 1
    ensures forall i :: 0 <= i < |Split(s, c)| ==> c !in Split(s, c)[i]
    decreases |s|
  {
    if |s| > 0 {
      SplitPieces(s[1..], c);
      var rest := Split(s[1..], c);
      if s[0] != c {
        var parts := Split(s, c);
        forall i | 0 <= i < |parts| ensures c !in parts[i] {
          if i > 0 { assert parts[i] == rest[i]; }
        }
      }
    }
  }

  /** Splitting at a separator splits the two sides independently. */
  lemma {:induction false} SplitAround(a: string, b: string, c: char)
    ensures Split(a + [c] + b, c) == Split(a, c) + Split(b, c)
    decreases |a|
  {
    var s := a + [c] + b;
    if |a| == 0 {
      assert s[0] == c && s[1..] == b;
    } else {
      assert s[0] == a[0] && s[1..] == a[1..] + [c] + b;
      SplitAround(a[1..], b, c);
      var rest, left := Split(s[1..], c), Split(a[1..], c);
      assert rest == left + Split(b, c);
      if a[0] != c {
        assert rest[0] == left[0] && rest[1..] == left[1..] + Split(b, c);
      }
    }
  }

  /** A text without the separator splits into itself. */
  lemma {:induction false} SplitNoSeparator(s: string, c: char)
    requires c !in s
    ensures Split(s, c) == [s]
    decreases |s|
  {
    if |s| > 0 {
      SplitNoSeparator(s[1..], c);
      assert [s[0]] + s[1..] == s;
    }
  }

  /** Join inverts Split: pieces free of the separator come back unchanged. */
  lemma {:induction false} SplitJoin(parts: seq<string>, c: char)
    requires |parts| >= 1
    requires forall i :: 0 <= i < |parts| ==> c !in parts[i]
    ensures Split(Join(parts, [c]), c) == parts
    decreases |parts|
  {
    if |parts| == 1 {
      SplitNoSeparator(parts[0], c);
    } else {
      SplitJoin(parts[1..], c);
      SplitAround(parts[0], Join(parts[1..], [c]), c);
      SplitNoSeparator(parts[0], c);
      assert [parts[0]] + parts[1..] == parts;
    }
  }

  /** Joining a concatenation puts one separator between the two joins. */
  lemma {:induction false} JoinAppend(a: seq<string>, b: seq<string>, sep: string)
    requires |a| > 0 && |b| > 0
    ensures Join(a + b, sep) == Join(a, sep) + sep + Join(b, sep)
    decreases |a|
  {
    if |a| > 1 {
      assert (a + b)[1..] == a[1..] + b;
      JoinAppend(a[1..], b, sep);
    } else {
      assert (a + b)[1..] == b;
    }
  }

  /** The last piece of a join ends the joined text. */
  lemma {:induction false} JoinEndsWithLast(parts: seq<string>, sep: string)
    requires |parts| > 0
    ensures EndsWith(Join(parts, sep), parts[|parts| - 1])
    decreases |parts|
  {
    if |parts| > 1 {
      JoinEndsWithLast(parts[1..], sep);
      var j := Join(parts[1..], sep);
      var last := parts[|parts| - 1];
      assert (parts[0] + sep + j)[|parts[0] + sep + j| - |last|..] == j[|j| - |last|..];
    }
  }

  /** JavaScript `s.startsWith(p)`. */
  predicate StartsWith(s: string, p: string)
  {
    |p| <= |s| && s[..|p|] == p
  }

  lemma PrefixStarts(p: string, rest: string)
    ensures StartsWith(p + rest, p)
  {
    assert (p + rest)[..|p|] == p;
  }

  /** JavaScript `s.endsWith(p)`. */
  predicate EndsWith(s: string, p: string)
  {
    |p| <= |s| && s[|s| - |p|..] == p
  }

  /** `p` occurs in `s` at offset `i`. */
  predicate OccursAt(s: string, p: string, i: int)
  {
    0 <= i && i + |p| <= |s| && s[i..i + |p|] == p
  }

  /** JavaScript `s.includes(p)`: `p` occurs in `s` at some position. */
  predicate Contains(s: string, p: string)
    decreases |s|
  {
    |p| <= |s| && (s[..|p|] == p || (|s| > 0 && Contains(s[1..], p)))
  }

  /** `Contains` holds exactly when `p` occurs at some offset of `s`. */
  lemma {:induction false} ContainsAt(s: string, p: string)
    ensures Contains(s, p) <==> exists i :: OccursAt(s, p, i)
    decreases |s|
  {
    if |p| <= |s| && |s| > 0 {
      ContainsAt(s[1..], p);
      if Contains(s, p) {
        if s[..|p|] == p {
          assert OccursAt(s, p, 0);
        } else {
          var i :| OccursAt(s[1..], p, i);
          assert s[i + 1..i + 1 + |p|] == s[1..][i..i + |p|];
          assert OccursAt(s, p, i + 1);
        }
      } else {
        assert !Contains(s[1..], p);
        forall i | 0 <= i ensures !OccursAt(s, p, i) {
          if i > 0 && i + |p| <= |s| {
            assert s[i..i + |p|] == s[1..][i - 1..i - 1 + |p|];
            assert !OccursAt(s[1..], p, i - 1);
          }
        }
      }
    } else if |p| <= |s| {
      assert OccursAt(s, p, 0);
    }
  }

  /**
   * The characters JavaScript's `\s` and `trim` treat as white space:
   * WhiteSpace and LineTerminator of the ECMAScript grammar.
   */
  predicate IsSpace(c: char)
  {
    c == '\t' || c == '\n' || c == '\U{B}' || c == '\U{C}' || c == '\r' || c == ' '
    || c == '\U{A0}' || c == '\U{1680}' || ('\U{2000}' <= c <= '\U{200A}')
    || c == '\U{2028}' || c == '\U{2029}' || c == '\U{202F}' || c == '\U{205F}'
    || c == '\U{3000}' || c == '\U{FEFF}'
  }

  function TrimStart(s: string): (t: string)
    ensures |t| <= |s| && t == s[|s| - |t|..]
    ensures |t| > 0 ==> !IsSpace(t[0])
    ensures forall i :: 0 <= i < |s| - |t| ==> IsSpace(s[i])
    decreases |s|
  {
    if |s| > 0 && IsSpace(s[0]) then
      var t := TrimStart(s[1..]);
      assert s[1..][|s| - 1 - |t|..] == s[|s| - |t|..];
      assert forall i :: 1 <= i < |s| - |t| ==> s[i] == s[1..][i - 1];
      t
    else s
  }

  function TrimEnd(s: string): (t: string)
    ensures |t| <= |s| && t == s[..|t|]
    ensures |t| > 0 ==> !IsSpace(t[|t| - 1])
    ensures forall i :: |t| <= i < |s| ==> IsSpace(s[i])
    decreases |s|
  {
    if |s| > 0 && IsSpace(s[|s| - 1]) then TrimEnd(s[..|s| - 1]) else s
  }

  /** JavaScript `s.trim()`. */
  function Trim(s: string): string
  {
    TrimStart(TrimEnd(s))
  }

  /** Length of the longest prefix of `s` free of white space. */
  function WordLength(s: string): (k: nat)
    ensures k <= |s|
    ensures forall i :: 0 <= i < k ==> !IsSpace(s[i])
    ensures k < |s| ==> IsSpace(s[k])
    decreases |s|
  {
    if |s| == 0 || IsSpace(s[0]) then 0 else 1 + WordLength(s[1..])
  }

  /**
   * The non-empty pieces of `s.split(/\s+/)`: the maximal runs of
   * non-white-space characters, in order.
   */
  function Words(s: string): (ws: seq<string>)
    ensures forall i :: 0 <= i < |ws| ==> |ws[i]| > 0
    ensures forall i, j :: 0 <= i < |ws| && 0 <= j < |ws[i]| ==> !IsSpace(ws[i][j])
    decreases |s|
  {
    if |s| == 0 then []
    else if IsSpace(s[0]) then Words(s[1..])
    else
      var k := WordLength(s);
      [s[..k]] + Words(s[k..])
  }

  /** A text of non-white-space characters is one word. */
  lemma {:induction false} WordsOfWord(w: string)
    requires |w| > 0 && forall j :: 0 <= j < |w| ==> !IsSpace(w[j])
    ensures Words(w) == [w]
  {
    WordLengthAll(w);
    assert w[..|w|] == w;
    assert w[|w|..] == [];
  }

  lemma {:induction false} WordLengthAll(w: string)
    requires forall j :: 0 <= j < |w| ==> !IsSpace(w[j])
    ensures WordLength(w) == |w|
    decreases |w|
  {
    if |w| > 0 { WordLengthAll(w[1..]); }
  }

  /** JavaScript `line.trim().split(/\s+/)`: never empty; `[""]` for a blank line. */
  function Tokens(line: string): (ts: seq<string>)
    ensures |ts| >= 1
    ensures ts == [""] || forall i :: 0 <= i < |ts| ==> |ts[i]| > 0
  {
    var t := Trim(line);
    if t == "" then [""]
    else
      WordsOfNonBlank(t);
      Words(t)
  }

  /** A text that does not start with white space has at least one word. */
  lemma WordsOfNonBlank(t: string)
    requires |t| > 0 && !IsSpace(t[0])
    ensures |Words(t)| >= 1
  {
  }

  /**
   * `toLowerCase` restricted to what can turn into ASCII: A-Z and the
   * Kelvin sign, which lower-cases to `k`.
   */
  function LowerChar(c: char): char
  {
    if 'A' <= c <= 'Z' then (c as int + 32) as char
    else if c == '\U{212A}' then 'k'
    else c
  }

  function Lower(s: string): (t: string)
    ensures |t| == |s|
    ensures forall i :: 0 <= i < |s| ==> t[i] == LowerChar(s[i])
    ensures forall i :: 0 <= i < |s| && 'A' <= s[i] <= 'Z' ==> 'a' <= t[i] <= 'z' && t[i] as int == s[i] as int + 32
    ensures forall i :: 0 <= i < |s| && s[i] == '\U{212A}' ==> t[i] == 'k'
    ensures forall i :: 0 <= i < |s| && !('A' <= s[i] <= 'Z') && s[i] != '\U{212A}' ==> t[i] == s[i]
    ensures forall i :: 0 <= i < |t| ==> LowerChar(t[i]) == t[i]
  {
    seq(|s|, i requires 0 <= i < |s| => LowerChar(s[i]))
  }

  function DigitChar(d: nat): char
    requires d < 10
  {
    ('0' as int + d) as char
  }

  /** Decimal rendering of a natural number, as `n.toString()`. */
  function NatToString(n: nat): (s: string)
    ensures |s| >= 1
    ensures forall i :: 0 <= i < |s| ==> '0' <= s[i] <= '9'
    decreases n
  {
    if n < 10 then [DigitChar(n)] else NatToString(n / 10) + [DigitChar(n % 10)]
  }

  /** Decimal rendering of an integer, with a leading `-` when negative. */
  function IntToString(i: int): string
  {
    if i < 0 then "-" + NatToString(-i) else NatToString(i)
  }

  function Spaces(n: nat): (s: string)
    ensures |s| == n && forall i :: 0 <= i < n ==> s[i] == ' '
  {
    seq(n, _ => ' ')
  }

  /** JavaScript `s.padStart(width)`. */
  function PadStart(s: string, width: nat): (t: string)
    ensures |t| == if |s| >= width then |s| else width
    ensures EndsWith(t, s)
  {
    if |s| >= width then s else Spaces(width - |s|) + s
  }

  /** JavaScript `s.padEnd(width)`. */
  function PadEnd(s: string, width: nat): (t: string)
    ensures |t| == if |s| >= width then |s| else width
    ensures StartsWith(t, s)
  {
    if |s| >= width then s else s + Spaces(width - |s|)
  }

  /**
   * JavaScript `s.replace(/c/g, r)`: every `c` becomes `r`, which is the
   * text split at `c` and joined again with `r`.
   */
  function ReplaceAll(s: string, c: char, r: string): (t: string)
    requires c !in r
    ensures c !in t
    ensures c !in s ==> t == s
    ensures forall x :: x in t ==> (x in s && x != c) || x in r
    ensures t == Join(Split(s, c), r)
    decreases |s|
  {
    if |s| == 0 then ""
    else
      JoinSplitStep(s, c, r);
      (if s[0] == c then r else [s[0]]) + ReplaceAll(s[1..], c, r)
  }

  /** Joining the pieces of a split peels off the first character, or the first separator. */
  lemma JoinSplitStep(s: string, c: char, r: string)
    requires |s| > 0
    ensures Join(Split(s, c), r) == (if s[0] == c then r else [s[0]]) + Join(Split(s[1..], c), r)
  {
    var rest := Split(s[1..], c);
    if s[0] == c {
      assert Split(s, c) == [""] + rest;
      assert ([""] + rest)[1..] == rest;
    } else if |rest| > 1 {
      assert Split(s, c)[1..] == rest[1..];
    }
  }
}
