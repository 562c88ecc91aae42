/**
 * The commands that only read a file and compute text from it: `echo`,
 * `grep`, `find`, `head`, `tail`, `wc`, `sort` and `uniq`, with the pieces
 * of JavaScript they lean on (`parseInt`, `Array.prototype.slice`, the
 * default `sort`, `new Set`).
 */
module TextCmds {
  import opened Wrappers
  import opened Text
  import opened Paths
  import opened Sorting
  import opened Results
  import opened Vfs

  /** What an operand names: nothing, a directory, or a file with its text. */
  datatype Target = Missing | Directory | FileText(content: string)

  function Open(fs: Fs, cwd: string, name: string): (t: Target)
    ensures t.FileText? <==> IsFileAt(fs, ResolvePath(cwd, name))
    ensures t.Directory? <==> IsDirAt(fs, ResolvePath(cwd, name))
  {
    match GetDirectory(fs, ResolvePath(cwd, name))
    case None => Missing
    case Some(Dir(_)) => Directory
    case Some(File(content)) => FileText(content)
  }

  // ---------------------------------------------------------------------
  // `indexOf`
  // ---------------------------------------------------------------------

  /** `s.indexOf(x)`: where `x` first occurs. */
  function FirstIndex<T(==)>(s: seq<T>, x: T): (i: nat)
    requires x in s
    ensures i < |s| && s[i] == x && x !in s[..i]
  {
    if s[0] == x then 0
    else
      var i := 1 + FirstIndex(s[1..], x);
      assert s[..i] == [s[0]] + s[1..][..i - 1];
      i
  }

  /** Nothing before position `i` is `x` when `x` is not in `s[..i]`. */
  lemma NotBefore<T>(s: seq<T>, i: nat, x: T)
    requires i <= |s| && x !in s[..i]
    ensures forall k :: 0 <= k < i ==> s[k] != x
  {
    forall k | 0 <= k < i ensures s[k] != x {
      assert s[..i][k] == s[k];
    }
  }

  lemma FirstIndexPrefix<T>(a: seq<T>, b: seq<T>, x: T)
    requires x in a
    ensures FirstIndex(a + b, x) == FirstIndex(a, x)
  {
    var i := FirstIndex(a, x);
    var j := FirstIndex(a + b, x);
    NotBefore(a, i, x);
    NotBefore(a + b, j, x);
    assert (a + b)[i] == a[i];
    assert j <= i;
    assert (a + b)[j] == a[j];
  }

  lemma FirstIndexAt<T>(s: seq<T>, i: nat)
    requires i < |s| && s[i] !in s[..i]
    ensures FirstIndex(s, s[i]) == i
  {
    var j := FirstIndex(s, s[i]);
    NotBefore(s, i, s[i]);
    NotBefore(s, j, s[i]);
  }

  // ---------------------------------------------------------------------
  // `echo`
  // ---------------------------------------------------------------------

  predicate IsQuote(c: char)
  {
    c == '"' || c == '\''
  }

  /** `text.replace(/^["']|["']$/g, '')`: one quote off the front, then one off the back. */
  function StripQuotes(t: string): (r: string)
    ensures |t| - 2 <= |r| <= |t|
  {
    var front := if |t| > 0 && IsQuote(t[0]) then t[1..] else t;
    if |front| > 0 && IsQuote(front[|front| - 1]) then front[..|front| - 1] else front
  }

  /** A text wrapped in a pair of quotes comes back without them. */
  lemma StripQuotesOfQuoted(x: string, q: char, q': char)
    requires IsQuote(q) && IsQuote(q')
    ensures StripQuotes([q] + x + [q']) == x
  {
    var t := [q] + x + [q'];
    assert t[1..] == x + [q'];
    assert (x + [q'])[..|x|] == x;
  }

  /** A text that neither starts nor ends with a quote comes back unchanged. */
  lemma StripQuotesUnquoted(x: string)
    requires |x| == 0 || (!IsQuote(x[0]) && !IsQuote(x[|x| - 1]))
    ensures StripQuotes(x) == x
  {
  }

  /** `echo(args)`: the arguments joined with spaces, outer quotes removed. */
  function Echo(args: seq<string>): (r: CommandResult)
    ensures r.success && !r.error && r.output.Text?
    ensures |r.output.text| <= |Join(args, " ")|
    ensures r.output == Text(StripQuotes(Join(args, " ")))
  {
    Ok(StripQuotes(Join(args, " ")))
  }

  /** `echo "x"` and `echo 'x'` print `x`. */
  lemma EchoQuoted(x: string, q: char, q': char)
    requires IsQuote(q) && IsQuote(q')
    ensures Echo([[q] + x + [q']]).output == Text(x)
  {
    StripQuotesOfQuoted(x, q, q');
  }

  /** Words that neither start nor end the line with a quote are printed as they are, one space apart. */
  lemma EchoUnquoted(args: seq<string>)
    requires var j := Join(args, " "); |j| == 0 || (!IsQuote(j[0]) && !IsQuote(j[|j| - 1]))
    ensures Echo(args).output == Text(Join(args, " "))
  {
    StripQuotesUnquoted(Join(args, " "));
  }

  // ---------------------------------------------------------------------
  // `grep`
  // ---------------------------------------------------------------------

  /** `lines.filter(line => line.includes(pattern))`. */
  function Matching(lines: seq<string>, pattern: string): seq<string>
  {
    Filter(lines, (line: string) => Contains(line, pattern))
  }

  /**
   * The matching lines are exactly the lines containing the pattern, each as
   * often as it occurs among the lines.
   */
  lemma MatchingExact(lines: seq<string>, pattern: string)
    ensures forall line :: line in Matching(lines, pattern) <==> line in lines && Contains(line, pattern)
    ensures forall line :: multiset(Matching(lines, pattern))[line] ==
              if Contains(line, pattern) then multiset(lines)[line] else 0
  {
    forall line ensures multiset(Matching(lines, pattern))[line] ==
                         if Contains(line, pattern) then multiset(lines)[line] else 0 {
      FilterCount(lines, (l: string) => Contains(l, pattern), line);
    }
  }

  /** Matching keeps the order of the lines: matching a concatenation matches each part. */
  lemma MatchingAppend(a: seq<string>, b: seq<string>, pattern: string)
    ensures Matching(a + b, pattern) == Matching(a, pattern) + Matching(b, pattern)
  {
    FilterAppend(a, b, (line: string) => Contains(line, pattern));
  }

  /** `grep(args)`: pattern first, then the file; no match is still a success. */
  function Grep(fs: Fs, cwd: string, args: seq<string>): (r: CommandResult)
    ensures r.success <==> |args| >= 2 && IsFileAt(fs, ResolvePath(cwd, args[1]))
    ensures r.success ==>
      r.output == Text(Join(Matching(Split(Open(fs, cwd, args[1]).content, '\n'), args[0]), "\n"))
  {
    if |args| < 2 then Fail("grep: missing file operand")
    else
      match Open(fs, cwd, args[1])
      case Missing => Fail("grep: " + args[1] + ": No such file or directory")
      case Directory => Fail("grep: " + args[1] + ": Is a directory")
      case FileText(content) => Ok(Join(Matching(Split(content, '\n'), args[0]), "\n"))
  }

  // ---------------------------------------------------------------------
  // `find`
  // ---------------------------------------------------------------------

  /**
   * `find(args)`: search path first, then the pattern. A search path that is
   * not a directory gives an empty listing; a circular directory makes the
   * search raise.
   */
  function Find(fs: Fs, cwd: string, args: seq<string>): (r: Outcome<CommandResult>)
    ensures |args| < 2 ==> r.Done? && !r.value.success
    ensures |args| >= 2 ==>
      (r.Done? <==> Found(fs, ResolvePath(cwd, args[0]), args[1]).Done?)
    ensures |args| >= 2 && r.Done? ==>
      r.value == Ok(Join(Found(fs, ResolvePath(cwd, args[0]), args[1]).value, "\n"))
  {
    if |args| < 2 then Done(Fail("find: missing file operand"))
    else
      match Found(fs, ResolvePath(cwd, args[0]), args[1])
      case Thrown(f) => Thrown(f)
      case Done(results) => Done(Ok(Join(results, "\n")))
  }

  // ---------------------------------------------------------------------
  // `parseInt` and `slice`
  // ---------------------------------------------------------------------

  /** The value of a character as a digit in bases up to 36; 36 for anything else. */
  function DigitOf(c: char): (d: nat)
    ensures d <= 36
  {
    if '0' <= c <= '9' then c as int - '0' as int
    else if 'a' <= c <= 'z' then c as int - 'a' as int + 10
    else if 'A' <= c <= 'Z' then c as int - 'A' as int + 10
    else 36
  }

  /** Length of the longest prefix of `s` made of digits of base `radix`. */
  function DigitRun(s: string, radix: nat): (k: nat)
    ensures k <= |s|
    ensures forall i :: 0 <= i < k ==> DigitOf(s[i]) < radix
    ensures k < |s| ==> DigitOf(s[k]) >= radix
    decreases |s|
  {
    if |s| == 0 || DigitOf(s[0]) >= radix then 0 else 1 + DigitRun(s[1..], radix)
  }

  /** The number the digits `d` spell in base `radix`. */
  function DigitsValue(d: string, radix: nat): nat
    decreases |d|
  {
    if |d| == 0 then 0 else DigitsValue(d[..|d| - 1], radix) * radix + DigitOf(d[|d| - 1])
  }

  /**
   * `parseInt(s)` without a radix: leading white space skipped, an optional
   * sign, a `0x`/`0X` prefix switching to base 16, then the longest run of
   * digits. No digit at all is `NaN`, here `None`.
   */
  function ParseInt(s: string): (r: Option<int>)
    ensures r.None? <==>
      (var u := Unsigned(TrimStart(s)); DigitRun(Mantissa(u), Radix(u)) == 0)
  {
    var t := TrimStart(s);
    var u := Unsigned(t);
    var m := Mantissa(u);
    var k := DigitRun(m, Radix(u));
    if k == 0 then None
    else Some((if |t| > 0 && t[0] == '-' then -1 else 1) * DigitsValue(m[..k], Radix(u)))
  }

  /** The text after an optional leading sign. */
  function Unsigned(t: string): string
  {
    if |t| > 0 && (t[0] == '-' || t[0] == '+') then t[1..] else t
  }

  predicate HexPrefixed(u: string)
  {
    |u| >= 2 && u[0] == '0' && (u[1] == 'x' || u[1] == 'X')
  }

  function Radix(u: string): nat
  {
    if HexPrefixed(u) then 16 else 10
  }

  /** The text after the `0x` prefix, if any. */
  function Mantissa(u: string): string
  {
    if HexPrefixed(u) then u[2..] else u
  }

  lemma DigitRunDecimal(n: nat)
    ensures DigitRun(NatToString(n), 10) == |NatToString(n)|
  {
    var s := NatToString(n);
    DigitRunAll(s, 10);
  }

  lemma {:induction false} DigitRunAll(s: string, radix: nat)
    requires forall i :: 0 <= i < |s| ==> DigitOf(s[i]) < radix
    ensures DigitRun(s, radix) == |s|
    decreases |s|
  {
    if |s| > 0 {
      DigitRunAll(s[1..], radix);
    }
  }

  lemma {:induction false} DigitsValueDecimal(n: nat)
    ensures DigitsValue(NatToString(n), 10) == n
    decreases n
  {
    if n >= 10 {
      DigitsValueDecimal(n / 10);
      var s := NatToString(n);
      assert s[..|s| - 1] == NatToString(n / 10);
    }
  }

  /** `parseInt(String(i))` is `i`: the rendering of an integer parses back to it. */
  lemma ParseIntOfString(i: int)
    ensures ParseInt(IntToString(i)) == Some(i)
  {
    var n := if i < 0 then -i else i;
    var digits := NatToString(n);
    var s := IntToString(i);
    assert s[0] == '-' || '0' <= s[0] <= '9';
    SignNotSpace(s[0]);
    assert TrimStart(s) == s;
    assert Unsigned(s) == digits by {
      if i < 0 {
        assert s == "-" + digits;
        assert s[1..] == digits;
      }
    }
    assert Mantissa(digits) == digits && Radix(digits) == 10 by {
      assert !HexPrefixed(digits);
    }
    DigitRunDecimal(n);
    DigitsValueDecimal(n);
    assert digits[..|digits|] == digits;
  }

  /** Neither a minus sign nor a digit is white space. */
  lemma SignNotSpace(c: char)
    requires c == '-' || '0' <= c <= '9'
    ensures !IsSpace(c)
  {
  }

  /** A text whose first visible character is neither a sign nor a digit is `NaN`. */
  lemma ParseIntNaN(s: string)
    requires var t := TrimStart(s); |t| > 0 && t[0] != '-' && t[0] != '+' && !('0' <= t[0] <= '9')
    ensures ParseInt(s) == None
  {
  }

  /**
   * `args.includes('-n') ? parseInt(args[args.indexOf('-n') + 1]) || 10 : 10`.
   * A missing value is `parseInt(undefined)`, which is `NaN`.
   */
  function NumLines(args: seq<string>): (n: int)
    ensures n != 0
    ensures "-n" !in args ==> n == 10
  {
    if "-n" !in args then 10
    else
      var i := FirstIndex(args, "-n");
      var v := if i + 1 < |args| then ParseInt(args[i + 1]) else None;
      if v.None? || v.value == 0 then 10 else v.value
  }

  /** The count after `-n`: its value when it parses to a non-zero number, otherwise 10. */
  lemma NumLinesValue(args: seq<string>, i: nat)
    requires i + 1 < |args| && args[i] == "-n" && "-n" !in args[..i]
    ensures var v := ParseInt(args[i + 1]);
            NumLines(args) == if v.Some? && v.value != 0 then v.value else 10
  {
    FirstIndexAt(args, i);
  }

  /** How `slice` turns a possibly negative index into a position in `[0, len]`. */
  function RelIndex(k: int, len: nat): (i: nat)
    ensures i <= len
    ensures k >= 0 ==> i == (if k <= len then k else len)
    ensures k < 0 ==> i == (if len + k >= 0 then len + k else 0)
  {
    if k < 0 then (if len + k >= 0 then len + k else 0)
    else if k <= len then k else len
  }

  /** `s.slice(start, end)`. */
  function Slice<T>(s: seq<T>, start: int, end: int): seq<T>
  {
    var from := RelIndex(start, |s|);
    var to := RelIndex(end, |s|);
    if from < to then s[from..to] else []
  }

  /** `lines.slice(0, n)`. */
  function HeadLines<T>(lines: seq<T>, n: int): seq<T>
  {
    Slice(lines, 0, n)
  }

  /** `lines.slice(-n)`. */
  function TailLines<T>(lines: seq<T>, n: int): seq<T>
  {
    Slice(lines, -n, |lines|)
  }

  /** `head` keeps the first `n` lines; a negative `n` drops the last `-n`. */
  lemma HeadTakes<T>(lines: seq<T>, n: int)
    ensures 0 <= n <= |lines| ==> HeadLines(lines, n) == lines[..n]
    ensures n > |lines| ==> HeadLines(lines, n) == lines
    ensures n < 0 && -n <= |lines| ==> HeadLines(lines, n) == lines[..|lines| + n]
    ensures n < 0 && -n > |lines| ==> HeadLines(lines, n) == []
  {
  }

  /** `tail` keeps the last `n` lines; a negative `n` drops the first `-n`. */
  lemma TailTakes<T>(lines: seq<T>, n: int)
    ensures 0 < n <= |lines| ==> TailLines(lines, n) == lines[|lines| - n..]
    ensures n > |lines| ==> TailLines(lines, n) == lines
    ensures n < 0 && -n <= |lines| ==> TailLines(lines, n) == lines[-n..]
    ensures n < 0 && -n > |lines| ==> TailLines(lines, n) == []
  {
  }

  /** The first `n` and the last `|lines| - n` lines make up the whole text. */
  lemma HeadThenTail<T>(lines: seq<T>, n: int)
    requires 0 < n < |lines|
    ensures HeadLines(lines, n) + TailLines(lines, |lines| - n) == lines
  {
  }

  // ---------------------------------------------------------------------
  // `head` and `tail`
  // ---------------------------------------------------------------------

  /** `head(args)`: the file is always `args[0]`, the count is `NumLines(args)`. */
  function Head(fs: Fs, cwd: string, args: seq<string>): (r: CommandResult)
    ensures r.success <==> |args| > 0 && IsFileAt(fs, ResolvePath(cwd, args[0]))
    ensures r.success ==>
      r.output == Text(Join(HeadLines(Split(Open(fs, cwd, args[0]).content, '\n'), NumLines(args)), "\n"))
  {
    if |args| == 0 then Fail("head: missing file operand")
    else
      match Open(fs, cwd, args[0])
      case Missing => Fail("head: cannot open '" + args[0] + "' for reading: No such file or directory")
      case Directory => Fail("head: error reading '" + args[0] + "': Is a directory")
      case FileText(content) => Ok(Join(HeadLines(Split(content, '\n'), NumLines(args)), "\n"))
  }

  /** `tail(args)`: the same reading of the operands as `head`. */
  function Tail(fs: Fs, cwd: string, args: seq<string>): (r: CommandResult)
    ensures r.success <==> |args| > 0 && IsFileAt(fs, ResolvePath(cwd, args[0]))
    ensures r.success ==>
      r.output == Text(Join(TailLines(Split(Open(fs, cwd, args[0]).content, '\n'), NumLines(args)), "\n"))
  {
    if |args| == 0 then Fail("tail: missing file operand")
    else
      match Open(fs, cwd, args[0])
      case Missing => Fail("tail: cannot open '" + args[0] + "' for reading: No such file or directory")
      case Directory => Fail("tail: error reading '" + args[0] + "': Is a directory")
      case FileText(content) => Ok(Join(TailLines(Split(content, '\n'), NumLines(args)), "\n"))
  }

  // ---------------------------------------------------------------------
  // `wc`
  // ---------------------------------------------------------------------

  /** The number of places where a word starts, `prevSpace` telling whether the text before was blank. */
  function WordStarts(s: string, prevSpace: bool): nat
    decreases |s|
  {
    if |s| == 0 then 0
    else (if prevSpace && !IsSpace(s[0]) then 1 else 0) + WordStarts(s[1..], IsSpace(s[0]))
  }

  /** Inside a word no new word starts until the next white space. */
  lemma {:induction false} WordStartsInWord(s: string, k: nat)
    requires 0 < k <= |s| && forall i :: 0 <= i < k ==> !IsSpace(s[i])
    requires k < |s| ==> IsSpace(s[k])
    ensures WordStarts(s[1..], false) == WordStarts(s[k..], true)
    decreases k
  {
    if k == 1 {
      if |s| > 1 {
        assert s[1..][1..] == s[2..];
      }
    } else {
      WordStartsInWord(s[1..], k - 1);
      assert s[1..][k - 1..] == s[k..];
    }
  }

  /** The words of a text are as many as the places where a word starts. */
  lemma {:induction false} WordsCount(s: string)
    ensures |Words(s)| == WordStarts(s, true)
    decreases |s|
  {
    if |s| > 0 {
      if IsSpace(s[0]) {
        WordsCount(s[1..]);
      } else {
        var k := WordLength(s);
        WordsCount(s[k..]);
        WordStartsInWord(s, k);
      }
    }
  }

  /** `${lines} ${words} ${chars} ${args[0]}` for the text of the file. */
  function WcLine(content: string, name: string): string
  {
    NatToString(|Split(content, '\n')|) + " " + NatToString(|Words(content)|) + " "
      + NatToString(|content|) + " " + name
  }

  /** The three counts: one line more than there are newlines, the words, the characters. */
  lemma WcCounts(content: string)
    ensures |Split(content, '\n')| == Count(content, '\n') + 1
    ensures |Words(content)| == WordStarts(content, true)
  {
    SplitPieces(content, '\n');
    WordsCount(content);
  }

  /** `wc(args)`. */
  function Wc(fs: Fs, cwd: string, args: seq<string>): (r: CommandResult)
    ensures r.success <==> |args| > 0 && IsFileAt(fs, ResolvePath(cwd, args[0]))
    ensures r.success ==> r.output == Text(WcLine(Open(fs, cwd, args[0]).content, args[0]))
  {
    if |args| == 0 then Fail("wc: missing file operand")
    else
      match Open(fs, cwd, args[0])
      case Missing => Fail("wc: " + args[0] + ": No such file or directory")
      case Directory => Fail("wc: " + args[0] + ": Is a directory")
      case FileText(content) => Ok(WcLine(content, args[0]))
  }

  // ---------------------------------------------------------------------
  // `sort` and `uniq`
  // ---------------------------------------------------------------------

  /**
   * `lines.sort()`: the stable default sort, comparing the strings character
   * by character (see `StrLe`).
   */
  function SortLines(lines: seq<string>): seq<string>
  {
    SortBy(lines, (a: string, b: string) => StrLe(a, b))
  }

  /** The sorted lines are in order and are the same lines, as often as before. */
  lemma SortLinesSorted(lines: seq<string>)
    ensures Sorted(SortLines(lines), (a: string, b: string) => StrLe(a, b))
    ensures multiset(SortLines(lines)) == multiset(lines)
  {
    StrLeIsTotalPreorder();
    SortBySorted(lines, (a: string, b: string) => StrLe(a, b));
    SortByPermutes(lines, (a: string, b: string) => StrLe(a, b));
  }

  /** `sort(args)`. */
  function Sort(fs: Fs, cwd: string, args: seq<string>): (r: CommandResult)
    ensures r.success <==> |args| > 0 && IsFileAt(fs, ResolvePath(cwd, args[0]))
    ensures r.success ==> r.output == Text(Join(SortLines(Split(Open(fs, cwd, args[0]).content, '\n')), "\n"))
  {
    if |args| == 0 then Fail("sort: missing file operand")
    else
      match Open(fs, cwd, args[0])
      case Missing => Fail("sort: cannot read: " + args[0] + ": No such file or directory")
      case Directory => Fail("sort: read error: " + args[0] + ": Is a directory")
      case FileText(content) => Ok(Join(SortLines(Split(content, '\n')), "\n"))
  }

  /** `[...new Set(lines)]`: each line the first time it occurs, in that order. */
  function Dedup(lines: seq<string>): seq<string>
    decreases |lines|
  {
    if |lines| == 0 then []
    else
      var init := lines[..|lines| - 1];
      var last := lines[|lines| - 1];
      if last in init then Dedup(init) else Dedup(init) + [last]
  }

  predicate Distinct(s: seq<string>)
  {
    forall i, j :: 0 <= i < j < |s| ==> s[i] != s[j]
  }

  /**
   * The distinct lines: no line twice, the same lines as before, and in the
   * order of their first occurrences.
   */
  lemma {:induction false} DedupFirstOccurrences(lines: seq<string>)
    ensures Distinct(Dedup(lines))
    ensures forall x :: x in Dedup(lines) <==> x in lines
    ensures forall i, j :: 0 <= i < j < |Dedup(lines)| ==>
              FirstIndex(lines, Dedup(lines)[i]) < FirstIndex(lines, Dedup(lines)[j])
    decreases |lines|
  {
    if |lines| > 0 {
      var init := lines[..|lines| - 1];
      var last := lines[|lines| - 1];
      DedupFirstOccurrences(init);
      assert lines == init + [last];
      forall x | x in init ensures FirstIndex(lines, x) == FirstIndex(init, x) {
        FirstIndexPrefix(init, [last], x);
      }
      if last !in init {
        assert FirstIndex(lines, last) == |init| by {
          FirstIndexAt(lines, |init|);
        }
      }
    }
  }

  /** `uniq(args)`: the distinct lines of the whole file, not only adjacent repeats. */
  function Uniq(fs: Fs, cwd: string, args: seq<string>): (r: CommandResult)
    ensures r.success <==> |args| > 0 && IsFileAt(fs, ResolvePath(cwd, args[0]))
    ensures r.success ==> r.output == Text(Join(Dedup(Split(Open(fs, cwd, args[0]).content, '\n')), "\n"))
  {
    if |args| == 0 then Fail("uniq: missing file operand")
    else
      match Open(fs, cwd, args[0])
      case Missing => Fail("uniq: " + args[0] + ": No such file or directory")
      case Directory => Fail("uniq: " + args[0] + ": Is a directory")
      case FileText(content) => Ok(Join(Dedup(Split(content, '\n')), "\n"))
  }
}
