/**
 * `ls`: option parsing (`parseLsOptions`), filtering, sorting, grouping and
 * the output formats, including the long format (`formatLongListing`) and
 * `formatHumanSize`.
 *
 * `localeCompare` is not modelled; the comparison of names is a parameter
 * `collate`, where `collate(a, b)` means `a.localeCompare(b) <= 0`.
 */
module Listing {
  import opened Wrappers
  import opened Text
  import opened Paths
  import opened Sorting
  import opened Results
  import opened Vfs

  datatype SortKey = ByName | BySize | ByTime | ByExtension

  /** The option record of `parseLsOptions` (`ignore` is left out: it is never set). */
  datatype LsOptions = LsOptions(
    all: bool, almostAll: bool, longFormat: bool, onePerLine: bool,
    commaSeparated: bool, vertical: bool, reverse: bool, noSort: bool,
    sortBy: SortKey, groupDirectoriesFirst: bool, ignoreBackups: bool,
    humanReadable: bool, showInode: bool, classify: bool, quoteNames: bool,
    path: Option<string>)

  // ---------------------------------------------------------------------
  // Option parsing.
  // ---------------------------------------------------------------------

  predicate IsFlagArg(arg: string)
  {
    StartsWith(arg, "-")
  }

  /**
   * The characters after the first of every argument that starts with `-`,
   * in order: the flags `parseLsOptions` reads (also from `--xyz`, since the
   * `--` branch comes after the `-` test and is never reached).
   */
  function FlagChars(args: seq<string>): (cs: string)
    ensures forall c :: c in cs <==> exists i :: 0 <= i < |args| && IsFlagArg(args[i]) && c in args[i][1..]
    decreases |args|
  {
    if |args| == 0 then ""
    else
      var last := args[|args| - 1];
      var before := FlagChars(args[..|args| - 1]);
      assert forall i :: 0 <= i < |args| - 1 ==> args[..|args| - 1][i] == args[i];
      before + (if IsFlagArg(last) then last[1..] else "")
  }

  /** The last argument that is not a flag argument: `options.path`. */
  function LastOperand(args: seq<string>): (p: Option<string>)
    ensures p.None? <==> forall i :: 0 <= i < |args| ==> IsFlagArg(args[i])
    ensures p.Some? ==> exists i :: 0 <= i < |args| && args[i] == p.value && !IsFlagArg(args[i])
                                    && forall j :: i < j < |args| ==> IsFlagArg(args[j])
    decreases |args|
  {
    if |args| == 0 then None
    else if !IsFlagArg(args[|args| - 1]) then Some(args[|args| - 1])
    else
      var p := LastOperand(args[..|args| - 1]);
      assert forall i :: 0 <= i < |args| - 1 ==> args[..|args| - 1][i] == args[i];
      p
  }

  predicate IsSortFlag(c: char)
  {
    c == 'S' || c == 't' || c == 'X'
  }

  function KeyOf(c: char): SortKey
  {
    if c == 'S' then BySize else if c == 't' then ByTime else if c == 'X' then ByExtension else ByName
  }

  /** `options.sortBy`: set by the last of `-S`, `-t`, `-X`, and `name` when there is none. */
  function SortKeyOf(cs: string): (k: SortKey)
    ensures k == ByName <==> forall i :: 0 <= i < |cs| ==> !IsSortFlag(cs[i])
    ensures k != ByName ==> exists i :: 0 <= i < |cs| && IsSortFlag(cs[i]) && k == KeyOf(cs[i]) && LastSortFlag(cs, i)
    decreases |cs|
  {
    if |cs| == 0 then ByName
    else if IsSortFlag(cs[|cs| - 1]) then
      assert LastSortFlag(cs, |cs| - 1);
      KeyOf(cs[|cs| - 1])
    else
      var k := SortKeyOf(cs[..|cs| - 1]);
      assert forall i :: 0 <= i < |cs| - 1 ==> cs[..|cs| - 1][i] == cs[i];
      assert k != ByName ==> exists i :: 0 <= i < |cs| && IsSortFlag(cs[i]) && k == KeyOf(cs[i]) && LastSortFlag(cs, i) by {
        if k != ByName {
          var i :| 0 <= i < |cs| - 1 && IsSortFlag(cs[..|cs| - 1][i]) && k == KeyOf(cs[..|cs| - 1][i])
                   && LastSortFlag(cs[..|cs| - 1], i);
          assert LastSortFlag(cs, i);
        }
      }
      k
  }

  /** `cs[i]` is a sort flag and no later character is. */
  predicate LastSortFlag(cs: string, i: int)
    requires 0 <= i < |cs|
  {
    IsSortFlag(cs[i]) && forall j :: i < j < |cs| ==> !IsSortFlag(cs[j])
  }

  /** The options before any argument is read. */
  function Defaults(): LsOptions
  {
    LsOptions(false, false, false, false, false, false, false, false, ByName,
              false, false, false, false, false, false, None)
  }

  /**
   * One iteration of the character loop of `parseLsOptions`: each case of the
   * switch turns one field on (`S`, `t` and `X` set `sortBy`); any other
   * character changes nothing.
   */
  function SetFlag(o: LsOptions, c: char): LsOptions
  {
    LsOptions(o.all || c == 'a', o.almostAll || c == 'A', o.longFormat || c == 'l',
              o.onePerLine || c == '1', o.commaSeparated || c == 'm', o.vertical || c == 'C',
              o.reverse || c == 'r', o.noSort || c == 'U',
              if IsSortFlag(c) then KeyOf(c) else o.sortBy,
              o.groupDirectoriesFirst || c == 'G', o.ignoreBackups || c == 'B',
              o.humanReadable || c == 'h', o.showInode || c == 'i', o.classify || c == 'F',
              o.quoteNames || c == 'Q', o.path)
  }

  /** The options after the switch has run over the flag characters `cs`, with operand `path`. */
  function OptionsFrom(cs: string, path: Option<string>): LsOptions
    decreases |cs|
  {
    if |cs| == 0 then Defaults().(path := path)
    else SetFlag(OptionsFrom(cs[..|cs| - 1], path), cs[|cs| - 1])
  }

  /**
   * What the switch computes, field by field: a flag is on exactly when its
   * character occurs, and the sort key is the one of the last sort flag.
   */
  lemma {:induction false} OptionsFromFlags(cs: string, path: Option<string>)
    ensures var o := OptionsFrom(cs, path);
      && o.all == ('a' in cs) && o.almostAll == ('A' in cs) && o.longFormat == ('l' in cs)
      && o.onePerLine == ('1' in cs) && o.commaSeparated == ('m' in cs) && o.vertical == ('C' in cs)
      && o.reverse == ('r' in cs) && o.noSort == ('U' in cs) && o.sortBy == SortKeyOf(cs)
      && o.groupDirectoriesFirst == ('G' in cs) && o.ignoreBackups == ('B' in cs)
      && o.humanReadable == ('h' in cs) && o.showInode == ('i' in cs) && o.classify == ('F' in cs)
      && o.quoteNames == ('Q' in cs) && o.path == path
    decreases |cs|
  {
    if |cs| > 0 {
      var init, c := cs[..|cs| - 1], cs[|cs| - 1];
      assert cs == init + [c];
      OptionsFromFlags(init, path);
      SortKeyStep(init, c);
      InAppend(init, c);
    }
  }

  lemma SortKeyStep(cs: string, c: char)
    ensures SortKeyOf(cs + [c]) == if IsSortFlag(c) then KeyOf(c) else SortKeyOf(cs)
  {
    assert (cs + [c])[..|cs|] == cs;
  }

  lemma InAppend(cs: string, c: char)
    ensures forall x {:trigger x in cs + [c]} :: x in cs + [c] <==> x in cs || x == c
  {
  }

  /** What `parseLsOptions(args)` returns. */
  function LsOptionsOf(args: seq<string>): LsOptions
  {
    OptionsFrom(FlagChars(args), LastOperand(args))
  }

  /** The operand is carried through the switch untouched. */
  lemma {:induction false} OptionsPath(cs: string, path: Option<string>, path': Option<string>)
    ensures OptionsFrom(cs, path).(path := path') == OptionsFrom(cs, path')
    decreases |cs|
  {
    if |cs| > 0 {
      OptionsPath(cs[..|cs| - 1], path, path');
    }
  }

  /** Reading one more flag character is one step of the switch. */
  lemma OptionsStep(cs: string, c: char, path: Option<string>)
    ensures OptionsFrom(cs + [c], path) == SetFlag(OptionsFrom(cs, path), c)
  {
    assert (cs + [c])[..|cs|] == cs;
  }

  /** The inner loop of `parseLsOptions`: the switch on each character of `arg` after the first. */
  method ReadFlags(options: LsOptions, cs: string, arg: string, path: Option<string>) returns (o: LsOptions)
    requires |arg| >= 1 && options == OptionsFrom(cs, path)
    ensures o == OptionsFrom(cs + arg[1..], path)
  {
    o := options;
    var j := 1;
    assert cs + arg[1..1] == cs;
    while j < |arg|
      invariant 1 <= j <= |arg|
      invariant o == OptionsFrom(cs + arg[1..j], path)
    {
      assert cs + arg[1..j + 1] == (cs + arg[1..j]) + [arg[j]];
      OptionsStep(cs + arg[1..j], arg[j], path);
      o := SetFlag(o, arg[j]);
      j := j + 1;
    }
    assert arg[1..j] == arg[1..];
  }

  /** `parseLsOptions(args)`: every flag character of every `-` argument, then the last operand. */
  method ParseLsOptions(args: seq<string>) returns (options: LsOptions)
    ensures options == LsOptionsOf(args)
  {
    options := Defaults();
    assert args[..0] == [];
    var i := 0;
    while i < |args|
      invariant 0 <= i <= |args|
      invariant options == LsOptionsOf(args[..i])
    {
      var arg := args[i];
      assert args[..i + 1] == args[..i] + [arg];
      assert args[..i + 1][..i] == args[..i];
      if StartsWith(arg, "-") {
        var base := FlagChars(args[..i]);
        var path := LastOperand(args[..i]);
        options := ReadFlags(options, base, arg, path);
        assert FlagChars(args[..i + 1]) == base + arg[1..];
        assert LastOperand(args[..i + 1]) == path;
      } else {
        OptionsPath(FlagChars(args[..i]), LastOperand(args[..i]), Some(arg));
        options := options.(path := Some(arg));
        assert FlagChars(args[..i + 1]) == FlagChars(args[..i]);
        assert LastOperand(args[..i + 1]) == Some(arg);
      }
      i := i + 1;
    }
    assert args[..i] == args;
  }

  /** Some argument starting with `-` carries the flag character `c` after its first character. */
  ghost predicate Flagged(args: seq<string>, c: char)
  {
    exists i :: 0 <= i < |args| && IsFlagArg(args[i]) && c in args[i][1..]
  }

  /**
   * The options `parseLsOptions(args)` returns, field by field: each switch
   * is on exactly when some `-` argument carries its letter, and the path is
   * the last argument that does not start with `-`.
   */
  lemma LsOptionsMeaning(args: seq<string>)
    ensures var o := LsOptionsOf(args);
      && (o.all <==> Flagged(args, 'a')) && (o.almostAll <==> Flagged(args, 'A'))
      && (o.longFormat <==> Flagged(args, 'l')) && (o.onePerLine <==> Flagged(args, '1'))
      && (o.commaSeparated <==> Flagged(args, 'm')) && (o.vertical <==> Flagged(args, 'C'))
      && (o.reverse <==> Flagged(args, 'r')) && (o.noSort <==> Flagged(args, 'U'))
      && (o.groupDirectoriesFirst <==> Flagged(args, 'G')) && (o.ignoreBackups <==> Flagged(args, 'B'))
      && (o.humanReadable <==> Flagged(args, 'h')) && (o.showInode <==> Flagged(args, 'i'))
      && (o.classify <==> Flagged(args, 'F')) && (o.quoteNames <==> Flagged(args, 'Q'))
      && o.sortBy == SortKeyOf(FlagChars(args)) && o.path == LastOperand(args)
  {
    OptionsFromFlags(FlagChars(args), LastOperand(args));
  }

  // ---------------------------------------------------------------------
  // Entries: filtering, sorting, grouping.
  // ---------------------------------------------------------------------

  /** The node `getDirectory(joinPath(dir, name))` finds for an entry. */
  function EntryNode(fs: Fs, dir: string, name: string): Option<Node>
  {
    GetDirectory(fs, JoinPath(dir, name))
  }

  /** `itemData?.type === 'directory'`. */
  predicate IsDirEntry(fs: Fs, dir: string, name: string)
  {
    var n := EntryNode(fs, dir, name); n.Some? && n.value.Dir?
  }

  /** The size `ls` shows: the content length of a file, 4096 for anything else. */
  function Size(fs: Fs, dir: string, name: string): (n: nat)
    ensures (EntryNode(fs, dir, name).Some? && EntryNode(fs, dir, name).value.File?) || n == 4096
  {
    match EntryNode(fs, dir, name)
    case Some(File(content)) => |content|
    case _ => 4096
  }

  /** `name.split('.').pop() || ''`: the text after the last dot, the whole name without one. */
  function Extension(name: string): (e: string)
    ensures '.' !in e
    ensures EndsWith(name, e)
    ensures '.' !in name ==> e == name
  {
    var parts := Split(name, '.');
    SplitPieces(name, '.');
    JoinSplit(name, '.');
    JoinEndsWithLast(parts, ".");
    if '.' !in name then SplitNoSeparator(name, '.'); parts[|parts| - 1]
    else parts[|parts| - 1]
  }

  /** The filters: hidden names, `.` and `..` under `-A`, backups under `-B`. */
  function Visible(items: seq<string>, o: LsOptions): (r: seq<string>)
    ensures forall x :: x in r <==> (x in items
                                     && (!o.all && !o.almostAll ==> !StartsWith(x, "."))
                                     && (o.almostAll ==> x != "." && x != "..")
                                     && (o.ignoreBackups ==> !EndsWith(x, "~")))
  {
    var shown :=
      if !o.all && !o.almostAll then Filter(items, (x: string) => !StartsWith(x, "."))
      else if o.almostAll then Filter(items, (x: string) => x != "." && x != "..")
      else items;
    if o.ignoreBackups then Filter(shown, (x: string) => !EndsWith(x, "~")) else shown
  }

  /**
   * The comparison the sort uses, as "`a` may come before `b`": by size
   * (numeric), by name or time (both by name), or by extension, each
   * turned round by `-r`. `collate(a, b)` stands for `a.localeCompare(b) <= 0`.
   */
  function Order(fs: Fs, dir: string, o: LsOptions, collate: (string, string) -> bool): (string, string) -> bool
  {
    match o.sortBy
    case BySize =>
      if o.reverse then (a: string, b: string) => Size(fs, dir, b) <= Size(fs, dir, a)
      else (a: string, b: string) => Size(fs, dir, a) <= Size(fs, dir, b)
    case ByExtension =>
      if o.reverse then (a: string, b: string) => collate(Extension(b), Extension(a))
      else (a: string, b: string) => collate(Extension(a), Extension(b))
    case _ =>
      if o.reverse then (a: string, b: string) => collate(b, a)
      else (a: string, b: string) => collate(a, b)
  }

  /** Every comparison the sort can use is a total preorder when `collate` is. */
  lemma OrderIsTotalPreorder(fs: Fs, dir: string, o: LsOptions, collate: (string, string) -> bool)
    requires TotalPreorder(collate)
    ensures TotalPreorder(Order(fs, dir, o, collate))
  {
    var le := Order(fs, dir, o, collate);
    if o.sortBy == ByExtension {
      forall a, b, c | le(a, b) && le(b, c) ensures le(a, c) {
        if o.reverse {
          assert collate(Extension(c), Extension(b)) && collate(Extension(b), Extension(a));
        } else {
          assert collate(Extension(a), Extension(b)) && collate(Extension(b), Extension(c));
        }
      }
      forall a, b ensures le(a, b) || le(b, a) {
        assert collate(Extension(a), Extension(b)) || collate(Extension(b), Extension(a));
      }
    } else if o.sortBy != BySize {
      forall a, b, c | le(a, b) && le(b, c) ensures le(a, c) {
        if o.reverse {
          assert collate(c, b) && collate(b, a);
        } else {
          assert collate(a, b) && collate(b, c);
        }
      }
    }
  }

  /** The sort, skipped under `-U`; `Array.prototype.sort` is stable. */
  function Arrange(items: seq<string>, fs: Fs, dir: string, o: LsOptions,
                   collate: (string, string) -> bool): seq<string>
  {
    if o.noSort then items else SortBy(items, Order(fs, dir, o, collate))
  }

  /**
   * `ls -S`: entries in ascending size (descending with `-r`), the same
   * entries as before, and entries of equal size in their previous order.
   */
  lemma SizeSort(items: seq<string>, fs: Fs, dir: string, o: LsOptions,
                 collate: (string, string) -> bool, y: string)
    requires o.sortBy == BySize && !o.noSort
    ensures var r := Arrange(items, fs, dir, o, collate);
      && multiset(r) == multiset(items)
      && (forall i, j :: 0 <= i < j < |r| ==>
            if o.reverse then Size(fs, dir, r[i]) >= Size(fs, dir, r[j])
            else Size(fs, dir, r[i]) <= Size(fs, dir, r[j]))
      && Ties(r, y, Order(fs, dir, o, collate)) == Ties(items, y, Order(fs, dir, o, collate))
  {
    var le := Order(fs, dir, o, collate);
    assert TotalPreorder(le);
    SortByPermutes(items, le);
    SortBySorted(items, le);
    SortByStable(items, y, le);
  }

  /**
   * `ls` by name (also `-t`) or by extension: sorted by the collation,
   * turned round by `-r`, the same entries, equal keys in their previous order.
   */
  lemma CollateSort(items: seq<string>, fs: Fs, dir: string, o: LsOptions,
                    collate: (string, string) -> bool, y: string)
    requires TotalPreorder(collate) && o.sortBy != BySize && !o.noSort
    ensures var r := Arrange(items, fs, dir, o, collate);
      var key := (x: string) => if o.sortBy == ByExtension then Extension(x) else x;
      && multiset(r) == multiset(items)
      && (forall i, j :: 0 <= i < j < |r| ==>
            if o.reverse then collate(key(r[j]), key(r[i])) else collate(key(r[i]), key(r[j])))
      && Ties(r, y, Order(fs, dir, o, collate)) == Ties(items, y, Order(fs, dir, o, collate))
  {
    var le := Order(fs, dir, o, collate);
    OrderIsTotalPreorder(fs, dir, o, collate);
    SortByPermutes(items, le);
    SortBySorted(items, le);
    SortByStable(items, y, le);
  }

  /** The test of the first `-G` filter, and of the second. */
  function DirTest(fs: Fs, dir: string): string -> bool
  {
    (x: string) => IsDirEntry(fs, dir, x)
  }

  function OtherTest(fs: Fs, dir: string): string -> bool
  {
    (x: string) => !IsDirEntry(fs, dir, x)
  }

  /** `-G`: the directories, then everything else, each group in its previous order. */
  function Group(items: seq<string>, fs: Fs, dir: string, o: LsOptions): seq<string>
  {
    if o.groupDirectoriesFirst then Filter(items, DirTest(fs, dir)) + Filter(items, OtherTest(fs, dir))
    else items
  }

  /**
   * `ls -G`: every directory comes before every other entry, nothing is lost
   * or added, and each group keeps the order it had.
   */
  lemma GroupDirectoriesFirst(items: seq<string>, fs: Fs, dir: string, o: LsOptions)
    requires o.groupDirectoriesFirst
    ensures var r := Group(items, fs, dir, o);
      && multiset(r) == multiset(items)
      && (forall i, j :: 0 <= i < |r| && 0 <= j < |r| && IsDirEntry(fs, dir, r[j]) && !IsDirEntry(fs, dir, r[i]) ==> j < i)
      && Filter(r, DirTest(fs, dir)) == Filter(items, DirTest(fs, dir))
      && Filter(r, OtherTest(fs, dir)) == Filter(items, OtherTest(fs, dir))
  {
    Partition(items, DirTest(fs, dir), OtherTest(fs, dir));
  }

  // ---------------------------------------------------------------------
  // Sizes in human-readable form.
  // ---------------------------------------------------------------------

  function Pow1024(k: nat): (p: nat)
    ensures p >= 1
  {
    if k == 0 then 1 else 1024 * Pow1024(k - 1)
  }

  lemma {:induction false} Pow1024Grows(j: nat, k: nat)
    requires j <= k
    ensures Pow1024(j) <= Pow1024(k)
    decreases k
  {
    if j < k {
      Pow1024Grows(j, k - 1);
    }
  }

  /**
   * The unit `formatHumanSize` settles on: the largest of B, K, M, G, T
   * (0 to 4) whose size `bytes` reaches, and B below 1024.
   */
  function UnitIndex(bytes: nat): (k: nat)
    ensures k <= 4
    ensures k == 0 || Pow1024(k) <= bytes
    ensures k == 4 || bytes < Pow1024(k + 1)
  {
    if bytes < Pow1024(1) then 0
    else if bytes < Pow1024(2) then 1
    else if bytes < Pow1024(3) then 2
    else if bytes < Pow1024(4) then 3
    else 4
  }

  /** `Math.round(n / d)`: the nearest integer, halves rounded up. */
  function RoundDiv(n: nat, d: nat): (q: nat)
    requires d > 0
    ensures 2 * n - d < 2 * q * d <= 2 * n + d
  {
    (2 * n + d) / (2 * d)
  }

  function UnitLetter(k: nat): char
    requires k <= 4
  {
    "BKMGT"[k]
  }

  /** What `formatHumanSize(bytes)` returns. */
  function HumanSize(bytes: nat): string
  {
    var k := UnitIndex(bytes);
    NatToString(RoundDiv(bytes, Pow1024(k))) + [UnitLetter(k)]
  }

  /** Below the last unit, the rounded figure is at most 1024 (1023.5 and up round to 1024). */
  lemma HumanSizeFigure(bytes: nat)
    ensures var k := UnitIndex(bytes);
      k < 4 ==> RoundDiv(bytes, Pow1024(k)) <= 1024
    ensures var k := UnitIndex(bytes);
      k > 0 ==> RoundDiv(bytes, Pow1024(k)) >= 1
  {
    var k := UnitIndex(bytes);
    var p := Pow1024(k);
    var q := RoundDiv(bytes, p);
    if k < 4 {
      assert Pow1024(k + 1) == 1024 * p;
    }
  }

  /**
   * `formatHumanSize(bytes)`: divide by 1024 while the size is at least 1024
   * and a larger unit remains, then round. Dividing by 1024 is exact, so the
   * size after `k` divisions is `bytes / 1024^k`.
   */
  method FormatHumanSize(bytes: nat) returns (s: string)
    ensures s == HumanSize(bytes)
  {
    var size: real := bytes as real;
    var scale: nat := 1;
    var unitIndex: nat := 0;
    while size >= 1024.0 && unitIndex < 4
      invariant unitIndex <= UnitIndex(bytes)
      invariant scale == Pow1024(unitIndex)
      invariant size == bytes as real / scale as real
    {
      ScaledAtLeast(bytes, scale);
      ScaleDown(bytes, scale);
      size := size / 1024.0;
      scale := 1024 * scale;
      unitIndex := unitIndex + 1;
    }
    ScaledAtLeast(bytes, scale);
    if unitIndex < UnitIndex(bytes) {
      Pow1024Grows(unitIndex + 1, UnitIndex(bytes));
    }
    RoundReal(bytes, scale);
    s := NatToString((size + 0.5).Floor) + [UnitLetter(unitIndex)];
  }

  /** The loop test on the real size is a test on whole numbers. */
  lemma ScaledAtLeast(n: nat, d: nat)
    requires d > 0
    ensures n as real / d as real >= 1024.0 <==> n >= 1024 * d
  {
    var x := n as real / d as real;
    assert x * d as real == n as real;
  }

  /** One more division by 1024 is a division by a scale 1024 times larger. */
  lemma ScaleDown(n: nat, d: nat)
    requires d > 0
    ensures (n as real / d as real) / 1024.0 == n as real / (1024 * d) as real
  {
  }

  /** `Math.round(n / d)` computed on reals is `RoundDiv(n, d)`. */
  lemma RoundReal(n: nat, d: nat)
    requires d > 0
    ensures (n as real / d as real + 0.5).Floor == RoundDiv(n, d)
  {
    var q := RoundDiv(n, d);
    var top, bottom := (2 * n + d) as real, (2 * d) as real;
    var x := n as real / d as real + 0.5;
    assert x == top / bottom;
    assert q * (2 * d) <= 2 * n + d < (q + 1) * (2 * d);
    BetweenQuotients(q, 2 * n + d, 2 * d);
  }

  /** Whole-number bounds on a quotient carry over to the real quotient. */
  lemma BetweenQuotients(q: nat, a: nat, b: nat)
    requires b > 0 && q * b <= a < (q + 1) * b
    ensures q as real <= a as real / b as real < (q + 1) as real
  {
    var x := a as real / b as real;
    assert x * b as real == a as real;
    assert (q * b) as real == q as real * b as real;
    assert ((q + 1) * b) as real == (q + 1) as real * b as real;
  }

  // ---------------------------------------------------------------------
  // Output.
  // ---------------------------------------------------------------------

  /** The name as shown: `/` after a directory under `-F`, then double quotes under `-Q`. */
  function Decorated(fs: Fs, dir: string, name: string, o: LsOptions): (shown: string)
    ensures o.classify && IsDirEntry(fs, dir, name) ==> EndsWith(shown, if o.quoteNames then "/\"" else "/")
    ensures o.quoteNames ==> StartsWith(shown, "\"") && EndsWith(shown, "\"")
    ensures !o.quoteNames && !(o.classify && IsDirEntry(fs, dir, name)) ==> shown == name
  {
    var classified := if o.classify && IsDirEntry(fs, dir, name) then name + "/" else name;
    if o.quoteNames then "\"" + classified + "\"" else classified
  }

  /**
   * One line of `formatLongListing` from its variable columns: the fields
   * inode, type and permissions, links, owner, group, size, date and name,
   * with the empty ones dropped, joined by single spaces.
   */
  function Line(inode: string, kind: string, size: string, shown: string): string
  {
    Join(Filter([inode, kind, "1", PadEnd("user", 8), PadEnd("user", 8), size, "Jan 01 12:00", shown],
                (f: string) => f != ""), " ")
  }

  /** The line of one entry: the inode column only under `-i`, the size in eight columns. */
  function LongLine(fs: Fs, dir: string, name: string, o: LsOptions): string
  {
    var size := Size(fs, dir, name);
    Line(if o.showInode then PadStart("12345", 8) else "",
         (if IsDirEntry(fs, dir, name) then "d" else "-") + "rw-r--r--",
         PadStart(if o.humanReadable then HumanSize(size) else NatToString(size), 8),
         Decorated(fs, dir, name, o))
  }

  /**
   * A long-format line: only the inode and the name can be missing; every
   * other column is there, in order, one space apart.
   */
  lemma LineShape(inode: string, kind: string, size: string, shown: string)
    requires kind != "" && size != ""
    ensures Line(inode, kind, size, shown)
            == (if inode == "" then "" else inode + " ")
               + (kind + " " + "1" + " " + PadEnd("user", 8) + " " + PadEnd("user", 8) + " " + size + " " + "Jan 01 12:00")
               + (if shown == "" then "" else " " + shown)
  {
    var user := PadEnd("user", 8);
    var mid := [kind, "1", user, user, size, "Jan 01 12:00"];
    assert [inode, kind, "1", user, user, size, "Jan 01 12:00", shown] == [inode] + mid + [shown];
    assert forall i :: 0 <= i < |mid| ==> mid[i] != "";
    DropEmptyEnds(inode, mid, shown);
    JoinSix(kind, "1", user, user, size, "Jan 01 12:00");
  }

  lemma JoinSix(a: string, b: string, c: string, d: string, e: string, f: string)
    ensures Join([a, b, c, d, e, f], " ") == a + " " + b + " " + c + " " + d + " " + e + " " + f
  {
    assert Join([a, b], " ") == a + " " + b by {
      JoinAppend([a], [b], " ");
      assert [a] + [b] == [a, b];
    }
    assert Join([a, b, c], " ") == a + " " + b + " " + c by {
      JoinAppend([a, b], [c], " ");
      assert [a, b] + [c] == [a, b, c];
    }
    assert Join([a, b, c, d], " ") == a + " " + b + " " + c + " " + d by {
      JoinAppend([a, b, c], [d], " ");
      assert [a, b, c] + [d] == [a, b, c, d];
    }
    assert Join([a, b, c, d, e], " ") == a + " " + b + " " + c + " " + d + " " + e by {
      JoinAppend([a, b, c, d], [e], " ");
      assert [a, b, c, d] + [e] == [a, b, c, d, e];
    }
    JoinAppend([a, b, c, d, e], [f], " ");
    assert [a, b, c, d, e] + [f] == [a, b, c, d, e, f];
  }

  /** Dropping the empty fields when only the first and the last can be empty. */
  lemma DropEmptyEnds(first: string, mid: seq<string>, last: string)
    requires |mid| > 0 && forall i :: 0 <= i < |mid| ==> mid[i] != ""
    ensures Join(Filter([first] + mid + [last], (f: string) => f != ""), " ")
            == (if first == "" then "" else first + " ") + Join(mid, " ") + (if last == "" then "" else " " + last)
  {
    var ne := (f: string) => f != "";
    var front: seq<string> := if first == "" then [] else [first];
    var back: seq<string> := if last == "" then [] else [last];
    assert [first] + mid + [last] == [first] + (mid + [last]);
    assert Filter(mid + [last], ne) == mid + back by {
      FilterAppend(mid, [last], ne);
      FilterAll(mid, ne);
      FilterCons(last, [], ne);
    }
    assert Filter([first] + (mid + [last]), ne) == front + (mid + back) by {
      FilterCons(first, mid + [last], ne);
    }
    JoinEnds(front, mid, back);
  }

  lemma JoinEnds(front: seq<string>, mid: seq<string>, back: seq<string>)
    requires |front| <= 1 && |back| <= 1 && |mid| > 0
    ensures Join(front + (mid + back), " ")
            == (if front == [] then "" else front[0] + " ") + Join(mid, " ") + (if back == [] then "" else " " + back[0])
  {
    if back != [] {
      JoinAppend(mid, back, " ");
    } else {
      assert mid + back == mid;
    }
    if front != [] {
      JoinAppend(front, mid + back, " ");
    } else {
      assert front + (mid + back) == mid + back;
    }
  }

  /** `formatLongListing(items)`: one long line per entry, separated by newlines. */
  function FormatLongListing(items: seq<string>, fs: Fs, dir: string, o: LsOptions): (r: CommandResult)
    ensures r.success
  {
    Ok(Join(seq(|items|, i requires 0 <= i < |items| => LongLine(fs, dir, items[i], o)), "\n"))
  }

  /** The entries `ls` lists, in the order it lists them. */
  function Listed(items: seq<string>, fs: Fs, dir: string, o: LsOptions,
                  collate: (string, string) -> bool): seq<string>
  {
    Group(Arrange(Visible(items, o), fs, dir, o, collate), fs, dir, o)
  }

  /** Every entry listed passes the filters; every entry that passes them is listed. */
  lemma ListedEntries(items: seq<string>, fs: Fs, dir: string, o: LsOptions,
                      collate: (string, string) -> bool)
    ensures multiset(Listed(items, fs, dir, o, collate)) == multiset(Visible(items, o))
  {
    var v := Visible(items, o);
    var a := Arrange(v, fs, dir, o, collate);
    if !o.noSort {
      SortByPermutes(v, Order(fs, dir, o, collate));
    }
    if o.groupDirectoriesFirst {
      Partition(a, DirTest(fs, dir), OtherTest(fs, dir));
    }
  }

  /** The short formats: one per line (`-1`, `-C`), comma-separated (`-m`), or two spaces apart. */
  function ShortListing(items: seq<string>, fs: Fs, dir: string, o: LsOptions): string
  {
    if o.onePerLine || (!o.commaSeparated && o.vertical) then Join(items, "\n")
    else if o.commaSeparated then Join(items, ", ")
    else Join(seq(|items|, i requires 0 <= i < |items| => Decorated(fs, dir, items[i], o)), "  ")
  }

  /**
   * `ls(args)` in the current directory `cwd`: `--help` anywhere shows the
   * help page; otherwise the operand (`.` when there is none) must name a
   * directory, whose entries are filtered, sorted, grouped and formatted.
   */
  function Ls(fs: Fs, cwd: string, args: seq<string>, collate: (string, string) -> bool): (r: CommandResult)
    ensures "--help" in args ==> r == Page(HelpPage("ls"))
    ensures "--help" !in args ==>
      var o := LsOptionsOf(args);
      var target := if o.path.Some? && o.path.value != "" then o.path.value else ".";
      && (r.success <==> IsDirAt(fs, ResolvePath(cwd, target)))
      && (GetDirectory(fs, ResolvePath(cwd, target)).None? ==>
            r == Fail("ls: cannot access '" + target + "': No such file or directory"))
      && (GetDirectory(fs, ResolvePath(cwd, target)).Some? && !r.success ==>
            r == Fail("ls: cannot access '" + target + "': Not a directory"))
  {
    if "--help" in args then Page(HelpPage("ls"))
    else
      var o := LsOptionsOf(args);
      var target := if o.path.Some? && o.path.value != "" then o.path.value else ".";
      var resolved := ResolvePath(cwd, target);
      match GetDirectory(fs, resolved)
      case None => Fail("ls: cannot access '" + target + "': No such file or directory")
      case Some(File(_)) => Fail("ls: cannot access '" + target + "': Not a directory")
      case Some(Dir(id)) =>
        var items := Listed(Contents(fs.heap, id).order, fs, resolved, o, collate);
        if o.longFormat then FormatLongListing(items, fs, resolved, o)
        else Ok(ShortListing(items, fs, resolved, o))
  }
}
