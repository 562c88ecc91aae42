/**
 * `cat` and `less`: option parsing (`parseCatOptions`), the line
 * transformations of `formatCatOutput` (squeezing, numbering, `-v`, `-T`,
 * `-E`), `showNonprinting`, and the accumulation of output and errors over
 * the file operands.
 */
module Cat {
  import opened Wrappers
  import opened Text
  import opened Paths
  import opened Sorting
  import opened Results
  import opened Vfs

  /** The option record of `parseCatOptions`. */
  datatype CatOptions = CatOptions(
    showAll: bool, numberNonblank: bool, showEnds: bool, number: bool,
    squeezeBlank: bool, showTabs: bool, showNonprinting: bool, files: seq<string>)

  // ---------------------------------------------------------------------
  // Option parsing.
  // ---------------------------------------------------------------------

  /** An argument whose characters after the first are read as flags. */
  predicate IsCatFlagArg(arg: string)
  {
    StartsWith(arg, "-") && arg != "--help" && arg != "--version"
  }

  /** The flag characters of all flag arguments, in order. */
  function CatFlagChars(args: seq<string>): string
    decreases |args|
  {
    if |args| == 0 then ""
    else
      var last := args[|args| - 1];
      CatFlagChars(args[..|args| - 1]) + (if IsCatFlagArg(last) then last[1..] else "")
  }

  /** A character is a flag character exactly when some flag argument carries it after its first character. */
  lemma {:induction false} CatFlagCharsMembers(args: seq<string>)
    ensures forall c :: c in CatFlagChars(args) <==> exists i :: 0 <= i < |args| && IsCatFlagArg(args[i]) && c in args[i][1..]
    decreases |args|
  {
    if |args| > 0 {
      CatFlagCharsMembers(args[..|args| - 1]);
      assert forall i :: 0 <= i < |args| - 1 ==> args[..|args| - 1][i] == args[i];
    }
  }

  /** The arguments that do not start with `-`, in order: `options.files`. */
  function Operands(args: seq<string>): seq<string>
    decreases |args|
  {
    if |args| == 0 then []
    else
      var last := args[|args| - 1];
      Operands(args[..|args| - 1]) + (if StartsWith(last, "-") then [] else [last])
  }

  /** The files are exactly the arguments that do not start with `-`. */
  lemma {:induction false} OperandsMembers(args: seq<string>)
    ensures forall f :: f in Operands(args) <==> f in args && !StartsWith(f, "-")
    decreases |args|
  {
    if |args| > 0 {
      OperandsMembers(args[..|args| - 1]);
      assert args == args[..|args| - 1] + [args[|args| - 1]];
    }
  }

  function CatDefaults(): CatOptions
  {
    CatOptions(false, false, false, false, false, false, false, [])
  }

  /**
   * One iteration of the switch of `parseCatOptions`: `-A` turns on
   * `showAll`, `-v`, `-E` and `-T` together; `-e` is `-vE`; `-t` is `-vT`;
   * `-u` and any other character change nothing.
   */
  function SetCatFlag(o: CatOptions, c: char): CatOptions
  {
    CatOptions(o.showAll || c == 'A',
               o.numberNonblank || c == 'b',
               o.showEnds || c == 'A' || c == 'e' || c == 'E',
               o.number || c == 'n',
               o.squeezeBlank || c == 's',
               o.showTabs || c == 'A' || c == 't' || c == 'T',
               o.showNonprinting || c == 'A' || c == 'e' || c == 't' || c == 'v',
               o.files)
  }

  /** The options after the switch has run over the flag characters `cs`. */
  function CatOptionsFrom(cs: string, files: seq<string>): CatOptions
    decreases |cs|
  {
    if |cs| == 0 then CatDefaults().(files := files)
    else SetCatFlag(CatOptionsFrom(cs[..|cs| - 1], files), cs[|cs| - 1])
  }

  /** What `parseCatOptions(args)` returns. */
  function CatOptionsOf(args: seq<string>): CatOptions
  {
    CatOptionsFrom(CatFlagChars(args), Operands(args))
  }

  lemma CatOptionsStep(cs: string, c: char, files: seq<string>)
    ensures CatOptionsFrom(cs + [c], files) == SetCatFlag(CatOptionsFrom(cs, files), c)
  {
    assert (cs + [c])[..|cs|] == cs;
  }

  lemma {:induction false} CatOptionsFiles(cs: string, files: seq<string>, files': seq<string>)
    ensures CatOptionsFrom(cs, files).files == files
    ensures CatOptionsFrom(cs, files).(files := files') == CatOptionsFrom(cs, files')
    decreases |cs|
  {
    if |cs| > 0 {
      CatOptionsFiles(cs[..|cs| - 1], files, files');
    }
  }

  /**
   * The switch, field by field: each option is on exactly when one of the
   * letters that set it occurs among the flag characters.
   */
  lemma {:induction false} CatOptionsFromFlags(cs: string, files: seq<string>)
    ensures var o := CatOptionsFrom(cs, files);
      && o.showAll == ('A' in cs)
      && o.numberNonblank == ('b' in cs)
      && o.showEnds == ('A' in cs || 'e' in cs || 'E' in cs)
      && o.number == ('n' in cs)
      && o.squeezeBlank == ('s' in cs)
      && o.showTabs == ('A' in cs || 't' in cs || 'T' in cs)
      && o.showNonprinting == ('A' in cs || 'e' in cs || 't' in cs || 'v' in cs)
      && o.files == files
    decreases |cs|
  {
    if |cs| > 0 {
      var init, c := cs[..|cs| - 1], cs[|cs| - 1];
      assert cs == init + [c];
      CatOptionsFromFlags(init, files);
      assert forall x {:trigger x in init + [c]} :: x in init + [c] <==> x in init || x == c;
    }
  }

  /** The inner loop of `parseCatOptions`: the switch on each character of `arg` after the first. */
  method ReadFlags(options: CatOptions, cs: string, arg: string, files: seq<string>) returns (o: CatOptions)
    requires |arg| >= 1 && options == CatOptionsFrom(cs, files)
    ensures o == CatOptionsFrom(cs + arg[1..], files)
  {
    o := options;
    var j := 1;
    assert cs + arg[1..1] == cs;
    while j < |arg|
      invariant 1 <= j <= |arg|
      invariant o == CatOptionsFrom(cs + arg[1..j], files)
    {
      assert cs + arg[1..j + 1] == (cs + arg[1..j]) + [arg[j]];
      CatOptionsStep(cs + arg[1..j], arg[j], files);
      o := SetCatFlag(o, arg[j]);
      j := j + 1;
    }
    assert arg[1..j] == arg[1..];
  }

  /** `parseCatOptions(args)`: the flags of every flag argument, and the other arguments as files. */
  method ParseCatOptions(args: seq<string>) returns (options: CatOptions)
    ensures options == CatOptionsOf(args)
  {
    options := CatDefaults();
    assert args[..0] == [];
    assert options == CatOptionsOf(args[..0]);
    var i := 0;
    while i < |args|
      invariant 0 <= i <= |args|
      invariant options == CatOptionsOf(args[..i])
    {
      var arg := args[i];
      assert args[..i + 1] == args[..i] + [arg];
      assert args[..i + 1][..i] == args[..i];
      if StartsWith(arg, "-") {
        if arg == "--help" || arg == "--version" {
          assert CatFlagChars(args[..i + 1]) == CatFlagChars(args[..i]);
        } else {
          var base := CatFlagChars(args[..i]);
          options := ReadFlags(options, base, arg, Operands(args[..i]));
          assert CatFlagChars(args[..i + 1]) == base + arg[1..];
        }
        assert Operands(args[..i + 1]) == Operands(args[..i]);
        assert options == CatOptionsFrom(CatFlagChars(args[..i + 1]), Operands(args[..i + 1]));
      } else {
        CatOptionsFiles(CatFlagChars(args[..i]), Operands(args[..i]), Operands(args[..i]) + [arg]);
        options := options.(files := options.files + [arg]);
        assert CatFlagChars(args[..i + 1]) == CatFlagChars(args[..i]);
        assert Operands(args[..i + 1]) == Operands(args[..i]) + [arg];
        assert options == CatOptionsFrom(CatFlagChars(args[..i + 1]), Operands(args[..i + 1]));
      }
      assert options == CatOptionsOf(args[..i + 1]);
      i := i + 1;
    }
    assert args[..i] == args;
  }

  // ---------------------------------------------------------------------
  // `showNonprinting`.
  // ---------------------------------------------------------------------

  /** The characters `showNonprinting` replaces: controls other than tab, newline and carriage return, and DEL. */
  predicate IsNonprinting(c: char)
  {
    var k := c as int;
    k <= 8 || k == 11 || k == 12 || (14 <= k <= 31) || k == 127
  }

  /** The caret notation of a replaced character: `^?` for DEL, else `^` and the character 64 places on. */
  function Caret(c: char): (r: string)
    requires IsNonprinting(c)
    ensures |r| == 2 && r[0] == '^' && !IsNonprinting(r[1])
  {
    if c as int == 127 then "^?" else ['^', (c as int + 64) as char]
  }

  /** `showNonprinting(text)`. */
  function ShowNonprinting(text: string): (r: string)
    ensures forall i :: 0 <= i < |r| ==> !IsNonprinting(r[i])
    ensures (forall i :: 0 <= i < |text| ==> !IsNonprinting(text[i])) ==> r == text
    ensures forall c :: c in r && !IsNonprinting(c) && c != '^' && !('?' <= c <= '_') ==> c in text
    decreases |text|
  {
    if |text| == 0 then ""
    else
      var rest := ShowNonprinting(text[1..]);
      assert forall i :: 0 <= i < |text| - 1 ==> text[1..][i] == text[i + 1];
      (if IsNonprinting(text[0]) then Caret(text[0]) else [text[0]]) + rest
  }

  // ---------------------------------------------------------------------
  // `formatCatOutput`.
  // ---------------------------------------------------------------------

  /** `-s`: an empty line right after an empty line (of the input) is dropped. */
  function Squeeze(lines: seq<string>): (r: seq<string>)
    ensures |lines| > 0 ==> |r| > 0 && r[|r| - 1] == lines[|lines| - 1]
    decreases |lines|
  {
    if |lines| == 0 then []
    else
      var n := |lines|;
      Squeeze(lines[..n - 1]) + (if lines[n - 1] == "" && n >= 2 && lines[n - 2] == "" then [] else [lines[n - 1]])
  }

  /** No two adjacent lines are both empty. */
  predicate NoDoubleBlank(r: seq<string>)
  {
    forall i :: 0 <= i < |r| - 1 ==> !(r[i] == "" && r[i + 1] == "")
  }

  /** After `-s` no two adjacent lines are both empty. */
  lemma {:induction false} SqueezeNoDoubleBlank(lines: seq<string>)
    ensures NoDoubleBlank(Squeeze(lines))
    decreases |lines|
  {
    if |lines| > 0 {
      var n := |lines|;
      var init := lines[..n - 1];
      SqueezeNoDoubleBlank(init);
      var prev := Squeeze(init);
      var tail := if lines[n - 1] == "" && n >= 2 && lines[n - 2] == "" then [] else [lines[n - 1]];
      var r := prev + tail;
      assert r == Squeeze(lines);
      forall i | 0 <= i < |r| - 1 ensures !(r[i] == "" && r[i + 1] == "") {
        if i + 1 < |prev| {
          assert r[i] == prev[i] && r[i + 1] == prev[i + 1];
        } else {
          assert i == |prev| - 1 && |tail| == 1 && r[i + 1] == lines[n - 1];
          assert r[i] == prev[|prev| - 1] == init[n - 2] == lines[n - 2];
        }
      }
    }
  }

  predicate NonBlank(line: string)
  {
    line != ""
  }

  /** `-s` keeps every non-empty line, in order, and drops only empty ones. */
  lemma {:induction false} SqueezeKeepsText(lines: seq<string>)
    ensures Filter(Squeeze(lines), NonBlank) == Filter(lines, NonBlank)
    ensures forall x :: x in Squeeze(lines) ==> x in lines
    decreases |lines|
  {
    if |lines| > 0 {
      var n := |lines|;
      var init, last := lines[..n - 1], lines[n - 1];
      var tail := if last == "" && n >= 2 && lines[n - 2] == "" then [] else [last];
      assert Squeeze(lines) == Squeeze(init) + tail;
      SqueezeKeepsText(init);
      assert Filter(tail, NonBlank) == Filter([last], NonBlank);
      assert Filter(Squeeze(lines), NonBlank) == Filter(Squeeze(init), NonBlank) + Filter(tail, NonBlank) by {
        FilterAppend(Squeeze(init), tail, NonBlank);
      }
      assert Filter(lines, NonBlank) == Filter(init, NonBlank) + Filter([last], NonBlank) by {
        FilterAppend(init, [last], NonBlank);
        assert init + [last] == lines;
      }
      forall x | x in Squeeze(lines) ensures x in lines {
        if x in Squeeze(init) {
          assert x in init;
        }
      }
    }
  }

  /** The loop of `-s`, with its `prevEmpty` flag. */
  method SqueezeBlank(lines: seq<string>) returns (squeezed: seq<string>)
    ensures squeezed == Squeeze(lines)
  {
    squeezed := [];
    var prevEmpty := false;
    var i := 0;
    while i < |lines|
      invariant 0 <= i <= |lines|
      invariant squeezed == Squeeze(lines[..i])
      invariant prevEmpty == (i > 0 && lines[i - 1] == "")
    {
      var line := lines[i];
      assert lines[..i + 1][..i] == lines[..i];
      if line == "" {
        if !prevEmpty {
          squeezed := squeezed + [line];
        }
        prevEmpty := true;
      } else {
        squeezed := squeezed + [line];
        prevEmpty := false;
      }
      i := i + 1;
    }
    assert lines[..i] == lines;
  }

  /** Whether a line gets a number: every line under `-n`, the non-empty ones under `-b`. */
  predicate Counted(o: CatOptions, line: string)
  {
    (o.numberNonblank && line != "") || o.number
  }

  /** The number of numbered lines among `lines`. */
  function Rank(lines: seq<string>, o: CatOptions): nat
    decreases |lines|
  {
    if |lines| == 0 then 0
    else Rank(lines[..|lines| - 1], o) + (if Counted(o, lines[|lines| - 1]) then 1 else 0)
  }

  lemma RankStep(lines: seq<string>, i: nat, o: CatOptions)
    requires i < |lines|
    ensures Rank(lines[..i + 1], o) == Rank(lines[..i], o) + (if Counted(o, lines[i]) then 1 else 0)
  {
    assert lines[..i + 1][..i] == lines[..i];
  }

  /** The prefix `${n.toString().padStart(6)}  ` of a numbered line. */
  function Label(n: nat): string
  {
    PadStart(NatToString(n), 6) + "  "
  }

  /** Line `j` after numbering: the next number for a counted line, the line itself otherwise. */
  function NumberedLine(lines: seq<string>, j: nat, o: CatOptions): string
    requires j < |lines|
  {
    if Counted(o, lines[j]) then Label(Rank(lines[..j], o) + 1) + lines[j] else lines[j]
  }

  function Numbered(lines: seq<string>, o: CatOptions): (r: seq<string>)
    ensures |r| == |lines|
  {
    seq(|lines|, j requires 0 <= j < |lines| => NumberedLine(lines, j, o))
  }

  /** `numbered` is the numbering of the first `|numbered|` lines. */
  predicate NumberedPrefix(numbered: seq<string>, lines: seq<string>, o: CatOptions)
  {
    |numbered| <= |lines| && forall j :: 0 <= j < |numbered| ==> numbered[j] == NumberedLine(lines, j, o)
  }

  lemma NumberedExtend(numbered: seq<string>, lines: seq<string>, o: CatOptions)
    requires NumberedPrefix(numbered, lines, o) && |numbered| < |lines|
    ensures NumberedPrefix(numbered + [NumberedLine(lines, |numbered|, o)], lines, o)
  {
  }

  lemma NumberedWhole(numbered: seq<string>, lines: seq<string>, o: CatOptions)
    requires NumberedPrefix(numbered, lines, o) && |numbered| == |lines|
    ensures numbered == Numbered(lines, o)
  {
  }

  /** The loop of `-n`/`-b`, with its `lineNumber` counter. */
  method NumberLines(lines: seq<string>, o: CatOptions) returns (numbered: seq<string>)
    requires o.numberNonblank || o.number
    ensures numbered == Numbered(lines, o)
  {
    numbered := [];
    var lineNumber := 1;
    var i := 0;
    while i < |lines|
      invariant 0 <= i <= |lines| && |numbered| == i
      invariant NumberedPrefix(numbered, lines, o)
      invariant lineNumber == Rank(lines[..i], o) + 1
    {
      var line := lines[i];
      RankStep(lines, i, o);
      NumberedExtend(numbered, lines, o);
      if o.numberNonblank && line != "" {
        numbered := numbered + [Label(lineNumber) + line];
        lineNumber := lineNumber + 1;
      } else if o.number {
        numbered := numbered + [Label(lineNumber) + line];
        lineNumber := lineNumber + 1;
      } else {
        numbered := numbered + [line];
      }
      i := i + 1;
    }
    NumberedWhole(numbered, lines, o);
  }

  /** Under `-n` all lines are numbered 1, 2, 3, …, whether or not `-b` is given too. */
  lemma NumberEveryLine(lines: seq<string>, o: CatOptions)
    requires o.number
    ensures forall j :: 0 <= j < |lines| ==> Numbered(lines, o)[j] == Label(j + 1) + lines[j]
  {
    forall j | 0 <= j < |lines| ensures Rank(lines[..j], o) == j {
      RankAll(lines[..j], o);
    }
  }

  lemma {:induction false} RankAll(lines: seq<string>, o: CatOptions)
    requires o.number
    ensures Rank(lines, o) == |lines|
    decreases |lines|
  {
    if |lines| > 0 {
      RankAll(lines[..|lines| - 1], o);
    }
  }

  /**
   * Under `-b` alone, empty lines are left as they are and each non-empty
   * line carries its position among the non-empty lines, counting from 1.
   */
  lemma NumberNonblankLines(lines: seq<string>, o: CatOptions)
    requires o.numberNonblank && !o.number
    ensures forall j :: 0 <= j < |lines| && lines[j] == "" ==> Numbered(lines, o)[j] == ""
    ensures forall j :: 0 <= j < |lines| && lines[j] != "" ==>
              Numbered(lines, o)[j] == Label(|Filter(lines[..j], NonBlank)| + 1) + lines[j]
  {
    forall j | 0 <= j < |lines| ensures Rank(lines[..j], o) == |Filter(lines[..j], NonBlank)| {
      RankNonBlank(lines[..j], o);
    }
  }

  lemma {:induction false} RankNonBlank(lines: seq<string>, o: CatOptions)
    requires o.numberNonblank && !o.number
    ensures Rank(lines, o) == |Filter(lines, NonBlank)|
    decreases |lines|
  {
    if |lines| > 0 {
      var n := |lines|;
      RankNonBlank(lines[..n - 1], o);
      assert lines == lines[..n - 1] + [lines[n - 1]];
      FilterAppend(lines[..n - 1], [lines[n - 1]], NonBlank);
    }
  }

  /** The per-line formatting: `-v`, then tabs as `^I` under `-T`, then `$` under `-E`. */
  function Decorate(line: string, o: CatOptions): (r: string)
    ensures o.showEnds ==> EndsWith(r, "$")
    ensures o.showTabs ==> '\t' !in r
    ensures o.showNonprinting ==> forall i :: 0 <= i < |r| ==> !IsNonprinting(r[i])
    ensures !o.showNonprinting && !o.showTabs && !o.showEnds ==> r == line
    ensures !o.showNonprinting && !o.showTabs && o.showEnds ==> r == line + "$"
    ensures var v := if o.showNonprinting then ShowNonprinting(line) else line;
            var t := if o.showTabs then Join(Split(v, '\t'), "^I") else v;
            r == if o.showEnds then t + "$" else t
  {
    var v := if o.showNonprinting then ShowNonprinting(line) else line;
    var t := if o.showTabs then ReplaceAll(v, '\t', "^I") else v;
    assert o.showNonprinting ==> forall i :: 0 <= i < |t| ==> !IsNonprinting(t[i]) by {
      if o.showNonprinting && o.showTabs {
        forall i | 0 <= i < |t| ensures !IsNonprinting(t[i]) {
          assert t[i] in t;
        }
      }
    }
    if o.showEnds then t + "$" else t
  }

  /** What `formatCatOutput(content, options)` returns. */
  function CatText(content: string, o: CatOptions): string
  {
    var lines := Split(content, '\n');
    var kept := if o.squeezeBlank then Squeeze(lines) else lines;
    var numbered := Numbered(kept, o);
    Join(seq(|numbered|, i requires 0 <= i < |numbered| => Decorate(numbered[i], o)), "\n")
  }

  /** With no option that changes lines, `cat` shows the content unchanged. */
  lemma CatTextPlain(content: string, o: CatOptions)
    requires !o.squeezeBlank && !o.numberNonblank && !o.number
    requires !o.showNonprinting && !o.showTabs && !o.showEnds
    ensures CatText(content, o) == content
  {
    var lines := Split(content, '\n');
    var numbered := Numbered(lines, o);
    assert numbered == lines;
    assert seq(|numbered|, i requires 0 <= i < |numbered| => Decorate(numbered[i], o)) == lines;
    JoinSplit(content, '\n');
  }

  /** `formatCatOutput(content, options)`: split, squeeze, number, format, join. */
  method FormatCatOutput(content: string, o: CatOptions) returns (out: string)
    ensures out == CatText(content, o)
  {
    var lines := Split(content, '\n');
    if o.squeezeBlank {
      lines := SqueezeBlank(lines);
    }
    if o.numberNonblank || o.number {
      lines := NumberLines(lines, o);
    } else {
      assert Numbered(lines, o) == lines;
    }
    var formatted := seq(|lines|, i requires 0 <= i < |lines| => Decorate(lines[i], o));
    out := Join(formatted, "\n");
  }

  // ---------------------------------------------------------------------
  // `cat` over its operands.
  // ---------------------------------------------------------------------

  /** The three variables of the loop of `cat`. */
  datatype CatState = CatState(output: string, hasError: bool, errorMessage: string)

  /** An operand that is neither `-` nor a file. */
  predicate Unreadable(fs: Fs, cwd: string, name: string)
  {
    name != "-" && !IsFileAt(fs, ResolvePath(cwd, name))
  }

  /** One line of `cat`'s error message. */
  function CatError(name: string, reason: string): string
  {
    "cat: " + name + ": " + reason + "\n"
  }

  /** One operand: `-` reads empty input; a file adds its formatted text; anything else adds an error line. */
  function CatStep(st: CatState, fs: Fs, cwd: string, name: string, o: CatOptions): (r: CatState)
    ensures r.hasError <==> st.hasError || Unreadable(fs, cwd, name)
    ensures Unreadable(fs, cwd, name) ==> r.output == st.output
    ensures !Unreadable(fs, cwd, name) ==> r.errorMessage == st.errorMessage
  {
    if name == "-" then st.(output := st.output + CatText("", o))
    else
      match GetDirectory(fs, ResolvePath(cwd, name))
      case None =>
        st.(errorMessage := st.errorMessage + CatError(name, "No such file or directory"), hasError := true)
      case Some(Dir(_)) =>
        st.(errorMessage := st.errorMessage + CatError(name, "Is a directory"), hasError := true)
      case Some(File(content)) => st.(output := st.output + CatText(content, o))
  }

  /** The loop state after the operands `files`. */
  function CatFiles(fs: Fs, cwd: string, files: seq<string>, o: CatOptions): CatState
    decreases |files|
  {
    if |files| == 0 then CatState("", false, "")
    else CatStep(CatFiles(fs, cwd, files[..|files| - 1], o), fs, cwd, files[|files| - 1], o)
  }

  /** The reply after the loop: failure only when something failed and nothing was shown. */
  function CatReply(st: CatState): CommandResult
  {
    if st.hasError && st.output == "" then Fail(Trim(st.errorMessage))
    else CommandResult(true, Text(st.output + (if st.hasError then "\n" + Trim(st.errorMessage) else "")),
                       st.hasError, None, false)
  }

  /** What `cat(args)` returns. */
  function CatSpec(fs: Fs, cwd: string, args: seq<string>): CommandResult
  {
    if "--help" in args then Page(HelpPage("cat"))
    else if "--version" in args then Page(VersionPage("cat"))
    else
      var o := CatOptionsOf(args);
      if |o.files| == 0 then Ok(CatText("", o))
      else CatReply(CatFiles(fs, cwd, o.files, o))
  }

  /** One turn of the loop of `cat`: the operand `fileName` read into the loop variables. */
  method ReadOperand(fs: Fs, cwd: string, fileName: string, options: CatOptions,
                     output: string, hasError: bool, errorMessage: string)
    returns (output': string, hasError': bool, errorMessage': string)
    ensures CatState(output', hasError', errorMessage') ==
            CatStep(CatState(output, hasError, errorMessage), fs, cwd, fileName, options)
  {
    output', hasError', errorMessage' := output, hasError, errorMessage;
    if fileName == "-" {
      var text := FormatCatOutput("", options);
      output' := output + text;
    } else {
      var file := GetDirectory(fs, ResolvePath(cwd, fileName));
      if file.None? {
        errorMessage' := errorMessage + CatError(fileName, "No such file or directory");
        hasError' := true;
      } else if file.value.Dir? {
        errorMessage' := errorMessage + CatError(fileName, "Is a directory");
        hasError' := true;
      } else {
        var text := FormatCatOutput(file.value.content, options);
        output' := output + text;
      }
    }
  }

  /** `cat(args)`. */
  method Cat(fs: Fs, cwd: string, args: seq<string>) returns (r: CommandResult)
    ensures r == CatSpec(fs, cwd, args)
  {
    if "--help" in args {
      return Page(HelpPage("cat"));
    }
    if "--version" in args {
      return Page(VersionPage("cat"));
    }
    var options := ParseCatOptions(args);
    var files := options.files;
    if |files| == 0 {
      var text := FormatCatOutput("", options);
      return Ok(text);
    }
    var output := "";
    var hasError := false;
    var errorMessage := "";
    var i := 0;
    while i < |files|
      invariant 0 <= i <= |files|
      invariant CatState(output, hasError, errorMessage) == CatFiles(fs, cwd, files[..i], options)
    {
      assert CatFiles(fs, cwd, files[..i + 1], options)
             == CatStep(CatFiles(fs, cwd, files[..i], options), fs, cwd, files[i], options) by {
        assert files[..i + 1][..i] == files[..i];
      }
      output, hasError, errorMessage := ReadOperand(fs, cwd, files[i], options, output, hasError, errorMessage);
      i := i + 1;
    }
    assert files[..i] == files;
    r := CatReply(CatState(output, hasError, errorMessage));
  }

  /** Some operand other than `-` names nothing or a directory. */
  predicate SomeUnreadable(fs: Fs, cwd: string, files: seq<string>)
  {
    exists name :: name in files && Unreadable(fs, cwd, name)
  }

  lemma SomeUnreadableSnoc(fs: Fs, cwd: string, files: seq<string>)
    requires |files| > 0
    ensures SomeUnreadable(fs, cwd, files) <==>
            SomeUnreadable(fs, cwd, files[..|files| - 1]) || Unreadable(fs, cwd, files[|files| - 1])
  {
    var init, last := files[..|files| - 1], files[|files| - 1];
    assert files == init + [last];
    assert forall name :: name in files <==> name in init || name == last;
  }

  /** The error flag of the loop is raised exactly when some operand cannot be read. */
  lemma {:induction false} CatErrorFlag(fs: Fs, cwd: string, files: seq<string>, o: CatOptions)
    ensures CatFiles(fs, cwd, files, o).hasError <==> SomeUnreadable(fs, cwd, files)
    decreases |files|
  {
    if |files| > 0 {
      CatErrorFlag(fs, cwd, files[..|files| - 1], o);
      SomeUnreadableSnoc(fs, cwd, files);
    }
  }

  /**
   * `cat` on operands fails exactly when some operand cannot be read and
   * nothing at all was shown; otherwise it succeeds, with `error` set when
   * some operand could not be read.
   */
  lemma CatFailure(fs: Fs, cwd: string, args: seq<string>)
    requires "--help" !in args && "--version" !in args && |CatOptionsOf(args).files| > 0
    ensures var o := CatOptionsOf(args);
      var r := CatSpec(fs, cwd, args);
      && (!r.success <==> SomeUnreadable(fs, cwd, o.files) && CatFiles(fs, cwd, o.files, o).output == "")
      && (r.success ==> r.error == SomeUnreadable(fs, cwd, o.files))
  {
    var o := CatOptionsOf(args);
    CatErrorFlag(fs, cwd, o.files, o);
  }

  // ---------------------------------------------------------------------
  // `less`.
  // ---------------------------------------------------------------------

  /** The page `less` shows for a text: the first 20 lines and a note when there are more. */
  function LessPage(content: string): Output
  {
    var lines := Split(content, '\n');
    if |lines| > 20 then LessScreen(Join(lines[..20], "\n"), |lines|) else Text(Join(lines, "\n"))
  }

  /** A text of at most 20 lines is shown whole; a longer one is cut to its first 20 lines. */
  lemma LessPageShape(content: string)
    ensures |Split(content, '\n')| <= 20 ==> LessPage(content) == Text(content)
    ensures |Split(content, '\n')| > 20 ==>
      LessPage(content) == LessScreen(Join(Split(content, '\n')[..20], "\n"), Count(content, '\n') + 1)
  {
    JoinSplit(content, '\n');
    SplitPieces(content, '\n');
  }

  /** `less(args)`: the first operand only. */
  function Less(fs: Fs, cwd: string, args: seq<string>): (r: CommandResult)
    ensures "--help" !in args && "--version" !in args ==>
      (r.success <==> |args| > 0 && IsFileAt(fs, ResolvePath(cwd, args[0])))
  {
    if "--help" in args then Page(HelpPage("less"))
    else if "--version" in args then Page(VersionPage("less"))
    else if |args| == 0 then Fail("less: missing file operand\nTry 'less --help' for more information.")
    else
      var fileName := args[0];
      match GetDirectory(fs, ResolvePath(cwd, fileName))
      case None => Fail("less: " + fileName + ": No such file or directory")
      case Some(Dir(_)) => Fail("less: " + fileName + ": Is a directory")
      case Some(File(content)) => Page(LessPage(content))
  }
}
