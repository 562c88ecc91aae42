/**
 * The line editor behind `ai-edit`: a buffer of lines with a cursor.
 *
 * The editor keeps its text as the lines of the file, a cursor line and a
 * cursor column, and a `modified` flag. Each key changes the lines and the
 * cursor in place. Read as one text, the lines joined with newlines, every
 * edit is an insertion or deletion at the cursor's offset in that text. The
 * pure functions below state each edit on a `Buffer` value. The methods of
 * `EditorState` make the same edits in place and are proved against them.
 */
module Editor {
  import opened Wrappers
  import opened Text
  import opened Results

  /** The lines of the text, the cursor line and the cursor column (both from 0). */
  datatype Buffer = Buffer(lines: seq<string>, line: nat, col: nat)

  /** The cursor is on a line of the buffer, at most just past its last character. */
  predicate CursorValid(b: Buffer)
  {
    b.line < |b.lines| && b.col <= |b.lines[b.line]|
  }

  /** No line holds a newline, so the lines are exactly the pieces of their join. */
  predicate Unbroken(lines: seq<string>)
  {
    forall i :: 0 <= i < |lines| ==> '\n' !in lines[i]
  }

  /** The text the buffer stands for: its lines joined with newlines. */
  function Content(b: Buffer): string
  {
    Join(b.lines, "\n")
  }

  /** The text of the lines before line `i`, with the newline that ends it. */
  function Above(lines: seq<string>, i: nat): string
    requires i <= |lines|
  {
    if i == 0 then "" else Join(lines[..i], "\n") + "\n"
  }

  /** The text of the lines after line `i`, with the newline that starts it. */
  function Below(lines: seq<string>, i: nat): string
    requires i < |lines|
  {
    if i + 1 == |lines| then "" else "\n" + Join(lines[i + 1..], "\n")
  }

  /** The lines from line `i` on, joined, are line `i` and the text below it. */
  lemma JoinFrom(lines: seq<string>, i: nat)
    requires i < |lines|
    ensures Join(lines[i..], "\n") == lines[i] + Below(lines, i)
  {
    if i + 1 < |lines| {
      assert lines[i..][1..] == lines[i + 1..];
    }
  }

  /** The joined text is the text above line `i`, line `i`, and the text below it. */
  lemma JoinAt(lines: seq<string>, i: nat)
    requires i < |lines|
    ensures Join(lines, "\n") == Above(lines, i) + lines[i] + Below(lines, i)
  {
    var x, below := lines[i], Below(lines, i);
    if i > 0 {
      var above := Join(lines[..i], "\n");
      JoinSplitAt(lines, i);
      Regroup(above, x, below);
    } else {
      JoinFrom(lines, 0);
      assert lines[0..] == lines;
    }
  }

  /** Below the first `i` lines come line `i` and the text below it. */
  lemma JoinSplitAt(lines: seq<string>, i: nat)
    requires 0 < i < |lines|
    ensures Join(lines, "\n") == Join(lines[..i], "\n") + "\n" + (lines[i] + Below(lines, i))
  {
    var rest := lines[i..];
    assert lines[..i] + rest == lines;
    assert Join(rest, "\n") == lines[i] + Below(lines, i) by {
      JoinFrom(lines, i);
    }
    assert Join(lines[..i] + rest, "\n") == Join(lines[..i], "\n") + "\n" + Join(rest, "\n") by {
      JoinAppend(lines[..i], rest, "\n");
    }
  }

  lemma Regroup(above: string, x: string, below: string)
    ensures above + "\n" + (x + below) == (above + "\n") + x + below
  {
  }

  /** The cursor's position in `Content(b)`. */
  function Offset(b: Buffer): (k: nat)
    requires CursorValid(b)
    ensures k <= |Content(b)|
  {
    JoinAt(b.lines, b.line);
    |Above(b.lines, b.line)| + b.col
  }

  /** The editor opened on `content`: its lines, with the cursor at the start. */
  function Opened(content: string): (b: Buffer)
    ensures CursorValid(b) && Unbroken(b.lines)
    ensures Content(b) == content && Offset(b) == 0
  {
    SplitPieces(content, '\n');
    JoinSplit(content, '\n');
    Buffer(Split(content, '\n'), 0, 0)
  }

  function Min(a: nat, b: nat): nat
  {
    if a <= b then a else b
  }

  datatype Direction = Up | Down | Left | Right

  /**
   * `moveCursor`: up and down keep the column where the new line allows it
   * and clamp it to the line's end otherwise; left and right move one
   * character within the line; a move past the first or last line or
   * column does nothing.
   */
  function Moved(b: Buffer, d: Direction): (r: Buffer)
    requires CursorValid(b)
    ensures CursorValid(r) && r.lines == b.lines
    ensures d.Up? ==> r.line == if b.line > 0 then b.line - 1 else b.line
    ensures d.Down? ==> r.line == if b.line + 1 < |b.lines| then b.line + 1 else b.line
    ensures (d.Up? || d.Down?) ==> r.col == Min(b.col, |b.lines[r.line]|)
    ensures (d.Left? || d.Right?) ==> r.line == b.line && Offset(r) - Offset(b) == r.col - b.col
    ensures d.Left? ==> r.col == if b.col > 0 then b.col - 1 else 0
    ensures d.Right? ==> r.col == if b.col < |b.lines[b.line]| then b.col + 1 else b.col
  {
    match d
    case Up =>
      if b.line > 0 then Buffer(b.lines, b.line - 1, Min(b.col, |b.lines[b.line - 1]|)) else b
    case Down =>
      if b.line < |b.lines| - 1 then Buffer(b.lines, b.line + 1, Min(b.col, |b.lines[b.line + 1]|)) else b
    case Left =>
      if b.col > 0 then b.(col := b.col - 1) else b
    case Right =>
      if b.col < |b.lines[b.line]| then b.(col := b.col + 1) else b
  }

  /** `insertText`: `text` goes into the cursor line at the cursor, which moves past it. */
  function Inserted(b: Buffer, text: string): (r: Buffer)
    requires CursorValid(b)
    ensures CursorValid(r) && |r.lines| == |b.lines| && r.line == b.line
    ensures Unbroken(b.lines) && '\n' !in text ==> Unbroken(r.lines)
  {
    var l := b.lines[b.line];
    Buffer(b.lines[b.line := l[..b.col] + text + l[b.col..]], b.line, b.col + |text|)
  }

  /**
   * `insertNewLine`: the cursor line is cut at the cursor; the part after
   * it becomes a new line below, and the cursor moves to that line's start.
   */
  function NewLine(b: Buffer): (r: Buffer)
    requires CursorValid(b)
    ensures CursorValid(r) && |r.lines| == |b.lines| + 1 && r.line == b.line + 1 && r.col == 0
    ensures Unbroken(b.lines) ==> Unbroken(r.lines)
  {
    var l := b.lines[b.line];
    Buffer(b.lines[..b.line] + [l[..b.col], l[b.col..]] + b.lines[b.line + 1..], b.line + 1, 0)
  }

  /** `deleteBeforeCursor`: the character left of the cursor goes; nothing happens at a line start. */
  function DeletedBefore(b: Buffer): (r: Buffer)
    requires CursorValid(b)
    ensures CursorValid(r) && |r.lines| == |b.lines| && r.line == b.line
    ensures Unbroken(b.lines) ==> Unbroken(r.lines)
    ensures b.col == 0 ==> r == b
  {
    var l := b.lines[b.line];
    if b.col > 0 then Buffer(b.lines[b.line := l[..b.col - 1] + l[b.col..]], b.line, b.col - 1)
    else b
  }

  /** `deleteAtCursor`: the character under the cursor goes; nothing happens at a line end. */
  function DeletedAt(b: Buffer): (r: Buffer)
    requires CursorValid(b)
    ensures CursorValid(r) && |r.lines| == |b.lines| && r.line == b.line && r.col == b.col
    ensures Unbroken(b.lines) ==> Unbroken(r.lines)
    ensures b.col == |b.lines[b.line]| ==> r == b
  {
    var l := b.lines[b.line];
    if b.col < |l| then Buffer(b.lines[b.line := l[..b.col] + l[b.col + 1..]], b.line, b.col)
    else b
  }

  /**
   * Replacing `cut` characters at column `col` of the middle line by `ins`
   * splices the whole text at the offset of that column.
   */
  lemma Splice(above: string, l: string, below: string, col: nat, cut: nat, ins: string)
    requires col + cut <= |l|
    ensures var t, k := above + l + below, |above| + col;
      k + cut <= |t| && above + (l[..col] + ins + l[col + cut..]) + below == t[..k] + ins + t[k + cut..]
  {
    var t, k := above + l + below, |above| + col;
    assert t == (above + l[..col]) + (l[col..col + cut] + (l[col + cut..] + below));
    assert t[..k] == above + l[..col];
    assert t[k + cut..] == l[col + cut..] + below;
  }

  /** Replacing line `i` keeps the text above and below it. */
  lemma ReplaceLine(lines: seq<string>, i: nat, x: string)
    requires i < |lines|
    ensures Join(lines[i := x], "\n") == Above(lines, i) + x + Below(lines, i)
  {
    assert lines[i := x][..i] == lines[..i];
    assert lines[i := x][i + 1..] == lines[i + 1..];
    JoinAt(lines[i := x], i);
  }

  /** Typing `text` inserts it into the joined text at the cursor's offset, and the cursor moves past it. */
  lemma InsertedContent(b: Buffer, text: string)
    requires CursorValid(b)
    ensures var t, k := Content(b), Offset(b);
      Content(Inserted(b, text)) == t[..k] + text + t[k..] && Offset(Inserted(b, text)) == k + |text|
  {
    var l := b.lines[b.line];
    JoinAt(b.lines, b.line);
    ReplaceLine(b.lines, b.line, l[..b.col] + text + l[b.col + 0..]);
    Splice(Above(b.lines, b.line), l, Below(b.lines, b.line), b.col, 0, text);
  }

  /** Cutting line `i` into `pre` and `post` puts a newline between them in the joined text. */
  lemma CutLine(lines: seq<string>, i: nat, pre: string, post: string)
    requires i < |lines|
    ensures var r := lines[..i] + [pre, post] + lines[i + 1..];
      Above(r, i + 1) == Above(lines, i) + pre + "\n" &&
      Join(r, "\n") == Above(lines, i) + (pre + "\n" + post) + Below(lines, i)
  {
    var r := lines[..i] + [pre, post] + lines[i + 1..];
    var above, below := Above(lines, i), Below(lines, i);
    assert r[..i + 1] == lines[..i] + [pre];
    assert r[i + 1] == post;
    assert r[i + 2..] == lines[i + 1..];
    if i > 0 {
      JoinAppend(lines[..i], [pre], "\n");
    }
    assert Above(r, i + 1) == above + pre + "\n";
    assert Below(r, i + 1) == below;
    JoinAt(r, i + 1);
    assert (above + pre + "\n") + post + below == above + (pre + "\n" + post) + below;
  }

  /** Enter inserts a newline into the joined text at the cursor's offset, and the cursor moves past it. */
  lemma NewLineContent(b: Buffer)
    requires CursorValid(b)
    ensures var t, k := Content(b), Offset(b);
      Content(NewLine(b)) == t[..k] + "\n" + t[k..] && Offset(NewLine(b)) == k + 1
  {
    var l, i := b.lines[b.line], b.line;
    JoinAt(b.lines, i);
    CutLine(b.lines, i, l[..b.col], l[b.col..]);
    assert l[b.col..] == l[b.col + 0..];
    Splice(Above(b.lines, i), l, Below(b.lines, i), b.col, 0, "\n");
  }

  /** Backspace after the line start removes the character before the cursor's offset. */
  lemma DeletedBeforeContent(b: Buffer)
    requires CursorValid(b) && b.col > 0
    ensures var t, k := Content(b), Offset(b);
      k > 0 && Content(DeletedBefore(b)) == t[..k - 1] + t[k..] && Offset(DeletedBefore(b)) == k - 1
  {
    var l, c := b.lines[b.line], b.col - 1;
    JoinAt(b.lines, b.line);
    assert l[..c] + l[c + 1..] == l[..c] + "" + l[c + 1..];
    ReplaceLine(b.lines, b.line, l[..c] + l[c + 1..]);
    Splice(Above(b.lines, b.line), l, Below(b.lines, b.line), c, 1, "");
  }

  /** Delete before the line end removes the character at the cursor's offset. */
  lemma DeletedAtContent(b: Buffer)
    requires CursorValid(b) && b.col < |b.lines[b.line]|
    ensures var t, k := Content(b), Offset(b);
      k < |t| && Content(DeletedAt(b)) == t[..k] + t[k + 1..] && Offset(DeletedAt(b)) == k
  {
    var l, c := b.lines[b.line], b.col;
    JoinAt(b.lines, b.line);
    assert l[..c] + l[c + 1..] == l[..c] + "" + l[c + 1..];
    ReplaceLine(b.lines, b.line, l[..c] + l[c + 1..]);
    Splice(Above(b.lines, b.line), l, Below(b.lines, b.line), c, 1, "");
  }

  /** Backspace right after typing one character gives back the buffer as it was. */
  lemma DeleteAfterInsert(b: Buffer, c: char)
    requires CursorValid(b)
    ensures DeletedBefore(Inserted(b, [c])) == b
  {
    var l := b.lines[b.line];
    var typed := l[..b.col] + [c] + l[b.col..];
    assert typed[..b.col] == l[..b.col];
    assert typed[b.col + 1..] == l[b.col..];
    assert l[..b.col] + l[b.col..] == l;
  }

  /**
   * The lines the editor screen shows: from seven lines above the cursor
   * (or the first line) up to fifteen lines, stopping at the last line.
   */
  function Window(cursorLine: nat, count: nat): (w: (nat, nat))
    ensures cursorLine < count ==> w.0 <= cursorLine < w.1 <= count
    ensures w.1 <= w.0 + 15
    ensures w.0 + 15 <= count ==> w.1 == w.0 + 15
    ensures cursorLine - w.0 == Min(cursorLine, 7)
  {
    var start := if cursorLine >= 7 then cursorLine - 7 else 0;
    var end := if count <= start + 15 then count else start + 15;
    (start, end)
  }

  /** What a line typed in editor mode asks for. */
  datatype Key = Save | Close | ShowHelp | Move(direction: Direction) | Enter | Backspace | Delete | Type(c: char)

  /** The named keys of `handleEditorCommand`'s switch that have an action of their own. */
  function NamedKey(name: string): (k: Option<Key>)
    ensures k.Some? ==> |name| >= 2 && !k.value.Type? && !k.value.ShowHelp?
  {
    if name == "ctrl+x" || name == "ctrl+s" then Some(Save)
    else if name == "ctrl+z" then Some(Close)
    else if name == "up" then Some(Move(Up))
    else if name == "down" then Some(Move(Down))
    else if name == "left" then Some(Move(Left))
    else if name == "right" then Some(Move(Right))
    else if name == "enter" then Some(Enter)
    else if name == "backspace" then Some(Backspace)
    else if name == "delete" then Some(Delete)
    else None
  }

  /**
   * `handleEditorCommand`'s switch. Key names are matched on the trimmed,
   * lower-cased line; the named keys without an action of their own
   * (`ctrl+h`, `home`, `tab`, ...) and every unmatched line show the help,
   * except a line of exactly one printable ASCII character, which is typed.
   */
  function KeyOf(command: string): (k: Key)
    ensures k.Type? <==> |command| == 1 && ' ' <= command[0] <= '~'
    ensures k.Type? ==> k.c == command[0]
  {
    var named := NamedKey(Lower(Trim(command)));
    assert |Lower(Trim(command))| <= |command|;
    if named.Some? then named.value
    else if |command| == 1 && ' ' <= command[0] <= '~' then Type(command[0])
    else ShowHelp
  }

  /** Key names ignore case and the white space around them. */
  lemma KeyNamesNormalised(command: string)
    requires |command| != 1 && |Lower(Trim(command))| != 1
    ensures KeyOf(command) == KeyOf(Lower(Trim(command)))
  {
    NormalisedStays(Trim(command));
  }

  /** Lower-casing keeps a non-space character non-space, and is idempotent. */
  lemma LowerCharFacts(c: char)
    ensures !IsSpace(c) ==> !IsSpace(LowerChar(c))
    ensures LowerChar(LowerChar(c)) == LowerChar(c)
  {
  }

  /** A text whose ends are not white space is its own trim. */
  lemma TrimmedStays(u: string)
    requires |u| > 0 ==> !IsSpace(u[0]) && !IsSpace(u[|u| - 1])
    ensures Trim(u) == u
  {
    assert TrimEnd(u) == u;
    assert TrimStart(u) == u;
  }

  /** The ends of a trimmed text are not white space. */
  lemma TrimmedEnds(t: string)
    requires t == Trim(t) && |t| > 0
    ensures !IsSpace(t[0]) && !IsSpace(t[|t| - 1])
  {
    var x := TrimEnd(t);
    assert t == x[|x| - |t|..];
    assert t[|t| - 1] == x[|x| - 1];
  }

  /** A trimmed text stays trimmed and lower-case once lower-cased. */
  lemma NormalisedStays(t: string)
    requires t == Trim(t)
    ensures Lower(Trim(Lower(t))) == Lower(t)
  {
    var u := Lower(t);
    if |t| > 0 {
      TrimmedEnds(t);
      LowerCharFacts(t[0]);
      LowerCharFacts(t[|t| - 1]);
    }
    TrimmedStays(u);
    forall i | 0 <= i < |u|
      ensures Lower(u)[i] == u[i]
    {
      LowerCharFacts(t[i]);
    }
  }

  /**
   * The `editorState` record: the file being edited, its text as lines, the
   * cursor, and whether there are unsaved changes.
   */
  class EditorState {
    const fileName: string
    const filePath: string
    const content: string
    const isNewFile: bool
    var lines: seq<string>
    var cursorLine: nat
    var cursorCol: nat
    var modified: bool

    function Cursor(): Buffer
      reads this
    {
      Buffer(lines, cursorLine, cursorCol)
    }

    ghost predicate Valid()
      reads this
    {
      CursorValid(Cursor())
    }

    /** The editor screen for the state at this moment. */
    function Screen(): Output
      reads this
    {
      EditorScreen(fileName, lines, cursorLine, cursorCol, modified, isNewFile)
    }

    /** The state `aiEdit` sets up: the file's lines, the cursor at the start. */
    constructor (fileName: string, filePath: string, content: string, isNewFile: bool)
      ensures Valid() && Unbroken(lines) && Join(lines, "\n") == content
      ensures Cursor() == Opened(content) && modified == isNewFile
      ensures this.fileName == fileName && this.filePath == filePath
      ensures this.content == content && this.isNewFile == isNewFile
    {
      this.fileName := fileName;
      this.filePath := filePath;
      this.content := content;
      this.isNewFile := isNewFile;
      lines := Split(content, '\n');
      cursorLine := 0;
      cursorCol := 0;
      modified := isNewFile;
      new;
      assert Cursor() == Opened(content);
    }

    method MoveCursor(d: Direction) returns (r: CommandResult)
      requires Valid()
      modifies this
      ensures Valid() && Cursor() == Moved(old(Cursor()), d) && modified == old(modified)
      ensures r == InEditor(Screen(), true)
    {
      match d {
        case Up =>
          if cursorLine > 0 {
            cursorLine := cursorLine - 1;
            cursorCol := Min(cursorCol, |lines[cursorLine]|);
          }
        case Down =>
          if cursorLine < |lines| - 1 {
            cursorLine := cursorLine + 1;
            cursorCol := Min(cursorCol, |lines[cursorLine]|);
          }
        case Left =>
          if cursorCol > 0 {
            cursorCol := cursorCol - 1;
          }
        case Right =>
          if cursorCol < |lines[cursorLine]| {
            cursorCol := cursorCol + 1;
          }
      }
      r := InEditor(Screen(), true);
    }

    method InsertText(text: string) returns (r: CommandResult)
      requires Valid()
      modifies this
      ensures Valid() && Cursor() == Inserted(old(Cursor()), text) && modified
      ensures r == InEditor(Screen(), true)
    {
      var line := lines[cursorLine];
      lines := lines[cursorLine := line[..cursorCol] + text + line[cursorCol..]];
      cursorCol := cursorCol + |text|;
      modified := true;
      r := InEditor(Screen(), true);
    }

    method InsertNewLine() returns (r: CommandResult)
      requires Valid()
      modifies this
      ensures Valid() && Cursor() == NewLine(old(Cursor())) && modified
      ensures r == InEditor(Screen(), true)
    {
      var line := lines[cursorLine];
      var before, after := line[..cursorCol], line[cursorCol..];
      lines := lines[..cursorLine] + [before, after] + lines[cursorLine + 1..];
      cursorLine := cursorLine + 1;
      cursorCol := 0;
      modified := true;
      r := InEditor(Screen(), true);
    }

    method DeleteBeforeCursor() returns (r: CommandResult)
      requires Valid()
      modifies this
      ensures Valid() && Cursor() == DeletedBefore(old(Cursor()))
      ensures modified == (old(modified) || old(cursorCol) > 0)
      ensures r == InEditor(Screen(), true)
    {
      var line := lines[cursorLine];
      if cursorCol > 0 {
        lines := lines[cursorLine := line[..cursorCol - 1] + line[cursorCol..]];
        cursorCol := cursorCol - 1;
        modified := true;
      }
      r := InEditor(Screen(), true);
    }

    method DeleteAtCursor() returns (r: CommandResult)
      requires Valid()
      modifies this
      ensures Valid() && Cursor() == DeletedAt(old(Cursor()))
      ensures modified == (old(modified) || old(cursorCol) < |old(lines)[old(cursorLine)]|)
      ensures r == InEditor(Screen(), true)
    {
      var line := lines[cursorLine];
      if cursorCol < |line| {
        lines := lines[cursorLine := line[..cursorCol] + line[cursorCol + 1..]];
        modified := true;
      }
      r := InEditor(Screen(), true);
    }
  }
}
