/**
 * The simulator object and its entry point.
 *
 * A `BashSimulator` holds the working directory, the filesystem, and the
 * editor mode with its state. `executeCommand` takes one line of input. In
 * editor mode the line is an editor key. Otherwise the line is split into
 * a command name and its arguments, `--help` anywhere among the arguments
 * asks for the command's help page, and the command is run. A JavaScript
 * exception raised by a handler becomes an `Error: <message>` reply.
 */
module Shell {
  import opened Wrappers
  import opened Text
  import opened Paths
  import opened Results
  import opened Vfs
  import opened Editor
  import F = FsOps
  import L = Listing
  import C = Cat
  import T = TextCmds

  /** The commands `executeCommand` knows. */
  datatype Builtin =
    | Ls | Cd | Pwd | Cat | Less | Mkdir | Touch | Rm | Rmdir | Cp | Mv
    | Echo | Grep | Find | Head | Tail | Wc | Sort | Uniq
    | Chmod | Whoami | Date | History | Help | Options | AiEdit | Clear
      /** One of the network commands, by its name. */
    | Network(tool: string)

  /** The `switch (cmd)` of `executeCommand`: which command a name runs, if any. */
  function Lookup(cmd: string): (b: Option<Builtin>)
    ensures b.Some? && b.value.Network? ==> b.value.tool == cmd
  {
    if cmd == "ls" then Some(Ls)
    else if cmd == "cd" then Some(Cd)
    else if cmd == "pwd" then Some(Pwd)
    else if cmd == "cat" then Some(Cat)
    else if cmd == "less" then Some(Less)
    else if cmd == "mkdir" then Some(Mkdir)
    else if cmd == "touch" then Some(Touch)
    else if cmd == "rm" then Some(Rm)
    else if cmd == "rmdir" then Some(Rmdir)
    else if cmd == "cp" then Some(Cp)
    else if cmd == "mv" then Some(Mv)
    else if cmd == "echo" then Some(Echo)
    else if cmd == "grep" then Some(Grep)
    else if cmd == "find" then Some(Find)
    else if cmd == "head" then Some(Head)
    else if cmd == "tail" then Some(Tail)
    else if cmd == "wc" then Some(Wc)
    else if cmd == "sort" then Some(Sort)
    else if cmd == "uniq" then Some(Uniq)
    else if cmd == "chmod" then Some(Chmod)
    else if cmd == "whoami" then Some(Whoami)
    else if cmd == "date" then Some(Date)
    else if cmd == "history" then Some(History)
    else if cmd == "help" then Some(Help)
    else if cmd == "options" then Some(Options)
    else if cmd == "ai-edit" then Some(AiEdit)
    else if cmd == "clear" then Some(Clear)
    else if cmd in NetworkTools then Some(Network(cmd))
    else None
  }

  const NetworkTools: set<string> :=
    {"ping", "nslookup", "dig", "traceroute", "netstat", "ip", "route", "arp", "whois", "iwconfig", "ifconfig"}

  /** The names `getCommandHelp` has a page for. */
  const HelpTopics: set<string> :=
    {"ls", "cd", "pwd", "cat", "less", "mkdir", "touch", "rm", "rmdir", "cp", "mv",
     "echo", "grep", "find", "head", "tail", "wc", "sort", "uniq",
     "chmod", "whoami", "date", "history", "options", "ai-edit", "clear"} + NetworkTools

  const NoHelp: string := "No help available for command: "

  /**
   * `getCommandHelp(command)`: the command's help page (`ifconfig` shares
   * the page of `ip`), or a failure naming a command without one.
   */
  function GetCommandHelp(command: string): (r: CommandResult)
    ensures r.success <==> command in HelpTopics
    ensures r.success ==> r.output.HelpPage? && r.output.command == (if command == "ifconfig" then "ip" else command)
    ensures !r.success ==> r == Fail(NoHelp + command)
  {
    if command !in HelpTopics then Fail(NoHelp + command)
    else if command == "ifconfig" then Page(HelpPage("ip"))
    else Page(HelpPage(command))
  }

  /** `command.trim().split(/\s+/)`: the command name and its arguments. */
  function Parse(command: string): (p: (string, seq<string>))
    ensures forall i :: 0 <= i < |p.1| ==> |p.1[i]| > 0
    ensures forall i, j :: 0 <= i < |p.1| && 0 <= j < |p.1[i]| ==> !IsSpace(p.1[i][j])
  {
    var ts := Tokens(command);
    (ts[0], ts[1..])
  }

  /** The reply of `executeCommand`: a result, or the pending Promise of a network command. */
  datatype Reply = Now(result: CommandResult) | Pending(tool: string, args: seq<string>)

  /** The `try`/`catch` around a handler: a thrown exception becomes `Error: <message>`. */
  function Settle(o: Outcome<CommandResult>): (r: CommandResult)
    ensures o.Done? ==> r == o.value
    ensures o.Thrown? ==> !r.success && r.output == Text("Error: " + FaultMessage(o.fault))
  {
    match o
    case Done(res) => res
    case Thrown(f) => Caught(f)
  }

  const User: string := "user"
  const ClearScreen: string := "CLEAR_SCREEN"
  const HistoryNote: string := "History not implemented in this simulator"

  /** `options(args)`: the command list for `--?`, the help page otherwise. */
  function OptionsReply(args: seq<string>): (r: CommandResult)
    ensures r.success
    ensures r.output == CommandList <==> "--help" !in args && "--?" in args
  {
    if "--help" in args then Page(HelpPage("options"))
    else if "--?" in args then Page(CommandList)
    else Page(HelpPage("options"))
  }

  /** The six commands that change the filesystem. */
  predicate Mutator(b: Builtin)
  {
    b.Mkdir? || b.Touch? || b.Rm? || b.Rmdir? || b.Cp? || b.Mv?
  }

  /** The commands that only read the simulator's state and reply at once. */
  predicate Reader(b: Builtin)
  {
    !(Mutator(b) || b.Cd? || b.AiEdit? || b.Network?)
  }

  /**
   * The reply of a command that only reads the simulator's state, for the
   * clock reading `clock` and the name order `collate`.
   */
  function Query(b: Builtin, fs: Fs, cwd: string, args: seq<string>, clock: string,
                 collate: (string, string) -> bool): Outcome<CommandResult>
    requires Reader(b)
  {
    match b
    case Ls => Done(L.Ls(fs, cwd, args, collate))
    case Pwd => Done(Ok(cwd))
    case Cat => Done(C.CatSpec(fs, cwd, args))
    case Less => Done(C.Less(fs, cwd, args))
    case Echo => Done(T.Echo(args))
    case Grep => Done(T.Grep(fs, cwd, args))
    case Find => T.Find(fs, cwd, args)
    case Head => Done(T.Head(fs, cwd, args))
    case Tail => Done(T.Tail(fs, cwd, args))
    case Wc => Done(T.Wc(fs, cwd, args))
    case Sort => Done(T.Sort(fs, cwd, args))
    case Uniq => Done(T.Uniq(fs, cwd, args))
    case Chmod => Done(Ok(""))
    case Whoami => Done(Ok(User))
    case Date => Done(Ok(clock))
    case History => Done(Ok(HistoryNote))
    case Help => Done(Page(CommandSummary))
    case Options => Done(OptionsReply(args))
    case Clear => Done(CommandResult(true, Text(ClearScreen), false, None, true))
  }

  /** The effect of a command that changes the filesystem. */
  function Mutation(b: Builtin, fs: Fs, cwd: string, args: seq<string>): F.Effect
    requires Mutator(b)
  {
    match b
    case Mkdir => F.Mkdir(fs, cwd, args)
    case Touch => F.Touch(fs, cwd, args)
    case Rm => F.Rm(fs, cwd, args)
    case Rmdir => F.Rmdir(fs, cwd, args)
    case Cp => F.Cp(fs, cwd, args)
    case Mv => F.Mv(fs, cwd, args)
  }

  /** The file `ai-edit` opens when given `args`: the first argument, or `untitled.txt`. */
  function EditedName(args: seq<string>): (name: string)
    ensures name != ""
    ensures |args| > 0 && args[0] != "" ==> name == args[0]
  {
    if |args| > 0 && args[0] != "" then args[0] else "untitled.txt"
  }

  /** The text `ai-edit` starts from: the file's content, or nothing for a new file. */
  function InitialText(fs: Fs, path: string): string
  {
    match GetDirectory(fs, path)
    case Some(File(content)) => content
    case _ => ""
  }

  /**
   * `saveFile`: the joined lines are stored under the file's name in the
   * directory object of its parent, when the parent is a directory. The
   * flat map is not updated.
   */
  function Saved(fs: Fs, filePath: string, lines: seq<string>): (r: Fs)
    ensures r.flat == fs.flat && r.next == fs.next
    ensures r.heap.Keys == fs.heap.Keys + (if IsDirAt(fs, GetParentPath(filePath)) then {GetDirectory(fs, GetParentPath(filePath)).value.id} else {})
    ensures IsDirAt(fs, GetParentPath(filePath)) ==>
              r.heap == F.Write(fs.heap, GetDirectory(fs, GetParentPath(filePath)).value.id,
                                GetPathName(filePath), File(Join(lines, "\n")))
    ensures !IsDirAt(fs, GetParentPath(filePath)) ==> r == fs
  {
    match GetDirectory(fs, GetParentPath(filePath))
    case Some(Dir(id)) =>
      fs.(heap := F.Write(fs.heap, id, GetPathName(filePath), File(Join(lines, "\n"))))
    case _ => fs
  }

  /** Saving keeps the filesystem well formed. */
  lemma SavedWellFormed(fs: Fs, filePath: string, lines: seq<string>)
    requires WellFormed(fs)
    ensures WellFormed(Saved(fs, filePath, lines))
  {
    var parent := GetParentPath(filePath);
    if IsDirAt(fs, parent) {
      F.FoundAllocated(fs, parent);
      var id := GetDirectory(fs, parent).value.id;
      F.WriteWellFormed(fs, id, GetPathName(filePath), File(Join(lines, "\n")));
    }
  }

  /**
   * A saved file whose parent directory is in the flat map and which has no
   * flat entry of its own reads back as the joined lines, and reopening it
   * gives the same lines.
   */
  lemma SaveThenReopen(fs: Fs, filePath: string, lines: seq<string>)
    requires |lines| > 0 && Unbroken(lines)
    requires filePath !in fs.flat
    requires GetParentPath(filePath) in fs.flat && fs.flat[GetParentPath(filePath)].Dir?
    ensures GetDirectory(Saved(fs, filePath, lines), filePath) == Some(File(Join(lines, "\n")))
    ensures Opened(InitialText(Saved(fs, filePath, lines), filePath)).lines == lines
  {
    SplitJoin(lines, '\n');
  }

  /**
   * A file that has a flat entry (every file `touch` creates has one) is
   * read from that entry, so a save into its parent directory does not
   * change what `cat` or a new `ai-edit` sees.
   */
  lemma SaveShadowedByFlatEntry(fs: Fs, filePath: string, lines: seq<string>)
    requires filePath in fs.flat
    ensures GetDirectory(Saved(fs, filePath, lines), filePath) == GetDirectory(fs, filePath)
  {
  }

  const Home: string := "/home/user"
  const EditorExited: string := "Exited editor mode."

  class BashSimulator {
    var currentDir: string
    var fs: Fs
    var editorMode: bool
    var editorState: EditorState?
    /** The order `localeCompare` gives names, which `ls` sorts by. */
    const collate: (string, string) -> bool

    /** In editor mode there is an editor state and its cursor is on the text. */
    ghost predicate Valid()
      reads this, editorState
    {
      editorMode ==> editorState != null && editorState.Valid()
    }

    constructor (collate: (string, string) -> bool)
      ensures Valid() && !editorMode && editorState == null
      ensures currentDir == Home && fs == Initial() && this.collate == collate
    {
      currentDir := Home;
      fs := Initial();
      editorMode := false;
      editorState := null;
      this.collate := collate;
    }

    /**
     * The editor `ai-edit` leaves open on `path`, read from `fs0`: the
     * file's lines with the cursor at the top, a new file marked modified,
     * and the first screen as the reply.
     */
    ghost predicate OpenedOn(name: string, path: string, fs0: Fs, r: CommandResult)
      reads this, editorState
    {
      editorMode && editorState != null
      && editorState.Cursor() == Opened(InitialText(fs0, path))
      && editorState.fileName == name && editorState.filePath == path
      && editorState.isNewFile == !IsFileAt(fs0, path) && editorState.modified == editorState.isNewFile
      && r == InEditor(editorState.Screen(), true)
    }

    /** `aiEdit(args)`: opens the editor on a file, refusing a directory. */
    method AiEdit(args: seq<string>) returns (r: CommandResult)
      requires Valid()
      modifies this
      ensures Valid() && fs == old(fs) && currentDir == old(currentDir)
      ensures "--help" in args ==> r == Page(HelpPage("ai-edit")) && editorMode == old(editorMode)
      ensures var name := EditedName(args); var path := ResolvePath(currentDir, name);
        "--help" !in args ==>
          if IsDirAt(fs, path) then
            r == Fail("ai-edit: " + name + ": Is a directory") && editorMode == old(editorMode) && editorState == old(editorState)
          else
            OpenedOn(name, path, fs, r) && fresh(editorState)
    {
      if "--help" in args {
        return Page(HelpPage("ai-edit"));
      }
      var fileName := EditedName(args);
      var filePath := ResolvePath(currentDir, fileName);
      var file := GetDirectory(fs, filePath);
      if file.Some? && file.value.Dir? {
        return Fail("ai-edit: " + fileName + ": Is a directory");
      }
      var initialContent := if file.Some? && file.value.File? then file.value.content else "";
      var isNewFile := !(file.Some? && file.value.File?);
      editorState := new EditorState(fileName, filePath, initialContent, isNewFile);
      editorMode := true;
      r := InEditor(editorState.Screen(), true);
    }

    /** `saveFile`: writes the joined lines into the parent directory and clears `modified`. */
    method SaveFile() returns (r: CommandResult)
      requires editorMode && Valid()
      modifies this, editorState
      ensures Valid() && editorMode && editorState == old(editorState) && currentDir == old(currentDir)
      ensures fs == Saved(old(fs), editorState.filePath, editorState.lines)
      ensures editorState.Cursor() == old(editorState.Cursor()) && !editorState.modified
      ensures r == InEditor(Text("File saved: " + editorState.fileName), true)
    {
      var state := editorState;
      var content := Join(state.lines, "\n");
      var parentPath := GetParentPath(state.filePath);
      var fileName := GetPathName(state.filePath);
      var parent := GetDirectory(fs, parentPath);
      if parent.Some? && parent.value.Dir? {
        fs := fs.(heap := F.Write(fs.heap, parent.value.id, fileName, File(content)));
      }
      state.modified := false;
      r := InEditor(Text("File saved: " + state.fileName), true);
    }

    /** `exitEditor`: leaves editor mode and drops the editor state without saving. */
    method ExitEditor() returns (r: CommandResult)
      modifies this
      ensures !editorMode && editorState == null && Valid()
      ensures fs == old(fs) && currentDir == old(currentDir)
      ensures r == InEditor(Text(EditorExited), false)
    {
      editorMode := false;
      editorState := null;
      r := InEditor(Text(EditorExited), false);
    }

    /**
     * `handleEditorCommand(command)`: one editor key. Only `ctrl+z` leaves
     * the editor, only `ctrl+x` and `ctrl+s` write to the filesystem, and
     * every reply says whether the editor is still open.
     */
    method HandleEditorCommand(command: string) returns (r: CommandResult)
      requires editorMode && Valid()
      modifies this, editorState
      ensures Valid() && currentDir == old(currentDir)
      ensures r.success && r.editorMode == Some(editorMode)
      ensures !editorMode <==> KeyOf(command) == Close
      ensures KeyOf(command) != Save ==> fs == old(fs)
      ensures editorMode ==> editorState == old(editorState)
      ensures editorMode ==> Keyed(KeyOf(command), old(fs), old(editorState.Cursor()), r)
    {
      r := HandleKey(KeyOf(command));
    }

    /** What an editor key leaves behind when the editor stays open. */
    ghost predicate Keyed(k: Key, fs0: Fs, before: Buffer, r: CommandResult)
      reads this, editorState
      requires editorState != null && CursorValid(before)
    {
      match k
      case Save => fs == Saved(fs0, editorState.filePath, editorState.lines)
                   && editorState.Cursor() == before && !editorState.modified
      case Move(d) => editorState.Cursor() == Moved(before, d)
      case Enter => editorState.Cursor() == NewLine(before)
      case Backspace => editorState.Cursor() == DeletedBefore(before)
      case Delete => editorState.Cursor() == DeletedAt(before)
      case Type(c) => editorState.Cursor() == Inserted(before, [c])
      case _ => editorState.Cursor() == before && r == InEditor(EditorHelp, true)
    }

    /** The `switch` of `handleEditorCommand`, on the key the input names. */
    method HandleKey(k: Key) returns (r: CommandResult)
      requires editorMode && Valid()
      modifies this, editorState
      ensures Valid() && currentDir == old(currentDir)
      ensures r.success && r.editorMode == Some(editorMode)
      ensures !editorMode <==> k == Close
      ensures k != Save ==> fs == old(fs)
      ensures editorMode ==> editorState == old(editorState)
      ensures editorMode ==> Keyed(k, old(fs), old(editorState.Cursor()), r)
    {
      match k {
        case Save => r := SaveFile();
        case Close => r := ExitEditor();
        case ShowHelp => r := InEditor(EditorHelp, true);
        case Move(d) => r := editorState.MoveCursor(d);
        case Enter => r := editorState.InsertNewLine();
        case Backspace => r := editorState.DeleteBeforeCursor();
        case Delete => r := editorState.DeleteAtCursor();
        case Type(c) => r := editorState.InsertText([c]);
      }
    }

    /** One command of a known name, with the `try`/`catch` around it. */
    method Run(b: Builtin, args: seq<string>, clock: string) returns (r: Reply)
      requires Valid() && !editorMode
      modifies this
      ensures Valid()
      ensures Reader(b) ==> r == Now(Settle(Query(b, old(fs), old(currentDir), args, clock, collate)))
                            && fs == old(fs) && currentDir == old(currentDir) && !editorMode
      ensures Mutator(b) ==> var e := Mutation(b, old(fs), old(currentDir), args);
        r == Now(Settle(e.reply)) && fs == e.fs && currentDir == old(currentDir) && !editorMode
      ensures b.Cd? ==> var (dir, res) := F.Cd(old(fs), old(currentDir), args);
        r == Now(res) && currentDir == dir && fs == old(fs) && !editorMode
      ensures b.AiEdit? ==> r.Now? && fs == old(fs) && currentDir == old(currentDir)
      ensures b.AiEdit? ==> var name := EditedName(args); var path := ResolvePath(old(currentDir), name);
        && ("--help" in args ==> r == Now(Page(HelpPage("ai-edit"))) && !editorMode)
        && ("--help" !in args && IsDirAt(old(fs), path) ==>
              r == Now(Fail("ai-edit: " + name + ": Is a directory")) && !editorMode)
        && ("--help" !in args && !IsDirAt(old(fs), path) ==>
              OpenedOn(name, path, old(fs), r.result) && fresh(editorState))
      ensures b.Network? ==> r == Pending(b.tool, args) && fs == old(fs) && currentDir == old(currentDir)
                             && !editorMode
      ensures editorMode ==> b.AiEdit?
      ensures fs != old(fs) ==> Mutator(b)
      ensures currentDir != old(currentDir) ==> b.Cd?
      ensures r.Pending? <==> b.Network?
    {
      if b.Cat? {
        var res := C.Cat(fs, currentDir, args);
        r := Now(res);
      } else if b.Cd? {
        var (dir, res) := F.Cd(fs, currentDir, args);
        currentDir := dir;
        r := Now(res);
      } else if b.AiEdit? {
        var res := AiEdit(args);
        r := Now(res);
      } else if b.Network? {
        r := Pending(b.tool, args);
      } else if Mutator(b) {
        r := Apply(Mutation(b, fs, currentDir, args));
      } else {
        r := Now(Settle(Query(b, fs, currentDir, args, clock, collate)));
      }
    }

    /** Installs the filesystem a handler leaves behind and settles its reply. */
    method Apply(e: F.Effect) returns (r: Reply)
      modifies this
      ensures fs == e.fs && r == Now(Settle(e.reply))
      ensures currentDir == old(currentDir) && editorMode == old(editorMode) && editorState == old(editorState)
    {
      fs := e.fs;
      r := Now(Settle(e.reply));
    }

    /**
     * `executeCommand(command)`, with the clock reading `clock` that `date`
     * prints. In editor mode the line goes to the editor; otherwise `--help`
     * among the arguments shows the command's help without running it, and
     * an unknown name is reported as not found.
     */
    method ExecuteCommand(command: string, clock: string) returns (r: Reply)
      requires Valid()
      modifies this, editorState
      ensures Valid()
      ensures old(editorMode) ==> r.Now? && r.result.editorMode == Some(editorMode)
                                  && currentDir == old(currentDir)
      ensures old(editorMode) ==> (!editorMode <==> KeyOf(command) == Close)
                                  && (KeyOf(command) != Save ==> fs == old(fs))
                                  && (editorMode ==> Keyed(KeyOf(command), old(fs), old(editorState.Cursor()), r.result))
      ensures !old(editorMode) ==> var (cmd, args) := Parse(command);
        && ("--help" in args ==>
              r == Now(GetCommandHelp(cmd)) && fs == old(fs) && currentDir == old(currentDir) && !editorMode)
        && ("--help" !in args && Lookup(cmd).None? ==>
              r == Now(Fail("bash: " + cmd + ": command not found"))
              && fs == old(fs) && currentDir == old(currentDir) && !editorMode)
        && (editorMode ==> Lookup(cmd) == Some(Builtin.AiEdit))
        && (currentDir != old(currentDir) ==> Lookup(cmd) == Some(Cd))
        && (fs != old(fs) ==> Lookup(cmd).Some? && Mutator(Lookup(cmd).value))
        && (r.Pending? <==> "--help" !in args && Lookup(cmd).Some? && Lookup(cmd).value.Network?)
      ensures !old(editorMode) ==> var (cmd, args) := Parse(command);
        "--help" !in args && Lookup(cmd).Some? ==> var b := Lookup(cmd).value;
        && (Reader(b) ==> r == Now(Settle(Query(b, old(fs), old(currentDir), args, clock, collate)))
                          && fs == old(fs) && currentDir == old(currentDir) && !editorMode)
        && (Mutator(b) ==> var e := Mutation(b, old(fs), old(currentDir), args);
              r == Now(Settle(e.reply)) && fs == e.fs && currentDir == old(currentDir) && !editorMode)
        && (b.Cd? ==> var (dir, res) := F.Cd(old(fs), old(currentDir), args);
              r == Now(res) && currentDir == dir && fs == old(fs) && !editorMode)
        && (b.AiEdit? ==> var name := EditedName(args); var path := ResolvePath(old(currentDir), name);
              && (IsDirAt(old(fs), path) ==> r == Now(Fail("ai-edit: " + name + ": Is a directory")) && !editorMode)
              && (!IsDirAt(old(fs), path) ==> OpenedOn(name, path, old(fs), r.result) && fresh(editorState)))
        && (b.Network? ==> r == Pending(b.tool, args) && fs == old(fs) && currentDir == old(currentDir))
    {
      if editorMode {
        var res := HandleEditorCommand(command);
        return Now(res);
      }
      var (cmd, args) := Parse(command);
      if "--help" in args {
        return Now(GetCommandHelp(cmd));
      }
      var b := Lookup(cmd);
      if b.None? {
        return Now(Fail("bash: " + cmd + ": command not found"));
      }
      r := Run(b.value, args, clock);
    }
  }
}
