/**
 * What a command hands back to the terminal: the `{ success, output, error }`
 * record (with the optional `editorMode` and `clearScreen` fields), and the
 * JavaScript exceptions a handler can raise, which `executeCommand` turns
 * into `Error: <message>`.
 */
module Results {
  import opened Wrappers

  /**
   * The text of a reply. Help pages, the command list and the editor screen
   * are fixed renderings; they are named here rather than spelled out.
   */
  datatype Output =
    | Text(text: string)
      /** The `<command>Help()` page of the named command. */
    | HelpPage(command: string)
      /** The fixed `--version` text of the named command. */
    | VersionPage(command: string)
      /**
       * The first 20 lines of a longer text as `less` shows them: `shown`,
       * then the note that `total` lines exist, then the fixed key hint.
       */
    | LessScreen(shown: string, total: nat)
      /** The page of `help()`. */
    | CommandSummary
      /** The page of `listAllCommands()`. */
    | CommandList
      /** `createInteractiveEditor()` for the editor state at that moment. */
    | EditorScreen(fileName: string, lines: seq<string>, cursorLine: nat, cursorCol: nat,
                   modified: bool, isNewFile: bool)
      /** The page of `showEditorHelp()`. */
    | EditorHelp

  datatype CommandResult = CommandResult(
    success: bool,
    output: Output,
    error: bool,
    editorMode: Option<bool>,
    clearScreen: bool)

  function Ok(text: string): CommandResult
  {
    CommandResult(true, Text(text), false, None, false)
  }

  function Fail(text: string): CommandResult
  {
    CommandResult(false, Text(text), true, None, false)
  }

  function Page(page: Output): CommandResult
  {
    CommandResult(true, page, false, None, false)
  }

  /** A reply produced while the editor is (still or no longer) open. */
  function InEditor(page: Output, open: bool): CommandResult
  {
    CommandResult(true, page, false, Some(open), false)
  }

  /**
   * The exceptions the handlers can raise. The messages follow the wording
   * of the V8 engine as far as its first line goes; V8 adds more detail to
   * some of them (the circular-structure message names the cycle), which
   * is not modelled.
   */
  datatype Fault =
    | ReadOfUndefined(key: string)
    | SetOfUndefined(key: string)
    | ReadOfNull(key: string)
    | NullToObject
    | CircularJson
    | StackOverflow

  function FaultMessage(f: Fault): string
  {
    match f
    case ReadOfUndefined(k) => "Cannot read properties of undefined (reading '" + k + "')"
    case SetOfUndefined(k) => "Cannot set properties of undefined (setting '" + k + "')"
    case ReadOfNull(k) => "Cannot read properties of null (reading '" + k + "')"
    case NullToObject => "Cannot convert undefined or null to object"
    case CircularJson => "Converting circular structure to JSON"
    case StackOverflow => "Maximum call stack size exceeded"
  }

  /** A computation that returns a value or throws. */
  datatype Outcome<T> = Done(value: T) | Thrown(fault: Fault)

  /** The `catch` of `executeCommand`. */
  function Caught(f: Fault): CommandResult
  {
    Fail("Error: " + FaultMessage(f))
  }
}
