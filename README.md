# Bash simulator and network services: a Dafny model

This project models the server side of a web terminal. The terminal
simulates a bash shell over an in-memory filesystem and offers a small
line editor (`ai-edit`). Beside it, a network service runs a handful of
diagnostic tools (`ping`, `dig`, `whois`, ...) against an allow-list of
domains, with a per-client rate limit.

The model follows the program's own structure:

| module | what it models |
|---|---|
| `Paths` (paths.dfy) | `resolvePath`, `joinPath`, `getParentPath`, `getPathName`: a path as a list of segments, `.` and `..` walked over it |
| `Vfs` (vfs.dfy) | the filesystem: a flat map from absolute path to node, plus directory objects shared by reference (an arena of directory ids), the initial tree, `getDirectory`, the JSON deep copy used by `cp`, and `findFiles` |
| `Dicts` (dicts.dfy) | a JavaScript object used as a dictionary: insertion-ordered keys and their values |
| `FsOps` (fsops.dfy) | `mkdir`, `touch`, `rm`, `rmdir`, `cp`, `mv` and `cd`, with the aliasing that the source's object references create |
| `Listing` (listing.dfy) | `ls`: option parsing, filtering, the four sort orders, directory grouping, the long format and `formatHumanSize` |
| `Cat` (cat.dfy) | `cat` with its option parser and `formatCatOutput`, and `less` |
| `TextCmds` (textcmds.dfy) | `echo`, `grep`, `find`, `head`, `tail`, `wc`, `sort`, `uniq` and JavaScript's `parseInt` |
| `Editor` (editor.dfy) | the editor state, its cursor movements and edits, the display window and the key names |
| `Shell` (shell.dfy) | the `BashSimulator` object: `executeCommand`, `getCommandHelp`, `options`, `ai-edit`, saving and leaving the editor |
| `Network` (network.dfy) | `validateDomain`, the rate limiter and the command each network tool builds |
| `Sorting`, `Text`, `Results`, `Wrappers` | a stable insertion sort, string helpers, the reply record and `Option` |

A command's reply is a `CommandResult` with `success`, `output` and
`error`. A handler that would raise a JavaScript exception (reading a
property of `undefined`, a circular structure in `JSON.stringify`, a stack
overflow) returns `Thrown(fault)`. `executeCommand` turns that into an
`Error: <message>` reply, as its `catch` block does. Help pages, the
version banner, the command list and the editor screen stay symbolic
(`HelpPage(name)`, `CommandList`, `EditorScreen`, ...). The model proves
which of them is shown, not their text.

Aliasing matters in this program. `mkdir` and `touch` store two separate
objects: one in the parent's `contents` and one in the flat map. `mv`
stores the same object in both places. `cp` stores two independent deep
copies. The model keeps directory objects in a heap indexed by id, so
these differences are visible. Several lemmas state what they lead to:
- `FsOps.RmdirIgnoresFlatCopy`: `rmdir` succeeds on a directory that `ls` shows as not empty.
- `FsOps.MvIntoItself`: moving a directory into itself makes it contain itself.
- `FsOps.CpSelfLoop`: `cp` of such a directory throws.
- `Vfs.FindSelfLoop`: `find` in such a directory overflows the stack.

Inputs from outside the program are parameters:
- the wall clock for `date` and the rate limiter;
- the host platform for the network tools;
- the outcome of running an external process;
- the locale's string order for `ls`.

The network commands in the shell answer with a pending Promise. The model
returns `Pending(tool, args)` for them.

## Model

| member | source | states |
|---|---|---|
| Paths.Segments | server/services/bashSimulator.js:3547-3564 | the pieces a path splits into on `/` are never empty and never contain `/` |
| Paths.ResolvePath | server/services/bashSimulator.js:3540-3545 | an absolute input is returned as is; a relative one is walked from the working directory; the result always starts with `/` |
| Paths.JoinPathNormal | server/services/bashSimulator.js:3547-3564 | `joinPath` of a relative path gives an absolute path whose segments are the base's segments walked through the relative ones, with no `.` or `..` left when the base had none |
| Paths.SegmentsOfRender | server/services/bashSimulator.js:3547-3564 | rendering segments as `/a/b` and splitting again gives back the same segments |
| Paths.WalkNames | server/services/bashSimulator.js:3547-3564 | walking through plain names appends them |
| Paths.WalkUp | server/services/bashSimulator.js:3547-3564 | walking `..` once per name just added returns to where the walk started |
| Paths.DownAndUp | server/services/bashSimulator.js:3547-3564 | joining a relative path of k names and then k `..` segments gives the base path back |
| Paths.UpOne | server/services/bashSimulator.js:3547-3564 | `..` drops the last segment and stays at the root |
| Paths.ParentAndName | server/services/bashSimulator.js:3584-3595 | the parent path and the last name of a normal path rebuild the path |
| Paths.NonEmptyKeeps | server/services/bashSimulator.js:3547-3564 | dropping empty pieces leaves a list without empty pieces unchanged |
| Paths.WalkKeepsNormal | server/services/bashSimulator.js:3547-3564 | the walk keeps a path free of `.` and `..` |
| Vfs.GetDirectory | server/services/bashSimulator.js:3566-3582 | a path in the flat map yields its entry; otherwise the entry in the parent directory's contents, and nothing when the parent is not in the flat map |
| Vfs.Clone | server/services/bashSimulator.js:1703-1704 | the deep copy leaves the flat map and every existing directory object untouched and allocates the copy's directories fresh; a file is copied as itself |
| Vfs.CloneSame | server/services/bashSimulator.js:1703-1704 | the copy holds the same tree as the original, to every depth, read from any heap that keeps the new objects |
| Vfs.CloneWellFormed | server/services/bashSimulator.js:1703-1704 | the deep copy keeps every directory reference allocated |
| Vfs.CloneAcyclic | server/services/bashSimulator.js:1703-1704 | the deep copy of any node succeeds when the directory graph is acyclic |
| Vfs.FindFiles | server/services/bashSimulator.js:3597-3620 | the recursive search with an explicit result list returns nothing when the path names no directory, and otherwise, on an acyclic heap, exactly the paths of the entries below the directory, in pre-order, whose names contain the pattern |
| Vfs.FindBelow | server/services/bashSimulator.js:3597-3620 | the search result `Found` equals the pre-order listing `Below` filtered by name, and is empty when the path names no directory |
| Vfs.SearchBelow | server/services/bashSimulator.js:3604-3616 | from a directory of an acyclic heap, the recursive search returns the selected entries of `Below`, whatever ancestors are on the stack |
| Vfs.SelectedMembers | server/services/bashSimulator.js:3608-3610 | a path is reported exactly when some entry with that path has a name containing the pattern |
| Vfs.FindAcyclic | server/services/bashSimulator.js:3597-3620 | the search succeeds when the directory graph is acyclic |
| Vfs.FindSelfLoop | server/services/bashSimulator.js:3597-3620 | searching a directory that contains itself throws a stack overflow |
| Dicts.PutRemoveValid | server/services/bashSimulator.js:1538 | setting or deleting a key keeps the key order and the value map in step |
| Dicts.RemoveAfterPut | server/services/bashSimulator.js:1612 | deleting a key just added restores the dictionary |
| Dicts.WithoutDistinct | server/services/bashSimulator.js:1612 | deleting a key keeps the key order free of duplicates |
| FsOps.Write | server/services/bashSimulator.js:1538 | assigning into a directory object sets that one name and leaves every other name and every other directory object alone |
| FsOps.Erase | server/services/bashSimulator.js:1612 | deleting from a directory object removes that one name and leaves every other name and every other directory object alone |
| FsOps.Mkdir | server/services/bashSimulator.js:1508-1546 | a missing operand gives `mkdir: missing operand`; a failure leaves the filesystem unchanged; a success creates the directory in the parent and in the flat map |
| FsOps.Rm | server/services/bashSimulator.js:1582-1620 | a missing operand gives `rm: missing operand`; a failure leaves the filesystem unchanged; a success unlinks the name from the parent and the flat map |
| FsOps.Rmdir | server/services/bashSimulator.js:1622-1668 | a missing operand gives `rmdir: missing operand`; a failure leaves the filesystem unchanged; a success unlinks the name from the parent and the flat map |
| FsOps.Touch | server/services/bashSimulator.js:1548-1580 | a missing operand gives `touch: missing file operand`; a failure leaves the filesystem unchanged |
| FsOps.Cp | server/services/bashSimulator.js:1670-1711 | fewer than two operands give `cp: missing file operand`; a reported failure leaves the filesystem unchanged |
| FsOps.Mv | server/services/bashSimulator.js:1713-1761 | a reported failure leaves the filesystem unchanged |
| FsOps.Cd | server/services/bashSimulator.js:617-644 | `cd` succeeds exactly when the resolved target is a directory, and then the working directory becomes it; otherwise it stays |
| FsOps.MkdirCreates | server/services/bashSimulator.js:1508-1546 | `mkdir` succeeds exactly when the parent is a directory without that name; a missing parent and an existing name give their `cannot create directory` messages and a file parent throws; a success adds two distinct fresh empty directory objects, one in the parent and one in the flat map |
| FsOps.MkdirThenRmdir | server/services/bashSimulator.js:1508-1668 | `rmdir` right after a successful `mkdir` of a path the flat map does not hold succeeds and restores the flat map and every old directory object |
| FsOps.RmOutcome | server/services/bashSimulator.js:1582-1620 | `rm` succeeds exactly when the name is a file in its parent directory; a missing parent or name, and a directory, give their `cannot remove` messages and a file parent throws; a success removes the name from the parent and the path from the flat map |
| FsOps.RmdirOutcome | server/services/bashSimulator.js:1622-1668 | `rmdir` succeeds exactly when the name is an empty directory in its parent; a missing parent or name, a file and a non-empty directory give their `cannot remove` messages and a file parent throws; a success removes the name from the parent and the path from the flat map |
| FsOps.TouchOutcome | server/services/bashSimulator.js:1548-1580 | `touch` succeeds exactly when the parent is a directory; a missing parent gives `cannot touch`, a file parent throws, an existing name is left alone, and a new name gets an empty file in the parent and in the flat map |
| FsOps.TouchIdempotent | server/services/bashSimulator.js:1548-1580 | touching the same path twice has the effect of touching it once, whatever the first touch did |
| FsOps.RmdirIgnoresFlatCopy | server/services/bashSimulator.js:1538-1661 | after `mkdir d` and `touch d/f`, the file is in the flat copy of `d` while `rmdir d` checks the nested copy and succeeds |
| FsOps.CpFile | server/services/bashSimulator.js:1670-1711 | copying a file stores its content under the destination in the parent and in the flat map |
| FsOps.CpDirFresh | server/services/bashSimulator.js:1670-1711 | copying a directory stores two distinct fresh copies, one in the destination's parent and one in the flat map, and changes no other path of the flat map |
| FsOps.CpCopiesTree | server/services/bashSimulator.js:1703-1704 | the copy in the destination's parent holds the source's tree as it was before `cp`, and the copy in the flat map holds it as it is after, to every depth |
| FsOps.CpWellFormed | server/services/bashSimulator.js:1670-1711 | `cp` keeps every directory reference allocated, also when the second copy throws |
| FsOps.CpSelfLoop | server/services/bashSimulator.js:1703 | copying a directory that contains itself throws the circular-structure error and changes nothing |
| FsOps.MvAliases | server/services/bashSimulator.js:1750-1754 | `mv` puts the very source object under the destination in the parent and in the flat map and removes the source name and path |
| FsOps.MvIntoItself | server/services/bashSimulator.js:1750-1754 | moving a directory into itself succeeds and leaves the directory containing itself |
| FsOps.MvPartialWrite | server/services/bashSimulator.js:1751-1752 | when the source's parent cannot be found, the destination is already written before the delete throws |
| FsOps.MkdirWellFormed | server/services/bashSimulator.js:1508-1546 | `mkdir` keeps every directory reference allocated |
| FsOps.TouchWellFormed | server/services/bashSimulator.js:1548-1580 | `touch` keeps every directory reference allocated |
| FsOps.RmWellFormed | server/services/bashSimulator.js:1582-1620 | `rm` keeps every directory reference allocated |
| FsOps.RmdirWellFormed | server/services/bashSimulator.js:1622-1668 | `rmdir` keeps every directory reference allocated |
| FsOps.MvWellFormed | server/services/bashSimulator.js:1713-1761 | `mv` keeps every directory reference allocated |
| Listing.FlagChars | server/services/bashSimulator.js:320-380 | the flag letters read are exactly the letters after the dash of the arguments that start with `-` |
| Listing.LastOperand | server/services/bashSimulator.js:431-434 | the path is the last argument not starting with `-`, and none when every argument is a flag |
| Listing.SortKeyOf | server/services/bashSimulator.js:352-360 | the sort order is by name when no `S`, `t` or `X` flag is given, otherwise the one named by the last such flag |
| Listing.ParseLsOptions | server/services/bashSimulator.js:298-439 | the loop over the arguments computes the specification `LsOptionsOf` |
| Listing.LsOptionsMeaning | server/services/bashSimulator.js:298-439 | each option is set exactly when its letter appears in some flag argument, including the letters of a long option such as `--all` |
| Listing.Visible | server/services/bashSimulator.js:199-214 | an entry is kept exactly when it is in the directory and passes the hidden-file, `-A` and backup filters |
| Listing.Size | server/services/bashSimulator.js:222-223 | a directory or a missing entry counts as 4096 bytes |
| Listing.Extension | server/services/bashSimulator.js:231-232 | the extension is the end of the name after its last dot, the whole name when it has no dot |
| Listing.OrderIsTotalPreorder | server/services/bashSimulator.js:217-238 | every comparator `ls` uses is a total preorder when the locale order is one |
| Listing.SizeSort | server/services/bashSimulator.js:218-225 | `-S` sorts by size, descending with `-r`, as a permutation, keeping the order of entries of equal size |
| Listing.CollateSort | server/services/bashSimulator.js:226-238 | the name, time and extension orders sort by the locale order of the name or the extension, reversed with `-r`, stably and as a permutation |
| Listing.GroupDirectoriesFirst | server/services/bashSimulator.js:242-252 | `-G` puts every directory before every other entry, as a permutation, keeping the relative order within each group |
| Listing.UnitIndex | server/services/bashSimulator.js:483-494 | the unit chosen is the largest power of 1024 not above the size, at most T |
| Listing.RoundDiv | server/services/bashSimulator.js:493 | the rounded quotient is within half a unit of the exact quotient |
| Listing.RoundReal | server/services/bashSimulator.js:489-493 | rounding the real quotient half up equals the integer rounding `RoundDiv` |
| Listing.HumanSizeFigure | server/services/bashSimulator.js:483-494 | below terabytes the shown figure is at most 1024, and above bytes it is at least 1 |
| Listing.FormatHumanSize | server/services/bashSimulator.js:483-494 | the division loop computes the specification `HumanSize` |
| Listing.Decorated | server/services/bashSimulator.js:454-460 | `-F` adds `/` to directories, `-Q` wraps the name in quotes, and the name is shown as is otherwise |
| Listing.LineShape | server/services/bashSimulator.js:462-473 | a long-format line is the inode, the type and permissions, the link count, owner, group, size, date and name, joined by single spaces, with empty parts dropped |
| Listing.ListedEntries | server/services/bashSimulator.js:196-252 | the listed entries are exactly the visible ones, each once |
| Listing.FormatLongListing | server/services/bashSimulator.js:441-481 | the long format always succeeds |
| Listing.Ls | server/services/bashSimulator.js:168-296 | `--help` shows the help page; otherwise `ls` succeeds exactly when the target is a directory and names the missing or non-directory target in its error |
| Sorting.SortByPermutes | server/services/bashSimulator.js:217-238 | sorting is a permutation |
| Sorting.SortBySorted | server/services/bashSimulator.js:217-238 | sorting by a total preorder yields a sorted list |
| Sorting.SortByStable | server/services/bashSimulator.js:217-238 | sorting keeps the relative order of equivalent entries |
| Sorting.StrLeIsTotalPreorder | server/services/bashSimulator.js:1978 | character-by-character string comparison is a total order |
| Sorting.Partition | server/services/bashSimulator.js:243-251 | directories-then-files is a permutation putting every match first and keeping each group's order |
| Cat.CatFlagCharsMembers | server/services/bashSimulator.js:738-787 | the flag letters read are exactly the letters after the dash of the flag arguments |
| Cat.OperandsMembers | server/services/bashSimulator.js:788-790 | the files are exactly the arguments not starting with `-` |
| Cat.CatOptionsFromFlags | server/services/bashSimulator.js:748-786 | `-A` sets show-all, show-ends, show-tabs and show-nonprinting; `-e` ends and nonprinting; `-t` tabs and nonprinting; `-E`, `-T`, `-v`, `-b`, `-n`, `-s` their single option |
| Cat.ParseCatOptions | server/services/bashSimulator.js:726-794 | the loop over the arguments computes the specification `CatOptionsOf` |
| Cat.Caret | server/services/bashSimulator.js:862-869 | a control character is shown as `^` and a printable character |
| Cat.ShowNonprinting | server/services/bashSimulator.js:862-869 | no control character survives; text without one is unchanged |
| Cat.SqueezeNoDoubleBlank | server/services/bashSimulator.js:800-816 | after `-s` no two adjacent lines are blank |
| Cat.SqueezeKeepsText | server/services/bashSimulator.js:800-816 | `-s` keeps every non-blank line, in order, and adds no line |
| Cat.SqueezeBlank | server/services/bashSimulator.js:800-816 | the loop computes the specification `Squeeze` |
| Cat.NumberLines | server/services/bashSimulator.js:819-835 | the numbering loop computes the specification `Numbered` |
| Cat.NumberEveryLine | server/services/bashSimulator.js:827-829 | with `-n` line j is prefixed by the label of j + 1 |
| Cat.NumberNonblankLines | server/services/bashSimulator.js:824-831 | with `-b` alone blank lines are left bare and a non-blank line carries one more than the count of non-blank lines before it |
| Cat.Decorate | server/services/bashSimulator.js:838-857 | the line goes through `-v`, then `-T` (every tab replaced by `^I`), then `-E` (a `$` appended), each only when its option is set; so with `-E` alone the line gains a final `$`, with `-T` it holds no tab, with `-v` no control character, and with none of them it is unchanged |
| Cat.CatTextPlain | server/services/bashSimulator.js:796-860 | with no formatting option the content is shown unchanged |
| Cat.FormatCatOutput | server/services/bashSimulator.js:796-860 | the method computes the specification `CatText` |
| Cat.CatStep | server/services/bashSimulator.js:686-709 | one file either adds an error and keeps the output or adds its text and keeps the error message |
| Cat.ReadOperand | server/services/bashSimulator.js:686-709 | one loop step computes the specification `CatStep` |
| Cat.Cat | server/services/bashSimulator.js:654-724 | the method computes the specification `CatSpec` |
| Cat.CatErrorFlag | server/services/bashSimulator.js:686-709 | the error flag is set exactly when some file is missing or a directory |
| Cat.CatFailure | server/services/bashSimulator.js:711-724 | `cat` fails exactly when some file is unreadable and nothing was output; when it succeeds, the error flag says whether some file was unreadable |
| Cat.LessPageShape | server/services/bashSimulator.js:914-927 | up to 20 lines are shown whole; longer content shows its first 20 lines and the total line count |
| Cat.Less | server/services/bashSimulator.js:871-934 | without `--help` or `--version`, `less` succeeds exactly when its first argument is a file |
| TextCmds.Open | server/services/bashSimulator.js:3566-3582 | an operand reads as a file exactly when the path holds a file, and as a directory exactly when it holds a directory |
| TextCmds.StripQuotesOfQuoted | server/services/bashSimulator.js:1764 | one leading and one trailing quote character are removed |
| TextCmds.StripQuotesUnquoted | server/services/bashSimulator.js:1764 | text that neither starts nor ends with a quote is left as is |
| TextCmds.Echo | server/services/bashSimulator.js:1763-1770 | `echo` always succeeds and shows the arguments joined by spaces, with one surrounding quote character removed at each end |
| TextCmds.EchoQuoted | server/services/bashSimulator.js:1764 | `echo` of a quoted word shows the word without its quotes |
| TextCmds.EchoUnquoted | server/services/bashSimulator.js:1764 | `echo` of arguments that neither start nor end with a quote shows them joined by spaces, unchanged |
| TextCmds.MatchingExact | server/services/bashSimulator.js:1801-1802 | a line is kept exactly when it contains the pattern, as often as it occurs |
| TextCmds.Grep | server/services/bashSimulator.js:1772-1809 | `grep` succeeds exactly when given a pattern and a file operand that is a file, and then outputs the matching lines |
| TextCmds.Find | server/services/bashSimulator.js:1811-1829 | `find` fails without two operands, throws exactly when the search throws, and otherwise outputs the found paths one per line |
| TextCmds.ParseInt | server/services/bashSimulator.js:1860 | `parseInt` gives NaN exactly when no digit of the radix follows the optional sign and hex prefix |
| TextCmds.ParseIntOfString | server/services/bashSimulator.js:1860 | `parseInt` reads back the decimal rendering of every integer |
| TextCmds.ParseIntNaN | server/services/bashSimulator.js:1860 | text that does not start with a sign or a digit gives NaN |
| TextCmds.NumLines | server/services/bashSimulator.js:1860 | the line count is never zero and is 10 without `-n` |
| TextCmds.NumLinesValue | server/services/bashSimulator.js:1860 | the argument after the first `-n` gives the count, falling back to 10 when it is NaN or zero |
| TextCmds.HeadTakes | server/services/bashSimulator.js:1861 | `head -n k` keeps the first k lines, or all but the last -k when k is negative |
| TextCmds.TailTakes | server/services/bashSimulator.js:1900 | `tail -n k` keeps the last k lines, or all but the first -k when k is negative |
| TextCmds.HeadThenTail | server/services/bashSimulator.js:1861 | the first k lines followed by the last n - k lines give back the file |
| TextCmds.Head | server/services/bashSimulator.js:1831-1868 | `head` succeeds exactly when its operand is a file, and then outputs its first lines |
| TextCmds.Tail | server/services/bashSimulator.js:1870-1907 | `tail` succeeds exactly when its operand is a file, and then outputs its last lines |
| TextCmds.WordsCount | server/services/bashSimulator.js:1939 | the number of words split on whitespace equals the number of word starts |
| TextCmds.WcCounts | server/services/bashSimulator.js:1937-1940 | the line count is the number of newlines plus one |
| TextCmds.Wc | server/services/bashSimulator.js:1909-1947 | `wc` succeeds exactly when its operand is a file, and then reports its counts |
| TextCmds.SortLinesSorted | server/services/bashSimulator.js:1978 | `sort` orders the lines lexicographically by character, and the result is a permutation of the lines |
| TextCmds.Sort | server/services/bashSimulator.js:1949-1986 | `sort` succeeds exactly when its operand is a file, and then outputs its lines sorted |
| TextCmds.DedupFirstOccurrences | server/services/bashSimulator.js:2017 | `uniq` keeps each distinct line once, all of them, in the order of their first occurrence |
| TextCmds.Uniq | server/services/bashSimulator.js:1988-2025 | `uniq` succeeds exactly when its operand is a file, and then outputs its distinct lines |
| Text.JoinSplit | server/services/bashSimulator.js:797-859 | joining the pieces of a split on a character gives back the text |
| Text.SplitJoin | server/services/bashSimulator.js:1188 | splitting joined lines that hold no separator gives back the lines |
| Text.SplitPieces | server/services/bashSimulator.js:1938 | a split yields one more piece than there are separators, and no piece holds one |
| Text.TrimStart | server/services/bashSimulator.js:64 | trimming drops exactly the leading whitespace |
| Text.TrimEnd | server/services/bashSimulator.js:64 | trimming drops exactly the trailing whitespace |
| Text.Words | server/services/bashSimulator.js:1939 | the words of a text are non-empty and hold no whitespace |
| Text.Tokens | server/services/bashSimulator.js:64 | a command line splits into at least one token, and the tokens are non-empty unless the line is blank |
| Text.ContainsAt | server/services/bashSimulator.js:1802 | `includes` holds exactly when the pattern occurs at some position |
| Text.ReplaceAll | server/services/bashSimulator.js:848 | replacing every occurrence of a character is splitting on it and joining with the replacement; the character no longer occurs, and text without it is unchanged |
| Text.Lower | server/services/bashSimulator.js:1068 | lower-casing maps `A`-`Z` to `a`-`z` and the Kelvin sign to `k`, keeps every other character and the length, and is idempotent |
| Editor.Opened | server/services/bashSimulator.js:1039-1048 | opening text puts the cursor at offset 0 of a buffer whose joined lines are that text |
| Editor.Moved | server/services/bashSimulator.js:1247-1281 | up and down change the line within bounds and clamp the column; left and right move the column within the line |
| Editor.InsertedContent | server/services/bashSimulator.js:1283-1297 | typing inserts the text at the cursor's offset in the content and moves past it |
| Editor.NewLineContent | server/services/bashSimulator.js:1299-1318 | Enter inserts a newline at the cursor's offset and moves to the start of the next line |
| Editor.DeletedBeforeContent | server/services/bashSimulator.js:1320-1336 | Backspace inside a line removes the character before the cursor's offset |
| Editor.DeletedAtContent | server/services/bashSimulator.js:1338-1353 | Delete inside a line removes the character at the cursor's offset |
| Editor.DeletedBefore | server/services/bashSimulator.js:1320-1336 | Backspace at the start of a line changes nothing |
| Editor.DeletedAt | server/services/bashSimulator.js:1338-1353 | Delete at the end of a line changes nothing |
| Editor.DeleteAfterInsert | server/services/bashSimulator.js:1283-1336 | Backspace after typing one character restores the buffer |
| Editor.Window | server/services/bashSimulator.js:1142-1143 | the window shows at most 15 lines, contains the cursor line, and starts 7 lines above it or at the top |
| Editor.KeyOf | server/services/bashSimulator.js:1067-1124 | a key is typed text exactly when the raw input is one printable ASCII character |
| Editor.KeyNamesNormalised | server/services/bashSimulator.js:1068 | key names are matched after trimming and lower-casing |
| Editor.EditorState.constructor | server/services/bashSimulator.js:1042-1051 | a new editor state holds the file's lines with the cursor at the top, modified exactly when the file is new |
| Editor.EditorState.MoveCursor | server/services/bashSimulator.js:1247-1281 | the cursor moves as `Moved` says and the modified flag is kept |
| Editor.EditorState.InsertText | server/services/bashSimulator.js:1283-1297 | the buffer becomes `Inserted` and is marked modified |
| Editor.EditorState.InsertNewLine | server/services/bashSimulator.js:1299-1318 | the buffer becomes `NewLine` and is marked modified |
| Editor.EditorState.DeleteBeforeCursor | server/services/bashSimulator.js:1320-1336 | the buffer becomes `DeletedBefore`; modified only when a character was removed |
| Editor.EditorState.DeleteAtCursor | server/services/bashSimulator.js:1338-1353 | the buffer becomes `DeletedAt`; modified only when a character was removed |
| Shell.Lookup | server/services/bashSimulator.js:74-158 | a network command keeps its own name as the tool |
| Shell.GetCommandHelp | server/services/bashSimulator.js:2112-2196 | a help page exists exactly for the known topics, `ifconfig` showing that of `ip`; any other name fails with a message naming it |
| Shell.Parse | server/services/bashSimulator.js:64-66 | the arguments are non-empty and hold no whitespace |
| Shell.Settle | server/services/bashSimulator.js:159-165 | a thrown fault becomes a failure reading `Error: ` and the fault's message; a normal reply passes through |
| Shell.OptionsReply | server/services/bashSimulator.js:936-949 | `options` always succeeds and lists the commands exactly for `--?` without `--help` |
| Shell.EditedName | server/services/bashSimulator.js:1024 | `ai-edit` edits its first argument, or `untitled.txt` |
| Shell.Saved | server/services/bashSimulator.js:1188-1205 | when the parent directory exists, only the parent's directory object changes, and it gets the file holding the lines joined by newlines; otherwise nothing changes; the flat map is never touched |
| Shell.SavedWellFormed | server/services/bashSimulator.js:1186-1215 | saving keeps every directory reference allocated |
| Shell.SaveThenReopen | server/services/bashSimulator.js:1186-1215 | after saving a file the flat map does not hold, `getDirectory` finds the joined lines, and reopening yields the same lines |
| Shell.SaveShadowedByFlatEntry | server/services/bashSimulator.js:1186-1215 | when the flat map holds the path, a save is not seen by `getDirectory` |
| Shell.BashSimulator.constructor | server/services/bashSimulator.js:6-12 | a new simulator is in `/home/user` with the initial tree and the editor closed |
| Shell.BashSimulator.AiEdit | server/services/bashSimulator.js:1018-1065 | `--help` shows its page; on a directory `ai-edit` fails with `Is a directory` and stays in the shell; otherwise it opens a fresh editor on the file's text, or empty text for a new file, with the cursor at the top, a new file marked modified, and the first screen as the reply |
| Shell.BashSimulator.SaveFile | server/services/bashSimulator.js:1186-1215 | the filesystem becomes `Saved` of the buffer, the buffer is unchanged and no longer modified |
| Shell.BashSimulator.ExitEditor | server/services/bashSimulator.js:1217-1227 | the editor closes and the filesystem and working directory are kept |
| Shell.BashSimulator.HandleKey | server/services/bashSimulator.js:1070-1123 | each key does what its editor operation specifies; only the save key changes the filesystem and only the exit key closes the editor |
| Shell.BashSimulator.HandleEditorCommand | server/services/bashSimulator.js:1067-1124 | the input line is normalised into a key and handled as `HandleKey` says |
| Shell.BashSimulator.Run | server/services/bashSimulator.js:74-158 | a reading command replies with its specification (`Query`, a thrown fault settled to `Error: <message>`) and changes nothing; the six mutators install their effect's filesystem and settle its reply; `cd` moves the working directory as `FsOps.Cd`; `ai-edit` gives `AiEdit`'s reply and, off a directory, the editor it opens; network commands are pending |
| Shell.BashSimulator.ExecuteCommand | server/services/bashSimulator.js:58-166 | in editor mode the line is a key: the editor closes iff it is `ctrl+z`, the filesystem changes only on a save, and an open editor holds the key's effect (`Keyed`); otherwise `--help` shows `getCommandHelp`, an unknown name gives `bash: <cmd>: command not found`, and a known command has exactly `Run`'s reply and state for its kind (reader, mutator, `cd`, `ai-edit`, network) |
| Network.StripScheme | server/services/networkServices.js:51 | the scheme is cut from the front only when the text starts with `http://` or `https://` |
| Network.CutPath | server/services/networkServices.js:51 | the rest of the line from the first `/` is cut |
| Network.ValidateDomain | server/services/networkServices.js:49-56 | a domain is valid exactly when its cleaned form is an allowed domain or a subdomain of one |
| Network.ValidatePlainHost | server/services/networkServices.js:49-56 | for a lower-case host without a path the cleaned form is the host itself |
| Network.ValidateIgnoresPath | server/services/networkServices.js:51 | a path after the host does not change the validation |
| Network.Finish | server/services/networkServices.js:77-93 | a finished process succeeds with its standard output, or its error output when that is empty; a failed one reports the tool and the error message |
| Network.Guarded | server/services/networkServices.js:60-66 | a tool is refused exactly when the domain is not valid, with the restricted-domain message |
| Network.Ping | server/services/networkServices.js:59-94 | refused exactly for an invalid host; otherwise the command is exactly `ping -n <count> -w <timeout*1000> <host>` on Windows and `ping -c <count> -W <timeout> <host>` elsewhere, with count 4 and timeout 5 when absent, not a number or zero (a negative value is kept), the raw host at the end |
| Network.Nslookup | server/services/networkServices.js:97-127 | refused exactly for an invalid domain; otherwise the command is exactly `nslookup -type=<type> <domain>`, the type defaulting to `A` |
| Network.Dig | server/services/networkServices.js:130-160 | refused exactly for an invalid domain; otherwise the command is exactly `dig <type> <domain>`, the type defaulting to `A` |
| Network.Traceroute | server/services/networkServices.js:163-195 | refused exactly for an invalid host; otherwise the command is `traceroute -m` (`tracert -h` on Windows), the hop limit (30 when absent, not a number or zero) and the host |
| Network.Whois | server/services/networkServices.js:313-342 | refused exactly for an invalid domain; otherwise the command is `whois` and the domain |
| Network.Defaults | server/services/networkServices.js:69-173 | a missing or zero count, timeout, hop limit or empty record type falls back to 4, 5, 30 and `A` |
| Network.Netstat | server/services/networkServices.js:198-221 | `netstat` never validates and always runs |
| Network.IpAddrShow | server/services/networkServices.js:224-258 | `ip` never validates and always runs |
| Network.Route | server/services/networkServices.js:261-284 | `route` never validates and always runs |
| Network.Arp | server/services/networkServices.js:287-310 | `arp` always runs `arp`, with no validation |
| Network.ArpEverywhere | server/services/networkServices.js:198-310 | `arp` runs the same command on every platform, while `netstat`, `ip` and `route` differ between Windows and other systems |
| Network.Iwconfig | server/services/networkServices.js:345-372 | `iwconfig` is refused exactly on Windows |
| Network.Recent | server/services/networkServices.js:37 | the recent requests are exactly those less than the window old |
| Network.RateCheck | server/services/networkServices.js:32-46 | a request is admitted exactly when fewer than the maximum are recent; then the client's entry becomes its recent requests plus now, and otherwise nothing changes; other clients are untouched |
| Network.RecentTwice | server/services/networkServices.js:37 | filtering at an earlier time and then at now is filtering at now |
| Network.InWindowRecent | server/services/networkServices.js:37 | the requests inside a later window are among the recent ones |
| Network.RateLimitWindowBound | server/services/networkServices.js:32-46 | for calls arriving in time order, an admitted call keeps the invariant that no 60000 ms window holds more than ten admitted calls of one client, and a refused call changes nothing |
| Network.RateLimiter.constructor | server/services/networkServices.js:26 | the ledger starts empty |
| Network.RateLimiter.CheckRateLimit | server/services/networkServices.js:32-46 | the check and the ledger update are exactly `RateCheck` |

## Left out

- Help pages, the version banner, the command list, the help summary and the editor screen are symbolic `Output` values; their text is not modelled.
- `localeCompare` is a parameter (`collate`) assumed to be a total preorder where a lemma needs it.
- Network.RateLimitWindowBound: the window bound is proved for calls whose clock readings never decrease; a clock that goes backwards is not covered.
- `date` receives the clock reading as a string parameter, and the rate limiter receives `now`.
- The network tools run external processes. The model builds the command line and takes the process outcome as an `ExecResult` parameter; the timeout and output limits are not modelled.
- The network commands in `executeCommand` return Promises. The model answers `Pending(tool, args)` and does not follow the asynchronous wrappers, nor their call into a module whose name does not match the network service's file.
- `getSystemInfo` and the `os` module are not modelled.
- Saving the session history and its logging are not modelled.
- JavaScript's own object key order (integer-like keys first) is not modelled; keys keep insertion order.
- `Text.Lower` lower-cases ASCII letters and the Kelvin sign only; full Unicode case mapping is not modelled.
- `formatHumanSize` is modelled with exact rational arithmetic, not binary floating point.
- `parseInt` is modelled on unbounded integers; results beyond double precision are not rounded.
- The editor's rendering (`createInteractiveEditor`, `createEditorInterface`) is left out apart from its window arithmetic (`Editor.Window`).
- The placeholder editor keys (open, new, copy, cut, paste, find, undo, home, end, tab, page keys) show the editor help; the model folds them into `ShowHelp`.
- `ls` with `--ignore`: the option is never set by the parser, so the filter on it is not modelled.
- Shell.GetCommandHelp: does not prove that every command in `Lookup` has a help topic; the two lists are stated as constants.
- Saved and touched files carry only their content; the size, permissions, owner and time stamp the source also stores are not modelled.
- `cp` deep copy: a circular structure is detected by the ancestor stack; the exact byte layout of the JSON text is not modelled.
- Directory contents are insertion-ordered dictionaries with no inherited keys. In the source they are plain objects, so names such as `constructor`, `toString` or `__proto__` read inherited members (`getDirectory` and `in` see them, and assigning `__proto__` changes the prototype); those names are not modelled.
- Strings are sequences of Unicode scalar values, not UTF-16 code units. Within the Basic Multilingual Plane the two agree; for other characters the lengths, `sort` order and `slice` positions of the source differ from the model.
- Thrown faults carry the first line of the JavaScript engine's message; further detail (such as the description of the cycle in the circular-structure error) is not modelled.
- Vfs.FindFiles: the found paths are built with `joinPath`, which normalises them, so an entry named `..` or `.` yields a path outside or equal to its directory; the model states the paths as built, and no lemma says they lie below the search path.
- Vfs.CloneSame: trees are compared to every finite depth (`Unfold` with a depth bound), which is equality of the trees for acyclic heaps; infinite trees of cyclic heaps are compared only up to each depth.
- The numeric options of the network tools: `ping`'s count and timeout, and `traceroute`'s hop limit, come from the shell's `parseInt`; a non-numeric value becomes `None` and falls back to the default, as JavaScript's `NaN || d` does.
