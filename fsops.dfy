/**
 * The commands that change the virtual filesystem (`mkdir`, `touch`, `rm`,
 * `rmdir`, `cp`, `mv`) and `cd`, as functions from the state before the
 * command to the state after it and the reply.
 *
 * Each handler resolves its operand against the current directory, looks up
 * the parent with `getDirectory`, and writes both into the parent's
 * `contents` and into the flat map. A parent that turns out to be a file
 * makes the handler raise a `TypeError`; `executeCommand` reports it.
 */
module FsOps {
  import opened Wrappers
  import opened Text
  import opened Paths
  import opened Dicts
  import opened Results
  import opened Vfs

  /** The filesystem after a command, and its reply or the exception it raised. */
  datatype Effect = Effect(fs: Fs, reply: Outcome<CommandResult>)

  function Unchanged(fs: Fs, r: CommandResult): Effect
  {
    Effect(fs, Done(r))
  }

  /** `dir.contents[name] = node` on the directory object `id`. */
  function Write(heap: Heap, id: DirId, name: string, node: Node): (h: Heap)
    ensures h.Keys == heap.Keys + {id}
    ensures Child(h, Dir(id), name) == Some(node)
    ensures forall k :: k != name ==> Child(h, Dir(id), k) == Child(heap, Dir(id), k)
    ensures forall other :: other in heap && other != id ==> h[other] == heap[other]
  {
    heap[id := Put(Contents(heap, id), name, node)]
  }

  /** `delete dir.contents[name]` on the directory object `id`. */
  function Erase(heap: Heap, id: DirId, name: string): (h: Heap)
    ensures h.Keys == heap.Keys + {id}
    ensures Child(h, Dir(id), name) == None
    ensures forall k :: k != name ==> Child(h, Dir(id), k) == Child(heap, Dir(id), k)
    ensures forall other :: other in heap && other != id ==> h[other] == heap[other]
  {
    heap[id := Remove(Contents(heap, id), name)]
  }

  /** What `getDirectory(getParentPath(path))` finds. */
  function ParentOf(fs: Fs, path: string): Option<Node>
  {
    GetDirectory(fs, GetParentPath(path))
  }

  function Operand(cwd: string, args: seq<string>): string
    requires |args| > 0
  {
    ResolvePath(cwd, args[0])
  }

  /** `mkdir(args)`: two distinct new empty objects, one nested in the parent and one in the flat map. */
  function Mkdir(fs: Fs, cwd: string, args: seq<string>): (r: Effect)
    ensures |args| == 0 ==> r == Unchanged(fs, Fail("mkdir: missing operand"))
    ensures r.reply != Done(Ok("")) ==> r.fs == fs
    ensures r.reply == Done(Ok("")) ==>
              |args| > 0 && ParentOf(fs, Operand(cwd, args)).Some? && ParentOf(fs, Operand(cwd, args)).value.Dir? &&
              r.fs == Created(fs, Operand(cwd, args), ParentOf(fs, Operand(cwd, args)).value.id, GetPathName(Operand(cwd, args)))
  {
    if |args| == 0 then Unchanged(fs, Fail("mkdir: missing operand"))
    else
      var path := Operand(cwd, args);
      var name := GetPathName(path);
      match ParentOf(fs, path)
      case None => Unchanged(fs, Fail("mkdir: cannot create directory '" + args[0] + "': No such file or directory"))
      case Some(File(_)) => Effect(fs, Thrown(ReadOfUndefined(name)))
      case Some(Dir(pid)) =>
        if name in Contents(fs.heap, pid).items then
          Unchanged(fs, Fail("mkdir: cannot create directory '" + args[0] + "': File exists"))
        else
          Effect(Created(fs, path, pid, name), Done(Ok("")))
  }

  /**
   * The filesystem after a successful `mkdir`: the object `fs.next` is the
   * new entry of the parent `pid`, the object `fs.next + 1` the new flat entry.
   */
  function Created(fs: Fs, path: string, pid: DirId, name: string): Fs
  {
    var nested := fs.next;
    var flat := fs.next + 1;
    var heap := Write(fs.heap[nested := Empty()], pid, name, Dir(nested));
    Fs(fs.flat[path := Dir(flat)], heap[flat := Empty()], fs.next + 2)
  }

  /** The filesystem after a successful `rm` or `rmdir` of `path`, entry `name` of `pid`. */
  function Unlinked(fs: Fs, path: string, pid: DirId, name: string): Fs
  {
    Fs(fs.flat - {path}, Erase(fs.heap, pid, name), fs.next)
  }

  /** `touch(args)`: an empty file in the parent and in the flat map, unless the name is taken. */
  function Touch(fs: Fs, cwd: string, args: seq<string>): (r: Effect)
    ensures |args| == 0 ==> r == Unchanged(fs, Fail("touch: missing file operand"))
    ensures r.reply != Done(Ok("")) ==> r.fs == fs
  {
    if |args| == 0 then Unchanged(fs, Fail("touch: missing file operand"))
    else
      var path := Operand(cwd, args);
      var name := GetPathName(path);
      match ParentOf(fs, path)
      case None => Unchanged(fs, Fail("touch: cannot touch '" + args[0] + "': No such file or directory"))
      case Some(File(_)) => Effect(fs, Thrown(ReadOfUndefined(name)))
      case Some(Dir(pid)) =>
        if name in Contents(fs.heap, pid).items then Unchanged(fs, Ok(""))
        else Effect(Fs(fs.flat[path := File("")], Write(fs.heap, pid, name, File("")), fs.next), Done(Ok("")))
  }

  /** `rm(args)`: files only; the entry leaves the parent and the flat map. */
  function Rm(fs: Fs, cwd: string, args: seq<string>): (r: Effect)
    ensures |args| == 0 ==> r == Unchanged(fs, Fail("rm: missing operand"))
    ensures r.reply != Done(Ok("")) ==> r.fs == fs
    ensures r.reply == Done(Ok("")) ==>
              |args| > 0 && ParentOf(fs, Operand(cwd, args)).Some? && ParentOf(fs, Operand(cwd, args)).value.Dir? &&
              r.fs == Unlinked(fs, Operand(cwd, args), ParentOf(fs, Operand(cwd, args)).value.id, GetPathName(Operand(cwd, args)))
  {
    if |args| == 0 then Unchanged(fs, Fail("rm: missing operand"))
    else
      var path := Operand(cwd, args);
      var name := GetPathName(path);
      match ParentOf(fs, path)
      case None => Unchanged(fs, Fail("rm: cannot remove '" + args[0] + "': No such file or directory"))
      case Some(File(_)) => Effect(fs, Thrown(ReadOfUndefined(name)))
      case Some(Dir(pid)) =>
        match Child(fs.heap, Dir(pid), name)
        case None => Unchanged(fs, Fail("rm: cannot remove '" + args[0] + "': No such file or directory"))
        case Some(Dir(_)) => Unchanged(fs, Fail("rm: cannot remove '" + args[0] + "': Is a directory"))
        case Some(File(_)) => Effect(Unlinked(fs, path, pid, name), Done(Ok("")))
  }

  /** `rmdir(args)`: directories whose nested object has no entries. */
  function Rmdir(fs: Fs, cwd: string, args: seq<string>): (r: Effect)
    ensures |args| == 0 ==> r == Unchanged(fs, Fail("rmdir: missing operand"))
    ensures r.reply != Done(Ok("")) ==> r.fs == fs
    ensures r.reply == Done(Ok("")) ==>
              |args| > 0 && ParentOf(fs, Operand(cwd, args)).Some? && ParentOf(fs, Operand(cwd, args)).value.Dir? &&
              r.fs == Unlinked(fs, Operand(cwd, args), ParentOf(fs, Operand(cwd, args)).value.id, GetPathName(Operand(cwd, args)))
  {
    if |args| == 0 then Unchanged(fs, Fail("rmdir: missing operand"))
    else
      var path := Operand(cwd, args);
      var name := GetPathName(path);
      match ParentOf(fs, path)
      case None => Unchanged(fs, Fail("rmdir: cannot remove '" + args[0] + "': No such file or directory"))
      case Some(File(_)) => Effect(fs, Thrown(ReadOfUndefined(name)))
      case Some(Dir(pid)) =>
        match Child(fs.heap, Dir(pid), name)
        case None => Unchanged(fs, Fail("rmdir: cannot remove '" + args[0] + "': No such file or directory"))
        case Some(File(_)) => Unchanged(fs, Fail("rmdir: cannot remove '" + args[0] + "': Not a directory"))
        case Some(Dir(id)) =>
          if |Contents(fs.heap, id).order| > 0 then
            Unchanged(fs, Fail("rmdir: cannot remove '" + args[0] + "': Directory not empty"))
          else Effect(Unlinked(fs, path, pid, name), Done(Ok("")))
  }

  /**
   * `cp(args)`: two independent deep copies of the source, the first into
   * the parent of the destination and the second, taken after that write,
   * into the flat map. The copy is computed before the assignment into a
   * parent that is a file fails, so a circular source reports the circular
   * structure first.
   */
  function Cp(fs: Fs, cwd: string, args: seq<string>): (r: Effect)
    ensures |args| < 2 ==> r == Unchanged(fs, Fail("cp: missing file operand"))
    ensures r.reply.Done? && !r.reply.value.success ==> r.fs == fs
  {
    if |args| < 2 then Unchanged(fs, Fail("cp: missing file operand"))
    else
      var sourcePath := ResolvePath(cwd, args[0]);
      var destPath := ResolvePath(cwd, args[1]);
      var destName := GetPathName(destPath);
      match GetDirectory(fs, sourcePath)
      case None => Unchanged(fs, Fail("cp: cannot stat '" + args[0] + "': No such file or directory"))
      case Some(source) =>
        match ParentOf(fs, destPath)
        case None => Unchanged(fs, Fail("cp: cannot create '" + args[1] + "': No such file or directory"))
        case Some(destParent) =>
          var first := Clone(fs, source);
          if first.Thrown? then Effect(fs, Thrown(first.fault))
          else if destParent.File? then Effect(fs, Thrown(SetOfUndefined(destName)))
          else CopyTwice(first.value, source, destParent.id, destPath)
  }

  /**
   * The rest of `cp` once the first copy `copy` is allocated in `fs1`: it
   * goes into the parent `did`, then the second copy of the source is
   * taken and goes into the flat map under the destination path.
   */
  function CopyTwice(first: (Node, Fs), source: Node, did: DirId, destPath: string): Effect
  {
    var (copy, fs1) := first;
    var fs2 := Fs(fs1.flat, Write(fs1.heap, did, GetPathName(destPath), copy), fs1.next);
    var second := Clone(fs2, source);
    if second.Thrown? then Effect(fs2, Thrown(second.fault))
    else
      var (copy2, fs3) := second.value;
      Effect(Fs(fs3.flat[destPath := copy2], fs3.heap, fs3.next), Done(Ok("")))
  }

  /**
   * `mv(args)`: the source object itself is stored under the destination
   * (in the destination's parent and in the flat map), then removed from its
   * own parent and from the flat map. The write into the destination is done
   * before the source's parent is used, so it survives when that fails.
   */
  function Mv(fs: Fs, cwd: string, args: seq<string>): (r: Effect)
    ensures |args| < 2 ==> r == Unchanged(fs, Fail("mv: missing file operand"))
    ensures r.reply.Done? && !r.reply.value.success ==> r.fs == fs
  {
    if |args| < 2 then Unchanged(fs, Fail("mv: missing file operand"))
    else
      var sourcePath := ResolvePath(cwd, args[0]);
      var destPath := ResolvePath(cwd, args[1]);
      var destName := GetPathName(destPath);
      match GetDirectory(fs, sourcePath)
      case None => Unchanged(fs, Fail("mv: cannot stat '" + args[0] + "': No such file or directory"))
      case Some(source) =>
        match ParentOf(fs, destPath)
        case None => Unchanged(fs, Fail("mv: cannot create '" + args[1] + "': No such file or directory"))
        case Some(File(_)) => Effect(fs, Thrown(SetOfUndefined(destName)))
        case Some(Dir(did)) =>
          var fs1 := Fs(fs.flat, Write(fs.heap, did, destName, source), fs.next);
          match ParentOf(fs, sourcePath)
          case None => Effect(fs1, Thrown(ReadOfNull("contents")))
          case Some(File(_)) => Effect(fs1, Thrown(NullToObject))
          case Some(Dir(sid)) =>
            var heap := Erase(fs1.heap, sid, GetPathName(sourcePath));
            Effect(Fs((fs.flat - {sourcePath})[destPath := source], heap, fs.next), Done(Ok("")))
  }

  /** The operand of `cd`: `args[0] || '/home/user'`. */
  function CdTarget(args: seq<string>): string
  {
    if |args| == 0 || args[0] == "" then "/home/user" else args[0]
  }

  /**
   * `cd(args)`: the new current directory and the reply. The current
   * directory changes only to a path that names a directory.
   */
  function Cd(fs: Fs, cwd: string, args: seq<string>): (r: (string, CommandResult))
    ensures r.1.success ==> r.0 == ResolvePath(cwd, CdTarget(args)) && IsDirAt(fs, r.0)
    ensures !r.1.success ==> r.0 == cwd
    ensures r.1.success <==> IsDirAt(fs, ResolvePath(cwd, CdTarget(args)))
  {
    var target := CdTarget(args);
    var path := ResolvePath(cwd, target);
    match GetDirectory(fs, path)
    case None => (cwd, Fail("cd: " + target + ": No such file or directory"))
    case Some(File(_)) => (cwd, Fail("cd: " + target + ": Not a directory"))
    case Some(Dir(_)) => (path, Ok(""))
  }

  // ---------------------------------------------------------------------
  // Well-formedness: every directory named anywhere is an allocated object.
  // ---------------------------------------------------------------------

  /** In a well-formed filesystem every directory `getDirectory` finds is allocated. */
  lemma FoundAllocated(fs: Fs, path: string)
    requires WellFormed(fs)
    ensures GetDirectory(fs, path).Some? && GetDirectory(fs, path).value.Dir? ==>
              GetDirectory(fs, path).value.id in fs.heap
  {
  }

  lemma AllocWellFormed(fs: Fs)
    requires WellFormed(fs)
    ensures WellFormed(Fs(fs.flat, fs.heap[fs.next := Empty()], fs.next + 1))
  {
  }

  lemma WriteWellFormed(fs: Fs, id: DirId, name: string, node: Node)
    requires WellFormed(fs) && id in fs.heap
    requires node.Dir? ==> node.id in fs.heap
    ensures WellFormed(Fs(fs.flat, Write(fs.heap, id, name, node), fs.next))
  {
    PutRemoveValid(fs.heap[id], name, node);
  }

  lemma EraseWellFormed(fs: Fs, id: DirId, name: string)
    requires WellFormed(fs) && id in fs.heap
    ensures WellFormed(Fs(fs.flat, Erase(fs.heap, id, name), fs.next))
  {
    PutRemoveValid(fs.heap[id], name, File(""));
  }

  lemma CreatedWellFormed(fs: Fs, path: string, pid: DirId, name: string)
    requires WellFormed(fs) && pid in fs.heap
    ensures WellFormed(Created(fs, path, pid, name))
  {
    var fs1 := Fs(fs.flat, fs.heap[fs.next := Empty()], fs.next + 1);
    AllocWellFormed(fs);
    WriteWellFormed(fs1, pid, name, Dir(fs.next));
    var fs2 := Fs(fs.flat, Write(fs1.heap, pid, name, Dir(fs.next)), fs.next + 1);
    AllocWellFormed(fs2);
  }

  lemma UnlinkedWellFormed(fs: Fs, path: string, pid: DirId, name: string)
    requires WellFormed(fs) && pid in fs.heap
    ensures WellFormed(Unlinked(fs, path, pid, name))
  {
    EraseWellFormed(fs, pid, name);
  }

  /** `mkdir` keeps the filesystem well formed. */
  lemma MkdirWellFormed(fs: Fs, cwd: string, args: seq<string>)
    requires WellFormed(fs)
    ensures WellFormed(Mkdir(fs, cwd, args).fs)
  {
    if Mkdir(fs, cwd, args).reply == Done(Ok("")) {
      var path := Operand(cwd, args);
      FoundAllocated(fs, GetParentPath(path));
      CreatedWellFormed(fs, path, ParentOf(fs, path).value.id, GetPathName(path));
    }
  }

  /** `touch` keeps the filesystem well formed. */
  lemma TouchWellFormed(fs: Fs, cwd: string, args: seq<string>)
    requires WellFormed(fs)
    ensures WellFormed(Touch(fs, cwd, args).fs)
  {
    if Touch(fs, cwd, args).fs != fs {
      var path := Operand(cwd, args);
      FoundAllocated(fs, GetParentPath(path));
      WriteWellFormed(fs, ParentOf(fs, path).value.id, GetPathName(path), File(""));
    }
  }

  /** `rm` keeps the filesystem well formed. */
  lemma RmWellFormed(fs: Fs, cwd: string, args: seq<string>)
    requires WellFormed(fs)
    ensures WellFormed(Rm(fs, cwd, args).fs)
  {
    if Rm(fs, cwd, args).reply == Done(Ok("")) {
      var path := Operand(cwd, args);
      FoundAllocated(fs, GetParentPath(path));
      UnlinkedWellFormed(fs, path, ParentOf(fs, path).value.id, GetPathName(path));
    }
  }

  /** `rmdir` keeps the filesystem well formed. */
  lemma RmdirWellFormed(fs: Fs, cwd: string, args: seq<string>)
    requires WellFormed(fs)
    ensures WellFormed(Rmdir(fs, cwd, args).fs)
  {
    if Rmdir(fs, cwd, args).reply == Done(Ok("")) {
      var path := Operand(cwd, args);
      FoundAllocated(fs, GetParentPath(path));
      UnlinkedWellFormed(fs, path, ParentOf(fs, path).value.id, GetPathName(path));
    }
  }

  /** `mv` keeps the filesystem well formed, also when it fails half way. */
  lemma MvWellFormed(fs: Fs, cwd: string, args: seq<string>)
    requires WellFormed(fs)
    ensures WellFormed(Mv(fs, cwd, args).fs)
  {
    if Mv(fs, cwd, args).fs != fs {
      var sourcePath := ResolvePath(cwd, args[0]);
      var destPath := ResolvePath(cwd, args[1]);
      var source := GetDirectory(fs, sourcePath).value;
      FoundAllocated(fs, sourcePath);
      FoundAllocated(fs, GetParentPath(destPath));
      FoundAllocated(fs, GetParentPath(sourcePath));
      var did := ParentOf(fs, destPath).value.id;
      WriteWellFormed(fs, did, GetPathName(destPath), source);
      var fs1 := Fs(fs.flat, Write(fs.heap, did, GetPathName(destPath), source), fs.next);
      if ParentOf(fs, sourcePath).Some? && ParentOf(fs, sourcePath).value.Dir? {
        EraseWellFormed(fs1, ParentOf(fs, sourcePath).value.id, GetPathName(sourcePath));
      }
    }
  }

  // ---------------------------------------------------------------------
  // What each command does.
  // ---------------------------------------------------------------------

  /**
   * `mkdir` succeeds exactly when the parent is a directory without an entry
   * of that name; otherwise it reports the missing parent or the existing
   * entry, or raises on a parent that is a file. On success it makes two objects that did not exist before: an
   * empty directory in the parent's `contents` and a different empty
   * directory under the path in the flat map. No other flat entry changes.
   */
  lemma MkdirCreates(fs: Fs, cwd: string, args: seq<string>)
    requires WellFormed(fs) && |args| > 0
    ensures var path := Operand(cwd, args);
            var name := GetPathName(path);
            var parent := ParentOf(fs, path);
            var r := Mkdir(fs, cwd, args);
            && (r.reply == Done(Ok("")) <==>
                 parent.Some? && parent.value.Dir? && Child(fs.heap, parent.value, name).None?)
            && (parent.None? ==>
                 r == Unchanged(fs, Fail("mkdir: cannot create directory '" + args[0] + "': No such file or directory")))
            && (parent.Some? && parent.value.File? ==> r == Effect(fs, Thrown(ReadOfUndefined(name))))
            && (parent.Some? && parent.value.Dir? && Child(fs.heap, parent.value, name).Some? ==>
                 r == Unchanged(fs, Fail("mkdir: cannot create directory '" + args[0] + "': File exists")))
            && (r.reply == Done(Ok("")) ==>
                 && path in r.fs.flat && r.fs.flat[path].Dir?
                 && r.fs.flat == fs.flat[path := r.fs.flat[path]]
                 && Child(r.fs.heap, parent.value, name).Some?
                 && Child(r.fs.heap, parent.value, name).value.Dir?
                 && var nested := Child(r.fs.heap, parent.value, name).value.id;
                    var flat := r.fs.flat[path].id;
                    && nested != flat && nested !in fs.heap && flat !in fs.heap
                    && Contents(r.fs.heap, nested) == Empty() && Contents(r.fs.heap, flat) == Empty())
  {
    var path := Operand(cwd, args);
    FoundAllocated(fs, GetParentPath(path));
  }

  /**
   * Making a directory and removing it again restores the flat map and every
   * directory object that existed before (the two new objects are left
   * unreachable).
   */
  lemma MkdirThenRmdir(fs: Fs, cwd: string, args: seq<string>)
    requires WellFormed(fs) && |args| > 0
    requires var path := Operand(cwd, args);
             |Segments(path)| > 0 && path !in fs.flat
    requires Mkdir(fs, cwd, args).reply == Done(Ok(""))
    ensures var r := Rmdir(Mkdir(fs, cwd, args).fs, cwd, args);
            && r.reply == Done(Ok(""))
            && r.fs.flat == fs.flat
            && forall id :: id in fs.heap ==> id in r.fs.heap && r.fs.heap[id] == fs.heap[id]
  {
    var path := Operand(cwd, args);
    var name := GetPathName(path);
    var pid := ParentOf(fs, path).value.id;
    FoundAllocated(fs, GetParentPath(path));
    var fs1 := Created(fs, path, pid, name);
    assert Mkdir(fs, cwd, args).fs == fs1;
    forall g | g != pid ensures Contents(fs1.heap, g) == Contents(fs.heap, g) {
      assert g in fs.heap ==> g < fs.next;
    }
    ParentKept(fs, fs1, path, pid);
    assert Child(fs1.heap, Dir(pid), name) == Some(Dir(fs.next));
    UnlinkCreated(fs, path, pid, name);
  }

  /** Unlinking what `mkdir` created gives back the flat map and every old object. */
  lemma UnlinkCreated(fs: Fs, path: string, pid: DirId, name: string)
    requires WellFormed(fs) && pid in fs.heap && path !in fs.flat && name !in fs.heap[pid].items
    ensures var u := Unlinked(Created(fs, path, pid, name), path, pid, name);
            && u.flat == fs.flat
            && forall id :: id in fs.heap ==> id in u.heap && u.heap[id] == fs.heap[id]
  {
    var fs1 := Created(fs, path, pid, name);
    assert fs1.heap[pid] == Put(fs.heap[pid], name, Dir(fs.next));
    RemoveAfterPut(fs.heap[pid], name, Dir(fs.next));
  }

  /**
   * Adding `path` to the flat map and an entry `name` to the parent object
   * `pid` (where it was missing) leaves the parent that `getDirectory`
   * finds for `path` as it was, whether the parent is itself in the flat map
   * or is found inside the grandparent.
   */
  lemma ParentKept(fs: Fs, fs2: Fs, path: string, pid: DirId)
    requires |Segments(path)| > 0
    requires ParentOf(fs, path) == Some(Dir(pid)) && GetPathName(path) !in Contents(fs.heap, pid).items
    requires path in fs2.flat && fs2.flat == fs.flat[path := fs2.flat[path]]
    requires forall g :: g != pid ==> Contents(fs2.heap, g) == Contents(fs.heap, g)
    requires forall k :: k != GetPathName(path) ==> Child(fs2.heap, Dir(pid), k) == Child(fs.heap, Dir(pid), k)
    ensures ParentOf(fs2, path) == Some(Dir(pid))
  {
    var pp := GetParentPath(path);
    ParentDiffers(path);
    if pp !in fs.flat {
      GrandparentDiffers(path);
      var gp := GetParentPath(pp);
      var g := fs.flat[gp];
      assert g.Dir?;
      if g.id != pid {
        assert Contents(fs2.heap, g.id) == Contents(fs.heap, g.id);
      } else if GetPathName(pp) == GetPathName(path) {
        assert false;
      } else {
        assert Child(fs2.heap, Dir(pid), GetPathName(pp)) == Child(fs.heap, Dir(pid), GetPathName(pp));
      }
    }
  }

  /** The parent path has one segment fewer (none for the root). */
  lemma ParentSegments(path: string)
    ensures |Segments(GetParentPath(path))| == if |Segments(path)| == 0 then 0 else |Segments(path)| - 1
  {
    var segs := Segments(path);
    if |segs| <= 1 {
      SegmentsOfRender([]);
      assert Render([]) == "/";
    } else {
      SegmentsOfRender(segs[..|segs| - 1]);
    }
  }

  /** A path with a segment is not its own grandparent path. */
  lemma GrandparentDiffers(path: string)
    requires |Segments(path)| > 0
    ensures GetParentPath(GetParentPath(path)) != path
  {
    ParentSegments(path);
    ParentSegments(GetParentPath(path));
  }

  /** A path with a segment is not its own parent path. */
  lemma ParentDiffers(path: string)
    requires |Segments(path)| > 0
    ensures GetParentPath(path) != path
  {
    var segs := Segments(path);
    var parentSegs := segs[..|segs| - 1];
    assert forall i :: 0 <= i < |parentSegs| ==> parentSegs[i] == segs[i];
    SegmentsOfRender(parentSegs);
    if |segs| == 1 {
      SegmentsOfRender([]);
      assert Render([]) == "/";
    }
  }

  /**
   * `rm` succeeds exactly on an entry of the parent that is a file; it then
   * leaves neither the entry in the parent nor the path in the flat map. A
   * missing entry and a directory are reported, a parent that is a file raises.
   */
  lemma RmOutcome(fs: Fs, cwd: string, args: seq<string>)
    requires |args| > 0
    ensures var path := Operand(cwd, args);
            var name := GetPathName(path);
            var parent := ParentOf(fs, path);
            var r := Rm(fs, cwd, args);
            && (r.reply == Done(Ok("")) <==>
                 parent.Some? && parent.value.Dir? && Child(fs.heap, parent.value, name).Some?
                 && Child(fs.heap, parent.value, name).value.File?)
            && (parent.Some? && parent.value.File? ==> r == Effect(fs, Thrown(ReadOfUndefined(name))))
            && (parent.None? || (parent.value.Dir? && Child(fs.heap, parent.value, name).None?) ==>
                 r == Unchanged(fs, Fail("rm: cannot remove '" + args[0] + "': No such file or directory")))
            && (parent.Some? && parent.value.Dir? && Child(fs.heap, parent.value, name).Some?
                && Child(fs.heap, parent.value, name).value.Dir? ==>
                 r == Unchanged(fs, Fail("rm: cannot remove '" + args[0] + "': Is a directory")))
            && (r.reply == Done(Ok("")) ==>
                 Child(r.fs.heap, parent.value, name).None? && r.fs.flat == fs.flat - {path})
  {
  }

  /**
   * `rmdir` succeeds exactly on an entry of the parent that is a directory
   * whose object (the nested one, not the flat one) has no entries; a
   * missing entry, a file and a directory with entries are each reported.
   */
  lemma RmdirOutcome(fs: Fs, cwd: string, args: seq<string>)
    requires WellFormed(fs) && |args| > 0
    ensures var path := Operand(cwd, args);
            var name := GetPathName(path);
            var parent := ParentOf(fs, path);
            var r := Rmdir(fs, cwd, args);
            && (r.reply == Done(Ok("")) <==>
                 parent.Some? && parent.value.Dir? && Child(fs.heap, parent.value, name).Some?
                 && Child(fs.heap, parent.value, name).value.Dir?
                 && Contents(fs.heap, Child(fs.heap, parent.value, name).value.id).items == map[])
            && (parent.Some? && parent.value.File? ==> r == Effect(fs, Thrown(ReadOfUndefined(name))))
            && (parent.None? || (parent.value.Dir? && Child(fs.heap, parent.value, name).None?) ==>
                 r == Unchanged(fs, Fail("rmdir: cannot remove '" + args[0] + "': No such file or directory")))
            && (parent.Some? && parent.value.Dir? && Child(fs.heap, parent.value, name).Some?
                && Child(fs.heap, parent.value, name).value.File? ==>
                 r == Unchanged(fs, Fail("rmdir: cannot remove '" + args[0] + "': Not a directory")))
            && (parent.Some? && parent.value.Dir? && Child(fs.heap, parent.value, name).Some?
                && Child(fs.heap, parent.value, name).value.Dir?
                && Contents(fs.heap, Child(fs.heap, parent.value, name).value.id).items != map[] ==>
                 r == Unchanged(fs, Fail("rmdir: cannot remove '" + args[0] + "': Directory not empty")))
            && (r.reply == Done(Ok("")) ==>
                 Child(r.fs.heap, parent.value, name).None? && r.fs.flat == fs.flat - {path})
  {
    var path := Operand(cwd, args);
    var name := GetPathName(path);
    var parent := ParentOf(fs, path);
    if parent.Some? && parent.value.Dir? && Child(fs.heap, parent.value, name).Some?
       && Child(fs.heap, parent.value, name).value.Dir? {
      var id := Child(fs.heap, parent.value, name).value.id;
      FoundAllocated(fs, GetParentPath(path));
      var d := Contents(fs.heap, id);
      assert Valid(d);
      if |d.order| > 0 {
        assert d.order[0] in d.items;
      }
    }
  }

  /**
   * `touch` succeeds exactly when the parent is a directory. An existing
   * name is left as it is; a new one becomes an empty file both in the
   * parent and in the flat map.
   */
  lemma TouchOutcome(fs: Fs, cwd: string, args: seq<string>)
    requires |args| > 0
    ensures var path := Operand(cwd, args);
            var name := GetPathName(path);
            var parent := ParentOf(fs, path);
            var r := Touch(fs, cwd, args);
            && (r.reply == Done(Ok("")) <==> parent.Some? && parent.value.Dir?)
            && (parent.None? ==>
                 r == Unchanged(fs, Fail("touch: cannot touch '" + args[0] + "': No such file or directory")))
            && (parent.Some? && parent.value.File? ==> r == Effect(fs, Thrown(ReadOfUndefined(name))))
            && (parent.Some? && parent.value.Dir? && Child(fs.heap, parent.value, name).Some? ==>
                 r == Unchanged(fs, Ok("")))
            && (parent.Some? && parent.value.Dir? && Child(fs.heap, parent.value, name).None? ==>
                 r.fs == Fs(fs.flat[path := File("")], Write(fs.heap, parent.value.id, name, File("")), fs.next))
  {
  }

  /**
   * `touch` twice does what `touch` once does: the second finds the name
   * taken and changes nothing.
   */
  lemma TouchIdempotent(fs: Fs, cwd: string, args: seq<string>)
    requires |args| > 0
    requires |Segments(Operand(cwd, args))| > 0
    ensures var once := Touch(fs, cwd, args);
            Touch(once.fs, cwd, args) == Effect(once.fs, once.reply)
  {
    var path := Operand(cwd, args);
    var name := GetPathName(path);
    var parent := ParentOf(fs, path);
    if parent.Some? && parent.value.Dir? && name !in Contents(fs.heap, parent.value.id).items {
      var pid := parent.value.id;
      var fs1 := Touch(fs, cwd, args).fs;
      assert fs1 == Fs(fs.flat[path := File("")], Write(fs.heap, pid, name, File("")), fs.next);
      forall g | g != pid ensures Contents(fs1.heap, g) == Contents(fs.heap, g) {
      }
      ParentKept(fs, fs1, path, pid);
      assert Child(fs1.heap, Dir(pid), name) == Some(File(""));
    }
  }

  /**
   * `rmdir` inspects the object nested in the parent, while files created
   * inside the new directory go into the flat map's object: after
   * `mkdir d` and `touch d/leaf`, the directory lists `leaf`, and yet
   * `rmdir d` removes it as empty.
   */
  lemma RmdirIgnoresFlatCopy(fs: Fs, cwd: string, segs: seq<string>, leaf: string)
    requires WellFormed(fs) && |segs| > 0 && Normal(segs) && IsName(leaf)
    requires var pp := Render(segs[..|segs| - 1]);
             pp in fs.flat && fs.flat[pp].Dir? && Child(fs.heap, fs.flat[pp], segs[|segs| - 1]).None?
    requires Render(segs) !in fs.flat
    ensures var d := Render(segs);
            var fs1 := Mkdir(fs, cwd, [d]);
            var fs2 := Touch(fs1.fs, cwd, [Render(segs + [leaf])]);
            && fs1.reply == Done(Ok("")) && fs2.reply == Done(Ok(""))
            && Child(fs2.fs.heap, fs2.fs.flat[d], leaf) == Some(File(""))
            && Rmdir(fs2.fs, cwd, [d]).reply == Done(Ok(""))
  {
    var n := |segs|;
    var d := Render(segs);
    var f := Render(segs + [leaf]);
    var pp := Render(segs[..n - 1]);
    NestedPaths(segs, leaf);
    var pid := fs.flat[pp].id;
    FoundAllocated(fs, pp);
    var fs1 := Mkdir(fs, cwd, [d]).fs;
    assert fs1.flat[d] == Dir(fs.next + 1);
    assert ParentOf(fs1, f) == Some(Dir(fs.next + 1));
    var fs2 := Touch(fs1, cwd, [f]).fs;
    assert ParentOf(fs2, d) == Some(Dir(pid));
    assert Child(fs2.heap, Dir(pid), segs[n - 1]) == Some(Dir(fs.next));
  }

  /** The paths of a directory, of its parent and of an entry inside it. */
  lemma NestedPaths(segs: seq<string>, leaf: string)
    requires |segs| > 0 && Normal(segs) && IsName(leaf)
    ensures var d := Render(segs);
            var f := Render(segs + [leaf]);
            var pp := Render(segs[..|segs| - 1]);
            && (forall cwd :: ResolvePath(cwd, d) == d && ResolvePath(cwd, f) == f)
            && GetParentPath(d) == pp && GetPathName(d) == segs[|segs| - 1]
            && GetParentPath(f) == d && GetPathName(f) == leaf
            && pp != d && pp != f && d != f
  {
    var n := |segs|;
    var longer := segs + [leaf];
    assert Normal(longer);
    ParentAndName(segs);
    ParentAndName(longer);
    assert longer[..n] == segs;
    SegmentsOfRender(segs);
    SegmentsOfRender(longer);
    SegmentsOfRender(segs[..n - 1]);
  }

  /** Copying a file puts the same content under the destination, nested and flat. */
  lemma CpFile(fs: Fs, cwd: string, args: seq<string>, content: string, did: DirId)
    requires WellFormed(fs) && |args| >= 2
    requires GetDirectory(fs, ResolvePath(cwd, args[0])) == Some(File(content))
    requires ParentOf(fs, ResolvePath(cwd, args[1])) == Some(Dir(did))
    ensures var destPath := ResolvePath(cwd, args[1]);
            var r := Cp(fs, cwd, args);
            && r.reply == Done(Ok(""))
            && r.fs.flat == fs.flat[destPath := File(content)]
            && Child(r.fs.heap, Dir(did), GetPathName(destPath)) == Some(File(content))
  {
  }

  /**
   * Copying a directory makes two new objects: the copy in the destination's
   * parent and the copy in the flat map are different from each other and
   * from every object that existed before, so neither aliases the source.
   */
  lemma CpDirFresh(fs: Fs, cwd: string, args: seq<string>, id: DirId, did: DirId)
    requires WellFormed(fs) && |args| >= 2
    requires GetDirectory(fs, ResolvePath(cwd, args[0])) == Some(Dir(id))
    requires ParentOf(fs, ResolvePath(cwd, args[1])) == Some(Dir(did))
    requires Cp(fs, cwd, args).reply == Done(Ok(""))
    ensures var destPath := ResolvePath(cwd, args[1]);
            var r := Cp(fs, cwd, args);
            && destPath in r.fs.flat && r.fs.flat[destPath].Dir?
            && r.fs.flat == fs.flat[destPath := r.fs.flat[destPath]]
            && Child(r.fs.heap, Dir(did), GetPathName(destPath)).Some?
            && Child(r.fs.heap, Dir(did), GetPathName(destPath)).value.Dir?
            && var nested := Child(r.fs.heap, Dir(did), GetPathName(destPath)).value.id;
               var flat := r.fs.flat[ResolvePath(cwd, args[1])].id;
               nested != flat && nested !in fs.heap && flat !in fs.heap
  {
    var destPath := ResolvePath(cwd, args[1]);
    var destName := GetPathName(destPath);
    FoundAllocated(fs, GetParentPath(destPath));
    var first := Clone(fs, Dir(id));
    var (copy, fs1) := first.value;
    var fs2 := Fs(fs1.flat, Write(fs1.heap, did, destName, copy), fs1.next);
    var second := Clone(fs2, Dir(id));
    var (copy2, fs3) := second.value;
    assert did in fs2.heap && did < fs2.next;
    assert fs3.heap[did] == fs2.heap[did];
    assert Child(fs3.heap, Dir(did), destName) == Some(copy);
  }

  /** `cp` keeps the filesystem well formed, also when the second copy fails. */
  lemma CpWellFormed(fs: Fs, cwd: string, args: seq<string>)
    requires WellFormed(fs)
    ensures WellFormed(Cp(fs, cwd, args).fs)
  {
    if Cp(fs, cwd, args).fs != fs {
      var sourcePath := ResolvePath(cwd, args[0]);
      var destPath := ResolvePath(cwd, args[1]);
      var source := GetDirectory(fs, sourcePath).value;
      var did := ParentOf(fs, destPath).value.id;
      FoundAllocated(fs, GetParentPath(destPath));
      assert Cp(fs, cwd, args) == CopyTwice(Clone(fs, source).value, source, did, destPath);
      var (copy, fs1) := Clone(fs, source).value;
      CloneWellFormed(fs, source);
      CopyTwiceWellFormed(copy, fs1, source, did, destPath);
    }
  }

  lemma CopyTwiceWellFormed(copy: Node, fs1: Fs, source: Node, did: DirId, destPath: string)
    requires WellFormed(fs1) && did in fs1.heap && (copy.Dir? ==> copy.id in fs1.heap)
    ensures WellFormed(CopyTwice((copy, fs1), source, did, destPath).fs)
  {
    var fs2 := Fs(fs1.flat, Write(fs1.heap, did, GetPathName(destPath), copy), fs1.next);
    assert WellFormed(fs2) by {
      WriteWellFormed(fs1, did, GetPathName(destPath), copy);
    }
    if Clone(fs2, source).Done? {
      var (copy2, fs3) := Clone(fs2, source).value;
      assert WellFormed(fs3) && (copy2.Dir? ==> copy2.id in fs3.heap) by {
        CloneWellFormed(fs2, source);
      }
      LinkWellFormed(fs3, destPath, copy2);
    }
  }

  /** Storing an allocated node in the flat map keeps the filesystem well formed. */
  lemma LinkWellFormed(fs: Fs, path: string, node: Node)
    requires WellFormed(fs) && (node.Dir? ==> node.id in fs.heap)
    ensures WellFormed(Fs(fs.flat[path := node], fs.heap, fs.next))
  {
  }

  /**
   * The two copies `cp` makes of a directory hold the source's tree, to
   * every depth: the copy in the destination's parent holds it as it was
   * before the command, and the flat copy, taken after the first write,
   * holds it as it is afterwards (which differs when the destination lies
   * inside the source).
   */
  lemma CpCopiesTree(fs: Fs, cwd: string, args: seq<string>, id: DirId, did: DirId, depth: nat)
    requires WellFormed(fs) && |args| >= 2
    requires GetDirectory(fs, ResolvePath(cwd, args[0])) == Some(Dir(id))
    requires ParentOf(fs, ResolvePath(cwd, args[1])) == Some(Dir(did))
    requires Cp(fs, cwd, args).reply == Done(Ok(""))
    ensures var destPath := ResolvePath(cwd, args[1]);
            var r := Cp(fs, cwd, args);
            && Child(r.fs.heap, Dir(did), GetPathName(destPath)).Some?
            && Unfold(r.fs.heap, Child(r.fs.heap, Dir(did), GetPathName(destPath)).value, depth)
               == Unfold(fs.heap, Dir(id), depth)
            && destPath in r.fs.flat
            && Unfold(r.fs.heap, r.fs.flat[destPath], depth) == Unfold(r.fs.heap, Dir(id), depth)
  {
    var destPath := ResolvePath(cwd, args[1]);
    FoundAllocated(fs, GetParentPath(destPath));
    FoundAllocated(fs, ResolvePath(cwd, args[0]));
    assert Cp(fs, cwd, args) == CopyTwice(Clone(fs, Dir(id)).value, Dir(id), did, destPath);
    CopyTwiceTree(fs, id, did, destPath, depth);
  }

  lemma CopyTwiceTree(fs: Fs, id: DirId, did: DirId, destPath: string, depth: nat)
    requires WellFormed(fs) && id in fs.heap && did in fs.heap && Clone(fs, Dir(id)).Done?
    requires CopyTwice(Clone(fs, Dir(id)).value, Dir(id), did, destPath).reply.Done?
    ensures var r := CopyTwice(Clone(fs, Dir(id)).value, Dir(id), did, destPath);
            && Child(r.fs.heap, Dir(did), GetPathName(destPath)).Some?
            && Unfold(r.fs.heap, Child(r.fs.heap, Dir(did), GetPathName(destPath)).value, depth)
               == Unfold(fs.heap, Dir(id), depth)
            && destPath in r.fs.flat
            && Unfold(r.fs.heap, r.fs.flat[destPath], depth) == Unfold(r.fs.heap, Dir(id), depth)
  {
    var destName := GetPathName(destPath);
    CloneWellFormed(fs, Dir(id));
    var (copy, fs1) := Clone(fs, Dir(id)).value;
    WriteWellFormed(fs1, did, destName, copy);
    var fs2 := Fs(fs1.flat, Write(fs1.heap, did, destName, copy), fs1.next);
    var (copy2, fs3) := Clone(fs2, Dir(id)).value;
    assert Child(fs3.heap, Dir(did), destName) == Some(copy);
    CloneSame(fs, Dir(id), fs3.heap, depth);
    CloneSame(fs2, Dir(id), fs3.heap, depth);
    var made := CloneNode(fs2.heap, Dir(id), {}, fs2.next).value.1;
    assert fs3.heap == fs2.heap + made;
    UnfoldExtend(fs2.heap, made, Dir(id), depth);
  }

  /** `cp` of a directory that contains itself fails on the circular structure. */
  lemma CpSelfLoop(fs: Fs, cwd: string, args: seq<string>, id: DirId, name: string)
    requires |args| >= 2
    requires GetDirectory(fs, ResolvePath(cwd, args[0])) == Some(Dir(id)) && id in fs.heap
    requires fs.heap[id].order == [name] && name in fs.heap[id].items && fs.heap[id].items[name] == Dir(id)
    requires ParentOf(fs, ResolvePath(cwd, args[1])).Some?
    ensures Cp(fs, cwd, args) == Effect(fs, Thrown(CircularJson))
  {
    var d := fs.heap[id];
    assert CloneNode(fs.heap, Dir(id), {id}, fs.next + 1) == Thrown(CircularJson);
    assert CloneEntries(fs.heap, d, [name], {id}, fs.next + 1) == Thrown(CircularJson) by {
      assert d.order == [name];
    }
    assert CloneNode(fs.heap, Dir(id), {}, fs.next) == Thrown(CircularJson) by {
      Shrink(fs.heap.Keys, {}, id);
      assert {} + {id} == {id};
    }
    assert Clone(fs, Dir(id)) == Thrown(CircularJson);
  }

  /**
   * After a successful `mv` the source object itself (the same directory
   * object, not a copy) sits under the destination in the flat map and, unless
   * source and destination are the same entry, in the destination's parent;
   * the source path and the source entry are gone, and no other flat entry
   * changes.
   */
  lemma MvAliases(fs: Fs, cwd: string, args: seq<string>, source: Node, did: DirId, sid: DirId)
    requires |args| >= 2
    requires GetDirectory(fs, ResolvePath(cwd, args[0])) == Some(source)
    requires ParentOf(fs, ResolvePath(cwd, args[1])) == Some(Dir(did))
    requires ParentOf(fs, ResolvePath(cwd, args[0])) == Some(Dir(sid))
    ensures var sourcePath := ResolvePath(cwd, args[0]);
            var destPath := ResolvePath(cwd, args[1]);
            var destName := GetPathName(destPath);
            var sourceName := GetPathName(sourcePath);
            var r := Mv(fs, cwd, args);
            && r.reply == Done(Ok(""))
            && r.fs.flat == (fs.flat - {sourcePath})[destPath := source]
            && Child(r.fs.heap, Dir(sid), sourceName) == None
            && (did != sid || destName != sourceName ==> Child(r.fs.heap, Dir(did), destName) == Some(source))
  {
  }

  /**
   * Moving a directory into itself makes it contain itself: afterwards the
   * directory object lists itself under the new name.
   */
  lemma MvIntoItself(fs: Fs, cwd: string, args: seq<string>, id: DirId, sid: DirId)
    requires |args| >= 2 && sid != id
    requires GetDirectory(fs, ResolvePath(cwd, args[0])) == Some(Dir(id))
    requires ParentOf(fs, ResolvePath(cwd, args[1])) == Some(Dir(id))
    requires ParentOf(fs, ResolvePath(cwd, args[0])) == Some(Dir(sid))
    ensures var r := Mv(fs, cwd, args);
            r.reply == Done(Ok("")) && Child(r.fs.heap, Dir(id), GetPathName(ResolvePath(cwd, args[1]))) == Some(Dir(id))
  {
    MvAliases(fs, cwd, args, Dir(id), id, sid);
  }

  /**
   * When the source has no parent that `getDirectory` can find, `mv` has
   * already stored the source under the destination when it fails, and that
   * write stays.
   */
  lemma MvPartialWrite(fs: Fs, cwd: string, args: seq<string>, source: Node, did: DirId)
    requires |args| >= 2
    requires GetDirectory(fs, ResolvePath(cwd, args[0])) == Some(source)
    requires ParentOf(fs, ResolvePath(cwd, args[1])) == Some(Dir(did))
    requires ParentOf(fs, ResolvePath(cwd, args[0])) == None
    ensures var r := Mv(fs, cwd, args);
            && r.reply == Thrown(ReadOfNull("contents"))
            && r.fs.flat == fs.flat
            && Child(r.fs.heap, Dir(did), GetPathName(ResolvePath(cwd, args[1]))) == Some(source)
  {
  }
}
