/**
 * The simulator's virtual filesystem.
 *
 * `this.filesystem` is a flat object from path strings to nodes; a directory
 * node carries a `contents` object from names to nodes. Directory objects
 * are shared by reference in the source (`mv` stores one object under two
 * keys and later writes through either key show through the other), so
 * directories live in an arena: a `Dir` node names an entry of `heap`, and
 * writing into a directory updates that one entry. Files are never updated
 * in place by the source, so they are plain values.
 */
module Vfs {
  import opened Wrappers
  import opened Text
  import opened Paths
  import opened Dicts
  import opened Results

  /** Identities of directory objects. */
  type DirId = int

  datatype Node = File(content: string) | Dir(id: DirId)

  type Heap = map<DirId, Dict<Node>>

  /** The flat map, the directory objects, and the next unused directory id. */
  datatype Fs = Fs(flat: map<string, Node>, heap: Heap, next: DirId)

  /** The `contents` of a directory object (empty for an id that is not allocated). */
  function Contents(heap: Heap, id: DirId): Dict<Node>
  {
    if id in heap then heap[id] else Empty()
  }

  /** `node.contents[name]`, for a directory node. */
  function Child(heap: Heap, node: Node, name: string): Option<Node>
  {
    if node.Dir? && name in Contents(heap, node.id).items
    then Some(Contents(heap, node.id).items[name]) else None
  }

  /**
   * `getDirectory(path)`: the flat entry for the path if there is one;
   * otherwise the entry named by the last segment inside the flat entry of
   * the parent path (the parent is looked up in the flat map only).
   */
  function GetDirectory(fs: Fs, path: string): (r: Option<Node>)
    ensures path in fs.flat ==> r == Some(fs.flat[path])
    ensures path !in fs.flat && GetParentPath(path) !in fs.flat ==> r == None
  {
    if path in fs.flat then Some(fs.flat[path])
    else if GetParentPath(path) in fs.flat then Child(fs.heap, fs.flat[GetParentPath(path)], GetPathName(path))
    else None
  }

  predicate IsDirAt(fs: Fs, path: string)
  {
    var n := GetDirectory(fs, path); n.Some? && n.value.Dir?
  }

  predicate IsFileAt(fs: Fs, path: string)
  {
    var n := GetDirectory(fs, path); n.Some? && n.value.File?
  }

  /** Every directory a node, a flat entry or a directory entry names is allocated. */
  ghost predicate WellFormed(fs: Fs)
  {
    (forall id :: id in fs.heap ==> id < fs.next && Valid(fs.heap[id]))
    && (forall p :: p in fs.flat && fs.flat[p].Dir? ==> fs.flat[p].id in fs.heap)
    && (forall id, k :: id in fs.heap && k in fs.heap[id].items && fs.heap[id].items[k].Dir?
          ==> fs.heap[id].items[k].id in fs.heap)
  }

  /** Contents of the files created by `initializeFilesystem`. */
  const ReadmeText: string := "Welcome to the bash terminal simulator!\nThis is a practice environment for learning command line skills."

  const SampleText: string := "This is a sample text file.\nIt contains multiple lines of text.\nPerfect for practicing file operations."

  const NotesText: string := "Important notes:\n- Remember to backup files\n- Use version control\n- Document your work"

  /** The `contents` of `/home/user` as first built. */
  function HomeDir(): Dict<Node>
  {
    Dict(["Documents", "Downloads", "Desktop", "README.txt", "sample.txt"],
         map["Documents" := Dir(1), "Downloads" := Dir(2), "Desktop" := Dir(3),
             "README.txt" := File(ReadmeText), "sample.txt" := File(SampleText)])
  }

  function DocumentsDir(): Dict<Node>
  {
    Dict(["project1", "notes.txt"], map["project1" := Dir(5), "notes.txt" := File(NotesText)])
  }

  function DownloadsDir(): Dict<Node>
  {
    Dict(["file1.txt", "file2.txt"],
         map["file1.txt" := File("Downloaded file 1"), "file2.txt" := File("Downloaded file 2")])
  }

  function DesktopDir(): Dict<Node>
  {
    Dict(["shortcut.txt"], map["shortcut.txt" := File("Desktop shortcut")])
  }

  /**
   * The filesystem built by `initializeFilesystem`: four flat entries
   * (objects 0, 4, 6 and 7), and separate empty objects (1, 2, 3 and 5) for
   * the directories nested in `/home/user` and `/home/user/Documents`.
   */
  function Initial(): Fs
  {
    Fs(map["/home/user" := Dir(0), "/home/user/Documents" := Dir(4),
           "/home/user/Downloads" := Dir(6), "/home/user/Desktop" := Dir(7)],
       map[0 := HomeDir(), 1 := Empty(), 2 := Empty(), 3 := Empty(),
           4 := DocumentsDir(), 5 := Empty(), 6 := DownloadsDir(), 7 := DesktopDir()],
       8)
  }

  /**
   * Directories only ever contain directories of strictly lower rank: the
   * graph of directory objects has no cycle.
   */
  ghost predicate Ranked(fs: Fs, rank: map<DirId, nat>)
  {
    RankedHeap(fs.heap, rank)
  }

  ghost predicate RankedHeap(heap: Heap, rank: map<DirId, nat>)
  {
    (forall id :: id in heap ==> id in rank)
    && (forall id, k :: id in heap && k in heap[id].items && heap[id].items[k].Dir?
          ==> heap[id].items[k].id in rank && rank[heap[id].items[k].id] < rank[id])
  }

  /** Putting one more allocated directory on the stack leaves fewer to visit. */
  lemma Shrink(keys: set<DirId>, stack: set<DirId>, id: DirId)
    requires id in keys && id !in stack
    ensures |keys - (stack + {id})| < |keys - stack|
  {
    assert keys - (stack + {id}) == (keys - stack) - {id};
  }

  // ---------------------------------------------------------------------
  // `JSON.parse(JSON.stringify(node))`, the deep copy of `cp`.
  // ---------------------------------------------------------------------

  /**
   * The copy of `node` out of `heap`. `stack` holds the directories being
   * serialised around it; meeting one of them again is the circular-structure
   * error of `JSON.stringify`. New directory objects are numbered from `next`
   * on; the result carries the new objects and the next unused number.
   */
  function CloneNode(heap: Heap, node: Node, stack: set<DirId>, next: DirId): (r: Outcome<(Node, Heap, DirId)>)
    ensures r.Done? ==> next <= r.value.2
    ensures r.Done? ==> forall id :: id in r.value.1 ==> next <= id < r.value.2
    ensures r.Done? && r.value.0.Dir? ==> r.value.0.id in r.value.1
    ensures node.File? ==> r == Done((node, map[], next))
    decreases |heap.Keys - stack|, 0, 0
  {
    match node
    case File(_) => Done((node, map[], next))
    case Dir(id) =>
      if id in stack then Thrown(CircularJson)
      else if id !in heap then Done((Dir(next), map[next := Empty()], next + 1))
      else
        var d := heap[id];
        Shrink(heap.Keys, stack, id);
        var inner := CloneEntries(heap, d, d.order, stack + {id}, next + 1);
        if inner.Thrown? then Thrown(inner.fault)
        else
          var (items, made, after) := inner.value;
          Done((Dir(next), made[next := Dict(d.order, items)], after))
  }

  /** The copies of the entries of `d` listed in `names`, in that order. */
  function CloneEntries(heap: Heap, d: Dict<Node>, names: seq<string>, stack: set<DirId>, next: DirId)
    : (r: Outcome<(map<string, Node>, Heap, DirId)>)
    ensures r.Done? ==> next <= r.value.2
    ensures r.Done? ==> forall id :: id in r.value.1 ==> next <= id < r.value.2
    ensures r.Done? ==> forall k :: k in r.value.0 && r.value.0[k].Dir? ==> r.value.0[k].id in r.value.1
    decreases |heap.Keys - stack|, 1, |names|
  {
    if |names| == 0 then Done((map[], map[], next))
    else if names[0] !in d.items then CloneEntries(heap, d, names[1..], stack, next)
    else
      var first := CloneNode(heap, d.items[names[0]], stack, next);
      if first.Thrown? then Thrown(first.fault)
      else
        var (copy, made, mid) := first.value;
        var rest := CloneEntries(heap, d, names[1..], stack, mid);
        if rest.Thrown? then Thrown(rest.fault)
        else
          var (items, made2, after) := rest.value;
          Done((items[names[0] := copy], made + made2, after))
  }

  /** The deep copy of `node`, taken out of `fs` and allocated in it. */
  function Clone(fs: Fs, node: Node): (r: Outcome<(Node, Fs)>)
    ensures r.Done? ==> r.value.1.flat == fs.flat
    ensures r.Done? ==> fs.next <= r.value.1.next
    ensures r.Done? ==> forall id :: id in fs.heap && id < fs.next ==>
                          id in r.value.1.heap && r.value.1.heap[id] == fs.heap[id]
    ensures r.Done? && r.value.0.Dir? ==> fs.next <= r.value.0.id < r.value.1.next && r.value.0.id in r.value.1.heap
    ensures r.Done? && node.File? ==> r.value == (node, fs)
  {
    match CloneNode(fs.heap, node, {}, fs.next)
    case Thrown(f) => Thrown(f)
    case Done((copy, made, after)) =>
      assert node.File? ==> fs.heap + made == fs.heap;
      Done((copy, Fs(fs.flat, fs.heap + made, after)))
  }

  /**
   * A directory tree read out of the heap down to `depth` levels of
   * directories: files with their content, directories with their entry
   * order and their entries, and `Deeper` where the depth runs out. Two
   * nodes hold the same tree when they unfold alike at every depth.
   */
  datatype Tree = Leaf(content: string) | Folder(order: seq<string>, entries: map<string, Tree>) | Deeper

  function Unfold(heap: Heap, node: Node, depth: nat): Tree
    decreases depth
  {
    match node
    case File(c) => Leaf(c)
    case Dir(id) =>
      if depth == 0 then Deeper
      else
        var d := Contents(heap, id);
        Folder(d.order, map k | k in d.items :: Unfold(heap, d.items[k], depth - 1))
  }

  /** Entries present on both sides unfold alike. */
  ghost predicate SameEntries(h: Heap, items: map<string, Node>, heap: Heap, entries: map<string, Node>, depth: nat)
  {
    forall k :: k in items && k in entries ==> Unfold(h, items[k], depth) == Unfold(heap, entries[k], depth)
  }

  /** Every directory an entry names is allocated. */
  ghost predicate Closed(heap: Heap)
  {
    forall id, k :: id in heap && k in heap[id].items && heap[id].items[k].Dir? ==> heap[id].items[k].id in heap
  }

  /** `heap` holds the objects of `made` unchanged. */
  ghost predicate Holds(heap: Heap, made: Heap)
  {
    forall id :: id in made ==> id in heap && heap[id] == made[id]
  }

  /**
   * The copy holds the same tree as the original, read from any heap that
   * holds the new objects: the copy reaches no object but its own.
   */
  lemma {:induction false} CloneNodeSame(heap: Heap, node: Node, stack: set<DirId>, next: DirId, h: Heap, depth: nat)
    requires forall id :: id in heap ==> Valid(heap[id])
    requires CloneNode(heap, node, stack, next).Done?
    requires Holds(h, CloneNode(heap, node, stack, next).value.1)
    ensures Unfold(h, CloneNode(heap, node, stack, next).value.0, depth) == Unfold(heap, node, depth)
    decreases |heap.Keys - stack|, 0, 0
  {
    if node.Dir? && depth > 0 {
      var id := node.id;
      if id in heap {
        var d := heap[id];
        assert id !in stack;
        Shrink(heap.Keys, stack, id);
        var (items, made, after) := CloneEntries(heap, d, d.order, stack + {id}, next + 1).value;
        assert CloneNode(heap, node, stack, next).value == (Dir(next), made[next := Dict(d.order, items)], after);
        assert Holds(h, made) && Contents(h, next) == Dict(d.order, items) by {
          forall i | i in made ensures i in h && h[i] == made[i] {
            assert i != next;
          }
        }
        CloneDirSame(heap, id, stack + {id}, next + 1, h, depth, next);
      } else {
        assert CloneNode(heap, node, stack, next).value == (Dir(next), map[next := Empty()], next + 1);
        EmptyFolder(h, next, depth);
        EmptyFolder(heap, id, depth);
      }
    }
  }

  /**
   * The object `copy` in `h`, holding the copies of the entries of `id`,
   * unfolds like `id`.
   */
  lemma {:induction false} CloneDirSame(heap: Heap, id: DirId, stack: set<DirId>, next: DirId, h: Heap, depth: nat,
                                        copy: DirId)
    requires forall id :: id in heap ==> Valid(heap[id])
    requires id in heap && depth > 0
    requires CloneEntries(heap, heap[id], heap[id].order, stack, next).Done?
    requires var (items, made, _) := CloneEntries(heap, heap[id], heap[id].order, stack, next).value;
             Holds(h, made) && Contents(h, copy) == Dict(heap[id].order, items)
    ensures Unfold(h, Dir(copy), depth) == Unfold(heap, Dir(id), depth)
    decreases |heap.Keys - stack|, 2, 0
  {
    var d := heap[id];
    var items := CloneEntries(heap, d, d.order, stack, next).value.0;
    var below: nat := depth - 1;
    CloneEntriesAllKeys(heap, d, stack, next);
    CloneEntriesSame(heap, d, d.order, stack, next, h, below);
    FolderSame(h, copy, heap, id, items, depth, below);
  }

  /** Cloning all entries of a valid object copies exactly its names. */
  lemma CloneEntriesAllKeys(heap: Heap, d: Dict<Node>, stack: set<DirId>, next: DirId)
    requires forall id :: id in heap ==> Valid(heap[id])
    requires Valid(d) && CloneEntries(heap, d, d.order, stack, next).Done?
    ensures forall k :: k in CloneEntries(heap, d, d.order, stack, next).value.0 <==> k in d.items
  {
    CloneEntriesKeys(heap, d, d.order, stack, next);
  }

  /** An object without entries unfolds to an empty folder. */
  lemma EmptyFolder(h: Heap, id: DirId, depth: nat)
    requires depth > 0 && Contents(h, id) == Empty()
    ensures Unfold(h, Dir(id), depth) == Folder([], map[])
  {
    var t := Unfold(h, Dir(id), depth);
    assert t.entries.Keys == {};
  }

  /** A directory object whose entries unfold like those of another unfolds like it. */
  lemma FolderSame(h: Heap, copy: DirId, heap: Heap, id: DirId, items: map<string, Node>, depth: nat, below: nat)
    requires depth == below + 1 && id in heap && Contents(h, copy) == Dict(heap[id].order, items)
    requires forall k :: k in items <==> k in heap[id].items
    requires SameEntries(h, items, heap, heap[id].items, below)
    ensures Unfold(h, Dir(copy), depth) == Unfold(heap, Dir(id), depth)
  {
    var d := heap[id];
    var copied := map k | k in items :: Unfold(h, items[k], below);
    var original := map k | k in d.items :: Unfold(heap, d.items[k], below);
    assert copied == original;
  }

  lemma {:induction false} CloneEntriesSame(heap: Heap, d: Dict<Node>, names: seq<string>, stack: set<DirId>,
                                            next: DirId, h: Heap, depth: nat)
    requires forall id :: id in heap ==> Valid(heap[id])
    requires CloneEntries(heap, d, names, stack, next).Done?
    requires Holds(h, CloneEntries(heap, d, names, stack, next).value.1)
    ensures SameEntries(h, CloneEntries(heap, d, names, stack, next).value.0, heap, d.items, depth)
    decreases |heap.Keys - stack|, 1, |names|
  {
    if |names| > 0 {
      if names[0] !in d.items {
        CloneEntriesSame(heap, d, names[1..], stack, next, h, depth);
      } else {
        var first := CloneNode(heap, d.items[names[0]], stack, next);
        var (copy, made, mid) := first.value;
        var rest := CloneEntries(heap, d, names[1..], stack, mid);
        var (items, made2, after) := rest.value;
        assert Holds(h, made) && Holds(h, made2) by {
          forall i | i in made ensures i in h && h[i] == made[i] {
            assert i !in made2;
          }
        }
        CloneNodeSame(heap, d.items[names[0]], stack, next, h, depth);
        CloneEntriesSame(heap, d, names[1..], stack, mid, h, depth);
      }
    }
  }

  /** The copied entries are those of the listed names that the directory has. */
  lemma {:induction false} CloneEntriesKeys(heap: Heap, d: Dict<Node>, names: seq<string>, stack: set<DirId>, next: DirId)
    requires CloneEntries(heap, d, names, stack, next).Done?
    ensures forall k :: k in CloneEntries(heap, d, names, stack, next).value.0 <==> k in names && k in d.items
    decreases |names|
  {
    if |names| > 0 {
      assert forall k :: k in names <==> k == names[0] || k in names[1..];
      if names[0] !in d.items {
        CloneEntriesKeys(heap, d, names[1..], stack, next);
      } else {
        var mid := CloneNode(heap, d.items[names[0]], stack, next).value.2;
        CloneEntriesKeys(heap, d, names[1..], stack, mid);
      }
    }
  }

  /** The objects a copy makes name only each other, and are valid dictionaries when the originals are. */
  lemma {:induction false} CloneNodeClosed(heap: Heap, node: Node, stack: set<DirId>, next: DirId)
    requires forall id :: id in heap ==> Valid(heap[id])
    requires CloneNode(heap, node, stack, next).Done?
    ensures var made := CloneNode(heap, node, stack, next).value.1;
            Closed(made) && forall id :: id in made ==> Valid(made[id])
    decreases |heap.Keys - stack|, 0, 0
  {
    if node.Dir? && node.id in heap {
      var id := node.id;
      var d := heap[id];
      Shrink(heap.Keys, stack, id);
      var inner := CloneEntries(heap, d, d.order, stack + {id}, next + 1);
      var (items, made, after) := inner.value;
      assert CloneNode(heap, node, stack, next).value == (Dir(next), made[next := Dict(d.order, items)], after);
      CloneEntriesClosed(heap, d, d.order, stack + {id}, next + 1);
      CloneEntriesKeys(heap, d, d.order, stack + {id}, next + 1);
      ClosedAdd(made, next, Dict(d.order, items));
    }
  }

  /** Adding a valid object whose directories are all present keeps a heap closed. */
  lemma ClosedAdd(made: Heap, next: DirId, d: Dict<Node>)
    requires Closed(made) && forall id :: id in made ==> Valid(made[id])
    requires Distinct(d.order) && forall k :: k in d.items <==> k in d.order
    requires forall k :: k in d.items && d.items[k].Dir? ==> d.items[k].id in made
    ensures var grown := made[next := d];
            Closed(grown) && forall id :: id in grown ==> Valid(grown[id])
  {
  }

  lemma {:induction false} CloneEntriesClosed(heap: Heap, d: Dict<Node>, names: seq<string>, stack: set<DirId>, next: DirId)
    requires forall id :: id in heap ==> Valid(heap[id])
    requires CloneEntries(heap, d, names, stack, next).Done?
    ensures var made := CloneEntries(heap, d, names, stack, next).value.1;
            Closed(made) && forall id :: id in made ==> Valid(made[id])
    decreases |heap.Keys - stack|, 1, |names|
  {
    if |names| > 0 {
      if names[0] !in d.items {
        CloneEntriesClosed(heap, d, names[1..], stack, next);
      } else {
        var first := CloneNode(heap, d.items[names[0]], stack, next);
        var (copy, made, mid) := first.value;
        CloneNodeClosed(heap, d.items[names[0]], stack, next);
        CloneEntriesClosed(heap, d, names[1..], stack, mid);
        var made2 := CloneEntries(heap, d, names[1..], stack, mid).value.1;
        assert forall i :: i in made ==> (made + made2)[i] == made[i] by {
          forall i | i in made ensures i !in made2 { }
        }
      }
    }
  }

  /** Reading a tree out of a closed heap ignores objects added beside it. */
  lemma {:induction false} UnfoldExtend(heap: Heap, more: Heap, node: Node, depth: nat)
    requires Closed(heap)
    requires node.Dir? ==> node.id in heap
    requires forall id :: id in more ==> id !in heap
    ensures Unfold(heap + more, node, depth) == Unfold(heap, node, depth)
    decreases depth
  {
    if node.Dir? && depth > 0 {
      var d := heap[node.id];
      assert Contents(heap + more, node.id) == d;
      forall k | k in d.items
        ensures Unfold(heap + more, d.items[k], depth - 1) == Unfold(heap, d.items[k], depth - 1)
      {
        UnfoldExtend(heap, more, d.items[k], depth - 1);
      }
    }
  }

  /**
   * The deep copy keeps the filesystem well formed, and the copy holds the
   * same tree as the original, read from the new filesystem or from any
   * heap that keeps the new objects.
   */
  lemma CloneWellFormed(fs: Fs, node: Node)
    requires WellFormed(fs)
    requires Clone(fs, node).Done?
    ensures WellFormed(Clone(fs, node).value.1)
  {
    if node.Dir? {
      CloneNodeClosed(fs.heap, node, {}, fs.next);
      var made := CloneNode(fs.heap, node, {}, fs.next).value.1;
      assert forall id :: id in made ==> id !in fs.heap;
    }
  }

  lemma CloneSame(fs: Fs, node: Node, h: Heap, depth: nat)
    requires WellFormed(fs)
    requires Clone(fs, node).Done?
    requires forall id :: id in Clone(fs, node).value.1.heap && id >= fs.next ==>
               id in h && h[id] == Clone(fs, node).value.1.heap[id]
    ensures Unfold(h, Clone(fs, node).value.0, depth) == Unfold(fs.heap, node, depth)
  {
    if node.Dir? {
      var made := CloneNode(fs.heap, node, {}, fs.next).value.1;
      assert Holds(h, made) by {
        forall id | id in made ensures id in h && h[id] == made[id] {
          assert id !in fs.heap;
        }
      }
      CloneNodeSame(fs.heap, node, {}, fs.next, h, depth);
    }
  }

  lemma {:induction false} CloneNodeAcyclic(heap: Heap, rank: map<DirId, nat>, node: Node,
                                            stack: set<DirId>, bound: int, next: DirId)
    requires RankedHeap(heap, rank)
    requires node.Dir? && node.id in heap ==> rank[node.id] < bound
    requires forall s :: s in stack ==> s in heap && rank[s] >= bound
    ensures CloneNode(heap, node, stack, next).Done?
    decreases |heap.Keys - stack|, 0, 0
  {
    if node.Dir? && node.id in heap {
      var id := node.id;
      assert id !in stack;
      Shrink(heap.Keys, stack, id);
      CloneEntriesAcyclic(heap, rank, heap[id], id, heap[id].order, stack + {id}, next + 1);
      var inner := CloneEntries(heap, heap[id], heap[id].order, stack + {id}, next + 1);
      assert inner.Done?;
      assert CloneNode(heap, node, stack, next).Done? by {
        assert node == Dir(id);
      }
    }
  }

  lemma {:induction false} CloneEntriesAcyclic(heap: Heap, rank: map<DirId, nat>, d: Dict<Node>, owner: DirId,
                                               names: seq<string>, stack: set<DirId>, next: DirId)
    requires RankedHeap(heap, rank)
    requires owner in heap && d == heap[owner]
    requires forall s :: s in stack ==> s in heap && rank[s] >= rank[owner]
    ensures CloneEntries(heap, d, names, stack, next).Done?
    decreases |heap.Keys - stack|, 1, |names|
  {
    if |names| > 0 {
      if names[0] !in d.items {
        CloneEntriesAcyclic(heap, rank, d, owner, names[1..], stack, next);
      } else {
        var child := d.items[names[0]];
        CloneNodeAcyclic(heap, rank, child, stack, rank[owner], next);
        var mid := CloneNode(heap, child, stack, next).value.2;
        CloneEntriesAcyclic(heap, rank, d, owner, names[1..], stack, mid);
      }
    }
  }

  /** In an acyclic filesystem the deep copy of `cp` never meets a circular structure. */
  lemma CloneAcyclic(fs: Fs, rank: map<DirId, nat>, node: Node)
    requires Ranked(fs, rank)
    ensures Clone(fs, node).Done?
  {
    var bound := if node.Dir? && node.id in fs.heap then rank[node.id] + 1 else 0;
    CloneNodeAcyclic(fs.heap, rank, node, {}, bound, fs.next);
  }

  // ---------------------------------------------------------------------
  // `findFiles(searchPath, pattern)`.
  // ---------------------------------------------------------------------

  /** The results gathered so far followed by those of a search, unless the search raised. */
  function Append(results: seq<string>, o: Outcome<seq<string>>): Outcome<seq<string>>
  {
    match o
    case Done(found) => Done(results + found)
    case Thrown(f) => Thrown(f)
  }

  /**
   * The recursive `search(dir, currentPath)` over the entries of directory
   * `id`. `stack` holds the directories whose `search` calls are still
   * running (including `id`); re-entering one of them recurses forever and
   * ends in a stack overflow.
   */
  function Search(heap: Heap, id: DirId, path: string, pattern: string, stack: set<DirId>)
    : Outcome<seq<string>>
    decreases |heap.Keys - stack|, 1, 0
  {
    var d := Contents(heap, id);
    SearchEntries(heap, d, d.order, path, pattern, stack)
  }

  function SearchEntries(heap: Heap, d: Dict<Node>, names: seq<string>, path: string,
                         pattern: string, stack: set<DirId>): Outcome<seq<string>>
    decreases |heap.Keys - stack|, 0, |names|
  {
    if |names| == 0 then Done([])
    else if names[0] !in d.items then SearchEntries(heap, d, names[1..], path, pattern, stack)
    else
      var name := names[0];
      var itemPath := JoinPath(path, name);
      var here := if Contains(name, pattern) then [itemPath] else [];
      var item := d.items[name];
      assert item.Dir? && item.id in heap && item.id !in stack ==>
               |heap.Keys - (stack + {item.id})| < |heap.Keys - stack| by {
        if item.Dir? && item.id in heap && item.id !in stack {
          Shrink(heap.Keys, stack, item.id);
        }
      }
      var below :=
        if !item.Dir? || item.id !in heap then Done([])
        else if item.id in stack then Thrown(StackOverflow)
        else
          Search(heap, item.id, itemPath, pattern, stack + {item.id});
      match below
      case Thrown(f) => Thrown(f)
      case Done(found) => Append(here + found, SearchEntries(heap, d, names[1..], path, pattern, stack))
  }

  /** What `findFiles` returns: nothing unless the search path names a directory; only nested `contents` are walked. */
  function Found(fs: Fs, searchPath: string, pattern: string): Outcome<seq<string>>
  {
    match GetDirectory(fs, searchPath)
    case Some(Dir(id)) => Search(fs.heap, id, searchPath, pattern, {id})
    case _ => Done([])
  }

  lemma AppendAfter(a: seq<string>, b: seq<string>, o: Outcome<seq<string>>)
    ensures Append(a, Append(b, o)) == Append(a + b, o)
  {
    if o.Done? {
      assert a + (b + o.value) == (a + b) + o.value;
    }
  }

  /**
   * `search(dir, currentPath)`, pushing onto the `results` array: for each
   * entry of directory `id`, its path when the name contains the pattern,
   * then the search below it when it is a directory.
   */
  method SearchDir(heap: Heap, id: DirId, path: string, pattern: string, stack: set<DirId>,
                   results: seq<string>) returns (r: Outcome<seq<string>>)
    ensures r == Append(results, Search(heap, id, path, pattern, stack))
    decreases |heap.Keys - stack|, 1
  {
    var d := Contents(heap, id);
    var acc := results;
    var i := 0;
    assert d.order[0..] == d.order;
    while i < |d.order|
      invariant 0 <= i <= |d.order|
      invariant Append(acc, SearchEntries(heap, d, d.order[i..], path, pattern, stack))
                == Append(results, SearchEntries(heap, d, d.order, path, pattern, stack))
    {
      var name := d.order[i];
      assert d.order[i..][1..] == d.order[i + 1..];
      ghost var rest := SearchEntries(heap, d, d.order[i + 1..], path, pattern, stack);
      if name in d.items {
        ghost var before := acc;
        var itemPath := JoinPath(path, name);
        var here := if Contains(name, pattern) then [itemPath] else [];
        acc := acc + here;
        var item := d.items[name];
        ghost var added := here;
        if item.Dir? && item.id in heap {
          if item.id in stack {
            return Thrown(StackOverflow);
          }
          Shrink(heap.Keys, stack, item.id);
          var below := SearchDir(heap, item.id, itemPath, pattern, stack + {item.id}, acc);
          if below.Thrown? {
            return below;
          }
          added := here + Search(heap, item.id, itemPath, pattern, stack + {item.id}).value;
          acc := below.value;
        } else {
          assert here + [] == here;
        }
        assert acc == before + added;
        assert SearchEntries(heap, d, d.order[i..], path, pattern, stack) == Append(added, rest);
        AppendAfter(before, added, rest);
      } else {
        assert SearchEntries(heap, d, d.order[i..], path, pattern, stack) == rest;
      }
      i := i + 1;
    }
    assert d.order[i..] == [];
    assert acc + [] == acc;
    return Done(acc);
  }

  /**
   * `findFiles(searchPath, pattern)`. Over an acyclic filesystem it returns
   * the paths of all entries below the search directory, in pre-order, whose
   * names contain the pattern, and nothing when the search path names no
   * directory.
   */
  method FindFiles(fs: Fs, searchPath: string, pattern: string) returns (results: Outcome<seq<string>>)
    ensures results == Found(fs, searchPath, pattern)
    ensures GetDirectory(fs, searchPath).None? || GetDirectory(fs, searchPath).value.File? ==> results == Done([])
    ensures forall rank ::
              (Ranked(fs, rank) && GetDirectory(fs, searchPath).Some? && GetDirectory(fs, searchPath).value.Dir?
               && GetDirectory(fs, searchPath).value.id in fs.heap) ==>
                results == Done(Selected(Below(fs.heap, rank, GetDirectory(fs, searchPath).value.id, searchPath), pattern))
  {
    var searchDir := GetDirectory(fs, searchPath);
    if searchDir.None? || !searchDir.value.Dir? {
      return Done([]);
    }
    var id := searchDir.value.id;
    forall rank | Ranked(fs, rank) && id in fs.heap
      ensures Found(fs, searchPath, pattern) == Done(Selected(Below(fs.heap, rank, id, searchPath), pattern))
    {
      FindBelow(fs, rank, searchPath, pattern);
    }
    results := SearchDir(fs.heap, id, searchPath, pattern, {id}, []);
    assert Append([], Search(fs.heap, id, searchPath, pattern, {id})) == Search(fs.heap, id, searchPath, pattern, {id}) by {
      if Search(fs.heap, id, searchPath, pattern, {id}).Done? {
        assert [] + Search(fs.heap, id, searchPath, pattern, {id}).value == Search(fs.heap, id, searchPath, pattern, {id}).value;
      }
    }
  }

  lemma {:induction false} SearchAcyclic(heap: Heap, rank: map<DirId, nat>, id: DirId, path: string,
                                         pattern: string, stack: set<DirId>)
    requires RankedHeap(heap, rank)
    requires id in heap
    requires forall s :: s in stack ==> s in heap && rank[s] >= rank[id]
    ensures Search(heap, id, path, pattern, stack).Done?
    decreases |heap.Keys - stack|, 1, 0
  {
    SearchEntriesAcyclic(heap, rank, id, heap[id].order, path, pattern, stack);
  }

  lemma {:induction false} SearchEntriesAcyclic(heap: Heap, rank: map<DirId, nat>, id: DirId,
                                                names: seq<string>, path: string, pattern: string,
                                                stack: set<DirId>)
    requires RankedHeap(heap, rank)
    requires id in heap
    requires forall s :: s in stack ==> s in heap && rank[s] >= rank[id]
    ensures SearchEntries(heap, heap[id], names, path, pattern, stack).Done?
    decreases |heap.Keys - stack|, 0, |names|
  {
    var d := heap[id];
    if |names| > 0 {
      SearchEntriesAcyclic(heap, rank, id, names[1..], path, pattern, stack);
      if names[0] in d.items {
        var item := d.items[names[0]];
        if item.Dir? && item.id in heap {
          assert item.id !in stack;
          Shrink(heap.Keys, stack, item.id);
          SearchAcyclic(heap, rank, item.id, JoinPath(path, names[0]), pattern, stack + {item.id});
        }
      }
    }
  }

  /** In an acyclic filesystem `find` always finishes. */
  lemma FindAcyclic(fs: Fs, rank: map<DirId, nat>, searchPath: string, pattern: string)
    requires Ranked(fs, rank)
    ensures Found(fs, searchPath, pattern).Done?
  {
    match GetDirectory(fs, searchPath)
    case Some(Dir(id)) =>
      if id in fs.heap {
        SearchAcyclic(fs.heap, rank, id, searchPath, pattern, {id});
      } else {
        assert Contents(fs.heap, id) == Empty();
        assert Search(fs.heap, id, searchPath, pattern, {id}) == SearchEntries(fs.heap, Empty(), [], searchPath, pattern, {id});
      }
    case _ =>
  }

  /** An entry met below a directory: the path `joinPath` gives it, and its name. */
  datatype Entry = Entry(path: string, name: string)

  /**
   * Every entry reachable below the directory object `id` of an acyclic
   * heap, in pre-order: each entry of `id` in its listed order, followed by
   * everything below it when it is a directory.
   */
  function Below(heap: Heap, rank: map<DirId, nat>, id: DirId, path: string): seq<Entry>
    requires RankedHeap(heap, rank) && id in heap
    decreases rank[id], 1, 0
  {
    BelowEntries(heap, rank, id, heap[id].order, path)
  }

  function BelowEntries(heap: Heap, rank: map<DirId, nat>, id: DirId, names: seq<string>, path: string): seq<Entry>
    requires RankedHeap(heap, rank) && id in heap
    decreases rank[id], 0, |names|
  {
    if |names| == 0 then []
    else
      var rest := BelowEntries(heap, rank, id, names[1..], path);
      if names[0] !in heap[id].items then rest
      else
        var item := heap[id].items[names[0]];
        var itemPath := JoinPath(path, names[0]);
        [Entry(itemPath, names[0])]
        + (if item.Dir? && item.id in heap then Below(heap, rank, item.id, itemPath) else [])
        + rest
  }

  /** The paths of the entries whose name contains the pattern, in order. */
  function Selected(es: seq<Entry>, pattern: string): (ps: seq<string>)
    ensures |ps| <= |es|
  {
    if |es| == 0 then []
    else (if Contains(es[0].name, pattern) then [es[0].path] else []) + Selected(es[1..], pattern)
  }

  lemma {:induction false} SelectedAppend(a: seq<Entry>, b: seq<Entry>, pattern: string)
    ensures Selected(a + b, pattern) == Selected(a, pattern) + Selected(b, pattern)
    decreases |a|
  {
    if |a| > 0 {
      assert (a + b)[1..] == a[1..] + b;
      SelectedAppend(a[1..], b, pattern);
    } else {
      assert a + b == b;
    }
  }

  /** A path is selected exactly when some entry with that path has a name containing the pattern. */
  lemma {:induction false} SelectedMembers(es: seq<Entry>, pattern: string, p: string)
    ensures p in Selected(es, pattern) <==> exists e :: e in es && e.path == p && Contains(e.name, pattern)
    decreases |es|
  {
    if |es| > 0 {
      SelectedMembers(es[1..], pattern, p);
      assert forall e :: e in es <==> e == es[0] || e in es[1..];
    }
  }

  /**
   * In an acyclic heap the search returns exactly the paths of the entries
   * below the directory, in pre-order, whose names contain the pattern.
   */
  lemma {:induction false} SearchBelow(heap: Heap, rank: map<DirId, nat>, id: DirId, path: string,
                                       pattern: string, stack: set<DirId>)
    requires RankedHeap(heap, rank) && id in heap
    requires forall s :: s in stack ==> s in heap && rank[s] >= rank[id]
    ensures Search(heap, id, path, pattern, stack) == Done(Selected(Below(heap, rank, id, path), pattern))
    decreases |heap.Keys - stack|, 1, 0
  {
    SearchEntriesBelow(heap, rank, id, heap[id].order, path, pattern, stack);
  }

  lemma {:induction false} SearchEntriesBelow(heap: Heap, rank: map<DirId, nat>, id: DirId, names: seq<string>,
                                              path: string, pattern: string, stack: set<DirId>)
    requires RankedHeap(heap, rank) && id in heap
    requires forall s :: s in stack ==> s in heap && rank[s] >= rank[id]
    ensures SearchEntries(heap, heap[id], names, path, pattern, stack)
            == Done(Selected(BelowEntries(heap, rank, id, names, path), pattern))
    decreases |heap.Keys - stack|, 0, |names|
  {
    var d := heap[id];
    if |names| > 0 {
      SearchEntriesBelow(heap, rank, id, names[1..], path, pattern, stack);
      var restSel := Selected(BelowEntries(heap, rank, id, names[1..], path), pattern);
      if names[0] in d.items {
        var name := names[0];
        var item := d.items[name];
        var itemPath := JoinPath(path, name);
        var head := [Entry(itemPath, name)];
        var below := if item.Dir? && item.id in heap then Below(heap, rank, item.id, itemPath) else [];
        if item.Dir? && item.id in heap {
          assert item.id !in stack;
          Shrink(heap.Keys, stack, item.id);
          SearchBelow(heap, rank, item.id, itemPath, pattern, stack + {item.id});
        }
        SelectedAppend(head + below, BelowEntries(heap, rank, id, names[1..], path), pattern);
        SelectedAppend(head, below, pattern);
        assert Selected(head, pattern) == if Contains(name, pattern) then [itemPath] else [];
      }
    }
  }

  /**
   * `find` over an acyclic filesystem: the paths of all entries below the
   * search directory, in pre-order, whose names contain the pattern; nothing
   * when the search path does not name a directory.
   */
  lemma FindBelow(fs: Fs, rank: map<DirId, nat>, searchPath: string, pattern: string)
    requires Ranked(fs, rank)
    ensures var dir := GetDirectory(fs, searchPath);
            && (dir.Some? && dir.value.Dir? && dir.value.id in fs.heap ==>
                  Found(fs, searchPath, pattern) == Done(Selected(Below(fs.heap, rank, dir.value.id, searchPath), pattern)))
            && (dir.None? || dir.value.File? ==> Found(fs, searchPath, pattern) == Done([]))
  {
    var dir := GetDirectory(fs, searchPath);
    if dir.Some? && dir.value.Dir? && dir.value.id in fs.heap {
      SearchBelow(fs.heap, rank, dir.value.id, searchPath, pattern, {dir.value.id});
    }
  }

  /** A directory that contains itself sends `find` into endless recursion. */
  lemma FindSelfLoop(fs: Fs, searchPath: string, pattern: string, id: DirId, name: string)
    requires GetDirectory(fs, searchPath) == Some(Dir(id)) && id in fs.heap
    requires fs.heap[id].order == [name] && name in fs.heap[id].items
    requires fs.heap[id].items[name] == Dir(id)
    ensures Found(fs, searchPath, pattern) == Thrown(StackOverflow)
  {
    var d := fs.heap[id];
    assert Found(fs, searchPath, pattern) == SearchEntries(fs.heap, d, [name], searchPath, pattern, {id});
  }
}
