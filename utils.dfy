/** The helpers of `ratings-history-express/src/utils.ts`: CSV escaping of a
    possibly undefined value, the Cookie header built from browser cookies,
    line counting, and `flattenFolder` (its recursive file listing, its
    destination-name rule and its `move`). The file system is a map from
    path to contents together with a listing tree; which device a path lives
    on is a parameter. */
module Utils {
  import opened Wrappers
  import opened Strings
  import Csv

  // ---------------------------------------------------------------------
  // escapeCsvValue

  /** `escapeCsvValue`: undefined stays undefined; a string is quoted, with
      its quotes doubled, exactly when it holds `,`, `"` or a line feed. */
  function EscapeCsvValue(v: Option<string>): (r: Option<string>)
    ensures v.None? <==> r.None?
    ensures v.Some? ==> r.value == Csv.Escape(v.value)
    ensures v.Some? && !Csv.NeedsQuoting(v.value) ==> r == v
  {
    match v
    case None => None
    case Some(s) => Some(Csv.Escape(s))
  }

  /** Stripping the quotes and undoubling (reading the cell back as a CSV
      field) gives the value that was escaped. */
  lemma EscapeCsvValueReadsBack(v: string)
    ensures Csv.ParseField(EscapeCsvValue(Some(v)).value) == Some((v, ""))
  {
    Csv.EscapeRoundTrip(v);
  }

  // ---------------------------------------------------------------------
  // convertCookiesToAxiosHeaders

  datatype Cookie = Cookie(name: string, value: string)

  /** `${cookie.name}=${cookie.value};` for every cookie, in order. */
  function CookiePieces(cookies: seq<Cookie>): (ps: seq<string>)
    ensures |ps| == |cookies|
    ensures forall i :: 0 <= i < |cookies| ==> ps[i] == cookies[i].name + "=" + cookies[i].value + ";"
  {
    seq(|cookies|, i requires 0 <= i < |cookies| => cookies[i].name + "=" + cookies[i].value + ";")
  }

  /** The `Cookie` header of `convertCookiesToAxiosHeaders`: the pieces
      joined by single spaces. */
  function CookieHeader(cookies: seq<Cookie>): (h: string)
    ensures cookies == [] ==> h == ""
    ensures |cookies| == 1 ==> h == cookies[0].name + "=" + cookies[0].value + ";"
  {
    Join(CookiePieces(cookies), " ")
  }

  /** When no name or value holds a space, the header splits on spaces back
      into one `name=value;` piece per cookie. */
  lemma CookieHeaderSplits(cookies: seq<Cookie>)
    requires cookies != []
    requires forall c :: c in cookies ==> ' ' !in c.name && ' ' !in c.value
    ensures Split(CookieHeader(cookies), " ") == CookiePieces(cookies)
  {
    var ps := CookiePieces(cookies);
    forall p | p in ps ensures ' ' !in p {
      var i :| 0 <= i < |ps| && ps[i] == p;
      assert cookies[i] in cookies;
    }
    assert " " == [' '];
    SplitJoin(ps, ' ');
  }

  // ---------------------------------------------------------------------
  // countLinesInFile

  /** `countLinesInFile` on the file's contents: `contents.split("\n").length`. */
  function CountLines(contents: string): (n: nat)
    ensures n >= 1
  {
    |Split(contents, "\n")|
  }

  /** One more line than line feeds; an empty file has one line. */
  lemma CountLinesIsFeedsPlusOne(contents: string)
    ensures CountLines(contents) == multiset(contents)['\n'] + 1
    ensures contents == "" ==> CountLines(contents) == 1
  {
    assert "\n" == ['\n'];
    SplitCount(contents, '\n');
  }

  // ---------------------------------------------------------------------
  // The destination name of flattenFolder

  /** `.filter(Boolean)`: the non-empty strings, in order. */
  function NonEmpty(parts: seq<string>): (r: seq<string>)
    ensures forall p :: p in r ==> p != "" && p in parts
    ensures forall p :: p in parts && p != "" ==> p in r
  {
    if parts == [] then []
    else (if parts[0] == "" then [] else [parts[0]]) + NonEmpty(parts[1..])
  }

  /** `s.slice(n)`: empty when `n` is past the end. */
  function SliceFrom(s: string, n: nat): (r: string)
    ensures n <= |s| ==> r == s[n..]
    ensures n > |s| ==> r == ""
  {
    if n <= |s| then s[n..] else ""
  }

  /** The name a file gets in the flattened folder: its path below
      `dirPath`, split on the separator with the empty segments dropped,
      joined by `-`, then split on spaces and joined by `-`. */
  function DestName(orig: string, dirPath: string, sep: char): string {
    var segments := NonEmpty(Split(SliceFrom(orig, |dirPath|), [sep]));
    Join(Split(Join(segments, "-"), " "), "-")
  }

  /** The destination name holds no separator (the file lands directly in
      `dirPath`) and no space: every space became `-`. */
  lemma DestNameIsFlat(orig: string, dirPath: string, sep: char)
    requires sep != '-'
    ensures sep !in DestName(orig, dirPath, sep)
    ensures ' ' !in DestName(orig, dirPath, sep)
    ensures DestName(orig, dirPath, sep) ==
      ReplaceChar(Join(NonEmpty(Split(SliceFrom(orig, |dirPath|), [sep])), "-"), ' ', "-")
  {
    var parts := Split(SliceFrom(orig, |dirPath|), [sep]);
    var joined := Join(NonEmpty(parts), "-");
    assert " " == [' '];
    SplitJoinIsReplace(joined, ' ', "-");
    SplitPiecesFree(SliceFrom(orig, |dirPath|), [sep]);
    forall p | p in NonEmpty(parts) ensures sep !in p {
      ContainsChar(p, sep);
    }
    JoinKeepsOut(NonEmpty(parts), "-", sep);
    ReplaceCharKeepsOut(joined, ' ', "-", sep);
  }

  /** A file directly in `dirPath` whose name has no space keeps its name. */
  lemma DestNameOfTopLevelFile(dirPath: string, name: string, sep: char)
    requires name != "" && sep !in name && ' ' !in name
    ensures DestName(dirPath + [sep] + name, dirPath, sep) == name
  {
    var rel := SliceFrom(dirPath + [sep] + name, |dirPath|);
    assert rel == [sep] + name;
    assert rel == "" + [sep] + name;
    SplitCons("", sep, name);
    SplitNone(name, sep);
    assert Split(rel, [sep]) == ["", name];
    assert NonEmpty([name]) == [name] by {
      assert [name][1..] == [];
    }
    assert NonEmpty(["", name]) == [name] by {
      assert ["", name][1..] == [name];
    }
    assert " " == [' '];
    SplitNone(name, ' ');
  }

  // ---------------------------------------------------------------------
  // filesInDirectory

  /** What `readdir` and `stat` report for a directory entry. */
  datatype Entry =
    | FileEntry(name: string)
    | DirEntry(name: string, listing: Listing)
    | OtherEntry(name: string)     // neither a regular file nor a directory
    | StatFails(name: string)      // `stat` rejects

  /** A directory's entries, or a `readdir` that rejects. */
  datatype Listing = Readable(entries: seq<Entry>) | Unreadable

  /** `path.join(dir, file)`, without normalisation. */
  function JoinPath(dir: string, name: string, sep: char): string {
    dir + [sep] + name
  }

  /** The paths `filesInDirectory(dir, recursive)` collects from entry `i`
      on: regular files in order, descending into directories when
      `recursive`; a failing `stat` ends this directory's listing, and an
      unreadable directory adds nothing. */
  function WalkFrom(dir: string, l: Listing, i: nat, recursive: bool, sep: char): seq<string>
    decreases l, if l.Readable? && i <= |l.entries| then |l.entries| - i else 0
  {
    if l.Unreadable? || i >= |l.entries| then []
    else
      match l.entries[i]
      case StatFails(_) => []
      case FileEntry(n) => [JoinPath(dir, n, sep)] + WalkFrom(dir, l, i + 1, recursive, sep)
      case OtherEntry(_) => WalkFrom(dir, l, i + 1, recursive, sep)
      case DirEntry(n, sub) =>
        (if recursive then WalkFrom(JoinPath(dir, n, sep), sub, 0, recursive, sep) else []) +
        WalkFrom(dir, l, i + 1, recursive, sep)
  }

  /** Every regular file of the tree below `dir`, whatever fails. */
  function AllFilesFrom(dir: string, l: Listing, i: nat, sep: char): seq<string>
    decreases l, if l.Readable? && i <= |l.entries| then |l.entries| - i else 0
  {
    if l.Unreadable? || i >= |l.entries| then []
    else
      match l.entries[i]
      case FileEntry(n) => [JoinPath(dir, n, sep)] + AllFilesFrom(dir, l, i + 1, sep)
      case DirEntry(n, sub) => AllFilesFrom(JoinPath(dir, n, sep), sub, 0, sep) + AllFilesFrom(dir, l, i + 1, sep)
      case _ => AllFilesFrom(dir, l, i + 1, sep)
  }

  /** Nothing in the tree fails. */
  predicate Sound(l: Listing, i: nat)
    decreases l, if l.Readable? && i <= |l.entries| then |l.entries| - i else 0
  {
    l.Readable? &&
    (i >= |l.entries| ||
      (!l.entries[i].StatFails? &&
       (l.entries[i].DirEntry? ==> Sound(l.entries[i].listing, 0)) &&
       Sound(l, i + 1)))
  }

  /** Only regular files of the tree are collected. */
  lemma {:induction false} WalkFindsOnlyFiles(dir: string, l: Listing, i: nat, sep: char)
    ensures forall p :: p in WalkFrom(dir, l, i, true, sep) ==> p in AllFilesFrom(dir, l, i, sep)
    decreases l, if l.Readable? && i <= |l.entries| then |l.entries| - i else 0
  {
    if l.Readable? && i < |l.entries| {
      match l.entries[i]
      case StatFails(_) =>
      case FileEntry(n) => WalkFindsOnlyFiles(dir, l, i + 1, sep);
      case OtherEntry(_) => WalkFindsOnlyFiles(dir, l, i + 1, sep);
      case DirEntry(n, sub) =>
        WalkFindsOnlyFiles(JoinPath(dir, n, sep), sub, 0, sep);
        WalkFindsOnlyFiles(dir, l, i + 1, sep);
    }
  }

  /** When nothing fails, every regular file is collected, in listing
      order, directories expanded in place. */
  lemma {:induction false} WalkFindsAllFiles(dir: string, l: Listing, i: nat, sep: char)
    requires Sound(l, i)
    ensures WalkFrom(dir, l, i, true, sep) == AllFilesFrom(dir, l, i, sep)
    decreases l, if l.Readable? && i <= |l.entries| then |l.entries| - i else 0
  {
    if i < |l.entries| {
      match l.entries[i]
      case FileEntry(n) => WalkFindsAllFiles(dir, l, i + 1, sep);
      case OtherEntry(_) => WalkFindsAllFiles(dir, l, i + 1, sep);
      case DirEntry(n, sub) =>
        WalkFindsAllFiles(JoinPath(dir, n, sep), sub, 0, sep);
        WalkFindsAllFiles(dir, l, i + 1, sep);
    }
  }

  /** `filesInDirectory(dir, recursive, acc)`: appends to `acc` the paths
      collected below `dir`; a rejection inside is swallowed and what has
      been accumulated so far is returned. */
  method FilesInDirectory(dir: string, l: Listing, recursive: bool, sep: char, acc: seq<string>)
    returns (acc': seq<string>)
    ensures acc' == acc + WalkFrom(dir, l, 0, recursive, sep)
    decreases l
  {
    acc' := acc;
    if l.Unreadable? {
      return;
    }
    var i := 0;
    while i < |l.entries|
      invariant i <= |l.entries|
      invariant acc' + WalkFrom(dir, l, i, recursive, sep) == acc + WalkFrom(dir, l, 0, recursive, sep)
      decreases |l.entries| - i
    {
      var e := l.entries[i];
      var name := JoinPath(dir, e.name, sep);
      match e {
        case StatFails(_) =>
          assert WalkFrom(dir, l, i, recursive, sep) == [];
          return;
        case DirEntry(_, sub) =>
          if recursive {
            acc' := FilesInDirectory(name, sub, recursive, sep, acc');
          }
        case FileEntry(_) =>
          acc' := acc' + [name];
        case OtherEntry(_) =>
      }
      i := i + 1;
    }
  }

  // ---------------------------------------------------------------------
  // move and flattenFolder

  /** The files below the folder being flattened, by path. `device` says
      which device a path lives on: a rename across devices fails with
      EXDEV. */
  class FileTree {
    var files: map<string, string>
    const device: string -> nat

    constructor(initial: map<string, string>, device: string -> nat)
      ensures files == initial && this.device == device
    {
      files := initial;
      this.device := device;
    }

    /** `fs.rename` */
    method Rename(src: string, dst: string) returns (r: Outcome<string>)
      modifies this
      ensures src !in old(files) ==> r == Fail("ENOENT") && files == old(files)
      ensures src in old(files) && device(src) != device(dst) ==> r == Fail("EXDEV") && files == old(files)
      ensures src in old(files) && device(src) == device(dst) ==>
        r == Pass && files == (old(files) - {src})[dst := old(files)[src]]
    {
      if src !in files {
        return Fail("ENOENT");
      }
      if device(src) != device(dst) {
        return Fail("EXDEV");
      }
      files := (files - {src})[dst := files[src]];
      r := Pass;
    }

    /** `fs.copyFile` */
    method CopyFile(src: string, dst: string) returns (r: Outcome<string>)
      modifies this
      ensures src !in old(files) ==> r == Fail("ENOENT") && files == old(files)
      ensures src in old(files) ==> r == Pass && files == old(files)[dst := old(files)[src]]
    {
      if src !in files {
        return Fail("ENOENT");
      }
      files := files[dst := files[src]];
      r := Pass;
    }

    /** `fs.unlink` */
    method Unlink(p: string) returns (r: Outcome<string>)
      modifies this
      ensures p !in old(files) ==> r == Fail("ENOENT") && files == old(files)
      ensures p in old(files) ==> r == Pass && files == old(files) - {p}
    {
      if p !in files {
        return Fail("ENOENT");
      }
      files := files - {p};
      r := Pass;
    }

    /** `move`: a rename, and on EXDEV a copy followed by an unlink; any other
        failure is rethrown. Whether or not the devices differ, a file that
        exists ends up under the new path only. */
    method Move(src: string, dst: string) returns (r: Outcome<string>)
      modifies this
      ensures src !in old(files) ==> r == Fail("ENOENT") && files == old(files)
      ensures src in old(files) ==> r == Pass && files == MovedFile(old(files), src, dst)
    {
      r := Rename(src, dst);
      if r == Fail("EXDEV") {
        r := CopyFile(src, dst);
        if r.Pass? {
          r := Unlink(src);
        }
      }
    }
  }

  /** The effect of moving `src` to `dst`. */
  function MovedFile(files: map<string, string>, src: string, dst: string): (m: map<string, string>)
    requires src in files
    ensures dst in m && m[dst] == files[src]
    ensures src != dst ==> src !in m
    ensures forall p :: p != src && p != dst ==> (p in m <==> p in files) && (p in m ==> m[p] == files[p])
  {
    (files - {src})[dst := files[src]]
  }

  /** The moves `flattenFolder` makes, in order: every collected file to its
      destination name under `dirPath`. */
  function Moves(files: seq<string>, dirPath: string, sep: char): (ms: seq<(string, string)>)
    ensures |ms| == |files|
    ensures forall i :: 0 <= i < |files| ==>
      ms[i] == (files[i], JoinPath(dirPath, DestName(files[i], dirPath, sep), sep))
  {
    seq(|files|, i requires 0 <= i < |files| => (files[i], JoinPath(dirPath, DestName(files[i], dirPath, sep), sep)))
  }

  /** The files after the given moves, stopping at the first move whose
      source is missing; with the failing source, if any. */
  function ApplyMoves(files: map<string, string>, ms: seq<(string, string)>): (map<string, string>, Option<string>)
    decreases |ms|
  {
    if ms == [] then (files, None)
    else if ms[0].0 !in files then (files, Some(ms[0].0))
    else ApplyMoves(MovedFile(files, ms[0].0, ms[0].1), ms[1..])
  }

  /** `flattenFolder`: lists the files below `dirPath` and moves each to its
      destination name; a failing move rejects the whole call. */
  method FlattenFolder(tree: FileTree, dirPath: string, listing: Listing, sep: char) returns (r: Outcome<string>)
    modifies tree
    ensures var (after, failed) := ApplyMoves(old(tree.files), Moves(WalkFrom(dirPath, listing, 0, true, sep), dirPath, sep));
      tree.files == after && (r == Pass <==> failed.None?)
  {
    var files := FilesInDirectory(dirPath, listing, true, sep, []);
    ghost var ms := Moves(files, dirPath, sep);
    ghost var start := tree.files;
    var i := 0;
    r := Pass;
    while i < |files|
      invariant i <= |files|
      invariant files == WalkFrom(dirPath, listing, 0, true, sep) && ms == Moves(files, dirPath, sep)
      invariant ApplyMoves(start, ms) == ApplyMoves(tree.files, ms[i..])
    {
      var dest := JoinPath(dirPath, DestName(files[i], dirPath, sep), sep);
      assert ms[i..][0] == (files[i], dest);
      assert ms[i..][1..] == ms[i + 1..];
      var moved := tree.Move(files[i], dest);
      if moved.Fail? {
        return Fail(moved.error);
      }
      i := i + 1;
    }
    assert ms[i..] == [];
  }
}
