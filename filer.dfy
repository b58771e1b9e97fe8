/** `Filer` of `ratings-history-express/src/services/filer.ts`: the cache of
    output-file metadata kept in a JSON file, updated from the output
    directory's watcher events, and the listing and file operations built on
    it.

    The handler and `get` read the metadata file as a JSON object keyed by
    file name (JSON keeps its key order), modelled as the object itself.
    `initialize`, as written, seeds the file with a JSON array instead; that
    array and what the handler and `get` do with it are modelled apart
    (`Seed`, `ApplyEventsAsWritten`, `GetAsWritten`), and the class keeps the
    keyed object throughout, seeded with the same files (`KeyedSeed`). The
    metadata the handler generates for a file (its creation date, size and
    line count, read from the file system) is carried by the event. The mutex
    makes the read-modify-write of each event run one after the other, in
    event order: the model applies them in sequence. */
module Filer {
  import opened Wrappers
  import General
  import opened JsObject
  import Hub
  import Strings

  datatype BaseMetadata = BaseMetadata(date: string, size: nat, lines: nat)

  datatype EventType = Create | Update | Delete | OtherType

  /** A watcher event, with the metadata `generateMetadata` reads for its
      path when the handler reaches it (unused for a deletion). */
  datatype WatchEvent = WatchEvent(kind: EventType, path: string, meta: BaseMetadata)

  /** The metadata object: file name to metadata. */
  type Store = JsObject.Object<BaseMetadata>

  /** `path.basename`: the last segment of the path once trailing
      separators are dropped. */
  function Basename(p: string): (b: string)
    ensures '/' !in b
    decreases |p|
  {
    if p == [] then []
    else if p[|p| - 1] == '/' then Basename(p[..|p| - 1])
    else LastSegment(p)
  }

  function LastSegment(p: string): (b: string)
    ensures '/' !in b && |b| <= |p| && p[|p| - |b|..] == b
    ensures |b| < |p| ==> p[|p| - |b| - 1] == '/'
    decreases |p|
  {
    if p == [] || p[|p| - 1] == '/' then []
    else LastSegment(p[..|p| - 1]) + [p[|p| - 1]]
  }

  /** The basename of a path joined under a directory is the file name
      joined, for a non-empty name without separators: the name the
      watcher's events for a file in the output directory are filed under. */
  lemma BasenameOfJoin(dir: string, name: string)
    requires name != [] && '/' !in name
    ensures Basename(dir + "/" + name) == name
  {
    var p := dir + "/" + name;
    assert p[|p| - 1] == name[|name| - 1];
    assert forall i :: |p| - |name| <= i < |p| ==> p[i] == name[i - (|p| - |name|)];
    assert p[|p| - |name| - 1] == '/';
  }

  /** One event under the mutex: a creation or an update stores the fresh
      metadata under the file's name, a deletion removes the name, and any
      other event type writes the store back unchanged. */
  function ApplyEvent(s: Store, e: WatchEvent): (r: Store)
    requires Keyed(s)
    ensures Keyed(r)
    ensures (e.kind == Create || e.kind == Update) ==>
      r.values == s.values[Basename(e.path) := e.meta] && forall k :: k in s.keys ==> k in r.keys
    ensures e.kind == Delete ==> r.values == s.values - {Basename(e.path)}
    ensures e.kind == OtherType ==> r == s
  {
    match e.kind
    case Create => Put(s, Basename(e.path), e.meta)
    case Update => Put(s, Basename(e.path), e.meta)
    case Delete => Remove(s, Basename(e.path))
    case OtherType => s
  }

  function ApplyEvents(s: Store, events: seq<WatchEvent>): (r: Store)
    requires Keyed(s)
    ensures Keyed(r)
    decreases |events|
  {
    if events == [] then s
    else ApplyEvent(ApplyEvents(s, events[..|events| - 1]), events[|events| - 1])
  }

  /** Whether the event names the file: a creation, update or deletion of
      a path with that basename. */
  predicate Touches(e: WatchEvent, name: string) {
    e.kind != OtherType && Basename(e.path) == name
  }

  /** The last event of the batch that names the file, if any. */
  function LastTouch(events: seq<WatchEvent>, name: string): (r: Option<nat>)
    ensures r.Some? ==> (r.value < |events| && Touches(events[r.value], name) &&
                         forall j :: r.value < j < |events| ==> !Touches(events[j], name))
    ensures r.None? ==> forall j :: 0 <= j < |events| ==> !Touches(events[j], name)
    decreases |events|
  {
    if events == [] then None
    else if Touches(events[|events| - 1], name) then Some(|events| - 1)
    else LastTouch(events[..|events| - 1], name)
  }

  /** What a batch leaves under a name: the last event naming the file
      decides (fresh metadata for a creation or update, nothing for a
      deletion); a file no event names keeps its entry. */
  lemma {:induction false} LastEventDecides(s: Store, events: seq<WatchEvent>, name: string)
    requires Keyed(s)
    ensures var r := ApplyEvents(s, events);
      match LastTouch(events, name)
      case None => (name in r.values <==> name in s.values) && (name in s.values ==> r.values[name] == s.values[name])
      case Some(i) =>
        (events[i].kind == Delete ==> name !in r.values) &&
        (events[i].kind != Delete ==> name in r.values && r.values[name] == events[i].meta)
    decreases |events|
  {
    if events != [] {
      LastEventDecides(s, events[..|events| - 1], name);
    }
  }

  /** The watcher's report of a rename (`old` deleted, `new` created) moves
      the entry: the new name holds the fresh metadata, the old name is
      gone, and every other entry is kept. */
  lemma RenameReported(s: Store, oldPath: string, newPath: string, meta: BaseMetadata, unused: BaseMetadata)
    requires Keyed(s) && Basename(oldPath) != Basename(newPath)
    ensures var r := ApplyEvents(s, [WatchEvent(Delete, oldPath, unused), WatchEvent(Create, newPath, meta)]);
      Basename(oldPath) !in r.values && Basename(newPath) in r.values && r.values[Basename(newPath)] == meta &&
      forall k :: k != Basename(oldPath) && k != Basename(newPath) ==>
        (k in r.values <==> k in s.values) && (k in s.values ==> r.values[k] == s.values[k])
  {
    var batch := [WatchEvent(Delete, oldPath, unused), WatchEvent(Create, newPath, meta)];
    var deleted := ApplyEvent(s, batch[0]);
    var r := ApplyEvent(deleted, batch[1]);
    assert ApplyEvents(s, []) == s;
    assert batch[..1] == [batch[0]] && [batch[0]][..0] == [];
    assert ApplyEvents(s, batch[..1]) == deleted;
    assert ApplyEvents(s, batch) == r;
    assert r.values == (s.values - {Basename(oldPath)})[Basename(newPath) := meta];
  }

  /** `get(fileName)` and `get()`: one file's entry, or the whole listing. */
  datatype Listing = One(entry: Option<General.FileMetadata>) | All(entries: seq<General.FileMetadata>)

  /** `{ name, ...meta }` */
  function Named(name: string, m: BaseMetadata): General.FileMetadata {
    General.FileMetadata(name, m.date, m.lines, m.size)
  }

  /** A stored file's listing entry: its metadata with its name added. */
  function Entry(s: Store, name: string): (f: General.FileMetadata)
    requires name in s.values
    ensures f.name == name && f.date == s.values[name].date
    ensures f.size == s.values[name].size && f.lines == s.values[name].lines
  {
    Named(name, s.values[name])
  }

  /** `get`: for a (truthy) name, its entry with the name added, or
      undefined when there is none; without a name, or with the empty one,
      one entry per key in key order, named by its key. */
  function Get(s: Store, fileName: Option<string>): (r: Listing)
    requires Keyed(s)
    ensures fileName.Some? && fileName.value != "" ==>
      r.One? && (r.entry.Some? <==> fileName.value in s.values) &&
      (r.entry.Some? ==> r.entry.value == Entry(s, fileName.value))
    ensures fileName.None? || fileName.value == "" ==>
      r.All? && |r.entries| == |s.keys| &&
      forall i :: 0 <= i < |s.keys| ==>
        r.entries[i] == Entry(s, s.keys[i])
  {
    if fileName.Some? && fileName.value != "" then
      One(if fileName.value in s.values then Some(Entry(s, fileName.value)) else None)
    else
      All(seq(|s.keys|, i requires 0 <= i < |s.keys| => Entry(s, s.keys[i])))
  }

  // ---------------------------------------------------------------------
  // Seeding: the files `initialize` finds, with the metadata it generates

  /** The name of each file found, in directory order. */
  function Names(found: seq<(string, BaseMetadata)>): (ns: seq<string>)
    ensures |ns| == |found| && forall i :: 0 <= i < |found| ==> ns[i] == found[i].0
  {
    seq(|found|, i requires 0 <= i < |found| => found[i].0)
  }

  /** The listing `initialize` builds: `{ name: file, ...meta }` per file. */
  function StartupListing(found: seq<(string, BaseMetadata)>): (l: seq<General.FileMetadata>)
    ensures |l| == |found| && forall i :: 0 <= i < |found| ==> l[i] == Named(found[i].0, found[i].1)
  {
    seq(|found|, i requires 0 <= i < |found| => Named(found[i].0, found[i].1))
  }

  /** The seed the handler and `get` expect: the files found, as an object
      keyed by file name, in directory order. */
  function KeyedSeed(found: seq<(string, BaseMetadata)>): (s: Store)
    requires Hub.Distinct(Names(found))
    ensures Keyed(s) && s.keys == Names(found)
    decreases |found|
  {
    if found == [] then Object([], map[])
    else
      var init := found[..|found| - 1];
      var last := found[|found| - 1];
      NamesInit(found);
      var s := KeyedSeed(init);
      assert last.0 !in s.values;
      Put(s, last.0, last.1)
  }

  lemma NamesInit(found: seq<(string, BaseMetadata)>)
    requires found != [] && Hub.Distinct(Names(found))
    ensures var init := found[..|found| - 1];
      Hub.Distinct(Names(init)) && found[|found| - 1].0 !in Names(init) &&
      Names(found) == Names(init) + [found[|found| - 1].0] &&
      forall i :: 0 <= i < |init| ==> init[i] == found[i] && found[i].0 != found[|found| - 1].0
  {
    var init := found[..|found| - 1];
    assert Names(init) == Names(found)[..|found| - 1];
    assert Names(found)[|found| - 1] == found[|found| - 1].0;
  }

  /** The keyed seed holds each file's metadata under its name. */
  lemma {:induction false} KeyedSeedHolds(found: seq<(string, BaseMetadata)>)
    requires Hub.Distinct(Names(found))
    ensures forall i :: 0 <= i < |found| ==> KeyedSeed(found).values[found[i].0] == found[i].1
    decreases |found|
  {
    if found != [] {
      var init := found[..|found| - 1];
      NamesInit(found);
      KeyedSeedHolds(init);
    }
  }

  /** Seeded with the files found, `get()` lists the startup listing. */
  lemma KeyedSeedLists(found: seq<(string, BaseMetadata)>)
    requires Hub.Distinct(Names(found))
    ensures Get(KeyedSeed(found), None) == All(StartupListing(found))
  {
    var s := KeyedSeed(found);
    var r := Get(s, None);
    KeyedSeedHolds(found);
    assert |r.entries| == |found|;
    forall i | 0 <= i < |found|
      ensures r.entries[i] == StartupListing(found)[i]
    {
      assert s.keys[i] == found[i].0;
    }
  }

  // ---------------------------------------------------------------------
  // The metadata file as `initialize` writes it: a JSON array

  /** An element of the array: a listing entry as `initialize` wrote it, or
      the bare metadata the handler assigned at an index. */
  datatype Item = Listed(entry: General.FileMetadata) | Bare(meta: BaseMetadata)

  /** The array in the metadata file; `None` is the `null` that
      `JSON.stringify` writes where an element is missing. */
  type Seeded = seq<Option<Item>>

  /** What `initialize` writes: the startup listing as an array. */
  function Seed(found: seq<(string, BaseMetadata)>): (a: Seeded)
    ensures |a| == |found|
    ensures forall i :: 0 <= i < |found| ==> a[i] == Some(Listed(StartupListing(found)[i]))
  {
    seq(|found|, i requires 0 <= i < |found| => Some(Listed(Named(found[i].0, found[i].1))))
  }

  predicate IsDigit(c: char) {
    '0' <= c <= '9'
  }

  /** The number a string of decimal digits denotes. */
  function DigitsValue(n: string): nat
    requires forall i :: 0 <= i < |n| ==> IsDigit(n[i])
    decreases |n|
  {
    if n == [] then 0
    else
      assert IsDigit(n[|n| - 1]);
      10 * DigitsValue(n[..|n| - 1]) + (n[|n| - 1] as int - '0' as int)
  }

  /** Whether JavaScript reads the property name as an array index: the
      decimal digits, without a leading zero, of a number below 2^32 - 1. */
  predicate IsIndex(n: string) {
    n != [] && (forall i :: 0 <= i < |n| ==> IsDigit(n[i])) &&
    (n[0] != '0' || n == "0") && DigitsValue(n) < 0xFFFF_FFFF
  }

  /** `arr[i] = x`, written back: past the end the array grows, and the
      elements skipped are written as `null`. */
  function SetElement(a: Seeded, i: nat, x: Item): (r: Seeded)
    ensures |r| == if i < |a| then |a| else i + 1
    ensures r[i] == Some(x)
    ensures forall j :: 0 <= j < |a| && j != i ==> r[j] == a[j]
    ensures forall j :: |a| <= j < i ==> r[j] == None
  {
    if i < |a| then a[i := Some(x)] else a + seq(i - |a|, _ => None) + [Some(x)]
  }

  const InvalidLength := "RangeError: Invalid array length"
  const LengthNotDeletable := "TypeError: Cannot delete property 'length' of [object Array]"

  /** One event of the handler on the array, written back with
      `JSON.stringify`. A name that is an index writes, or empties, that
      element. `length` is the array's own length: assigning metadata to it
      throws a `RangeError`, and deleting it throws a `TypeError`. Any other
      name becomes, or stops being, a property that is not an element, and
      `JSON.stringify` leaves such properties out: the array is written back
      as it was read. */
  function ApplyEventAsWritten(a: Seeded, e: WatchEvent): (r: Result<Seeded, string>)
    ensures r.Failure? <==> e.kind != OtherType && Basename(e.path) == "length"
    ensures e.kind == OtherType || (!IsIndex(Basename(e.path)) && Basename(e.path) != "length") ==>
      r == Success(a)
    ensures r.Success? && e.kind == Delete && IsIndex(Basename(e.path)) ==>
      var i := DigitsValue(Basename(e.path));
      |r.value| == |a| && (i < |a| ==> r.value[i] == None) &&
      forall j :: 0 <= j < |a| && j != i ==> r.value[j] == a[j]
  {
    var n := Basename(e.path);
    match e.kind
    case OtherType => Success(a)
    case Delete =>
      if n == "length" then Failure(LengthNotDeletable)
      else if IsIndex(n) && DigitsValue(n) < |a| then Success(a[DigitsValue(n) := None])
      else Success(a)
    case _ =>
      if n == "length" then Failure(InvalidLength)
      else if IsIndex(n) then Success(SetElement(a, DigitsValue(n), Bare(e.meta)))
      else Success(a)
  }

  /** A batch on the array. A throw rejects the mutex task, which nothing
      awaits: the unhandled rejection ends the process, so the events after
      it are never applied. */
  function ApplyEventsAsWritten(a: Seeded, events: seq<WatchEvent>): Result<Seeded, string>
    decreases |events|
  {
    if events == [] then Success(a)
    else match ApplyEventsAsWritten(a, events[..|events| - 1])
      case Failure(err) => Failure(err)
      case Success(b) => ApplyEventAsWritten(b, events[|events| - 1])
  }

  /** `{ name, ...element }`: a listing entry carries its own name, which
      the spread writes over the name given. */
  function Shown(name: string, x: Item): General.FileMetadata {
    match x
    case Listed(f) => f
    case Bare(m) => Named(name, m)
  }

  /** `Object.entries` of the array, mapped to entries: each element named
      by its index, in index order. */
  function Elements(a: Seeded): (r: seq<General.FileMetadata>)
    ensures |r| <= |a|
    decreases |a|
  {
    if a == [] then []
    else
      var last := match a[|a| - 1]
        case None => []
        case Some(x) => [Shown(Strings.NatText(|a| - 1), x)];
      Elements(a[..|a| - 1]) + last
  }

  /** `get` on the array: a (truthy) name finds an element only when it is
      an index; without a name, the elements are listed. */
  function GetAsWritten(a: Seeded, fileName: Option<string>): (r: Listing)
    ensures fileName.Some? && fileName.value != "" ==> r.One?
    ensures fileName.Some? && fileName.value != "" && !IsIndex(fileName.value) ==> r == One(None)
    ensures fileName.None? || fileName.value == "" ==> r.All? && |r.entries| <= |a|
  {
    if fileName.Some? && fileName.value != "" then
      var n := fileName.value;
      One(if IsIndex(n) && DigitsValue(n) < |a| && a[DigitsValue(n)].Some?
          then Some(Shown(n, a[DigitsValue(n)].value)) else None)
    else
      All(Elements(a))
  }

  /** The seeded array lists the startup listing: each entry's own name
      wins over its index. */
  lemma {:induction false} SeedListsStartup(found: seq<(string, BaseMetadata)>)
    ensures GetAsWritten(Seed(found), None) == All(StartupListing(found))
    decreases |found|
  {
    if found != [] {
      var init := found[..|found| - 1];
      SeedListsStartup(init);
      assert Seed(found)[..|found| - 1] == Seed(init);
      assert StartupListing(found) == StartupListing(init) + [StartupListing(found)[|found| - 1]];
    }
  }

  /** A name with a dot in it (every CSV the parsers write) is neither an
      index nor `length`. */
  lemma DottedIsProperty(n: string)
    requires '.' in n
    ensures !IsIndex(n) && n != "length"
  {
    var k :| 0 <= k < |n| && n[k] == '.';
    assert !IsDigit(n[k]);
  }

  /** As written, events on files whose names hold a dot leave the array as
      it was: the handler stores and deletes properties that
      `JSON.stringify` drops. */
  lemma {:induction false} SeededIgnoresEvents(a: Seeded, events: seq<WatchEvent>)
    requires forall i :: 0 <= i < |events| ==> '.' in Basename(events[i].path)
    ensures ApplyEventsAsWritten(a, events) == Success(a)
    decreases |events|
  {
    if events != [] {
      SeededIgnoresEvents(a, events[..|events| - 1]);
      DottedIsProperty(Basename(events[|events| - 1].path));
    }
  }

  /** The discrepancy on one input: after startup, the watcher reports a new
      CSV file in the output directory. As written, `get` still cannot find
      it and still lists only the startup files; on the keyed seed the same
      event stores its metadata. */
  lemma SeedLosesCreate(found: seq<(string, BaseMetadata)>, dir: string, name: string, meta: BaseMetadata)
    requires Hub.Distinct(Names(found))
    requires name != [] && '/' !in name && '.' in name
    ensures var e := WatchEvent(Create, dir + "/" + name, meta);
      var seeded := ApplyEventsAsWritten(Seed(found), [e]);
      seeded == Success(Seed(found)) &&
      GetAsWritten(seeded.value, Some(name)) == One(None) &&
      GetAsWritten(seeded.value, None) == All(StartupListing(found)) &&
      Get(ApplyEvents(KeyedSeed(found), [e]), Some(name)) == One(Some(Named(name, meta)))
  {
    var e := WatchEvent(Create, dir + "/" + name, meta);
    BasenameOfJoin(dir, name);
    SeededIgnoresEvents(Seed(found), [e]);
    SeedListsStartup(found);
    DottedIsProperty(name);
    assert [e][..0] == [];
    assert ApplyEvents(KeyedSeed(found), [e]) == ApplyEvent(KeyedSeed(found), e);
  }

  /** The error `fs.rename` and `fs.unlink` reject with for a missing file. */
  const NoSuchFile := "ENOENT: no such file or directory"

  class Filer {
    const outDir: string
    /** The metadata file. */
    var store: Store
    /** The names of the files in the output directory. */
    var files: set<string>
    /** The watcher errors logged. */
    var errors: seq<string>

    ghost predicate Valid()
      reads this
    {
      Keyed(store)
    }

    /** `initialize`: the files found in the output directory, and the
        store seeded with them as an object keyed by file name. */
    constructor(dir: string, found: seq<(string, BaseMetadata)>)
      requires Hub.Distinct(Names(found))
      ensures outDir == dir && files == (set i | 0 <= i < |found| :: found[i].0)
      ensures store == KeyedSeed(found) && errors == []
      ensures Valid() && Get(store, None) == All(StartupListing(found))
    {
      outDir := dir;
      files := set i | 0 <= i < |found| :: found[i].0;
      store := KeyedSeed(found);
      errors := [];
      KeyedSeedLists(found);
    }

    /** `subscribeHandler`: a watcher error is logged and nothing applied;
        otherwise the events are applied one at a time, in order. */
    method SubscribeHandler(err: Option<string>, events: seq<WatchEvent>)
      requires Valid()
      modifies this
      ensures Valid()
      ensures err.Some? ==> store == old(store) && errors == old(errors) + [err.value]
      ensures err.None? ==> store == ApplyEvents(old(store), events) && errors == old(errors)
      ensures files == old(files)
    {
      if err.Some? {
        errors := errors + [err.value];
        return;
      }
      var i := 0;
      while i < |events|
        invariant i <= |events|
        invariant Keyed(store) && store == ApplyEvents(old(store), events[..i])
        invariant files == old(files) && errors == old(errors)
      {
        assert events[..i + 1][..i] == events[..i];
        var e := events[i];
        var current := store;
        match e.kind {
          case Create =>
            current := Put(current, Basename(e.path), e.meta);
          case Update =>
            current := Put(current, Basename(e.path), e.meta);
          case Delete =>
            current := Remove(current, Basename(e.path));
          case OtherType =>
        }
        store := current;
        i := i + 1;
      }
      assert events[..i] == events;
    }

    /** `get` */
    method GetListing(fileName: Option<string>) returns (r: Listing)
      requires Valid()
      ensures r == Get(store, fileName)
    {
      r := Get(store, fileName);
    }

    /** `rename`: only the directory changes (the cache follows when the
        watcher reports it); the old path is returned, and a missing file
        rejects. */
    method Rename(fileName: string, newFileName: string) returns (r: Result<string, string>)
      modifies this
      ensures fileName in old(files) ==>
        r == Success(outDir + "/" + fileName) && files == old(files) - {fileName} + {newFileName}
      ensures fileName !in old(files) ==> r == Failure(NoSuchFile) && files == old(files)
      ensures store == old(store) && errors == old(errors)
    {
      if fileName !in files {
        return Failure(NoSuchFile);
      }
      files := files - {fileName} + {newFileName};
      r := Success(outDir + "/" + fileName);
    }

    /** `delete`: only the directory changes; the path is returned, and a
        missing file rejects. */
    method Delete(fileName: string) returns (r: Result<string, string>)
      modifies this
      ensures fileName in old(files) ==> r == Success(outDir + "/" + fileName) && files == old(files) - {fileName}
      ensures fileName !in old(files) ==> r == Failure(NoSuchFile) && files == old(files)
      ensures store == old(store) && errors == old(errors)
    {
      if fileName !in files {
        return Failure(NoSuchFile);
      }
      files := files - {fileName};
      r := Success(outDir + "/" + fileName);
    }
  }
}
