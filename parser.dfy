/** The current XBRL extractor (`express-server/src/services/parser.ts`).

    The value regex is modelled by its output: the sequence of its matches
    over the document, each either a field element with its CDATA and text
    captures or a bare closing tag. A bare `</ORD>` or `</INRD>` closes an
    instrument; every field element of the column table overwrites the
    accumulator, which is never reset. `decode` (HTML entity decoding) is a
    parameter. */
module Parser {
  import opened Wrappers
  import opened Strings
  import opened Columns
  import Csv
  import opened FileStore
  import opened CsvFiles

  /** One match of the value regex: `Field` for
      `<tag ...>(<![CDATA[cdata]]>|text)</tag>`, `Close` for a bare closing
      tag (captures the regex leaves unset are `None`). */
  datatype Match =
    | Field(tag: string, cdata: Option<string>, text: Option<string>)
    | Close(tag: string)

  /** The closing tags that end an instrument (`endTagSet`). */
  predicate IsEndMarker(m: Match) {
    m.Close? && (m.tag == "ORD" || m.tag == "INRD")
  }

  /** `m` is a field element for `tag`. */
  predicate Sets(m: Match, tag: string) {
    m.Field? && m.tag == tag
  }

  /** `cdata || text || ""`: the first non-empty capture. */
  function RawValue(cdata: Option<string>, text: Option<string>): (v: string)
    ensures cdata.Some? && cdata.value != "" ==> v == cdata.value
    ensures !(cdata.Some? && cdata.value != "") && text.Some? ==> v == text.value
    ensures !(cdata.Some? && cdata.value != "") && text.None? ==> v == ""
  {
    if cdata.Some? && cdata.value != "" then cdata.value
    else if text.Some? && text.value != "" then text.value
    else ""
  }

  /** The value a field element stores. */
  function Stored(m: Match, decode: string -> string): string
    requires m.Field?
  {
    decode(RawValue(m.cdata, m.text))
  }

  /** The positions of the end markers, in text order. */
  function EndPositions(ms: seq<Match>): (ps: seq<nat>)
    ensures forall k :: 0 <= k < |ps| ==> ps[k] < |ms| && IsEndMarker(ms[ps[k]])
    ensures forall k, l :: 0 <= k < l < |ps| ==> ps[k] < ps[l]
    ensures forall j :: 0 <= j < |ms| && IsEndMarker(ms[j]) ==> j in ps
    decreases |ms|
  {
    if ms == [] then []
    else
      var init := ms[..|ms| - 1];
      EndPositions(init) + (if IsEndMarker(ms[|ms| - 1]) then [|ms| - 1] else [])
  }

  /** The position of the last field element for `tag`. */
  function LastField(ms: seq<Match>, tag: string): (r: Option<nat>)
    ensures r.Some? ==> r.value < |ms| && Sets(ms[r.value], tag)
    ensures r.Some? ==> forall j :: r.value < j < |ms| ==> !Sets(ms[j], tag)
    ensures r.None? ==> forall j :: 0 <= j < |ms| ==> !Sets(ms[j], tag)
    decreases |ms|
  {
    if ms == [] then None
    else if Sets(ms[|ms| - 1], tag) then Some(|ms| - 1)
    else LastField(ms[..|ms| - 1], tag)
  }

  /** The last stored value for `tag`, if any. */
  function LastValue(ms: seq<Match>, tag: string, decode: string -> string): Option<string> {
    match LastField(ms, tag)
    case None => None
    case Some(j) => Some(Stored(ms[j], decode))
  }

  predicate NoLineTerminator(s: string) {
    '\n' !in s && '\r' !in s && '\U{2028}' !in s && '\U{2029}' !in s
  }

  /** The entry filter `/\/$|^(?!.*\.xml$).*$/`: a directory, or a name
      without line terminators (which `.` does not cross) that does not end
      in `.xml`. */
  predicate Skipped(fileName: string) {
    EndsWith(fileName, "/") || (NoLineTerminator(fileName) && !EndsWith(fileName, ".xml"))
  }

  /** Directories are always skipped; any other name without line terminators
      is processed exactly when it ends in `.xml`. */
  lemma SkipRule(fileName: string)
    ensures EndsWith(fileName, "/") ==> Skipped(fileName)
    ensures NoLineTerminator(fileName) ==> (!Skipped(fileName) <==> EndsWith(fileName, ".xml"))
  {
    if EndsWith(fileName, ".xml") {
      assert fileName[|fileName| - 1] == 'l';
    }
  }

  /** A ZIP entry: its name and either the match sequence of its text or
      the error its read stream failed with. */
  datatype ZipEntry = ZipEntry(fileName: string, content: Result<seq<Match>, string>)

  /** An opened archive: the entries it yields in order, then either its
      "end" event (`error` is `None`) or the "error" event it stops with. */
  datatype Archive = Archive(entries: seq<ZipEntry>, error: Option<string>)

  /** The read errors that escape the entry handler. */
  function ReadErrors(es: seq<ZipEntry>): (errs: seq<string>)
    ensures |errs| <= |es|
    decreases |es|
  {
    if es == [] then []
    else
      var e := es[|es| - 1];
      ReadErrors(es[..|es| - 1]) + (if !Skipped(e.fileName) && e.content.Failure? then [e.content.error] else [])
  }

  /** The parser and the tables its constructor builds. */
  class Parser {
    /** `Object.keys(xmlTagToCsvColumnMap)`: the column tags, in order. */
    const columnTags: seq<string>
    /** `Object.values(xmlTagToCsvColumnMap)`: the CSV column names. */
    const columnHeaders: seq<string>

    /** The column table; no column name needs CSV quoting. */
    constructor()
      ensures columnTags == Tags && columnHeaders == Headers
      ensures forall h :: h in columnHeaders ==> !Csv.NeedsQuoting(h)
    {
      columnTags := Tags;
      columnHeaders := Headers;
      new;
      HeadersPlain();
    }

    /** The effect of one match on the accumulator. */
    function Apply(acc: Record, m: Match, decode: string -> string): Record {
      if m.Field? && m.tag in columnTags then acc[m.tag := Stored(m, decode)] else acc
    }

    /** The accumulator after the given matches. */
    function StateAfter(ms: seq<Match>, decode: string -> string): Record
      decreases |ms|
    {
      if ms == [] then EmptyRecord
      else Apply(StateAfter(ms[..|ms| - 1], decode), ms[|ms| - 1], decode)
    }

    /** The instruments emitted for the given matches: a copy of the
        accumulator at every end marker. */
    function Records(ms: seq<Match>, decode: string -> string): seq<Record>
      decreases |ms|
    {
      if ms == [] then []
      else
        var init := ms[..|ms| - 1];
        Records(init, decode) + (if IsEndMarker(ms[|ms| - 1]) then [StateAfter(init, decode)] else [])
    }

    /** `parseXml`. */
    method ParseXml(ms: seq<Match>, decode: string -> string) returns (result: seq<Record>)
      ensures result == Records(ms, decode)
      ensures |result| == |EndPositions(ms)|
      ensures forall k :: 0 <= k < |result| ==> result[k] == StateAfter(ms[..EndPositions(ms)[k]], decode)
    {
      result := [];
      var current := EmptyRecord;
      var i := 0;
      while i < |ms|
        invariant i <= |ms|
        invariant current == StateAfter(ms[..i], decode)
        invariant result == Records(ms[..i], decode)
      {
        var m := ms[i];
        assert ms[..i + 1][..i] == ms[..i];
        ghost var next := Apply(current, m, decode);
        assert StateAfter(ms[..i + 1], decode) == next;
        assert Records(ms[..i + 1], decode) ==
          Records(ms[..i], decode) + (if IsEndMarker(m) then [current] else []);
        if IsEndMarker(m) {
          result := result + [current];
        } else if m.Field? && m.tag in columnTags {
          current := current[m.tag := decode(RawValue(m.cdata, m.text))];
        }
        assert current == next;
        i := i + 1;
      }
      assert ms[..i] == ms;
      RecordsAtEnds(ms, decode);
    }

    /** One instrument per end marker, in text order, each the accumulator
        as it stood at its marker. */
    lemma {:induction false} RecordsAtEnds(ms: seq<Match>, decode: string -> string)
      ensures |Records(ms, decode)| == |EndPositions(ms)|
      ensures forall k :: 0 <= k < |EndPositions(ms)| ==>
        Records(ms, decode)[k] == StateAfter(ms[..EndPositions(ms)[k]], decode)
      decreases |ms|
    {
      if ms != [] {
        var init := ms[..|ms| - 1];
        RecordsAtEnds(init, decode);
        var ps := EndPositions(init);
        forall k | 0 <= k < |ps| ensures ms[..ps[k]] == init[..ps[k]] {
        }
      }
    }

    /** Snapshots: matches that come later never alter an instrument
        already emitted. */
    lemma {:induction false} RecordsGrow(ms: seq<Match>, more: seq<Match>, decode: string -> string)
      ensures Records(ms, decode) <= Records(ms + more, decode)
      decreases |more|
    {
      if more != [] {
        var all := ms + more;
        var init := more[..|more| - 1];
        assert all[..|all| - 1] == ms + init;
        RecordsGrow(ms, init, decode);
      } else {
        assert ms + more == ms;
      }
    }

    /** A field element, or any closing tag other than an end marker, never
        emits an instrument. */
    lemma NonMarkerEmitsNothing(ms: seq<Match>, m: Match, decode: string -> string)
      requires !IsEndMarker(m)
      ensures Records(ms + [m], decode) == Records(ms, decode)
    {
      assert (ms + [m])[..|ms|] == ms;
    }

    /** Tags outside the column table, the end markers and every other
        closing tag leave the accumulator as it was. */
    lemma UntrackedLeavesState(ms: seq<Match>, m: Match, decode: string -> string)
      requires m.Close? || m.tag !in columnTags
      ensures StateAfter(ms + [m], decode) == StateAfter(ms, decode)
    {
      assert (ms + [m])[..|ms|] == ms;
    }

    /** The accumulator holds, for each column tag, the decoded value of the
        last element for that tag, or nothing when there was none; a tag
        outside the table is never set. */
    lemma {:induction false} StateIsLastValue(ms: seq<Match>, tag: string, decode: string -> string)
      ensures tag !in columnTags ==> Get(StateAfter(ms, decode), tag) == None
      ensures tag in columnTags ==> Get(StateAfter(ms, decode), tag) == LastValue(ms, tag, decode)
      decreases |ms|
    {
      if ms != [] {
        var init := ms[..|ms| - 1];
        StateIsLastValue(init, tag, decode);
        if !Sets(ms[|ms| - 1], tag) {
          match LastField(init, tag)
          case None =>
          case Some(j) =>
            assert ms[j] == init[j];
        }
      }
    }

    /** Each emitted instrument holds, for every column, the last value seen
        for that tag before its end marker. */
    lemma RecordFieldIsLastValue(ms: seq<Match>, k: nat, tag: string, decode: string -> string)
      requires k < |EndPositions(ms)|
      requires tag in columnTags
      ensures |Records(ms, decode)| == |EndPositions(ms)|
      ensures Get(Records(ms, decode)[k], tag) == LastValue(ms[..EndPositions(ms)[k]], tag, decode)
    {
      RecordsAtEnds(ms, decode);
      var p := EndPositions(ms)[k];
      StateIsLastValue(ms[..p], tag, decode);
    }

    // -------------------------------------------------------------------
    // CSV files

    /** `columnHeaders.join(",")` */
    function HeaderLine(): string {
      Join(columnHeaders, ",")
    }

    /** `createCsvFile`: the header line only. */
    method CreateCsvFile(disk: Disk, p: Path)
      modifies disk
      ensures disk.files == old(disk.files)[p := HeaderLine()]
    {
      disk.WriteFile(p, Join(columnHeaders, ","));
    }

    /** `appendCsvFile`: one line per instrument after what is there. */
    method AppendCsvFile(disk: Disk, p: Path, rs: seq<Record>)
      modifies disk
      ensures disk.files == old(disk.files)[p := old(disk.Contents(p)) + DataText(columnTags, rs)]
    {
      disk.AppendFile(p, DataText(columnTags, rs));
    }

    // -------------------------------------------------------------------
    // The archive

    /** The instruments an entry contributes. */
    function EntryRecords(e: ZipEntry, decode: string -> string): seq<Record> {
      if Skipped(e.fileName) || e.content.Failure? then []
      else Records(e.content.value, decode)
    }

    /** The instruments of every entry, entry by entry. */
    function Batches(es: seq<ZipEntry>, decode: string -> string): (bs: seq<seq<Record>>)
      ensures |bs| == |es|
      ensures forall i :: 0 <= i < |es| ==> bs[i] == EntryRecords(es[i], decode)
    {
      seq(|es|, i requires 0 <= i < |es| => EntryRecords(es[i], decode))
    }

    /** `processXmlData`: parses one entry and, when it yields instruments,
        writes the header if the name is new to this archive call and then
        appends the rows. */
    method ProcessXmlData(disk: Disk, ms: seq<Match>, names: seq<string>, decode: string -> string)
      returns (names': seq<string>)
      modifies disk
      ensures var rs := Records(ms, decode);
        names' == (if rs == [] || CsvName(rs[0]) in names then names else names + [CsvName(rs[0])])
      ensures Wrote(old(disk.files), disk.files, names, HeaderLine(), columnTags, Records(ms, decode))
    {
      var parsed := ParseXml(ms, decode);
      if |parsed| == 0 {
        return names;
      }
      var first := parsed[0];
      var name := CsvName(first);
      ghost var start := if name in names then disk.Contents(Staging(name)) else HeaderLine();
      names' := names;
      if name !in names {
        names' := names + [name];
        CreateCsvFile(disk, Staging(name));
      }
      assert disk.Contents(Staging(name)) == start;
      AppendCsvFile(disk, Staging(name), parsed);
    }

    /** The entry handler: a skipped entry does nothing, a failed read
        yields its error, any other entry goes through `processXmlData`. */
    method HandleEntry(disk: Disk, e: ZipEntry, names: seq<string>, decode: string -> string)
      returns (names': seq<string>, failed: seq<string>)
      modifies disk
      ensures var rs := EntryRecords(e, decode);
        names' == (if rs == [] || CsvName(rs[0]) in names then names else names + [CsvName(rs[0])])
      ensures failed == (if !Skipped(e.fileName) && e.content.Failure? then [e.content.error] else [])
      ensures Wrote(old(disk.files), disk.files, names, HeaderLine(), columnTags, EntryRecords(e, decode))
    {
      names', failed := names, [];
      if Skipped(e.fileName) {
        return;
      }
      match e.content {
        case Failure(err) =>
          failed := [err];
        case Success(ms) =>
          names' := ProcessXmlData(disk, ms, names, decode);
      }
    }

    /** What one more entry does to the batches and the errors. */
    lemma AddEntry(es: seq<ZipEntry>, e: ZipEntry, decode: string -> string)
      ensures Batches(es + [e], decode) == Batches(es, decode) + [EntryRecords(e, decode)]
      ensures ReadErrors(es + [e]) ==
        ReadErrors(es) + (if !Skipped(e.fileName) && e.content.Failure? then [e.content.error] else [])
    {
      assert (es + [e])[..|es|] == es;
    }

    /** One more entry through the handler keeps the staging directory in
        step with the entries handled so far. */
    lemma EntryAdvance(es: seq<ZipEntry>, i: nat, before: map<Path, string>, after: map<Path, string>,
                       decode: string -> string)
      requires i < |es|
      requires Staged(before, NamesOf(Batches(es[..i], decode)), HeaderLine(), columnTags, Batches(es[..i], decode))
      requires Wrote(before, after, NamesOf(Batches(es[..i], decode)), HeaderLine(), columnTags, EntryRecords(es[i], decode))
      ensures var rs := EntryRecords(es[i], decode);
        var names := NamesOf(Batches(es[..i], decode));
        NamesOf(Batches(es[..i + 1], decode)) ==
          (if rs == [] || CsvName(rs[0]) in names then names else names + [CsvName(rs[0])])
      ensures ReadErrors(es[..i + 1]) == ReadErrors(es[..i]) +
        (if !Skipped(es[i].fileName) && es[i].content.Failure? then [es[i].content.error] else [])
      ensures Staged(after, NamesOf(Batches(es[..i + 1], decode)), HeaderLine(), columnTags, Batches(es[..i + 1], decode))
      ensures forall p: Path :: p.name !in NamesOf(Batches(es[..i + 1], decode)) ==>
        (p.name !in NamesOf(Batches(es[..i], decode)) && (p in after <==> p in before) && (p in after ==> after[p] == before[p]))
    {
      assert es[..i + 1] == es[..i] + [es[i]];
      AddEntry(es[..i], es[i], decode);
      BatchStep(before, after, HeaderLine(), columnTags, Batches(es[..i], decode), EntryRecords(es[i], decode),
                Batches(es[..i + 1], decode));
    }

    /** The entry loop of `processZipArchive`: every entry in order through
        the entry handler, leaving the staging directory holding, for each
        CSV name, its header and all its rows. */
    method ReadEntries(disk: Disk, es: seq<ZipEntry>, decode: string -> string)
      returns (names: seq<string>, unhandled: seq<string>)
      modifies disk
      ensures names == NamesOf(Batches(es, decode))
      ensures unhandled == ReadErrors(es)
      ensures Staged(disk.files, names, HeaderLine(), columnTags, Batches(es, decode))
      ensures Untouched(disk.files, old(disk.files), names)
    {
      names, unhandled := [], [];
      var i := 0;
      while i < |es|
        invariant i <= |es|
        invariant names == NamesOf(Batches(es[..i], decode))
        invariant unhandled == ReadErrors(es[..i])
        invariant Staged(disk.files, names, HeaderLine(), columnTags, Batches(es[..i], decode))
        invariant Untouched(disk.files, old(disk.files), names)
      {
        ghost var before := disk.files;
        var failed;
        names, failed := HandleEntry(disk, es[i], names, decode);
        EntryAdvance(es, i, before, disk.files, decode);
        unhandled := unhandled + failed;
        i := i + 1;
      }
      assert es[..i] == es;
    }

    /** `processZipArchive`. `archive` is the opened archive or the error
        opening it failed with; `unhandled` collects the entry errors that
        reject the entry handler, which nothing awaits. When the archive
        ends with an "error" event instead of "end", the call rejects with
        it and the staged files stay where they are; otherwise every staged
        file is moved to the output directory. */
    method ProcessZipArchive(disk: Disk, archive: Result<Archive, string>, decode: string -> string)
      returns (r: Outcome<string>, unhandled: seq<string>)
      modifies disk
      ensures archive.Failure? ==>
        r == Fail("Error processing ZIP file: " + archive.error) && unhandled == [] &&
        disk.files == old(disk.files)
      ensures archive.Success? ==> unhandled == ReadErrors(archive.value.entries)
      ensures archive.Success? && archive.value.error.Some? ==>
        var bs := Batches(archive.value.entries, decode);
        r == Fail("Error processing ZIP file: " + archive.value.error.value) &&
        Staged(disk.files, NamesOf(bs), HeaderLine(), columnTags, bs) &&
        Untouched(disk.files, old(disk.files), NamesOf(bs))
      ensures archive.Success? && archive.value.error.None? ==>
        var bs := Batches(archive.value.entries, decode);
        var names := NamesOf(bs);
        r == Pass &&
        Untouched(disk.files, old(disk.files), names) &&
        forall n :: n in names ==>
          Staging(n) !in disk.files && Output(n) in disk.files &&
          disk.files[Output(n)] == HeaderLine() + DataText(columnTags, RowsNamed(bs, n))
    {
      if archive.Failure? {
        return Fail("Error processing ZIP file: " + archive.error), [];
      }
      var names;
      names, unhandled := ReadEntries(disk, archive.value.entries, decode);
      if archive.value.error.Some? {
        return Fail("Error processing ZIP file: " + archive.value.error.value), unhandled;
      }
      var bs := Batches(archive.value.entries, decode);
      NamesAreWrittenNames(bs);
      ghost var texts := seq(|names|, k requires 0 <= k < |names| => FileText(HeaderLine(), columnTags, bs, names[k]));
      RenameAll(disk, names, texts);
      r := Pass;
    }
  }
}
