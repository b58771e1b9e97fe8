/** The earlier XBRL extractor (`ratings-history-express/src/services/parser.ts`).

    The value regex of this revision matches field elements only; the model
    takes its matches as a sequence of `Element`s, and whether the document
    holds an RTT element at all (the separate `rttRegex` test) as a flag.
    An instrument ends at every RTT element, or at every RT element when the
    document has no RTT. The accumulator is one object that is pushed, not
    copied, at every boundary: `Instrument` is a class so that the model
    keeps that aliasing. */
module LegacyParser {
  import opened Wrappers
  import opened Strings
  import opened Columns
  import Csv
  import opened FileStore
  import opened CsvFiles

  /** One match: `<tag ...>(<![CDATA[cdata]]>|text)</tag>`, the capture the
      regex leaves unset being `None`. */
  datatype Element = Element(tag: string, cdata: Option<string>, text: Option<string>)

  /** A document as the parser sees it. */
  datatype Document = Document(hasRttElement: bool, elements: seq<Element>)

  /** The keys an RTT element may follow (`allowedLastKeys`). */
  const AllowedBeforeRtt: seq<string> := ["RT", "RST", "RAC", "WST", "OAN", "ROL"]

  const MisplacedRttMessage: string := "Invalid XML structure: RTT tag must always follow RT tag."

  /** Why `parseXml` throws: an RTT element after a key not in
      `AllowedBeforeRtt`, or a column element whose value is undefined (an
      empty CDATA section, which `decode` cannot take); each carries the
      position of the offending element. */
  datatype ParseError = MisplacedRtt(position: nat) | UndefinedValue(position: nat)

  /** The tag of the previous match; the first element sees the empty key of
      the initial `lastMatch`. */
  function PrevKey(es: seq<Element>, i: nat): (k: string)
    requires i <= |es|
    ensures i == 0 ==> k == ""
    ensures i > 0 ==> k == es[i - 1].tag
  {
    if i == 0 then "" else es[i - 1].tag
  }

  /** `cdata || text`: an empty CDATA capture falls through to the text
      capture, which is then unset. */
  function Value(e: Element): (v: Option<string>)
    ensures e.cdata.Some? && e.cdata.value != "" ==> v == e.cdata
    ensures !(e.cdata.Some? && e.cdata.value != "") ==> v == e.text
  {
    if e.cdata.Some? && e.cdata.value != "" then e.cdata else e.text
  }

  /** Element i is an RTT that does not follow an allowed key. */
  predicate RttMisplaced(es: seq<Element>, i: nat)
    requires i < |es|
  {
    es[i].tag == "RTT" && PrevKey(es, i) !in AllowedBeforeRtt
  }

  /** The number of pushes of the accumulator. */
  function Pushes(hasRttElement: bool, es: seq<Element>): (n: nat)
    ensures n <= |es|
    decreases |es|
  {
    if es == [] then 0
    else
      var t := es[|es| - 1].tag;
      Pushes(hasRttElement, es[..|es| - 1]) +
        (if t == "RTT" then 1 else 0) + (if !hasRttElement && t == "RT" then 1 else 0)
  }

  /** `n` copies of one record. */
  function Copies(n: nat, r: Record): (s: seq<Record>)
    ensures |s| == n
    ensures forall k :: 0 <= k < n ==> s[k] == r
  {
    seq(n, _ => r)
  }

  /** The accumulator object (`currentInstrument`). */
  class Instrument {
    var fields: Record

    /** Every key undefined. */
    constructor()
      ensures fields == EmptyRecord
    {
      fields := EmptyRecord;
    }

    /** `currentInstrument[key] = value` */
    method Set(tag: string, value: string)
      modifies this
      ensures fields == old(fields)[tag := value]
    {
      fields := fields[tag := value];
    }
  }

  /** An archive entry: its name and the document it holds, or the error
      its read stream was rejected with. */
  datatype Entry = Entry(fileName: string, content: Result<Document, string>)

  /** What the entry handler logs for an entry it gives up on. */
  datatype EntryFailure = ReadFailed(reason: string) | ParseFailed(error: ParseError)
  datatype Logged = Logged(fileName: string, failure: EntryFailure)

  /** A rejection as a promise sees it: an `Error` object, or the bare
      message string the archive helpers reject with. */
  datatype Rejection = ErrorObject(message: string) | Message(text: string)

  /** An opened archive: the entries it yields in order, then either its
      "end" event (`error` is `None`) or the "error" event it stops with. */
  datatype Archive = Archive(entries: seq<Entry>, error: Option<Rejection>)

  /** The text of an error wrapped the way this revision writes it,
      `"Error processing zip file: " + err.message ?? err`. The operators
      bind as `("..." + err.message) ?? err`, so a string rejection has no
      `message` and reads as `undefined`. */
  function ZipErrorAsWritten(err: Rejection): (s: string)
    ensures err.Message? ==> s == "Error processing zip file: undefined"
    ensures err.ErrorObject? ==>
      |s| >= |"Error processing zip file: "| && s[|"Error processing zip file: "|..] == err.message
  {
    match err
    case ErrorObject(m) => "Error processing zip file: " + m
    case Message(_) => "Error processing zip file: undefined"
  }

  /** The wrapping as evidently intended: the message, or the rejection itself. */
  function ZipError(err: Rejection): (s: string)
    ensures err.ErrorObject? ==> s == ZipErrorAsWritten(err)
    ensures |s| >= |"Error processing zip file: "| &&
      s[..|"Error processing zip file: "|] == "Error processing zip file: " &&
      s[|"Error processing zip file: "|..] == (if err.ErrorObject? then err.message else err.text)
  {
    "Error processing zip file: " + (match err case ErrorObject(m) => m case Message(t) => t)
  }

  /** The archive helpers reject with strings: for them the written wrapping
      loses the reason, while the intended one keeps it. */
  lemma ZipErrorLosesReason()
    ensures ZipErrorAsWritten(Message("end of central directory record signature not found")) ==
      "Error processing zip file: undefined"
    ensures ZipError(Message("end of central directory record signature not found")) !=
      ZipErrorAsWritten(Message("end of central directory record signature not found"))
    ensures forall a, b :: a != b ==> ZipErrorAsWritten(Message(a)) == ZipErrorAsWritten(Message(b))
    ensures forall a, b :: a != b ==> ZipError(Message(a)) != ZipError(Message(b))
  {
    var r := Message("end of central directory record signature not found");
    assert ZipError(r)[|"Error processing zip file: "|..] == r.text;
    forall a, b | a != b
      ensures ZipError(Message(a)) != ZipError(Message(b))
    {
      assert ZipError(Message(a))[|"Error processing zip file: "|..] == a;
      assert ZipError(Message(b))[|"Error processing zip file: "|..] == b;
    }
  }

  /** The parser and its column table. */
  class LegacyParser {
    /** `Object.keys(columnsMap)`: the column tags, in order. */
    const columnTags: seq<string>
    /** `Object.values(columnsMap)`: the CSV column names. */
    const columnHeaders: seq<string>

    /** The column table; no column name needs CSV quoting. */
    constructor()
      ensures columnTags == Tags && columnHeaders == Headers
      ensures forall h :: h in columnHeaders ==> !Csv.NeedsQuoting(h)
    {
      columnTags := Tags;
      columnHeaders := Headers;
      new;
      HeadersPlain();
    }

    /** The error element i raises, if any: the RTT check comes first. */
    function ElementError(es: seq<Element>, i: nat): (r: Option<ParseError>)
      requires i < |es|
      ensures r == Some(MisplacedRtt(i)) <==> RttMisplaced(es, i)
      ensures r == Some(UndefinedValue(i)) <==>
        !RttMisplaced(es, i) && es[i].tag in columnTags && Value(es[i]).None?
      ensures r.None? || r == Some(MisplacedRtt(i)) || r == Some(UndefinedValue(i))
    {
      if RttMisplaced(es, i) then Some(MisplacedRtt(i))
      else if es[i].tag in columnTags && Value(es[i]).None? then Some(UndefinedValue(i))
      else None
    }

    /** The error `parseXml` throws on the given elements, if any. */
    function FirstError(es: seq<Element>): Option<ParseError>
      decreases |es|
    {
      if es == [] then None
      else
        match FirstError(es[..|es| - 1])
        case Some(e) => Some(e)
        case None => ElementError(es, |es| - 1)
    }

    /** The effect of one element on the accumulator. */
    function Apply(acc: Record, e: Element, decode: string -> string): Record {
      if e.tag in columnTags && Value(e).Some? then acc[e.tag := decode(Value(e).value)] else acc
    }

    /** The accumulator after the given elements. */
    function StateAfter(es: seq<Element>, decode: string -> string): Record
      decreases |es|
    {
      if es == [] then EmptyRecord
      else Apply(StateAfter(es[..|es| - 1], decode), es[|es| - 1], decode)
    }

    /** Whether an element raises depends only on it and its predecessor. */
    lemma ElementErrorPrefix(es: seq<Element>, n: nat, i: nat)
      requires i < n <= |es|
      ensures ElementError(es[..n], i) == ElementError(es, i)
    {
    }

    /** `parseXml` throws exactly when some element raises, and then for
        the first such element. */
    lemma {:induction false} FirstErrorIsFirst(es: seq<Element>)
      ensures FirstError(es).None? <==> forall i :: 0 <= i < |es| ==> ElementError(es, i).None?
      ensures FirstError(es).Some? ==>
        exists i :: 0 <= i < |es| && ElementError(es, i) == FirstError(es) &&
          forall j :: 0 <= j < i ==> ElementError(es, j).None?
      decreases |es|
    {
      if es != [] {
        var init := es[..|es| - 1];
        FirstErrorIsFirst(init);
        forall i | 0 <= i < |init| ensures ElementError(init, i) == ElementError(es, i) {
          ElementErrorPrefix(es, |es| - 1, i);
        }
        if FirstError(init).Some? {
          var i :| 0 <= i < |init| && ElementError(init, i) == FirstError(init) &&
            forall j :: 0 <= j < i ==> ElementError(init, j).None?;
          assert ElementError(es, i) == FirstError(es);
        } else {
          assert forall j :: 0 <= j < |es| - 1 ==> ElementError(es, j).None?;
        }
      }
    }

    /** A document that passes has every RTT right after an allowed key; in
        particular it does not start with one. */
    lemma RttFollowsAllowedKey(es: seq<Element>)
      requires FirstError(es).None?
      ensures forall i :: 0 < i < |es| && es[i].tag == "RTT" ==> es[i - 1].tag in AllowedBeforeRtt
      ensures es != [] ==> es[0].tag != "RTT"
    {
      FirstErrorIsFirst(es);
      if es != [] {
        assert ElementError(es, 0).None?;
      }
      forall i | 0 < i < |es| && es[i].tag == "RTT"
        ensures es[i - 1].tag in AllowedBeforeRtt
      {
        assert ElementError(es, i).None?;
      }
    }

    /** An earlier error is the error of any longer document. */
    lemma {:induction false} FirstErrorPrefix(es: seq<Element>, n: nat)
      requires n <= |es|
      requires FirstError(es[..n]).Some?
      ensures FirstError(es) == FirstError(es[..n])
      decreases |es| - n
    {
      if n < |es| {
        assert es[..n + 1][..n] == es[..n];
        FirstErrorPrefix(es, n + 1);
      } else {
        assert es[..n] == es;
      }
    }

    /** One more element, after elements that raised nothing: it raises
        its own error, if any, updates the accumulator and adds its
        pushes. */
    lemma ElementStep(es: seq<Element>, i: nat, hasRttElement: bool, decode: string -> string)
      requires i < |es| && FirstError(es[..i]).None?
      ensures FirstError(es[..i + 1]) == ElementError(es, i)
      ensures StateAfter(es[..i + 1], decode) == Apply(StateAfter(es[..i], decode), es[i], decode)
      ensures Pushes(hasRttElement, es[..i + 1]) == Pushes(hasRttElement, es[..i]) +
        (if es[i].tag == "RTT" then 1 else 0) + (if !hasRttElement && es[i].tag == "RT" then 1 else 0)
    {
      assert es[..i + 1][..i] == es[..i];
      assert es[..i + 1][i] == es[i];
      ElementErrorPrefix(es, i + 1, i);
    }

    /** `parseXml`: on success, one entry per push, every entry the same
        accumulator object, holding the state after the whole document. */
    method ParseXml(doc: Document, decode: string -> string) returns (r: Result<seq<Instrument>, ParseError>)
      ensures r.Failure? <==> FirstError(doc.elements).Some?
      ensures r.Failure? ==> r.error == FirstError(doc.elements).value
      ensures r.Success? ==> |r.value| == Pushes(doc.hasRttElement, doc.elements)
      ensures r.Success? ==> forall k :: 0 <= k < |r.value| ==>
        r.value[k] == r.value[0] && fresh(r.value[k]) &&
        r.value[k].fields == StateAfter(doc.elements, decode)
    {
      var es := doc.elements;
      var result: seq<Instrument> := [];
      var current := new Instrument();
      var lastKey := "";
      var i := 0;
      while i < |es|
        invariant i <= |es|
        invariant FirstError(es[..i]).None?
        invariant lastKey == PrevKey(es, i)
        invariant current.fields == StateAfter(es[..i], decode)
        invariant |result| == Pushes(doc.hasRttElement, es[..i])
        invariant forall k :: 0 <= k < |result| ==> result[k] == current
      {
        var e := es[i];
        ElementStep(es, i, doc.hasRttElement, decode);
        if e.tag == "RTT" && lastKey !in AllowedBeforeRtt {
          FirstErrorPrefix(es, i + 1);
          return Failure(MisplacedRtt(i));
        }
        lastKey := e.tag;
        if e.tag in columnTags {
          var value := Value(e);
          if value.None? {
            FirstErrorPrefix(es, i + 1);
            return Failure(UndefinedValue(i));
          }
          current.Set(e.tag, decode(value.value));
        }
        if e.tag == "RTT" {
          result := result + [current];
        }
        if !doc.hasRttElement && e.tag == "RT" {
          result := result + [current];
        }
        i := i + 1;
      }
      assert es[..i] == es;
      r := Success(result);
    }

    /** The rows an entry's document yields: as many copies of the final
        accumulator as there were pushes, or none when parsing throws. */
    function DocumentRows(doc: Document, decode: string -> string): (rs: seq<Record>)
      ensures FirstError(doc.elements).Some? ==> rs == []
      ensures FirstError(doc.elements).None? ==>
        |rs| == Pushes(doc.hasRttElement, doc.elements) &&
        forall k :: 0 <= k < |rs| ==> rs[k] == StateAfter(doc.elements, decode)
    {
      if FirstError(doc.elements).Some? then []
      else Copies(Pushes(doc.hasRttElement, doc.elements), StateAfter(doc.elements, decode))
    }

    /** Two instruments of one document always come out as equal rows: the
        second overwrites the first. */
    lemma RowsAllEqual(doc: Document, decode: string -> string, j: nat, k: nat)
      requires j < k < |DocumentRows(doc, decode)|
      ensures DocumentRows(doc, decode)[j] == DocumentRows(doc, decode)[k]
      ensures Get(DocumentRows(doc, decode)[j], "R") == Get(StateAfter(doc.elements, decode), "R")
    {
    }

    // -------------------------------------------------------------------
    // CSV files

    /** `Object.values(columnsMap).join(",")` */
    function HeaderLine(): string {
      Join(columnHeaders, ",")
    }

    /** `createCsvFile`: the header line only. */
    method CreateCsvFile(disk: Disk, p: Path)
      modifies disk
      ensures disk.files == old(disk.files)[p := HeaderLine()]
    {
      disk.WriteFile(p, Join(columnHeaders, ","));
    }

    /** `appendCsvFile`: one line per row after what is there. */
    method AppendCsvFile(disk: Disk, p: Path, rs: seq<Record>)
      modifies disk
      ensures disk.files == old(disk.files)[p := old(disk.Contents(p)) + DataText(columnTags, rs)]
    {
      disk.AppendFile(p, DataText(columnTags, rs));
    }

    /** `processXmlData`: parses the document (a throw leaves the files as
        they were and is returned), then, when there are rows, creates the
        file if its name is new and appends the rows. */
    method ProcessXmlData(disk: Disk, doc: Document, names: seq<string>, decode: string -> string)
      returns (names': seq<string>, error: Option<ParseError>)
      modifies disk
      ensures error == FirstError(doc.elements)
      ensures var rs := DocumentRows(doc, decode);
        names' == (if rs == [] || CsvName(rs[0]) in names then names else names + [CsvName(rs[0])])
      ensures Wrote(old(disk.files), disk.files, names, HeaderLine(), columnTags, DocumentRows(doc, decode))
    {
      var parsed := ParseXml(doc, decode);
      if parsed.Failure? {
        return names, Some(parsed.error);
      }
      error := None;
      var instruments := parsed.value;
      if |instruments| == 0 {
        return names, None;
      }
      var rows := seq(|instruments|, k requires 0 <= k < |instruments| reads instruments => instruments[k].fields);
      assert rows == DocumentRows(doc, decode);
      var name := CsvName(instruments[0].fields);
      ghost var start := if name in names then disk.Contents(Staging(name)) else HeaderLine();
      names' := names;
      if name !in names {
        CreateCsvFile(disk, Staging(name));
        names' := names + [name];
      }
      assert disk.Contents(Staging(name)) == start;
      AppendCsvFile(disk, Staging(name), rows);
    }

    // -------------------------------------------------------------------
    // The archive

    /** The rows an entry contributes: none for a directory, a failed read
        or a document that throws. */
    function EntryRows(e: Entry, decode: string -> string): seq<Record> {
      if EndsWith(e.fileName, "/") || e.content.Failure? then []
      else DocumentRows(e.content.value, decode)
    }

    /** The rows of every entry, entry by entry. */
    function Batches(es: seq<Entry>, decode: string -> string): (bs: seq<seq<Record>>)
      ensures |bs| == |es|
      ensures forall i :: 0 <= i < |es| ==> bs[i] == EntryRows(es[i], decode)
    {
      seq(|es|, i requires 0 <= i < |es| => EntryRows(es[i], decode))
    }

    /** What the handler logs for one entry, if anything. */
    function EntryLog(e: Entry): seq<Logged> {
      if EndsWith(e.fileName, "/") then []
      else
        match e.content
        case Failure(reason) => [Logged(e.fileName, ReadFailed(reason))]
        case Success(doc) =>
          match FirstError(doc.elements)
          case Some(err) => [Logged(e.fileName, ParseFailed(err))]
          case None => []
    }

    /** The failures logged for the given entries, in order. */
    function Log(es: seq<Entry>): (log: seq<Logged>)
      ensures |log| <= |es|
      decreases |es|
    {
      if es == [] then [] else Log(es[..|es| - 1]) + EntryLog(es[|es| - 1])
    }

    /** A failing entry is logged and the archive goes on: every failure is
        logged, under its entry's name, and nothing else is. */
    lemma {:induction false} LogNamesFailures(es: seq<Entry>, decode: string -> string)
      ensures forall l :: l in Log(es) ==>
        exists i :: 0 <= i < |es| && es[i].fileName == l.fileName && EntryRows(es[i], decode) == []
      decreases |es|
    {
      if es != [] {
        var init := es[..|es| - 1];
        LogNamesFailures(init, decode);
        forall l | l in Log(es)
          ensures exists i :: 0 <= i < |es| && es[i].fileName == l.fileName && EntryRows(es[i], decode) == []
        {
          if l in Log(init) {
            var i :| 0 <= i < |init| && init[i].fileName == l.fileName && EntryRows(init[i], decode) == [];
            assert es[i] == init[i];
          } else {
            var last := es[|es| - 1];
            assert Log(es) == Log(init) + EntryLog(last);
            assert l.fileName == last.fileName && EntryRows(last, decode) == [];
          }
        }
      }
    }

    /** The entry handler: a directory is passed over; any other entry is
        read and processed, a failure being logged instead of thrown. */
    method HandleEntry(disk: Disk, e: Entry, names: seq<string>, decode: string -> string)
      returns (names': seq<string>, logged: seq<Logged>)
      modifies disk
      ensures var rs := EntryRows(e, decode);
        names' == (if rs == [] || CsvName(rs[0]) in names then names else names + [CsvName(rs[0])])
      ensures logged == EntryLog(e)
      ensures Wrote(old(disk.files), disk.files, names, HeaderLine(), columnTags, EntryRows(e, decode))
    {
      names', logged := names, [];
      if EndsWith(e.fileName, "/") {
        return;
      }
      match e.content {
        case Failure(reason) =>
          logged := [Logged(e.fileName, ReadFailed(reason))];
        case Success(doc) =>
          var error;
          names', error := ProcessXmlData(disk, doc, names, decode);
          if error.Some? {
            logged := [Logged(e.fileName, ParseFailed(error.value))];
          }
      }
    }

    lemma AddEntry(es: seq<Entry>, e: Entry, decode: string -> string)
      ensures Batches(es + [e], decode) == Batches(es, decode) + [EntryRows(e, decode)]
      ensures Log(es + [e]) == Log(es) + EntryLog(e)
    {
      assert (es + [e])[..|es|] == es;
    }

    /** One more entry through the handler keeps the staging directory in
        step with the entries handled so far. */
    lemma EntryAdvance(es: seq<Entry>, i: nat, before: map<Path, string>, after: map<Path, string>,
                       decode: string -> string)
      requires i < |es|
      requires Staged(before, NamesOf(Batches(es[..i], decode)), HeaderLine(), columnTags, Batches(es[..i], decode))
      requires Wrote(before, after, NamesOf(Batches(es[..i], decode)), HeaderLine(), columnTags, EntryRows(es[i], decode))
      ensures var rs := EntryRows(es[i], decode);
        var names := NamesOf(Batches(es[..i], decode));
        NamesOf(Batches(es[..i + 1], decode)) ==
          (if rs == [] || CsvName(rs[0]) in names then names else names + [CsvName(rs[0])])
      ensures Log(es[..i + 1]) == Log(es[..i]) + EntryLog(es[i])
      ensures Staged(after, NamesOf(Batches(es[..i + 1], decode)), HeaderLine(), columnTags, Batches(es[..i + 1], decode))
      ensures forall p: Path :: p.name !in NamesOf(Batches(es[..i + 1], decode)) ==>
        (p.name !in NamesOf(Batches(es[..i], decode)) && (p in after <==> p in before) && (p in after ==> after[p] == before[p]))
    {
      assert es[..i + 1] == es[..i] + [es[i]];
      AddEntry(es[..i], es[i], decode);
      BatchStep(before, after, HeaderLine(), columnTags, Batches(es[..i], decode), EntryRows(es[i], decode),
                Batches(es[..i + 1], decode));
    }

    /** The entry loop of `processZipArchive`: every entry in order through
        the entry handler, leaving the staging directory holding, for each
        CSV name, its header and all its rows. */
    method ReadEntries(disk: Disk, es: seq<Entry>, decode: string -> string)
      returns (names: seq<string>, logged: seq<Logged>)
      modifies disk
      ensures names == NamesOf(Batches(es, decode))
      ensures logged == Log(es)
      ensures Staged(disk.files, names, HeaderLine(), columnTags, Batches(es, decode))
      ensures Untouched(disk.files, old(disk.files), names)
    {
      names, logged := [], [];
      var i := 0;
      while i < |es|
        invariant i <= |es|
        invariant names == NamesOf(Batches(es[..i], decode))
        invariant logged == Log(es[..i])
        invariant Staged(disk.files, names, HeaderLine(), columnTags, Batches(es[..i], decode))
        invariant Untouched(disk.files, old(disk.files), names)
      {
        ghost var before := disk.files;
        var more;
        names, more := HandleEntry(disk, es[i], names, decode);
        EntryAdvance(es, i, before, disk.files, decode);
        logged := logged + more;
        i := i + 1;
      }
      assert es[..i] == es;
    }

    /** `processZipArchive`. The renames are started but not awaited: the
        call returns with every file still staged and the names whose
        renames are `pending`; `RenameAll` is what those renames do once
        they run. An archive that stops with an "error" event instead of
        "end" rejects the call and starts no rename. Both rejections are
        wrapped as this revision writes it. */
    method ProcessZipArchive(disk: Disk, archive: Result<Archive, Rejection>, decode: string -> string)
      returns (r: Outcome<string>, logged: seq<Logged>, pending: seq<string>)
      modifies disk
      ensures archive.Failure? ==>
        r == Fail(ZipErrorAsWritten(archive.error)) && logged == [] && pending == [] &&
        disk.files == old(disk.files)
      ensures archive.Success? ==>
        var bs := Batches(archive.value.entries, decode);
        logged == Log(archive.value.entries) &&
        Staged(disk.files, NamesOf(bs), HeaderLine(), columnTags, bs) &&
        Untouched(disk.files, old(disk.files), NamesOf(bs))
      ensures archive.Success? && archive.value.error.Some? ==>
        r == Fail(ZipErrorAsWritten(archive.value.error.value)) && pending == []
      ensures archive.Success? && archive.value.error.None? ==>
        r == Pass && pending == NamesOf(Batches(archive.value.entries, decode))
    {
      if archive.Failure? {
        return Fail(ZipErrorAsWritten(archive.error)), [], [];
      }
      var names;
      names, logged := ReadEntries(disk, archive.value.entries, decode);
      if archive.value.error.Some? {
        return Fail(ZipErrorAsWritten(archive.value.error.value)), logged, [];
      }
      pending := names;
      r := Pass;
    }
  }
}
