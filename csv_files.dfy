/** What both parser revisions share once an entry's instruments are known:
    the CSV file name taken from the first instrument, the row text, and the
    staging bookkeeping of one archive call (the header written at a name's
    first use, rows appended at every use, then every staged file moved to
    the output directory). */
module CsvFiles {
  import opened Wrappers
  import opened Strings
  import opened Columns
  import Csv
  import opened FileStore

  // ---------------------------------------------------------------------
  // File names

  /** A template-literal rendering of a possibly undefined value. */
  function Show(v: Option<string>): string {
    match v
    case None => "undefined"
    case Some(s) => s
  }

  /** `FCD?.replace(/-/g, "")` in a template literal. */
  function DatePart(first: Record): (d: string)
    ensures '-' !in d
  {
    match Get(first, "FCD")
    case None => "undefined"
    case Some(fcd) => RemoveChar(fcd, '-')
  }

  /** `SSC || OSC`: the security category, or else the obligor's. */
  function Category(first: Record): (c: Option<string>)
    ensures Get(first, "SSC").Some? && Get(first, "SSC").value != "" ==> c == Get(first, "SSC")
    ensures !(Get(first, "SSC").Some? && Get(first, "SSC").value != "") ==> c == Get(first, "OSC")
  {
    match Get(first, "SSC")
    case Some(ssc) => if ssc != "" then Some(ssc) else Get(first, "OSC")
    case None => Get(first, "OSC")
  }

  /** The CSV name of an entry, taken from its first instrument:
      `${FCD?.replace(/-/g, "")} ${RAN} ${SSC || OSC}`. */
  function CsvName(first: Record): string {
    DatePart(first) + " " + Show(Get(first, "RAN")) + " " + Show(Category(first))
  }

  /** When the three parts hold no space, the name splits on spaces back into
      the file date without dashes, the agency and the category. */
  lemma CsvNameParts(first: Record)
    requires ' ' !in DatePart(first)
    requires ' ' !in Show(Get(first, "RAN"))
    requires ' ' !in Show(Category(first))
    ensures Split(CsvName(first), " ") ==
      [DatePart(first), Show(Get(first, "RAN")), Show(Category(first))]
  {
    var parts := [DatePart(first), Show(Get(first, "RAN")), Show(Category(first))];
    JoinCons(parts[1], [parts[2]], " ");
    JoinCons(parts[0], [parts[1], parts[2]], " ");
    assert [parts[0]] + [parts[1], parts[2]] == parts;
    assert Join(parts, " ") == CsvName(first);
    assert forall p :: p in parts ==> ' ' !in p;
    assert " " == [' '];
    SplitJoin(parts, ' ');
  }

  // ---------------------------------------------------------------------
  // Rows

  /** Every instrument's values in the order `tags`. */
  function AllValues(tags: seq<string>, rs: seq<Record>): (vs: seq<seq<Option<string>>>)
    ensures |vs| == |rs|
    ensures forall i :: 0 <= i < |rs| ==> vs[i] == Values(tags, rs[i])
  {
    seq(|rs|, i requires 0 <= i < |rs| => Values(tags, rs[i]))
  }

  /** `data.map(row => "\n" + Object.values(row).map(escapeCsvValue).join(",")).join("")` */
  function DataText(tags: seq<string>, rs: seq<Record>): string {
    Csv.Lines(Csv.RenderRows(AllValues(tags, rs)))
  }

  lemma DataTextAppend(tags: seq<string>, a: seq<Record>, b: seq<Record>)
    ensures DataText(tags, a + b) == DataText(tags, a) + DataText(tags, b)
  {
    assert AllValues(tags, a + b) == AllValues(tags, a) + AllValues(tags, b);
    Csv.RenderRowsAppend(AllValues(tags, a), AllValues(tags, b));
    Csv.LinesAppend(Csv.RenderRows(AllValues(tags, a)), Csv.RenderRows(AllValues(tags, b)));
  }

  /** A file of `header` (names needing no quoting) and rows reads back, as
      RFC 4180 records, as the header names followed by one row of texts per
      instrument. */
  lemma CsvFileReadsBack(header: seq<string>, tags: seq<string>, rs: seq<Record>)
    requires |header| >= 1 && |tags| >= 1
    requires forall h :: h in header ==> !Csv.NeedsQuoting(h)
    ensures Csv.ParseRecords(Join(header, ",") + DataText(tags, rs)) ==
      Some([header] + Csv.TextRows(AllValues(tags, rs)))
  {
    var vs := AllValues(tags, rs);
    assert forall i :: 0 <= i < |vs| ==> |vs[i]| >= 1;
    Csv.TableReadsBack(header, vs);
  }

  /** Row i of those texts has one cell per column, cell k holding the
      instrument's value for column k, undefined read as empty. */
  lemma RowTexts(tags: seq<string>, rs: seq<Record>, i: nat, k: nat)
    requires i < |rs| && k < |tags|
    ensures |Csv.TextRows(AllValues(tags, rs))[i]| == |tags|
    ensures Csv.TextRows(AllValues(tags, rs))[i][k] == Get(rs[i], tags[k]).GetOr("")
  {
    Csv.TextRowsAt(AllValues(tags, rs), i, k);
  }

  // ---------------------------------------------------------------------
  // One archive call: `batches[i]` holds the instruments of entry i

  /** The CSV names created, in order of first use. */
  function NamesOf(batches: seq<seq<Record>>): seq<string>
    decreases |batches|
  {
    if batches == [] then []
    else
      var init := NamesOf(batches[..|batches| - 1]);
      var rs := batches[|batches| - 1];
      if rs == [] || CsvName(rs[0]) in init then init else init + [CsvName(rs[0])]
  }

  /** The instruments written under `name`, in entry order. */
  function RowsNamed(batches: seq<seq<Record>>, name: string): seq<Record>
    decreases |batches|
  {
    if batches == [] then []
    else
      var rs := batches[|batches| - 1];
      RowsNamed(batches[..|batches| - 1], name) + (if rs != [] && CsvName(rs[0]) == name then rs else [])
  }

  /** The text of the file for `name`: the header once, then every row
      written under that name. */
  function FileText(header: string, tags: seq<string>, batches: seq<seq<Record>>, name: string): string {
    header + DataText(tags, RowsNamed(batches, name))
  }

  /** Every CSV name is created once, and exactly for the names some entry
      wrote instruments under. */
  lemma {:induction false} NamesAreWrittenNames(batches: seq<seq<Record>>)
    ensures forall i, j :: 0 <= i < j < |NamesOf(batches)| ==> NamesOf(batches)[i] != NamesOf(batches)[j]
    ensures forall n :: n in NamesOf(batches) <==> RowsNamed(batches, n) != []
    decreases |batches|
  {
    if batches != [] {
      NamesAreWrittenNames(batches[..|batches| - 1]);
    }
  }

  /** What one more entry does to the names and the rows. */
  lemma AddBatch(batches: seq<seq<Record>>, rs: seq<Record>)
    ensures NamesOf(batches + [rs]) ==
      if rs == [] || CsvName(rs[0]) in NamesOf(batches) then NamesOf(batches)
      else NamesOf(batches) + [CsvName(rs[0])]
    ensures forall m :: (RowsNamed(batches + [rs], m) ==
      RowsNamed(batches, m) + (if rs != [] && CsvName(rs[0]) == m then rs else []))
  {
    assert (batches + [rs])[..|batches|] == batches;
  }

  /** The staging directory holds, for each of `names`, its file text. */
  ghost predicate Staged(files: map<Path, string>, names: seq<string>, header: string, tags: seq<string>,
                         batches: seq<seq<Record>>) {
    forall n :: n in names ==> Staging(n) in files && files[Staging(n)] == FileText(header, tags, batches, n)
  }

  /** `files` agrees with `before` on every path outside `names`. */
  ghost predicate Untouched(files: map<Path, string>, before: map<Path, string>, names: seq<string>) {
    forall p: Path :: p.name !in names ==>
      (p in files <==> p in before) && (p in files ==> files[p] == before[p])
  }

  /** The effect on the staging directory of `processXmlData` for an entry
      with instruments `rs`: the header if the name is new, then the rows. */
  ghost predicate Wrote(before: map<Path, string>, after: map<Path, string>, names: seq<string>,
                        header: string, tags: seq<string>, rs: seq<Record>) {
    if rs == [] then after == before
    else
      var n := CsvName(rs[0]);
      after == before[Staging(n) :=
        (if n in names then (if Staging(n) in before then before[Staging(n)] else "") else header) + DataText(tags, rs)]
  }

  /** One processed entry keeps the staging directory in step with the
      entries so far, and touches no path outside the names. */
  lemma BatchStep(before: map<Path, string>, after: map<Path, string>, header: string, tags: seq<string>,
                  batches: seq<seq<Record>>, rs: seq<Record>, all: seq<seq<Record>>)
    requires all == batches + [rs]
    requires Staged(before, NamesOf(batches), header, tags, batches)
    requires Wrote(before, after, NamesOf(batches), header, tags, rs)
    ensures NamesOf(all) ==
      if rs == [] || CsvName(rs[0]) in NamesOf(batches) then NamesOf(batches)
      else NamesOf(batches) + [CsvName(rs[0])]
    ensures Staged(after, NamesOf(all), header, tags, all)
    ensures forall p: Path :: p.name !in NamesOf(all) ==>
      (p.name !in NamesOf(batches) && (p in after <==> p in before) && (p in after ==> after[p] == before[p]))
  {
    AddBatch(batches, rs);
    NamesAreWrittenNames(batches);
    var names := NamesOf(batches);
    if rs != [] {
      var n := CsvName(rs[0]);
      forall m | m in NamesOf(all)
        ensures Staging(m) in after && after[Staging(m)] == FileText(header, tags, all, m)
      {
        if m == n {
          if n in names {
            calc {
              after[Staging(n)];
              before[Staging(n)] + DataText(tags, rs);
              FileText(header, tags, batches, n) + DataText(tags, rs);
              { Concat3(header, DataText(tags, RowsNamed(batches, n)), DataText(tags, rs)); }
              header + (DataText(tags, RowsNamed(batches, n)) + DataText(tags, rs));
              { DataTextAppend(tags, RowsNamed(batches, n), rs); }
              header + DataText(tags, RowsNamed(batches, n) + rs);
              FileText(header, tags, all, m);
            }
          } else {
            assert RowsNamed(batches, n) == [];
            assert RowsNamed(all, n) == rs;
          }
        } else {
          assert m in names;
          assert RowsNamed(all, m) == RowsNamed(batches, m);
        }
      }
    } else {
      forall m | m in NamesOf(all)
        ensures Staging(m) in after && after[Staging(m)] == FileText(header, tags, all, m)
      {
        assert RowsNamed(all, m) == RowsNamed(batches, m);
      }
    }
  }

  /** Moves every staged file to the output directory, one after the other;
      `texts` are the staged contents, name by name. */
  method RenameAll(disk: Disk, names: seq<string>, ghost texts: seq<string>)
    requires |texts| == |names|
    requires forall i, j :: 0 <= i < j < |names| ==> names[i] != names[j]
    requires forall k :: 0 <= k < |names| ==>
      Staging(names[k]) in disk.files && disk.files[Staging(names[k])] == texts[k]
    modifies disk
    ensures Untouched(disk.files, old(disk.files), names)
    ensures forall k :: 0 <= k < |names| ==>
      Staging(names[k]) !in disk.files && Output(names[k]) in disk.files &&
      disk.files[Output(names[k])] == texts[k]
  {
    var j := 0;
    while j < |names|
      invariant j <= |names|
      invariant forall k :: 0 <= k < j ==>
        Staging(names[k]) !in disk.files && Output(names[k]) in disk.files &&
        disk.files[Output(names[k])] == texts[k]
      invariant forall k :: j <= k < |names| ==>
        Staging(names[k]) in disk.files && disk.files[Staging(names[k])] == texts[k]
      invariant Untouched(disk.files, old(disk.files), names)
    {
      var moved := disk.Rename(Staging(names[j]), Output(names[j]));
      j := j + 1;
    }
  }
}
