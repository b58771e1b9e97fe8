/** The 32 XBRL rating tags both parsers extract, and the CSV column each one
    fills. The table is the same in both parser revisions, in the same order:
    the order of the header line and of every row. */
module Columns {
  import opened Wrappers
  import opened Strings
  import Csv

  const Tags: seq<string> := [
    "RAN", "FCD", "SSC", "ISSNAME", "LEI", "OBT", "INSTNAME", "CUSIP",
    "CR", "MD", "PV", "IP", "R", "RAD", "RAC", "RT",
    "RST", "RTT", "OAN", "WST", "ROL", "ISI", "ISIS", "INI",
    "INIS", "CIK", "OI", "OIS", "OIOS", "OSC", "OIG", "OBNAME"
  ]

  /** The CSV column names, four at a time, in table order. */
  const Headers0: seq<string> := ["rating_agency_name", "file_creating_date", "sec_category", "issuer_name"]
  const Headers1: seq<string> := ["legal_entity_identifier", "object_type_rated", "instrument_name", "CUSIP_number"]
  const Headers2: seq<string> := ["coupon_date", "maturity_date", "par_value", "issued_paid"]
  const Headers3: seq<string> := ["rating", "rating_action_date", "rating_action_class", "rating_type"]
  const Headers4: seq<string> := ["rating_sub_type", "rating_type_term", "other_announcement_type", "watch_status"]
  const Headers5: seq<string> := ["rating_outlook", "issuer_identifier", "issuer_identifier_schema", "instrument_identifier"]
  const Headers6: seq<string> := ["instrument_identifier_schema", "central_index_key", "obligor_identifier", "obligor_identifier_schema"]
  const Headers7: seq<string> := ["obligor_identifier_other", "obligor_sec_category", "obligor_industry_group", "obligor_name"]

  const Headers: seq<string> :=
    Headers0 + Headers1 + Headers2 + Headers3 + Headers4 + Headers5 + Headers6 + Headers7

  const Width: nat := 32

  /** One instrument: the value of every tag set so far. A tag absent from
      the map is `undefined` in the source's object. */
  type Record = map<string, string>

  /** The accumulator as both parsers first build it: every key undefined. */
  const EmptyRecord: Record := map[]

  /** The value a record holds for a tag. */
  function Get(r: Record, tag: string): (v: Option<string>)
    ensures v.Some? <==> tag in r
    ensures v.Some? ==> v.value == r[tag]
  {
    if tag in r then Some(r[tag]) else None
  }

  /** `Object.values(row)` for an object whose keys were created in the
      order `tags`: the record's values in that order. */
  function Values(tags: seq<string>, r: Record): (vs: seq<Option<string>>)
    ensures |vs| == |tags|
    ensures forall i :: 0 <= i < |tags| ==> vs[i] == Get(r, tags[i])
  {
    seq(|tags|, i requires 0 <= i < |tags| => Get(r, tags[i]))
  }

  /** No column name needs quoting, so the unescaped header line is also a
      well-formed CSV record. */
  lemma HeadersPlain()
    ensures |Headers| == Width
    ensures forall h :: h in Headers ==> !Csv.NeedsQuoting(h)
  {
    HeadersPlain0();
    HeadersPlain1();
    HeadersPlain2();
    HeadersPlain3();
    HeadersPlain4();
    HeadersPlain5();
    HeadersPlain6();
    HeadersPlain7();
  }

  // The column names checked four at a time, to keep each proof small.

  lemma HeadersPlain0()
    ensures forall h :: h in Headers0 ==> !Csv.NeedsQuoting(h)
  {
    assert !Csv.NeedsQuoting(Headers0[0]);
    assert !Csv.NeedsQuoting(Headers0[1]);
    assert !Csv.NeedsQuoting(Headers0[2]);
    assert !Csv.NeedsQuoting(Headers0[3]);
  }

  lemma HeadersPlain1()
    ensures forall h :: h in Headers1 ==> !Csv.NeedsQuoting(h)
  {
    assert !Csv.NeedsQuoting(Headers1[0]);
    assert !Csv.NeedsQuoting(Headers1[1]);
    assert !Csv.NeedsQuoting(Headers1[2]);
    assert !Csv.NeedsQuoting(Headers1[3]);
  }

  lemma HeadersPlain2()
    ensures forall h :: h in Headers2 ==> !Csv.NeedsQuoting(h)
  {
    assert !Csv.NeedsQuoting(Headers2[0]);
    assert !Csv.NeedsQuoting(Headers2[1]);
    assert !Csv.NeedsQuoting(Headers2[2]);
    assert !Csv.NeedsQuoting(Headers2[3]);
  }

  lemma HeadersPlain3()
    ensures forall h :: h in Headers3 ==> !Csv.NeedsQuoting(h)
  {
    assert !Csv.NeedsQuoting(Headers3[0]);
    assert !Csv.NeedsQuoting(Headers3[1]);
    assert !Csv.NeedsQuoting(Headers3[2]);
    assert !Csv.NeedsQuoting(Headers3[3]);
  }

  lemma HeadersPlain4()
    ensures forall h :: h in Headers4 ==> !Csv.NeedsQuoting(h)
  {
    assert !Csv.NeedsQuoting(Headers4[0]);
    assert !Csv.NeedsQuoting(Headers4[1]);
    assert !Csv.NeedsQuoting(Headers4[2]);
    assert !Csv.NeedsQuoting(Headers4[3]);
  }

  lemma HeadersPlain5()
    ensures forall h :: h in Headers5 ==> !Csv.NeedsQuoting(h)
  {
    assert !Csv.NeedsQuoting(Headers5[0]);
    assert !Csv.NeedsQuoting(Headers5[1]);
    assert !Csv.NeedsQuoting(Headers5[2]);
    assert !Csv.NeedsQuoting(Headers5[3]);
  }

  lemma HeadersPlain6()
    ensures forall h :: h in Headers6 ==> !Csv.NeedsQuoting(h)
  {
    assert !Csv.NeedsQuoting(Headers6[0]);
    assert !Csv.NeedsQuoting(Headers6[1]);
    assert !Csv.NeedsQuoting(Headers6[2]);
    assert !Csv.NeedsQuoting(Headers6[3]);
  }

  lemma HeadersPlain7()
    ensures forall h :: h in Headers7 ==> !Csv.NeedsQuoting(h)
  {
    assert !Csv.NeedsQuoting(Headers7[0]);
    assert !Csv.NeedsQuoting(Headers7[1]);
    assert !Csv.NeedsQuoting(Headers7[2]);
    assert !Csv.NeedsQuoting(Headers7[3]);
  }
}
