/** `compareMetadata` of `express-server/src/utils/general.ts`: the order of
    the file listing. A name starts with its date token (the text before the
    first space); later tokens sort first, and equal tokens fall back to
    `localeCompare` on the whole names.

    `localeCompare` depends on the runtime's locale data and is a
    parameter; only its sign is used. */
module General {
  import opened Strings

  datatype FileMetadata = FileMetadata(name: string, date: string, lines: int, size: int)

  /** `name.split(" ")[0]` */
  function DateToken(name: string): (t: string)
    ensures t <= name && ' ' !in t
  {
    var parts := Split(name, " ");
    SplitFirst(name);
    parts[0]
  }

  /** The first piece of a split on one character is a prefix free of it. */
  lemma SplitFirst(s: string)
    ensures Split(s, " ")[0] <= s && ' ' !in Split(s, " ")[0]
  {
    match IndexOf(s, " ")
    case None =>
      if ' ' in s {
        var j :| 0 <= j < |s| && s[j] == ' ';
        assert s[j..j + 1] == " ";
        assert OccursAt(s, " ", j);
      }
    case Some(i) =>
      if ' ' in s[..i] {
        var j :| 0 <= j < i && s[..i][j] == ' ';
        assert s[j..j + 1] == " ";
        assert OccursAt(s, " ", j);
      }
  }

  function Sign(x: int): int {
    if x < 0 then -1 else if x > 0 then 1 else 0
  }

  /** The comparator: negative when `a` sorts first. */
  function CompareMetadata(a: FileMetadata, b: FileMetadata, localeCompare: (string, string) -> int): (r: int)
    ensures LexLess(DateToken(b.name), DateToken(a.name)) ==> r == -1
    ensures LexLess(DateToken(a.name), DateToken(b.name)) ==> r == 1
    ensures DateToken(a.name) == DateToken(b.name) ==> r == localeCompare(a.name, b.name)
  {
    var dateA := DateToken(a.name);
    var dateB := DateToken(b.name);
    LexLessAsymmetric(dateA, dateB);
    LexLessIrreflexive(dateA);
    if LexLess(dateB, dateA) then -1
    else if LexLess(dateA, dateB) then 1
    else
      LexLessTotal(dateA, dateB);
      localeCompare(a.name, b.name)
  }

  /** `localeCompare` orders consistently: swapping its arguments flips the
      sign of its result. */
  ghost predicate Antisymmetric(localeCompare: (string, string) -> int) {
    forall x, y :: Sign(localeCompare(x, y)) == -Sign(localeCompare(y, x))
  }

  /** Swapping the two arguments flips the sign of the result, given a
      `localeCompare` that does the same. */
  lemma CompareAntisymmetric(a: FileMetadata, b: FileMetadata, localeCompare: (string, string) -> int)
    requires Antisymmetric(localeCompare)
    ensures Sign(CompareMetadata(a, b, localeCompare)) == -Sign(CompareMetadata(b, a, localeCompare))
  {
    LexLessTotal(DateToken(a.name), DateToken(b.name));
    LexLessAsymmetric(DateToken(a.name), DateToken(b.name));
  }

  /** The result is 0 only when the date tokens are equal and
      `localeCompare` gives 0; different tokens always decide the order,
      the later token first. */
  lemma CompareZero(a: FileMetadata, b: FileMetadata, localeCompare: (string, string) -> int)
    ensures CompareMetadata(a, b, localeCompare) == 0 <==>
      DateToken(a.name) == DateToken(b.name) && localeCompare(a.name, b.name) == 0
    ensures DateToken(a.name) != DateToken(b.name) ==>
      (CompareMetadata(a, b, localeCompare) < 0 <==> LexLess(DateToken(b.name), DateToken(a.name)))
  {
    LexLessTotal(DateToken(a.name), DateToken(b.name));
    LexLessAsymmetric(DateToken(a.name), DateToken(b.name));
  }
}
