/**
 * The listing-line parser of GetDetailedList: four line patterns tried in
 * order, the first that matches giving the entry, keyed by the line's index.
 */
module Listing {
  import opened Wrappers
  import opened Lexer
  import Paths

  /** The four line formats, in the order GetDetailedList tries them. */
  datatype Shape =
    | DosDir     // ^([\d-]+)\s+([\d:]+[A|P]M)\s+<DIR>\s+(\d+)\s?$
    | DosFile    // ^([\d-]+)\s+([\d:]+[A|P]M)\s+(\d+)\s+(.+\.\w+)\s?$
    | UnixShort  // ^([drxw-]+)\s+(\d)\s+([\w]+\s+[\w]+)\s+(\d)\s+([\w]+\s+[\d]+)\s+([\d]+:[\d]+)\s+([\w]+)$
    | UnixLong   // ^([drxw-]+)\s+(\d)\s+([\w]+\s+[\w]+)\s+(\d+)\s+([\w]+\s+[\d]+)\s+([\d:?\d?]+)\s+(.+\.\w+)\s?$

  const Cascade: seq<Shape> := [DosDir, DosFile, UnixShort, UnixLong]

  /** The date and AM/PM time that open both DOS formats. */
  const DosHead: seq<Token> :=
    [Many(DigitDash), Many(Space), Many(DigitColon), One(Meridiem), Lit("M"), Many(Space)]

  /** Permissions, link count, owner and group that open both Unix formats. */
  function UnixHead(size: Token): seq<Token>
  {
    [Many(Perm), Many(Space), One(Digit), Many(Space), Many(Word), Many(Space), Many(Word), Many(Space),
     size, Many(Space), Many(Word), Many(Space), Many(Digit), Many(Space)]
  }

  function Tokens(sh: Shape): seq<Token>
  {
    match sh
    case DosDir => DosHead + [Lit("<DIR>"), Many(Space), Many(Digit)]
    case DosFile => DosHead + [Many(Digit)]
    case UnixShort => UnixHead(One(Digit)) + [Many(Digit), Lit(":"), Many(Digit), Many(Space), Many(Word)]
    case UnixLong => UnixHead(Many(Digit)) + [Many(DigitColonQuery)]
  }

  function EndingOf(sh: Shape): Ending
  {
    match sh
    case DosDir => OptSpaceAtEnd
    case DosFile => DottedName
    case UnixShort => AtEnd
    case UnixLong => DottedName
  }

  /** Number of pieces a match of `sh` has. */
  function Width(sh: Shape): nat { |Tokens(sh)| + Arity(EndingOf(sh)) }

  /** preg_match of one pattern against a line: the pieces of the match, or None. */
  function Match(sh: Shape, line: string): (r: Option<seq<string>>)
    ensures r.Some? ==> |r.value| == Width(sh) && Concat(r.value) == line
  {
    MatchFrom(Tokens(sh), EndingOf(sh), line)
  }

  /** Both directions: a line matches `sh` with pieces `ps` exactly when `ps` fits `sh` and makes up the line. */
  lemma MatchIff(sh: Shape, line: string, ps: seq<string>)
    ensures Match(sh, line) == Some(ps) <==> FitsAll(Tokens(sh), EndingOf(sh), ps) && Concat(ps) == line
  {
    AllDeterministic(sh);
    MatchFromIff(Tokens(sh), EndingOf(sh), line, ps);
  }

  /** The kind of an entry: GetDetailedList writes 'file' or 'directory'. */
  datatype Kind = File | Directory

  /**
   * The `size` of an entry: the integer 0 of a DOS directory, the captured
   * digits kept as they are, or FormatBytesSize applied to the captured
   * digits (the floating-point rendering itself is not modelled).
   */
  datatype Size = Zero | Raw(digits: string) | Formatted(digits: string)

  datatype Entry = Entry(name: string, size: Size, date: string, time: string, kind: Kind)

  /** rtrim($this->dir, '/') . '/' . capture */
  function Under(dir: string, capture: string): string
  {
    Paths.RTrimSlash(dir) + "/" + capture
  }

  /** PHP's digits-only capture is compared loosely with '0': numerically, so "00" equals '0'. */
  predicate AllZero(digits: string) { forall i :: 0 <= i < |digits| ==> digits[i] == '0' }

  /** `$match[4] != '0' ? FormatBytesSize($match[4]) : $match[4]` */
  function UnixSize(digits: string): Size
  {
    if AllZero(digits) then Raw(digits) else Formatted(digits)
  }

  /** Index of the captured name among the pieces of each shape. */
  function NameIndex(sh: Shape): nat
  {
    match sh
    case DosDir => 8
    case DosFile => 8
    case UnixShort => 18
    case UnixLong => 16
  }

  /** The entry GetDetailedList builds from the pieces of a match of `sh`. */
  function EntryOf(dir: string, sh: Shape, ps: seq<string>): (e: Entry)
    requires |ps| == Width(sh)
  {
    match sh
    case DosDir => Entry(Under(dir, ps[8]), Zero, ps[0], ps[2] + ps[3] + ps[4], Directory)
    case DosFile => Entry(Under(dir, ps[8]), Formatted(ps[6]), ps[0], ps[2] + ps[3] + ps[4], File)
    case UnixShort =>
      Entry(Under(dir, ps[18]), UnixSize(ps[8]), ps[10] + ps[11] + ps[12], ps[14] + ps[15] + ps[16], File)
    case UnixLong => Entry(Under(dir, ps[16]), UnixSize(ps[8]), ps[10] + ps[11] + ps[12], ps[14], File)
  }

  /** Index of the first shape of `shapes` that passes `ok`. */
  function FirstWhere(shapes: seq<Shape>, ok: Shape -> bool): (r: Option<nat>)
    ensures r.Some? ==> r.value < |shapes| && ok(shapes[r.value])
    ensures r.Some? ==> forall j :: 0 <= j < r.value ==> !ok(shapes[j])
    ensures r.None? ==> forall j :: 0 <= j < |shapes| ==> !ok(shapes[j])
    decreases |shapes|
  {
    if shapes == [] then None
    else if ok(shapes[0]) then Some(0)
    else
      var rest := shapes[1..];
      assert forall j :: 1 <= j < |shapes| ==> shapes[j] == rest[j - 1];
      match FirstWhere(rest, ok)
      case None => None
      case Some(k) => Some(k + 1)
  }

  /** The if / else-if chain of GetDetailedList: the index in Cascade of the first shape that matches `line`. */
  function FirstOf(line: string): (r: Option<nat>)
    ensures r.Some? ==> r.value < |Cascade| && Match(Cascade[r.value], line).Some?
    ensures r.Some? ==> forall j :: 0 <= j < r.value ==> Match(Cascade[j], line).None?
    ensures r.None? ==> forall j :: 0 <= j < |Cascade| ==> Match(Cascade[j], line).None?
  {
    FirstWhere(Cascade, sh => Match(sh, line).Some?)
  }

  /** One iteration of GetDetailedList's foreach: the entry of a line, if any pattern matches. */
  function ParseLine(dir: string, line: string): Option<Entry>
  {
    match FirstOf(line)
    case None => None
    case Some(k) => Some(EntryOf(dir, Cascade[k], Match(Cascade[k], line).value))
  }

  // ---------------------------------------------------------------------
  // Properties of the cascade

  /** Each piece of a match fits its token. */
  lemma PieceFits(sh: Shape, line: string, ps: seq<string>, i: nat)
    requires Match(sh, line) == Some(ps) && i < |Tokens(sh)|
    ensures FitsToken(Tokens(sh)[i], ps[i])
  {
    MatchIff(sh, line, ps);
    FitsAllShape(Tokens(sh), EndingOf(sh), ps);
  }

  /** The pieces after the tokens fit the ending. */
  lemma EndingFits(sh: Shape, line: string, ps: seq<string>)
    requires Match(sh, line) == Some(ps)
    ensures FitsEnding(EndingOf(sh), ps[|Tokens(sh)|..])
  {
    MatchIff(sh, line, ps);
    FitsAllShape(Tokens(sh), EndingOf(sh), ps);
  }

  /** The patterns are tried in order and the first that matches gives the entry. */
  lemma FirstMatchWins(dir: string, line: string, k: nat)
    requires k < |Cascade| && Match(Cascade[k], line).Some?
    requires forall j :: 0 <= j < k ==> Match(Cascade[j], line).None?
    ensures ParseLine(dir, line) == Some(EntryOf(dir, Cascade[k], Match(Cascade[k], line).value))
  {
    FirstWhereUnique(Cascade, sh => Match(sh, line).Some?, k);
  }

  /** The first shape that passes is the only index FirstWhere can return. */
  lemma FirstWhereUnique(shapes: seq<Shape>, ok: Shape -> bool, k: nat)
    requires k < |shapes| && ok(shapes[k])
    requires forall j :: 0 <= j < k ==> !ok(shapes[j])
    ensures FirstWhere(shapes, ok) == Some(k)
  {
  }

  /** A line that matches none of the patterns gives no entry, and only such a line. */
  lemma NoMatchNoEntry(dir: string, line: string)
    ensures ParseLine(dir, line).None? <==> forall sh :: Match(sh, line).None?
  {
    var r := FirstOf(line);
    if r.None? {
      forall sh ensures Match(sh, line).None? {
        assert sh == Cascade[0] || sh == Cascade[1] || sh == Cascade[2] || sh == Cascade[3];
      }
    }
  }

  /** What the name capture of each shape is made of. */
  predicate NameShaped(sh: Shape, name: string)
  {
    match sh
    case DosDir => |name| > 0 && All(name, Digit)
    case UnixShort => |name| > 0 && All(name, Word)
    case _ => Dotted(name)
  }

  lemma NameCapture(sh: Shape, line: string, ps: seq<string>)
    requires Match(sh, line) == Some(ps)
    ensures NameIndex(sh) < |ps| && NameShaped(sh, ps[NameIndex(sh)])
  {
    match sh
    case DosDir => PieceFits(sh, line, ps, 8);
    case DosFile => EndingFits(sh, line, ps); assert ps[7..][1] == ps[8];
    case UnixShort => PieceFits(sh, line, ps, 18);
    case UnixLong => EndingFits(sh, line, ps); assert ps[15..][1] == ps[16];
  }

  /**
   * Every entry is named inside the listed directory: `rtrim(dir,'/')`, a
   * slash, and the captured name, which is a digit run for a DOS directory,
   * a word for the short Unix form and a dotted name otherwise.
   */
  lemma EntryName(dir: string, line: string)
    requires ParseLine(dir, line).Some?
    ensures exists sh, ps ::
              && Match(sh, line) == Some(ps) && NameIndex(sh) < |ps|
              && ParseLine(dir, line).value.name == Under(dir, ps[NameIndex(sh)])
              && NameShaped(sh, ps[NameIndex(sh)])
  {
    var k := FirstOf(line).value;
    var sh := Cascade[k];
    var ps := Match(sh, line).value;
    NameCapture(sh, line, ps);
    assert ParseLine(dir, line).value == EntryOf(dir, sh, ps);
  }

  /** A `[\d:]+[A|P]M` time: digits and colons, then 'A', '|' or 'P', then 'M'. */
  predicate DosTime(t: string)
  {
    && |t| >= 3
    && All(t[..|t| - 2], DigitColon)
    && In(t[|t| - 2], Meridiem)
    && t[|t| - 1] == 'M'
  }

  /**
   * The date and time of an entry are the captures of groups 1 and 2 in the
   * DOS formats, `[\d-]+` and `[\d:]+[A|P]M`, and of groups 5 and 6 in the
   * Unix formats: a word, blanks and digits, then `[\d]+:[\d]+` in the short
   * form and `[\d:?\d?]+` in the long one.
   */
  lemma EntryDateTime(dir: string, line: string, sh: Shape, ps: seq<string>)
    requires Match(sh, line) == Some(ps)
    ensures (sh == DosDir || sh == DosFile) ==>
              && |ps| > 4
              && EntryOf(dir, sh, ps).date == ps[0] && |ps[0]| > 0 && All(ps[0], DigitDash)
              && EntryOf(dir, sh, ps).time == ps[2] + ps[3] + ps[4] && DosTime(ps[2] + ps[3] + ps[4])
    ensures (sh == UnixShort || sh == UnixLong) ==>
              && |ps| > 14
              && EntryOf(dir, sh, ps).date == ps[10] + ps[11] + ps[12]
              && |ps[10]| > 0 && All(ps[10], Word)
              && |ps[11]| > 0 && All(ps[11], Space)
              && |ps[12]| > 0 && All(ps[12], Digit)
    ensures sh == UnixShort ==>
              && |ps| > 16
              && EntryOf(dir, sh, ps).time == ps[14] + ":" + ps[16]
              && |ps[14]| > 0 && All(ps[14], Digit) && |ps[16]| > 0 && All(ps[16], Digit)
    ensures sh == UnixLong ==>
              EntryOf(dir, sh, ps).time == ps[14] && |ps[14]| > 0 && All(ps[14], DigitColonQuery)
  {
    MatchIff(sh, line, ps);
    FitsAllShape(Tokens(sh), EndingOf(sh), ps);
    PiecesDateTime(dir, sh, ps);
  }

  /** EntryDateTime for pieces that fit the tokens of `sh`, whatever the line. */
  lemma PiecesDateTime(dir: string, sh: Shape, ps: seq<string>)
    requires |ps| == Width(sh)
    requires forall i :: 0 <= i < |Tokens(sh)| ==> FitsToken(Tokens(sh)[i], ps[i])
    ensures (sh == DosDir || sh == DosFile) ==>
              && |ps| > 4
              && EntryOf(dir, sh, ps).date == ps[0] && |ps[0]| > 0 && All(ps[0], DigitDash)
              && EntryOf(dir, sh, ps).time == ps[2] + ps[3] + ps[4] && DosTime(ps[2] + ps[3] + ps[4])
    ensures (sh == UnixShort || sh == UnixLong) ==>
              && |ps| > 14
              && EntryOf(dir, sh, ps).date == ps[10] + ps[11] + ps[12]
              && |ps[10]| > 0 && All(ps[10], Word)
              && |ps[11]| > 0 && All(ps[11], Space)
              && |ps[12]| > 0 && All(ps[12], Digit)
    ensures sh == UnixShort ==>
              && |ps| > 16
              && EntryOf(dir, sh, ps).time == ps[14] + ":" + ps[16]
              && |ps[14]| > 0 && All(ps[14], Digit) && |ps[16]| > 0 && All(ps[16], Digit)
    ensures sh == UnixLong ==>
              EntryOf(dir, sh, ps).time == ps[14] && |ps[14]| > 0 && All(ps[14], DigitColonQuery)
  {
    DateTimeTokens(sh);
    if sh == DosDir || sh == DosFile {
      assert FitsToken(Tokens(sh)[0], ps[0]) && FitsToken(Tokens(sh)[2], ps[2]);
      assert FitsToken(Tokens(sh)[3], ps[3]) && FitsToken(Tokens(sh)[4], ps[4]);
      var t := ps[2] + ps[3] + ps[4];
      assert t[..|t| - 2] == ps[2];
    } else {
      assert FitsToken(Tokens(sh)[10], ps[10]) && FitsToken(Tokens(sh)[11], ps[11]);
      assert FitsToken(Tokens(sh)[12], ps[12]) && FitsToken(Tokens(sh)[14], ps[14]);
      if sh == UnixShort {
        assert FitsToken(Tokens(sh)[15], ps[15]) && FitsToken(Tokens(sh)[16], ps[16]);
      }
    }
  }

  /** The tokens of the date and time groups of each shape. */
  lemma DateTimeTokens(sh: Shape)
    ensures sh == DosDir || sh == DosFile ==>
              && |Tokens(sh)| > 4
              && Tokens(sh)[0] == Many(DigitDash) && Tokens(sh)[2] == Many(DigitColon)
              && Tokens(sh)[3] == One(Meridiem) && Tokens(sh)[4] == Lit("M")
    ensures sh == UnixShort || sh == UnixLong ==>
              && |Tokens(sh)| > 14
              && Tokens(sh)[10] == Many(Word) && Tokens(sh)[11] == Many(Space)
              && Tokens(sh)[12] == Many(Digit)
    ensures sh == UnixShort ==>
              && |Tokens(sh)| > 16
              && Tokens(sh)[14] == Many(Digit) && Tokens(sh)[15] == Lit(":") && Tokens(sh)[16] == Many(Digit)
    ensures sh == UnixLong ==> Tokens(sh)[14] == Many(DigitColonQuery)
  {
    if sh == DosDir || sh == DosFile {
      assert Tokens(sh)[..6] == DosHead;
    } else {
      var size := if sh == UnixShort then One(Digit) else Many(Digit);
      assert Tokens(sh)[..14] == UnixHead(size);
    }
  }

  /**
   * Only the DOS `<DIR>` pattern gives a directory, and it gives size 0;
   * the other three always give type file, even for Unix permissions that
   * start with 'd'.
   */
  lemma EntryKind(dir: string, line: string)
    requires ParseLine(dir, line).Some?
    ensures ParseLine(dir, line).value.kind == Directory <==> Match(DosDir, line).Some?
    ensures ParseLine(dir, line).value.kind == Directory <==> ParseLine(dir, line).value.size == Zero
  {
    var k := FirstOf(line).value;
    if Match(DosDir, line).Some? { assert k == 0; }
  }

  /**
   * In the Unix formats the size is formatted unless its digits are all
   * zero, in which case the captured digits are kept as they are; the short
   * form's link count and size are a single digit.
   */
  lemma UnixEntrySize(dir: string, line: string, sh: Shape, ps: seq<string>)
    requires sh == UnixShort || sh == UnixLong
    requires Match(sh, line) == Some(ps) && ParseLine(dir, line) == Some(EntryOf(dir, sh, ps))
    ensures All(ps[8], Digit) && |ps[8]| > 0
    ensures AllZero(ps[8]) ==> ParseLine(dir, line).value.size == Raw(ps[8])
    ensures !AllZero(ps[8]) ==> ParseLine(dir, line).value.size == Formatted(ps[8])
    ensures sh == UnixShort ==> |ps[2]| == 1 && |ps[8]| == 1
  {
    PieceFits(sh, line, ps, 8);
    PieceFits(sh, line, ps, 2);
    UnixCaptures(sh, ps[2], ps[8]);
  }

  /** Pieces that fit the Unix link-count and size tokens are digits. */
  lemma UnixCaptures(sh: Shape, links: string, size: string)
    requires sh == UnixShort || sh == UnixLong
    requires |Tokens(sh)| > 8 && FitsToken(Tokens(sh)[2], links) && FitsToken(Tokens(sh)[8], size)
    ensures All(size, Digit) && |size| > 0
    ensures sh == UnixShort ==> |links| == 1 && |size| == 1
  {
    UnixCounts(sh);
  }

  /** The link count and size tokens of the Unix formats. */
  lemma UnixCounts(sh: Shape)
    requires sh == UnixShort || sh == UnixLong
    ensures |Tokens(sh)| > 8 && Tokens(sh)[2] == One(Digit)
    ensures Tokens(sh)[8] == if sh == UnixShort then One(Digit) else Many(Digit)
  {
    var size := if sh == UnixShort then One(Digit) else Many(Digit);
    assert Tokens(sh)[..14] == UnixHead(size);
  }

  // ---------------------------------------------------------------------
  // Lines of a listing

  /** A line whose first character can open neither a DOS date nor Unix permissions gives no entry. */
  lemma ForeignOpeningSkipped(dir: string, line: string)
    requires |line| > 0 && !In(line[0], DigitDash) && !In(line[0], Perm)
    ensures ParseLine(dir, line).None?
  {
    forall sh ensures Match(sh, line).None? { OpeningFails(sh, line); }
    NoMatchNoEntry(dir, line);
  }

  /** A listing's summary line is skipped. */
  lemma TotalLineSkipped(dir: string)
    ensures ParseLine(dir, "total 12").None?
  {
    var line := "total 12";
    assert line[0] == 't';
    ForeignOpeningSkipped(dir, line);
  }

  /** A line that opens with neither a date character nor a permission character matches no pattern. */
  lemma OpeningFails(sh: Shape, line: string)
    requires Run(line, DigitDash) == 0 && Run(line, Perm) == 0
    ensures Match(sh, line).None?
  {
    assert Tokens(sh)[0] == if sh.DosDir? || sh.DosFile? then Many(DigitDash) else Many(Perm);
    FailsEarly(Tokens(sh), EndingOf(sh), line);
  }

  /** A Unix line in which `-` stands for the file type fails both DOS patterns at the second character. */
  lemma DashLineNotDos(line: string)
    requires |line| >= 2 && line[0] == '-' && line[1] == 'r'
    ensures Match(DosDir, line).None? && Match(DosFile, line).None?
  {
    assert line[1..][0] == 'r';
    assert Run(line[1..], DigitDash) == 0;
    assert Run(line, DigitDash) == 1;
    assert Run(line[1..], Space) == 0;
    FailsEarly(Tokens(DosDir), EndingOf(DosDir), line);
    FailsEarly(Tokens(DosFile), EndingOf(DosFile), line);
  }

  /** A line that does not open with a digit or '-' matches neither DOS pattern. */
  lemma DosNeedsDate(line: string)
    requires |line| > 0 && !In(line[0], DigitDash)
    ensures Match(DosDir, line).None? && Match(DosFile, line).None?
  {
    assert Run(line, DigitDash) == 0;
    FailsEarly(Tokens(DosDir), EndingOf(DosDir), line);
    FailsEarly(Tokens(DosFile), EndingOf(DosFile), line);
  }

  /**
   * A line whose first character is 'd', as in the permissions of a Unix
   * directory, fails both DOS patterns, so its entry has type file.
   */
  lemma DirectoryPermissionsListedAsFile(dir: string, line: string)
    requires |line| > 0 && line[0] == 'd' && ParseLine(dir, line).Some?
    ensures ParseLine(dir, line).value.kind == File && !ParseLine(dir, line).value.size.Zero?
  {
    DosNeedsDate(line);
    EntryKind(dir, line);
  }

  // ---------------------------------------------------------------------
  // The whole listing

  /** The result of ParseLine for every line, in order. */
  function Parsed(dir: string, lines: seq<string>): seq<Option<Entry>>
  {
    seq(|lines|, i requires 0 <= i < |lines| => ParseLine(dir, lines[i]))
  }

  /**
   * The foreach of GetDetailedList after `n` lines: the found entries keyed
   * by line index. An index is a key exactly when its line gave an entry,
   * and the key holds that entry.
   */
  function Collect(found: seq<Option<Entry>>, n: nat): (m: map<nat, Entry>)
    requires n <= |found|
    ensures forall i: nat :: i in m <==> i < n && found[i].Some?
    ensures forall i: nat :: i in m ==> Some(m[i]) == found[i]
    decreases n
  {
    if n == 0 then map[]
    else
      var m := Collect(found, n - 1);
      match found[n - 1]
      case Some(e) => m[n - 1 := e]
      case None => m
  }

  /** The array GetDetailedList builds from the raw lines, keyed by the index of each line. */
  function Detailed(dir: string, lines: seq<string>): (m: map<nat, Entry>)
    ensures forall i: nat :: i in m <==> i < |lines| && ParseLine(dir, lines[i]).Some?
    ensures forall i: nat :: i in m ==> Some(m[i]) == ParseLine(dir, lines[i])
  {
    Collect(Parsed(dir, lines), |lines|)
  }

  /** A line has an entry exactly when some pattern matches it. */
  lemma DetailedKeys(dir: string, lines: seq<string>, i: nat)
    requires i < |lines|
    ensures i in Detailed(dir, lines) <==> exists sh :: Match(sh, lines[i]).Some?
  {
    NoMatchNoEntry(dir, lines[i]);
  }

  /** The entry of a line is named inside the listed directory, below it. */
  lemma EntryUnderDir(dir: string, line: string)
    requires ParseLine(dir, line).Some?
    ensures var base := Paths.RTrimSlash(dir) + "/";
      |ParseLine(dir, line).value.name| > |base| && ParseLine(dir, line).value.name[..|base|] == base
  {
    EntryName(dir, line);
    var sh, ps :| && Match(sh, line) == Some(ps) && NameIndex(sh) < |ps|
                  && ParseLine(dir, line).value.name == Under(dir, ps[NameIndex(sh)])
                  && NameShaped(sh, ps[NameIndex(sh)]);
    var base := Paths.RTrimSlash(dir) + "/";
    var c := ps[NameIndex(sh)];
    assert |c| > 0 by { if sh == DosFile || sh == UnixLong { assert Dotted(c); } }
    assert (base + c)[..|base|] == base;
  }

  /** Every entry of the listing is named inside the listed directory. */
  lemma DetailedUnderDir(dir: string, lines: seq<string>, i: nat)
    requires i in Detailed(dir, lines)
    ensures var base := Paths.RTrimSlash(dir) + "/";
      |Detailed(dir, lines)[i].name| > |base| && Detailed(dir, lines)[i].name[..|base|] == base
  {
    EntryUnderDir(dir, lines[i]);
  }

  /** Every `+` token of the four patterns is followed by a token of a disjoint class. */
  lemma AllDeterministic(sh: Shape)
    ensures Deterministic(Tokens(sh), EndingOf(sh))
  {
    match sh
    case DosDir => DosDirDeterministic();
    case DosFile => DosFileDeterministic();
    case UnixShort => UnixShortDeterministic();
    case UnixLong => UnixLongDeterministic();
  }

  lemma DosDirDeterministic()
    ensures Deterministic(Tokens(DosDir), EndingOf(DosDir))
  {
    var ts := Tokens(DosDir);
    assert forall i :: 0 <= i < |ts| ==> Follows(ts, OptSpaceAtEnd, i);
    DeterministicOf(ts, OptSpaceAtEnd);
  }

  lemma DosFileDeterministic()
    ensures Deterministic(Tokens(DosFile), EndingOf(DosFile))
  {
    var ts := Tokens(DosFile);
    assert forall i :: 0 <= i < |ts| ==> Follows(ts, DottedName, i);
    DeterministicOf(ts, DottedName);
  }

  lemma UnixShortDeterministic()
    ensures Deterministic(Tokens(UnixShort), EndingOf(UnixShort))
  {
    var ts := Tokens(UnixShort);
    assert forall i :: 0 <= i < |ts| ==> Follows(ts, AtEnd, i);
    DeterministicOf(ts, AtEnd);
  }

  lemma UnixLongDeterministic()
    ensures Deterministic(Tokens(UnixLong), EndingOf(UnixLong))
  {
    var ts := Tokens(UnixLong);
    assert forall i :: 0 <= i < |ts| ==> Follows(ts, DottedName, i);
    DeterministicOf(ts, DottedName);
  }
}
