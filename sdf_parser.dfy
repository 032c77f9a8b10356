/**
 * The fixed-column molfile (V2000) reader of `converter.ts`: the counts line
 * is line index 3, atom i sits on line 4 + i and bond i on line
 * 4 + atomCount + i. Only a missing (or empty) counts line is fatal; missing
 * atom and bond lines are skipped and unparsable fields stay NaN.
 */
module SdfParser {
  import opened Wrappers
  import opened JsNumber
  import opened JsString

  /** An atom: coordinates (NaN when a field does not parse) and the trimmed element symbol. */
  datatype Atom = Atom(x: Number, y: Number, z: Number, element: string)

  /** A bond: 1-based atom ordinals and bond order, each `None` when `parseInt` gives NaN. */
  datatype Bond = Bond(atom1: Option<int>, atom2: Option<int>, order: Option<int>)

  datatype Molecule = Molecule(atoms: seq<Atom>, bonds: seq<Bond>)

  datatype ParseError = MissingCountsLine

  /** `lines[k]` when it is a non-empty string; `None` when JavaScript's `!line` holds. */
  function LineAt(lines: seq<string>, k: int): (r: Option<string>)
    ensures r.Some? <==> 0 <= k < |lines| && lines[k] != ""
    ensures r.Some? ==> r.value == lines[k]
  {
    if 0 <= k < |lines| && lines[k] != "" then Some(lines[k]) else None
  }

  /** Atom fields: x, y, z from columns [0,10), [10,20), [20,30), the symbol from [31,34) trimmed. */
  function AtomOfLine(line: string): Atom {
    Atom(ParseFloat(Substring(line, 0, 10)),
         ParseFloat(Substring(line, 10, 20)),
         ParseFloat(Substring(line, 20, 30)),
         Trim(Substring(line, 31, 34)))
  }

  /** Bond fields: atom ordinals from columns [0,3) and [3,6), the order from [6,9). */
  function BondOfLine(line: string): Bond {
    Bond(ParseInt(Substring(line, 0, 3)), ParseInt(Substring(line, 3, 6)), ParseInt(Substring(line, 6, 9)))
  }

  /** How often `for (let i = 0; i < count; i++)` runs: never when `count` is NaN or not positive. */
  function Iterations(count: Option<int>): (n: nat)
    ensures count.Some? && count.value > 0 ==> n == count.value
    ensures count.None? || count.value <= 0 ==> n == 0
  {
    if count.Some? && count.value > 0 then count.value else 0
  }

  /**
   * The present lines among `lines[start]`, ..., `lines[start + n - 1]`, in order.
   * A NaN start (`None`) makes every index NaN, so no line is present.
   */
  function PresentLines(lines: seq<string>, start: Option<int>, n: nat): (r: seq<string>)
    ensures |r| <= n
    ensures start.None? ==> r == []
    ensures forall i :: 0 <= i < |r| ==> r[i] != ""
  {
    if n == 0 || start.None? then []
    else
      var prefix := PresentLines(lines, start, n - 1);
      match LineAt(lines, start.value + n - 1)
      case Some(line) => prefix + [line]
      case None => prefix
  }

  /** One record per line, in order, each read from its line by `parse`. */
  function Records<T>(parse: string -> T, lines: seq<string>): (r: seq<T>)
    ensures |r| == |lines|
  {
    if lines == [] then [] else Records(parse, lines[..|lines| - 1]) + [parse(lines[|lines| - 1])]
  }

  /** Record i is read from line i. */
  lemma {:induction false} RecordsAt<T>(parse: string -> T, lines: seq<string>, i: nat)
    requires i < |lines|
    ensures Records(parse, lines)[i] == parse(lines[i])
    decreases |lines|
  {
    if i < |lines| - 1 {
      RecordsAt(parse, lines[..|lines| - 1], i);
    }
  }

  /** Reading one more line appends its record. */
  lemma RecordsSnoc<T>(parse: string -> T, lines: seq<string>, line: string)
    ensures Records(parse, lines + [line]) == Records(parse, lines) + [parse(line)]
  {
    assert (lines + [line])[..|lines|] == lines;
  }

  /** Index of the first bond line: `4 + atomCount`, NaN when the atom count is. */
  function BondStart(atomCount: Option<int>): Option<int> {
    if atomCount.Some? then Some(4 + atomCount.value) else None
  }

  /** What `parseSdf` returns for `sdf`, or the error it throws. */
  function ParsedSdf(sdf: string): Result<Molecule, ParseError> {
    var lines := Split(sdf, '\n');
    if |lines| <= 3 || lines[3] == "" then Failure(MissingCountsLine)
    else
      var atomCount := ParseInt(Substring(lines[3], 0, 3));
      var bondCount := ParseInt(Substring(lines[3], 3, 6));
      Success(Molecule(Records(AtomOfLine, PresentLines(lines, Some(4), Iterations(atomCount))),
                       Records(BondOfLine, PresentLines(lines, BondStart(atomCount), Iterations(bondCount)))))
  }

  /** `parseSdf`: split into lines, read the counts line, then push one record per present line. */
  method ParseSdf(sdf: string) returns (r: Result<Molecule, ParseError>)
    ensures r.Failure? <==> |Split(sdf, '\n')| <= 3 || Split(sdf, '\n')[3] == ""
    ensures r == ParsedSdf(sdf)
  {
    var lines := Split(sdf, '\n');
    if |lines| <= 3 || lines[3] == "" {
      return Failure(MissingCountsLine);
    }
    var countsLine := lines[3];
    var atomCount := ParseInt(Substring(countsLine, 0, 3));
    var bondCount := ParseInt(Substring(countsLine, 3, 6));
    var atoms := ReadRecords(AtomOfLine, lines, Some(4), atomCount);
    var bonds := ReadRecords(BondOfLine, lines, BondStart(atomCount), bondCount);
    return Success(Molecule(atoms, bonds));
  }

  /**
   * The two loops of `parseSdf`: `for (i = 0; i < count; i++)` reading line `start + i`
   * with `parse` and skipping it when it is absent or empty (`if (!line) continue`).
   * Atoms start at line 4; bonds at line `4 + atomCount`, which is NaN (no line) when the atom count is.
   */
  method ReadRecords<T>(parse: string -> T, lines: seq<string>, start: Option<int>, count: Option<int>)
    returns (records: seq<T>)
    ensures records == Records(parse, PresentLines(lines, start, Iterations(count)))
  {
    records := [];
    var i := 0;
    while count.Some? && i < count.value
      invariant 0 <= i <= Iterations(count)
      invariant records == Records(parse, PresentLines(lines, start, i))
    {
      var line := if start.Some? then LineAt(lines, start.value + i) else None;
      ghost var before := PresentLines(lines, start, i);
      if line.Some? {
        records := records + [parse(line.value)];
        RecordsSnoc(parse, before, line.value);
      }
      i := i + 1;
    }
  }

  /** When every line of a block is present, the records are exactly those lines, in order. */
  lemma {:induction false} PresentLinesComplete(lines: seq<string>, s: nat, n: nat)
    requires s + n <= |lines|
    requires forall k :: s <= k < s + n ==> lines[k] != ""
    ensures PresentLines(lines, Some(s), n) == lines[s..s + n]
  {
    if n > 0 {
      PresentLinesComplete(lines, s, n - 1);
      assert lines[s..s + n] == lines[s..s + n - 1] + [lines[s + n - 1]];
    }
  }

  /**
   * A record whose counts parse and whose atom and bond lines are all present:
   * the atoms are read from lines 4 .. 4 + atomCount and the bonds from the
   * `bondCount` lines after them, one record per line and in order (see `RecordsAt`).
   */
  lemma CompleteRecord(sdf: string, atomCount: nat, bondCount: nat)
    requires var lines := Split(sdf, '\n');
      && |lines| > 3 && lines[3] != ""
      && ParseInt(Substring(lines[3], 0, 3)) == Some(atomCount)
      && ParseInt(Substring(lines[3], 3, 6)) == Some(bondCount)
      && 4 + atomCount + bondCount <= |lines|
      && forall k :: 4 <= k < 4 + atomCount + bondCount ==> lines[k] != ""
    ensures ParsedSdf(sdf).Success?
    ensures var lines := Split(sdf, '\n');
      var m := ParsedSdf(sdf).value;
      && m.atoms == Records(AtomOfLine, lines[4..4 + atomCount])
      && m.bonds == Records(BondOfLine, lines[4 + atomCount..4 + atomCount + bondCount])
  {
    var lines := Split(sdf, '\n');
    CompleteBlocks(lines, ParseInt(Substring(lines[3], 0, 3)), ParseInt(Substring(lines[3], 3, 6)), atomCount, bondCount);
  }

  lemma CompleteBlocks(lines: seq<string>, ac: Option<int>, bc: Option<int>, atomCount: nat, bondCount: nat)
    requires ac == Some(atomCount) && bc == Some(bondCount)
    requires 4 + atomCount + bondCount <= |lines|
    requires forall k :: 4 <= k < 4 + atomCount + bondCount ==> lines[k] != ""
    ensures PresentLines(lines, Some(4), Iterations(ac)) == lines[4..4 + atomCount]
    ensures PresentLines(lines, BondStart(ac), Iterations(bc)) == lines[4 + atomCount..4 + atomCount + bondCount]
  {
    assert Iterations(ac) == atomCount && Iterations(bc) == bondCount;
    assert BondStart(ac) == Some(4 + atomCount);
    PresentLinesComplete(lines, 4, atomCount);
    PresentLinesComplete(lines, 4 + atomCount, bondCount);
  }

  /** Absent atom lines are skipped: never more atoms than the counts line announces. */
  lemma AtomsAtMostCount(sdf: string)
    requires ParsedSdf(sdf).Success?
    ensures var lines := Split(sdf, '\n');
      |ParsedSdf(sdf).value.atoms| <= Iterations(ParseInt(Substring(lines[3], 0, 3)))
  {
  }

  /** An unparsable atom count reads no atoms and, since `4 + NaN` indexes nothing, no bonds. */
  lemma NaNAtomCount(sdf: string)
    requires ParsedSdf(sdf).Success?
    requires ParseInt(Substring(Split(sdf, '\n')[3], 0, 3)).None?
    ensures ParsedSdf(sdf).value == Molecule([], [])
  {
  }
}
