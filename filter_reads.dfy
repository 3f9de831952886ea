/**
 * The record-filtering loop of the read filter: one pass over the lines of a
 * FASTQ file that groups them by `index % 4`, holds the id, sequence and
 * quality of the current group, and on every quality line counts a read and
 * writes it out when its sequence line length lies in `[minLength,
 * maxLength]`. The output file is the sequence of lines written so far.
 */
module FilterReads {
  import opened Fastq

  datatype Option<T> = None | Some(value: T)

  /** The exceptions the loop raises. */
  datatype FilterError =
    | MissingReadId
    | MissingReadSequence
    | MissingReadQualities
    | WrongReadType

  /** How one pass over a file ends: with the lines written and the two
      counters, or with an exception and the lines written before it. */
  datatype Outcome =
    | Completed(output: seq<string>, readCount: nat, filteredReadCount: nat)
    | Failed(error: FilterError, written: seq<string>)

  /** Completing the group that starts at line `start` extends the
      specified output by that group's rewrite when its sequence line passes
      the length test, and otherwise leaves it as it was. */
  lemma GroupCompleted(lines: seq<string>, start: nat, minLength: int, maxLength: int)
    requires start + 4 <= |lines| && start % 4 == 0
    ensures FilterLines(lines[..start + 4], minLength, maxLength)
         == if minLength <= |lines[start + 1]| <= maxLength
            then FilterLines(lines[..start], minLength, maxLength)
                 + [lines[start]] + [lines[start + 1]] + [Separator] + [lines[start + 3]]
            else FilterLines(lines[..start], minLength, maxLength)
    ensures KeptCount(lines[..start + 4], minLength, maxLength)
         == KeptCount(lines[..start], minLength, maxLength)
            + (if minLength <= |lines[start + 1]| <= maxLength then 1 else 0)
  {
    var prefix := lines[..start];
    assert lines[..start + 4]
        == prefix + [lines[start], lines[start + 1], lines[start + 2], lines[start + 3]];
    FilterLinesStep(prefix, lines[start], lines[start + 1], lines[start + 2], lines[start + 3],
                    minLength, maxLength);
    assert FilterLines(prefix, minLength, maxLength)
           + [lines[start]] + [lines[start + 1]] + [Separator] + [lines[start + 3]]
        == FilterLines(prefix, minLength, maxLength)
           + [lines[start], lines[start + 1], Separator, lines[start + 3]];
  }

  /** A line's position within its group is its index modulo 4; the
      proof sits apart from the loop so that the modular arithmetic is
      proved once, in a small context. */
  lemma GroupOffset(index: nat, group: nat)
    requires 4 * group <= index < 4 * group + 4
    ensures index % 4 == index - 4 * group
  {
  }

  /** Filters `lines` (each still carrying its line terminator) to the reads
      whose sequence line length lies in `[minLength, maxLength]`. No input
      makes it raise; it writes exactly what `FilterLines` specifies. */
  method PrepareReads(lines: seq<string>, minLength: int, maxLength: int) returns (r: Outcome)
    ensures r.Completed?
    ensures r.output == FilterLines(lines, minLength, maxLength)
    ensures r.readCount == |lines| / 4
    ensures r.filteredReadCount == KeptCount(lines, minLength, maxLength)
    ensures r.filteredReadCount <= r.readCount
    ensures |r.output| == 4 * r.filteredReadCount
  {
    var readID: Option<string> := None;
    var readSequence: Option<string> := None;
    var readQuality: Option<string> := None;
    var readCount: nat := 0;
    var filteredReadCount: nat := 0;
    var output: seq<string> := [];

    var index := 0;
    // The first line of the current group: lines 0 .. start - 1 form the
    // completed groups.
    ghost var start := 0;
    while index < |lines|
      invariant 0 <= start <= index <= |lines| && index <= start + 3
      invariant start == 4 * readCount
      invariant output == FilterLines(lines[..start], minLength, maxLength)
      invariant filteredReadCount == KeptCount(lines[..start], minLength, maxLength)
      // The accumulator holds exactly the lines of the current group seen so
      // far; at a group boundary it is empty.
      invariant index == start ==> readID == None
      invariant index > start ==> readID == Some(lines[start])
      invariant index <= start + 1 ==> readSequence == None
      invariant index > start + 1 ==> readSequence == Some(lines[start + 1])
      invariant readQuality == None
    {
      var line := lines[index];
      GroupOffset(index, readCount);
      var readType := index % 4;
      assert readType == index - start;
      if readType == 0 {
        assert index == start;
        readID := Some(line);
      } else if readType == 1 {
        assert index == start + 1;
        readSequence := Some(line);
      } else if readType == 2 {
        // The separator line is read and thrown away.
      } else if readType == 3 {
        assert index == start + 3;
        readQuality := Some(line);
        if readID.None? {
          assert false;
          return Failed(MissingReadId, output);
        } else if readSequence.None? {
          assert false;
          return Failed(MissingReadSequence, output);
        } else if readQuality.None? {
          assert false;
          return Failed(MissingReadQualities, output);
        } else {
          GroupOffset(start, readCount);
          readCount := readCount + 1;
          var readLength := |readSequence.value|;
          GroupCompleted(lines, start, minLength, maxLength);
          if readLength >= minLength && readLength <= maxLength {
            filteredReadCount := filteredReadCount + 1;
            output := output + [readID.value];
            output := output + [readSequence.value];
            output := output + [Separator];
            output := output + [readQuality.value];
          }
        }
        readID := None;
        readSequence := None;
        readQuality := None;
        start := start + 4;
      } else {
        assert false;
        return Failed(WrongReadType, output);
      }
      index := index + 1;
    }

    assert lines == lines[..start] + lines[start..];
    GroupOffset(start, readCount);
    TrailingPartialGroup(lines[..start], lines[start..], minLength, maxLength);
    r := Completed(output, readCount, filteredReadCount);
  }
}
