/**
 * The FASTQ view that the read filter takes of its input: a file is a
 * sequence of lines, each still carrying its line terminator, grouped purely
 * by position into records of four lines (id, sequence, separator, quality).
 * This module holds the specification of the filter as functions over those
 * lines, and the properties of that specification.
 */
module Fastq {

  /** A read as the filter keeps it. The separator line of the input is not
      part of it: the filter throws that line away and writes its own. */
  datatype Read = Read(id: string, sequence: string, quality: string)

  /** The third line of every record the filter writes. */
  const Separator: string := "+\n"

  /** The complete four-line groups of `lines`, in order; a trailing group of
      one to three lines is not a read. */
  function ParseReads(lines: seq<string>): (parsed: seq<Read>)
    ensures |parsed| == |lines| / 4
    decreases |lines|
  {
    if |lines| < 4 then [] else [Read(lines[0], lines[1], lines[3])] + ParseReads(lines[4..])
  }

  /** Read `k` of the input is made of lines 4k, 4k+1 and 4k+3. */
  lemma {:induction false} ParseReadsAt(lines: seq<string>, k: nat)
    requires k < |lines| / 4
    ensures ParseReads(lines)[k] == Read(lines[4 * k], lines[4 * k + 1], lines[4 * k + 3])
  {
    if k > 0 {
      ParseReadsAt(lines[4..], k - 1);
      assert lines[4..][4 * (k - 1)] == lines[4 * k];
      assert lines[4..][4 * (k - 1) + 1] == lines[4 * k + 1];
      assert lines[4..][4 * (k - 1) + 3] == lines[4 * k + 3];
    }
  }

  /** The length test of the filter, inclusive at both ends. The length is
      that of the stored sequence line, terminator included. A read can only
      pass a non-empty range whose upper bound is not negative. */
  predicate InRange(read: Read, minLength: int, maxLength: int)
    ensures InRange(read, minLength, maxLength) ==> minLength <= maxLength && 0 <= maxLength
  {
    minLength <= |read.sequence| <= maxLength
  }

  /** The reads whose length passes the test, in their original order. */
  function KeepInRange(rs: seq<Read>, minLength: int, maxLength: int): (kept: seq<Read>)
    ensures |kept| <= |rs|
  {
    if rs == [] then []
    else
      (if InRange(rs[0], minLength, maxLength) then [rs[0]] else [])
      + KeepInRange(rs[1..], minLength, maxLength)
  }

  /** A read is kept exactly when it is one of the reads and passes the
      length test. */
  lemma {:induction false} KeepInRangeMembers(rs: seq<Read>, minLength: int, maxLength: int, r: Read)
    ensures r in KeepInRange(rs, minLength, maxLength) <==> r in rs && InRange(r, minLength, maxLength)
  {
    if rs != [] {
      KeepInRangeMembers(rs[1..], minLength, maxLength, r);
      assert rs == [rs[0]] + rs[1..];
    }
  }

  /** The lines written for `rs`: id, sequence, the fixed separator and
      quality, read after read. */
  function WriteReads(rs: seq<Read>): (lines: seq<string>)
    ensures |lines| == 4 * |rs|
  {
    if rs == [] then []
    else [rs[0].id, rs[0].sequence, Separator, rs[0].quality] + WriteReads(rs[1..])
  }

  /** Lines 4k .. 4k+3 of the output are read `k`'s id, its sequence, the
      fixed separator and its quality. */
  lemma {:induction false} WriteReadsAt(rs: seq<Read>, k: nat)
    requires k < |rs|
    ensures WriteReads(rs)[4 * k] == rs[k].id
    ensures WriteReads(rs)[4 * k + 1] == rs[k].sequence
    ensures WriteReads(rs)[4 * k + 2] == Separator
    ensures WriteReads(rs)[4 * k + 3] == rs[k].quality
  {
    if k > 0 {
      WriteReadsAt(rs[1..], k - 1);
      var rest := WriteReads(rs[1..]);
      assert WriteReads(rs) == [rs[0].id, rs[0].sequence, Separator, rs[0].quality] + rest;
      assert WriteReads(rs)[4 * k] == rest[4 * (k - 1)];
      assert WriteReads(rs)[4 * k + 1] == rest[4 * (k - 1) + 1];
      assert WriteReads(rs)[4 * k + 2] == rest[4 * (k - 1) + 2];
      assert WriteReads(rs)[4 * k + 3] == rest[4 * (k - 1) + 3];
    }
  }

  /** What the filter writes for an input of `lines`. */
  function FilterLines(lines: seq<string>, minLength: int, maxLength: int): (out: seq<string>)
    ensures |out| % 4 == 0 && |out| <= |lines|
  {
    WriteReads(KeepInRange(ParseReads(lines), minLength, maxLength))
  }

  /** The number of reads the filter keeps from `lines`. */
  function KeptCount(lines: seq<string>, minLength: int, maxLength: int): (n: nat)
    ensures n <= |lines| / 4
    ensures |FilterLines(lines, minLength, maxLength)| == 4 * n
  {
    |KeepInRange(ParseReads(lines), minLength, maxLength)|
  }

  /** An independent, index-based statement of the filter: group `g` of the
      input is the lines 4g .. 4g+3, and the output is the concatenation, in
      group order from `g` on, of the rewritten groups whose sequence line
      (line 4g+1) passes the length test. */
  function GroupsFrom(lines: seq<string>, minLength: int, maxLength: int, g: nat): (out: seq<string>)
    requires g <= |lines| / 4
    ensures |out| % 4 == 0 && |out| <= 4 * (|lines| / 4 - g)
    decreases |lines| / 4 - g
  {
    if g == |lines| / 4 then []
    else
      (if minLength <= |lines[4 * g + 1]| <= maxLength
       then [lines[4 * g], lines[4 * g + 1], Separator, lines[4 * g + 3]]
       else [])
      + GroupsFrom(lines, minLength, maxLength, g + 1)
  }

  // ---------------------------------------------------------------------
  // Composition over concatenated inputs

  lemma {:induction false} ParseReadsAppend(a: seq<string>, b: seq<string>)
    requires |a| % 4 == 0
    ensures ParseReads(a + b) == ParseReads(a) + ParseReads(b)
    decreases |a|
  {
    if |a| == 0 {
      assert a + b == b;
    } else {
      assert (a + b)[4..] == a[4..] + b;
      ParseReadsAppend(a[4..], b);
    }
  }

  lemma {:induction false} KeepInRangeAppend(a: seq<Read>, b: seq<Read>, minLength: int, maxLength: int)
    ensures KeepInRange(a + b, minLength, maxLength)
         == KeepInRange(a, minLength, maxLength) + KeepInRange(b, minLength, maxLength)
  {
    if a == [] {
      assert a + b == b;
    } else {
      var head := if InRange(a[0], minLength, maxLength) then [a[0]] else [];
      assert (a + b)[0] == a[0];
      assert (a + b)[1..] == a[1..] + b;
      assert KeepInRange(a + b, minLength, maxLength) == head + KeepInRange(a[1..] + b, minLength, maxLength);
      KeepInRangeAppend(a[1..], b, minLength, maxLength);
      assert KeepInRange(a, minLength, maxLength) == head + KeepInRange(a[1..], minLength, maxLength);
    }
  }

  lemma {:induction false} WriteReadsAppend(a: seq<Read>, b: seq<Read>)
    ensures WriteReads(a + b) == WriteReads(a) + WriteReads(b)
  {
    if a == [] {
      assert a + b == b;
    } else {
      assert (a + b)[1..] == a[1..] + b;
      WriteReadsAppend(a[1..], b);
    }
  }

  /** Filtering distributes over inputs split at a record boundary: the
      filter is a pure record-by-record stream transformation. */
  lemma FilterLinesAppend(a: seq<string>, b: seq<string>, minLength: int, maxLength: int)
    requires |a| % 4 == 0
    ensures FilterLines(a + b, minLength, maxLength)
         == FilterLines(a, minLength, maxLength) + FilterLines(b, minLength, maxLength)
    ensures KeptCount(a + b, minLength, maxLength)
         == KeptCount(a, minLength, maxLength) + KeptCount(b, minLength, maxLength)
  {
    ParseReadsAppend(a, b);
    KeepInRangeAppend(ParseReads(a), ParseReads(b), minLength, maxLength);
    WriteReadsAppend(KeepInRange(ParseReads(a), minLength, maxLength),
                     KeepInRange(ParseReads(b), minLength, maxLength));
  }

  /** One complete group in isolation: it is written back, separator
      replaced, exactly when its sequence line passes the length test. */
  lemma SingleGroup(id: string, sequence: string, separator: string, quality: string,
                    minLength: int, maxLength: int)
    ensures FilterLines([id, sequence, separator, quality], minLength, maxLength)
         == if minLength <= |sequence| <= maxLength
            then [id, sequence, Separator, quality] else []
    ensures KeptCount([id, sequence, separator, quality], minLength, maxLength)
         == if minLength <= |sequence| <= maxLength then 1 else 0
  {
    var lines := [id, sequence, separator, quality];
    assert ParseReads(lines) == [Read(id, sequence, quality)];
  }

  /** Appending one complete group to an input that ends at a record
      boundary extends the output by that group's rewrite, if it passes. */
  lemma FilterLinesStep(prefix: seq<string>, id: string, sequence: string, separator: string,
                        quality: string, minLength: int, maxLength: int)
    requires |prefix| % 4 == 0
    ensures FilterLines(prefix + [id, sequence, separator, quality], minLength, maxLength)
         == FilterLines(prefix, minLength, maxLength)
            + (if minLength <= |sequence| <= maxLength
               then [id, sequence, Separator, quality] else [])
    ensures KeptCount(prefix + [id, sequence, separator, quality], minLength, maxLength)
         == KeptCount(prefix, minLength, maxLength)
            + (if minLength <= |sequence| <= maxLength then 1 else 0)
  {
    FilterLinesAppend(prefix, [id, sequence, separator, quality], minLength, maxLength);
    SingleGroup(id, sequence, separator, quality, minLength, maxLength);
  }

  /** A trailing partial group (one to three lines) adds no read, no
      output line and no kept read. */
  lemma TrailingPartialGroup(lines: seq<string>, tail: seq<string>, minLength: int, maxLength: int)
    requires |lines| % 4 == 0 && |tail| < 4
    ensures |ParseReads(lines + tail)| == |ParseReads(lines)|
    ensures FilterLines(lines + tail, minLength, maxLength) == FilterLines(lines, minLength, maxLength)
    ensures KeptCount(lines + tail, minLength, maxLength) == KeptCount(lines, minLength, maxLength)
  {
    FilterLinesAppend(lines, tail, minLength, maxLength);
    assert FilterLines(tail, minLength, maxLength) == [];
  }

  // ---------------------------------------------------------------------
  // Soundness, completeness and the index-based reference

  /** Filtering an input that starts with a complete group: that group's
      rewrite, if it passes, followed by the filtered rest. */
  lemma FilterLinesCons(id: string, sequence: string, separator: string, quality: string,
                        rest: seq<string>, minLength: int, maxLength: int)
    ensures FilterLines([id, sequence, separator, quality] + rest, minLength, maxLength)
         == (if minLength <= |sequence| <= maxLength
             then [id, sequence, Separator, quality] else [])
            + FilterLines(rest, minLength, maxLength)
  {
    FilterLinesAppend([id, sequence, separator, quality], rest, minLength, maxLength);
    SingleGroup(id, sequence, separator, quality, minLength, maxLength);
  }

  /** The lines from group `g` on are group `g` followed by the lines from
      group `g + 1` on. */
  lemma SplitAtGroup(lines: seq<string>, g: nat)
    requires g < |lines| / 4
    ensures lines[4 * g..]
         == [lines[4 * g], lines[4 * g + 1], lines[4 * g + 2], lines[4 * g + 3]] + lines[4 * (g + 1)..]
  {
  }

  /** The structural filter and the index-based statement agree from group
      `g` on. */
  lemma {:induction false} GroupsFromAgrees(lines: seq<string>, minLength: int, maxLength: int, g: nat)
    requires g <= |lines| / 4
    ensures FilterLines(lines[4 * g..], minLength, maxLength) == GroupsFrom(lines, minLength, maxLength, g)
    decreases |lines| / 4 - g
  {
    if g == |lines| / 4 {
      assert |lines[4 * g..]| < 4;
    } else {
      var group := [lines[4 * g], lines[4 * g + 1], lines[4 * g + 2], lines[4 * g + 3]];
      var rest := lines[4 * (g + 1)..];
      SplitAtGroup(lines, g);
      assert lines[4 * g..] == group + rest;
      FilterLinesCons(lines[4 * g], lines[4 * g + 1], lines[4 * g + 2], lines[4 * g + 3],
                      rest, minLength, maxLength);
      GroupsFromAgrees(lines, minLength, maxLength, g + 1);
      assert FilterLines(rest, minLength, maxLength) == GroupsFrom(lines, minLength, maxLength, g + 1);
    }
  }

  /** The output is the in-order concatenation of `[id, sequence, "+\n",
      quality]` over exactly those complete groups whose sequence line
      length lies in `[minLength, maxLength]`. */
  lemma FilterIsGroupwise(lines: seq<string>, minLength: int, maxLength: int)
    ensures FilterLines(lines, minLength, maxLength) == GroupsFrom(lines, minLength, maxLength, 0)
  {
    GroupsFromAgrees(lines, minLength, maxLength, 0);
    assert lines[4 * 0..] == lines;
  }

  /** Reading back what the filter writes gives the reads it was given. */
  lemma {:induction false} ParseWriteRoundTrip(rs: seq<Read>)
    ensures ParseReads(WriteReads(rs)) == rs
  {
    if rs != [] {
      var lines := WriteReads(rs);
      assert lines[4..] == WriteReads(rs[1..]);
      ParseWriteRoundTrip(rs[1..]);
      assert rs == [rs[0]] + rs[1..];
    }
  }

  /** A read of the output is a read of the input that passes the test,
      and every such read of the input is a read of the output. */
  lemma FilterSoundComplete(lines: seq<string>, minLength: int, maxLength: int, r: Read)
    ensures r in ParseReads(FilterLines(lines, minLength, maxLength))
        <==> r in ParseReads(lines) && InRange(r, minLength, maxLength)
  {
    ParseWriteRoundTrip(KeepInRange(ParseReads(lines), minLength, maxLength));
    KeepInRangeMembers(ParseReads(lines), minLength, maxLength, r);
  }

  /** Output record `k` (lines 4k .. 4k+3) is the id, sequence and quality
      line of one complete input group `g`, with the fixed separator between
      them: no input separator line is ever copied. */
  lemma OutputProvenance(lines: seq<string>, minLength: int, maxLength: int)
    ensures forall k :: 0 <= k < KeptCount(lines, minLength, maxLength) ==>
      var out := FilterLines(lines, minLength, maxLength);
      out[4 * k + 2] == Separator &&
      exists g :: 0 <= g < |lines| / 4 &&
                  out[4 * k] == lines[4 * g] && out[4 * k + 1] == lines[4 * g + 1] &&
                  out[4 * k + 3] == lines[4 * g + 3]
  {
    var out := FilterLines(lines, minLength, maxLength);
    forall k | 0 <= k < KeptCount(lines, minLength, maxLength)
      ensures out[4 * k + 2] == Separator
      ensures exists g :: 0 <= g < |lines| / 4 &&
                out[4 * k] == lines[4 * g] && out[4 * k + 1] == lines[4 * g + 1] &&
                out[4 * k + 3] == lines[4 * g + 3]
    {
      var g := OutputRecordOrigin(lines, minLength, maxLength, k);
    }
  }

  /** The input group that output record `k` was copied from. */
  lemma OutputRecordOrigin(lines: seq<string>, minLength: int, maxLength: int, k: nat) returns (g: nat)
    requires k < KeptCount(lines, minLength, maxLength)
    ensures g < |lines| / 4
    ensures var out := FilterLines(lines, minLength, maxLength);
      out[4 * k] == lines[4 * g] && out[4 * k + 1] == lines[4 * g + 1] &&
      out[4 * k + 2] == Separator && out[4 * k + 3] == lines[4 * g + 3]
  {
    var kept := KeepInRange(ParseReads(lines), minLength, maxLength);
    WriteReadsAt(kept, k);
    g := KeptOrigin(lines, minLength, maxLength, k);
    ParseReadsAt(lines, g);
  }

  /** Kept read `k` is read `g` of the input, for some `g`. */
  lemma KeptOrigin(lines: seq<string>, minLength: int, maxLength: int, k: nat) returns (g: nat)
    requires k < KeptCount(lines, minLength, maxLength)
    ensures g < |lines| / 4
    ensures ParseReads(lines)[g] == KeepInRange(ParseReads(lines), minLength, maxLength)[k]
  {
    var rs := ParseReads(lines);
    var kept := KeepInRange(rs, minLength, maxLength);
    assert kept[k] in kept;
    KeepInRangeMembers(rs, minLength, maxLength, kept[k]);
    g :| 0 <= g < |rs| && rs[g] == kept[k];
  }

  // ---------------------------------------------------------------------
  // Idempotence

  lemma {:induction false} KeepInRangeIdempotent(rs: seq<Read>, minLength: int, maxLength: int)
    ensures KeepInRange(KeepInRange(rs, minLength, maxLength), minLength, maxLength)
         == KeepInRange(rs, minLength, maxLength)
  {
    if rs != [] {
      var head := if InRange(rs[0], minLength, maxLength) then [rs[0]] else [];
      var tail := KeepInRange(rs[1..], minLength, maxLength);
      KeepInRangeAppend(head, tail, minLength, maxLength);
      KeepInRangeIdempotent(rs[1..], minLength, maxLength);
      assert KeepInRange(head, minLength, maxLength) == head;
    }
  }

  /** Filtering the filter's output again with the same bounds changes
      nothing. */
  lemma FilterIdempotent(lines: seq<string>, minLength: int, maxLength: int)
    ensures FilterLines(FilterLines(lines, minLength, maxLength), minLength, maxLength)
         == FilterLines(lines, minLength, maxLength)
    ensures KeptCount(FilterLines(lines, minLength, maxLength), minLength, maxLength)
         == KeptCount(lines, minLength, maxLength)
  {
    var kept := KeepInRange(ParseReads(lines), minLength, maxLength);
    ParseWriteRoundTrip(kept);
    KeepInRangeIdempotent(ParseReads(lines), minLength, maxLength);
  }

  // ---------------------------------------------------------------------
  // Bounds

  /** Both bounds are inclusive: a sequence line of length exactly
      `minLength` or `maxLength` is kept, one of length `minLength - 1` or
      `maxLength + 1` is dropped. */
  lemma InclusiveBounds(id: string, sequence: string, separator: string, quality: string,
                        minLength: int, maxLength: int)
    ensures minLength <= maxLength && (|sequence| == minLength || |sequence| == maxLength) ==>
      FilterLines([id, sequence, separator, quality], minLength, maxLength)
        == [id, sequence, Separator, quality]
    ensures |sequence| == minLength - 1 || |sequence| == maxLength + 1 ==>
      FilterLines([id, sequence, separator, quality], minLength, maxLength) == []
  {
    SingleGroup(id, sequence, separator, quality, minLength, maxLength);
  }

  /** With `minLength > maxLength` no read is kept. */
  lemma EmptyRange(lines: seq<string>, minLength: int, maxLength: int)
    requires minLength > maxLength
    ensures KeptCount(lines, minLength, maxLength) == 0
    ensures FilterLines(lines, minLength, maxLength) == []
  {
    KeepNone(ParseReads(lines), minLength, maxLength);
  }

  lemma {:induction false} KeepNone(rs: seq<Read>, minLength: int, maxLength: int)
    requires minLength > maxLength
    ensures KeepInRange(rs, minLength, maxLength) == []
  {
    if rs != [] {
      KeepNone(rs[1..], minLength, maxLength);
    }
  }

  /** When every read passes, the output is the input with each separator
      line replaced by `"+\n"` and a trailing partial group dropped. */
  lemma KeepEverything(lines: seq<string>, minLength: int, maxLength: int)
    requires forall g :: 0 <= g < |lines| / 4 ==> minLength <= |lines[4 * g + 1]| <= maxLength
    ensures KeptCount(lines, minLength, maxLength) == |lines| / 4
    ensures forall k :: 0 <= k < |lines| / 4 ==>
      var out := FilterLines(lines, minLength, maxLength);
      out[4 * k] == lines[4 * k] && out[4 * k + 1] == lines[4 * k + 1] &&
      out[4 * k + 2] == Separator && out[4 * k + 3] == lines[4 * k + 3]
  {
    var rs := ParseReads(lines);
    forall k | 0 <= k < |rs| ensures InRange(rs[k], minLength, maxLength) {
      ParseReadsAt(lines, k);
    }
    KeepAllInRange(rs, minLength, maxLength);
    var out := FilterLines(lines, minLength, maxLength);
    forall k | 0 <= k < |rs|
      ensures out[4 * k] == lines[4 * k] && out[4 * k + 1] == lines[4 * k + 1]
      ensures out[4 * k + 2] == Separator && out[4 * k + 3] == lines[4 * k + 3]
    {
      ParseReadsAt(lines, k);
      WriteReadsAt(rs, k);
    }
  }

  lemma {:induction false} KeepAllInRange(rs: seq<Read>, minLength: int, maxLength: int)
    requires forall k :: 0 <= k < |rs| ==> InRange(rs[k], minLength, maxLength)
    ensures KeepInRange(rs, minLength, maxLength) == rs
  {
    if rs != [] {
      KeepAllInRange(rs[1..], minLength, maxLength);
      assert rs == [rs[0]] + rs[1..];
    }
  }

  // ---------------------------------------------------------------------
  // Scenarios

  /** Two reads whose sequence lines are 50 and 150 characters long,
      filtered to [100, 200]: the second is kept, the first dropped. */
  lemma TwoReadsOneKept(id1: string, seq1: string, sep1: string, qual1: string,
                        id2: string, seq2: string, sep2: string, qual2: string)
    requires |seq1| == 50 && |seq2| == 150
    ensures FilterLines([id1, seq1, sep1, qual1, id2, seq2, sep2, qual2], 100, 200)
         == [id2, seq2, Separator, qual2]
    ensures KeptCount([id1, seq1, sep1, qual1, id2, seq2, sep2, qual2], 100, 200) == 1
  {
    var first := [id1, seq1, sep1, qual1];
    assert [id1, seq1, sep1, qual1, id2, seq2, sep2, qual2] == first + [id2, seq2, sep2, qual2];
    FilterLinesStep(first, id2, seq2, sep2, qual2, 100, 200);
    SingleGroup(id1, seq1, sep1, qual1, 100, 200);
  }
}
