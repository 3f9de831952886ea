# read-filter: the FASTQ length filter, modelled in Dafny

The read filter copies a FASTQ file and keeps only the reads whose sequence
length lies in an inclusive range `[minLength, maxLength]`. Its one piece of
real logic is the record loop of `prepareReads`. The loop walks the lines of
the input file and classifies each line by its index modulo 4:

- line 0 of a group is the read id;
- line 1 is the sequence;
- line 2 is the separator, which is thrown away;
- line 3 is the quality.

On every quality line the loop counts a read. If the stored sequence line's
length is in range, it counts the read as kept and writes four lines: id,
sequence, a literal `+\n`, and quality. Then it clears the stored lines.

This project models that loop and proves what it computes.

- `fastq.dfy` (module `Fastq`) holds the specification as functions on the
  sequence of input lines. `ParseReads` cuts the lines into complete four-line
  groups. `InRange` is the inclusive length test and `KeepInRange` keeps the
  reads that pass it. `WriteReads` writes the
  reads back with the fixed separator. `FilterLines` is their composition.
  `GroupsFrom` is a second, index-based statement of the same filter. The
  lemmas in this module state the properties of the filter.
- `filter_reads.dfy` (module `FilterReads`) holds the loop itself.
  `PrepareReads` is a `while` loop over the input lines. It keeps the three
  accumulator variables as `Option<string>`, the two counters, and an output
  `seq<string>` that it appends to. It is proved to write exactly
  `FilterLines` and to count `|lines| / 4` reads. The exceptions the loop can
  raise are modelled as `Failed` outcomes, and its postcondition
  `r.Completed?` proves that none of them can happen.

Each line is a string that still carries its line terminator, as Python's
iteration over a text file yields it. The length test measures the stored
sequence line as it is, terminator included (Filter_Reads.py:61, 77). A
sequence of L bases followed by `\n` is therefore tested as length L + 1. The
model keeps this behaviour; it does not model a trimmed-length convention.
Python's `len` counts code points, and so does `|s|` on a Dafny `string`.

The loop invariants of `PrepareReads` state the record-boundary facts:

- lines `0 .. 4 * readCount - 1` are the completed groups;
- the output and `filteredReadCount` are the filter applied to exactly those
  lines;
- `readID` holds line `4 * readCount` once that line has been read, and is
  `None` before it;
- `readSequence` holds line `4 * readCount + 1` once that line has been read,
  and is `None` before it;
- `readQuality` is always `None` at the head of the loop.

So at every index that is a multiple of 4, all three stored lines are `None`.

## Model

| member | source | states |
|---|---|---|
| `FilterReads.PrepareReads` | Filter_Reads.py:46-92 | The loop never raises: the three missing-line errors and the wrong-read-type error cannot happen. It writes exactly `FilterLines(lines, minLength, maxLength)`. `readCount` is `|lines| / 4`. `filteredReadCount` is the number of kept reads, is at most `readCount`, and the output has `4 * filteredReadCount` lines. |
| `FilterReads.GroupCompleted` | Filter_Reads.py:74-89 | When the quality line of the group starting at line `start` is reached, the specified output grows by that group's id, sequence, `+\n` and quality lines if its sequence line passes the test, and stays the same otherwise. The kept count grows by 1 or 0 to match. |
| `Fastq.ParseReads` | Filter_Reads.py:54-65 | An input of n lines holds exactly `n / 4` complete reads, so a trailing partial group is not a read. |
| `Fastq.ParseReadsAt` | Filter_Reads.py:56-65 | Read k is made of line 4k (id), line 4k+1 (sequence) and line 4k+3 (quality); line 4k+2 is not part of it. |
| `Fastq.InRange` | Filter_Reads.py:77-78 | The length test measures the stored sequence line as it is, terminator included, and is inclusive at both ends: `minLength <= len <= maxLength`. A read can pass only when `minLength <= maxLength` and `maxLength` is not negative, so an empty range passes nothing. |
| `Fastq.KeepInRange` | Filter_Reads.py:77-79 | The filter never keeps more reads than it counts. |
| `Fastq.KeepInRangeMembers` | Filter_Reads.py:77-79 | A read is kept if and only if it is one of the input reads and its sequence line length is in `[minLength, maxLength]`. |
| `Fastq.WriteReads` | Filter_Reads.py:81-84 | Every written read takes exactly four output lines. |
| `Fastq.WriteReadsAt` | Filter_Reads.py:81-84 | Output lines 4k .. 4k+3 are read k's id, its sequence, `+\n` and its quality, in that order. |
| `Fastq.FilterLines` | Filter_Reads.py:54-89 | The output is a whole number of four-line records and is never longer than the input. |
| `Fastq.KeptCount` | Filter_Reads.py:75-84 | The kept count is at most the number of complete groups, and the output has exactly four lines per kept read. |
| `Fastq.ParseReadsAppend` | Filter_Reads.py:54-65 | Grouping by `index % 4` splits over two inputs joined at a group boundary. |
| `Fastq.KeepInRangeAppend` | Filter_Reads.py:77-79 | The length test treats each read on its own: filtering a concatenation concatenates the filtered parts. |
| `Fastq.WriteReadsAppend` | Filter_Reads.py:81-84 | Writing a concatenation of reads concatenates the written lines. |
| `Fastq.FilterLinesAppend` | Filter_Reads.py:54-89 | Filtering two inputs joined at a group boundary gives the two outputs joined, and the kept counts add. |
| `Fastq.SingleGroup` | Filter_Reads.py:58-84 | One complete group is written back as id, sequence, `+\n`, quality exactly when its sequence line length is in range, and is dropped otherwise. Its own separator line is never written. |
| `Fastq.FilterLinesStep` | Filter_Reads.py:74-89 | Appending one complete group to an input that ends at a group boundary extends the output by that group's rewrite if it passes, and the kept count by 1 or 0. |
| `Fastq.FilterLinesCons` | Filter_Reads.py:58-84 | Filtering an input that starts with a complete group gives that group's rewrite, if it passes, followed by the filtered rest. |
| `Fastq.TrailingPartialGroup` | Filter_Reads.py:54-75 | A trailing partial group of one to three lines adds no read, no output line and no kept read. |
| `Fastq.GroupsFrom` | Filter_Reads.py:54-89 | The index-based statement of the loop: the concatenation, in group order from group g on, of `[line 4g, line 4g+1, "+\n", line 4g+3]` over the complete groups whose line 4g+1 passes the length test. Its result is a whole number of four-line records, at most four lines per remaining complete group. |
| `Fastq.GroupsFromAgrees` | Filter_Reads.py:54-89 | From group g on, the structural filter and the index-based statement `GroupsFrom` give the same output. |
| `Fastq.FilterIsGroupwise` | Filter_Reads.py:54-89 | Soundness and completeness together with order: the output is the in-order concatenation of `[line 4g, line 4g+1, "+\n", line 4g+3]` over exactly those complete groups g whose line 4g+1 has a length in `[minLength, maxLength]`. |
| `Fastq.ParseWriteRoundTrip` | Filter_Reads.py:58-84 | Grouping the written lines again gives back exactly the reads that were written. |
| `Fastq.FilterSoundComplete` | Filter_Reads.py:77-84 | A read appears in the output if and only if it is a read of the input whose sequence length is in range. |
| `Fastq.KeptOrigin` | Filter_Reads.py:77-84 | Every kept read is some complete group of the input. |
| `Fastq.OutputRecordOrigin` | Filter_Reads.py:81-84 | Output record k is the id, sequence and quality line of one complete input group g, with `+\n` as its third line. |
| `Fastq.OutputProvenance` | Filter_Reads.py:58-84 | The quantified form of `OutputRecordOrigin`, taken over all output records at once: every output record's third line is `+\n`, and its other three lines are lines 4g, 4g+1 and 4g+3 of some complete input group. So no input line at a position 4g+2 is ever copied. |
| `Fastq.KeepInRangeIdempotent` | Filter_Reads.py:77-79 | Applying the length test twice keeps the same reads as applying it once. |
| `Fastq.FilterIdempotent` | Filter_Reads.py:77-84 | Filtering the output again with the same bounds gives the same output and the same kept count. |
| `Fastq.InclusiveBounds` | Filter_Reads.py:78 | Both bounds are inclusive: a sequence line of length exactly `minLength` or exactly `maxLength` is kept (when `minLength <= maxLength`). One of length `minLength - 1` or `maxLength + 1` is dropped. |
| `Fastq.KeepNone` | Filter_Reads.py:78-79 | With `minLength > maxLength` the length test keeps no read. |
| `Fastq.EmptyRange` | Filter_Reads.py:78-79 | With `minLength > maxLength` nothing is written and the kept count is 0. |
| `Fastq.KeepAllInRange` | Filter_Reads.py:78-79 | When every read passes the length test, all of them are kept, in order. |
| `Fastq.KeepEverything` | Filter_Reads.py:81-84 | When every group passes, every group is kept: record k of the output is input lines 4k, 4k+1 and 4k+3 verbatim, with the separator normalised to `+\n`. |
| `Fastq.TwoReadsOneKept` | Filter_Reads.py:75-84 | Two reads with sequence lines of length 50 and 150, filtered to `[100, 200]`: only the second is written, and one read is kept. |

## Left out

- Listing the barcode directory, the `.fastq` name check, opening the input file, and `createOutputFile` (Filter_Reads.py:31-41, 161-167) are filesystem I/O. The model takes the input lines as a sequence and returns the output lines as a value.
- Creating the output file inside the per-file loop makes a later `.fastq` file in the same directory overwrite an earlier one's output (Filter_Reads.py:34-41). This is filesystem behaviour across files and is not modelled; the model covers one input file.
- Closing the output file (Filter_Reads.py:94) is I/O.
- The `try/except` that prints and swallows an exception per file (Filter_Reads.py:44, 100-102) is modelled only as the `Failed` outcome. That outcome carries the error and the lines written before it; the printing is console output.
- `readArgs` (Filter_Reads.py:105-159) relies on `getopt`, `argv` and `int()` parsing from the Python standard library, and only writes globals. It is not part of this model.
- The main block (Filter_Reads.py:171-188) splits the barcode list, builds paths with `os.path.join` and calls `prepareReads` once per barcode. This is orchestration over library calls and is not modelled.
- The summary and progress `print` calls (Filter_Reads.py:29, 96-98) are console output.
- `int(minLength)` and `int(maxLength)` (Filter_Reads.py:78): the bounds are modelled as integers. If `-m` is missing, `int(None)` raises a `TypeError` at the first complete read. If only `-M` is missing, the `and` short-circuits: the error comes at the first complete read whose sequence line is at least `minLength` long, and never if there is none, in which case the file finishes with no read kept. Neither path is modelled.
- Python's decoding of the file and its splitting of the text into lines (text-mode newline translation, a last line without a terminator) are not modelled. A `UnicodeDecodeError` raised while the loop iterates over the file (Filter_Reads.py:54) comes after part of the output has been written, and the `except` at Filter_Reads.py:100-102 swallows it; the model has no such path. The model starts from the sequence of lines; the length test and the copies use each line as given.
