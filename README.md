# SplitContent, modelled in Dafny

SplitContent is an Apache NiFi processor that cuts the content of a flow
file into splits wherever a byte sequence (the delimiter) occurs. Its
properties choose the delimiter and how it is written (hexadecimal by
default, text taken as UTF-8 bytes, or a regular expression), whether the
delimiter is kept, and, if kept, whether it ends the split before it
(Trailing, the default) or starts the split after it (Leading). The
content is read through a read buffer of BUFFER_SIZE bytes. Every split
carries fragment.identifier, fragment.index (1..n) and fragment.count, and
the original flow file is passed on with the same identifier and count, so
that MergeContent in defragment mode can put the splits back together.

The behaviour here is the one that TestSplitContent.java fixes; the
processor's own source is not part of this model.

The model is built in layers:

- `Bytes` (bytes.dfy): bytes, UTF-8 encoding, and hexadecimal decoding with
  its inverse.
- `Matcher` (matcher.dfy): the delimiter search. It finds leftmost,
  non-overlapping occurrences. A delimiter is either a literal byte
  pattern, matched exactly, or a maximal run of bytes from a set (the
  regular expressions `[\n\r]+` and `\n+`).
- `Segmenting` (segmenting.dfy): the cutting policy. The pure function
  `Split(data, delimiter, keep, position)` cuts at every match, keeps the
  delimiter Trailing or Leading or drops it, and never emits a split of
  length zero.
- `Framing` (framing.dfy): contents made of lines and separator runs, with
  their splits for all three policies.
- `ScanState` and `Scanner` (scanstate.dfy, scanner.dfy): the streaming
  scanner. The class `StreamSplitter` holds an `array` buffer of fixed
  capacity, a window of the content it holds, and a cursor that counts
  bytes from the start of the content. A refill keeps the unexamined bytes
  and reads more after them, so a match that straddles the edge of the
  buffer is found on the next pass. Reads may return any number of bytes
  from one up to the free room. The scan's result is proved to be `Split`
  for every capacity the delimiter fits in.
- `Config` (config.dfy): validation of the properties into a plan.
- `Fragments` (fragments.dfy): the lineage attributes, and a defragmenting
  merge.
- `Processor` (processor.dfy): one run of the processor.
- `Vectors`, `Sentences` and `RunExamples` (vectors.dfy, sentences.dfy,
  runexamples.dfy): the concrete examples. `RunExamples` covers the
  regular-expression examples for any lines and separators.

## Model

| member | source | states |
|---|---|---|
| Bytes.Utf8Append | nifi-nar-bundles/nifi-standard-bundle/nifi-standard-processors/src/test/java/org/apache/nifi/processors/standard/TestSplitContent.java:370-374 | the UTF-8 bytes of two strings written one after the other are the bytes of each, in order, so a string built piece by piece encodes piece by piece |
| Bytes.Utf8AsciiByte | nifi-nar-bundles/nifi-standard-bundle/nifi-standard-processors/src/test/java/org/apache/nifi/processors/standard/TestSplitContent.java:72 | an ASCII byte occurs in a string's UTF-8 bytes only where the string holds that very character, so an ASCII delimiter never matches inside a multi-byte character |
| Bytes.HexRoundTrip | nifi-nar-bundles/nifi-standard-bundle/nifi-standard-processors/src/test/java/org/apache/nifi/processors/standard/TestSplitContent.java:172 | hex-decoding the upper-case hexadecimal text of any bytes gives those bytes back |
| Bytes.HexDecodeEncode | nifi-nar-bundles/nifi-standard-bundle/nifi-standard-processors/src/test/java/org/apache/nifi/processors/standard/TestSplitContent.java:172 | a successful hex decoding gives bytes whose hexadecimal text is the input digit for digit, up to letter case; so decoding loses nothing |
| Bytes.HexDecodeFrom | nifi-nar-bundles/nifi-standard-bundle/nifi-standard-processors/src/test/java/org/apache/nifi/processors/standard/TestSplitContent.java:172 | a decoded text has two digits per byte, and a digit error names a position inside the text |
| Matcher.PatternAtSlice | nifi-nar-bundles/nifi-standard-bundle/nifi-standard-processors/src/test/java/org/apache/nifi/processors/standard/TestSplitContent.java:45 | the pattern occurs at i exactly when the content slice at i of the pattern's length equals the pattern, byte for byte and case-sensitively |
| Matcher.RunEnd | nifi-nar-bundles/nifi-standard-bundle/nifi-standard-processors/src/test/java/org/apache/nifi/processors/standard/TestSplitContent.java:368 | the run that begins at i holds only class bytes and stops at the first byte outside the class or at the end of the content: a match of the run is maximal |
| Matcher.FindFrom | nifi-nar-bundles/nifi-standard-bundle/nifi-standard-processors/src/test/java/org/apache/nifi/processors/standard/TestSplitContent.java:172-187 | the match found is an occurrence, no occurrence begins between the search position and it, and when none is found no occurrence begins anywhere after the search position |
| Matcher.Matches | nifi-nar-bundles/nifi-standard-bundle/nifi-standard-processors/src/test/java/org/apache/nifi/processors/standard/TestSplitContent.java:213-236 | the matches are non-empty, in increasing order and do not overlap, all within the content |
| Matcher.MatchesAreOccurrences | nifi-nar-bundles/nifi-standard-bundle/nifi-standard-processors/src/test/java/org/apache/nifi/processors/standard/TestSplitContent.java:85 | every match starts at an occurrence of the delimiter and ends where that occurrence ends: after the whole pattern for a literal, at the end of the maximal run for a class |
| Matcher.EveryOccurrenceCovered | nifi-nar-bundles/nifi-standard-bundle/nifi-standard-processors/src/test/java/org/apache/nifi/processors/standard/TestSplitContent.java:169-187 | every occurrence of the delimiter begins inside some match, so none is missed; leftover delimiter bytes are only those a match covers or overlaps |
| Matcher.NextMatchAt | nifi-nar-bundles/nifi-standard-bundle/nifi-standard-processors/src/test/java/org/apache/nifi/processors/standard/TestSplitContent.java:213-236 | when nothing begins before a and an occurrence begins at a, the next match is the one at a and the search resumes at its end |
| Matcher.NoMoreMatches | nifi-nar-bundles/nifi-standard-bundle/nifi-standard-processors/src/test/java/org/apache/nifi/processors/standard/TestSplitContent.java:586-609 | with no occurrence from a position on, there are no more matches |
| Matcher.RunAt | nifi-nar-bundles/nifi-standard-bundle/nifi-standard-processors/src/test/java/org/apache/nifi/processors/standard/TestSplitContent.java:361-386 | a run of class bytes [a, b) that no class byte follows is the next match, and the search resumes at b |
| Segmenting.Segments | nifi-nar-bundles/nifi-standard-bundle/nifi-standard-processors/src/test/java/org/apache/nifi/processors/standard/TestSplitContent.java:266-326 | the cut ranges are never empty, are in order and disjoint, number at most one more than the matches, and keeping the delimiter they tile the content |
| Segmenting.KeepCount | nifi-nar-bundles/nifi-standard-bundle/nifi-standard-processors/src/test/java/org/apache/nifi/processors/standard/TestSplitContent.java:129-141 | keeping the delimiter there is one split per match, plus one for the bytes after the last match (Trailing) or before the first (Leading) when there are any |
| Segmenting.Contents | nifi-nar-bundles/nifi-standard-bundle/nifi-standard-processors/src/test/java/org/apache/nifi/processors/standard/TestSplitContent.java:58-61 | each split holds exactly the content bytes of its range |
| Segmenting.Split | nifi-nar-bundles/nifi-standard-bundle/nifi-standard-processors/src/test/java/org/apache/nifi/processors/standard/TestSplitContent.java:266-326 | no split is empty |
| Segmenting.KeepRoundTrip | nifi-nar-bundles/nifi-standard-bundle/nifi-standard-processors/src/test/java/org/apache/nifi/processors/standard/TestSplitContent.java:551-582 | keeping the delimiter, the splits concatenated in index order are the content exactly, for either location |
| Segmenting.DropRemovesDelimiters | nifi-nar-bundles/nifi-standard-bundle/nifi-standard-processors/src/test/java/org/apache/nifi/processors/standard/TestSplitContent.java:88-98 | dropping the delimiter, the splits concatenated are the content with exactly the matched delimiter bytes taken out |
| Segmenting.NoDelimiterOneSplit | nifi-nar-bundles/nifi-standard-bundle/nifi-standard-processors/src/test/java/org/apache/nifi/processors/standard/TestSplitContent.java:586-609 | non-empty content without any occurrence has the single split equal to the content, whatever the policy (empty content: see Segmenting.EmptyNoSplit) |
| Segmenting.EmptyNoSplit | nifi-nar-bundles/nifi-standard-bundle/nifi-standard-processors/src/test/java/org/apache/nifi/processors/standard/TestSplitContent.java:586-609 | empty content, which holds no occurrence, has no split at all, since a split is never empty |
| Segmenting.TrailingPlacement | nifi-nar-bundles/nifi-standard-bundle/nifi-standard-processors/src/test/java/org/apache/nifi/processors/standard/TestSplitContent.java:147-165 | with Trailing, the split numbered j ends with the whole match j |
| Segmenting.LeadingPlacement | nifi-nar-bundles/nifi-standard-bundle/nifi-standard-processors/src/test/java/org/apache/nifi/processors/standard/TestSplitContent.java:42-61 | with Leading, the split after any leading bytes, offset by j, begins with the whole match j |
| Segmenting.LeadingLastSplit | nifi-nar-bundles/nifi-standard-bundle/nifi-standard-processors/src/test/java/org/apache/nifi/processors/standard/TestSplitContent.java:129-141 | with Leading, the last split runs from the last match to the end, so a delimiter that ends the content is the last split on its own |
| Segmenting.DropPlacement | nifi-nar-bundles/nifi-standard-bundle/nifi-standard-processors/src/test/java/org/apache/nifi/processors/standard/TestSplitContent.java:88-98 | dropping the delimiter, no split shares a byte with any match |
| Framing.RunSplitDrop | nifi-nar-bundles/nifi-standard-bundle/nifi-standard-processors/src/test/java/org/apache/nifi/processors/standard/TestSplitContent.java:361-386 | for lines free of class bytes each followed by a run of class bytes, dropping the runs gives exactly the lines, for either location |
| Framing.RunSplitTrailing | nifi-nar-bundles/nifi-standard-bundle/nifi-standard-processors/src/test/java/org/apache/nifi/processors/standard/TestSplitContent.java:389-417 | for such lines, keeping the runs at the end gives each line followed by its run |
| Framing.RunSplitLeading | nifi-nar-bundles/nifi-standard-bundle/nifi-standard-processors/src/test/java/org/apache/nifi/processors/standard/TestSplitContent.java:419-447 | for lines each preceded by a run of class bytes, keeping the runs at the start gives each run followed by its line |
| Config.DecodeSequence | nifi-nar-bundles/nifi-standard-bundle/nifi-standard-processors/src/test/java/org/apache/nifi/processors/standard/TestSplitContent.java:44-45 | an accepted sequence is never empty: text and hexadecimal give a literal, a character class gives the run of its ASCII bytes; bad hexadecimal, an empty sequence and a non-ASCII class are refused |
| Config.Validate | nifi-nar-bundles/nifi-standard-bundle/nifi-standard-processors/src/test/java/org/apache/nifi/processors/standard/TestSplitContent.java:171-172 | the plan carries the decoded delimiter, the keep flag as given, the location or Trailing when unset, and a buffer the delimiter fits in; it is refused exactly when the sequence is refused or does not fit |
| Config.HexSequenceAccepted | nifi-nar-bundles/nifi-standard-bundle/nifi-standard-processors/src/test/java/org/apache/nifi/processors/standard/TestSplitContent.java:172 | any non-empty byte string written in hexadecimal is accepted as exactly that literal |
| Config.AsciiTextBytes | nifi-nar-bundles/nifi-standard-bundle/nifi-standard-processors/src/test/java/org/apache/nifi/processors/standard/TestSplitContent.java:45 | ASCII text is accepted as the literal of its character codes, one byte per character |
| Config.ClassByteIsClassChar | nifi-nar-bundles/nifi-standard-bundle/nifi-standard-processors/src/test/java/org/apache/nifi/processors/standard/TestSplitContent.java:368 | a class byte in the encoded content stands for a class character of the text at that place |
| Fragments.Emit | nifi-nar-bundles/nifi-standard-bundle/nifi-standard-processors/src/test/java/org/apache/nifi/processors/standard/TestSplitContent.java:52-54 | what is sent on is reassemblable (one shared identifier, every split carrying the count, indices 1..n in order), the original carries the count, and split k holds part k |
| Fragments.Find | nifi-nar-bundles/nifi-standard-bundle/nifi-standard-processors/src/test/java/org/apache/nifi/processors/standard/TestSplitContent.java:571-582 | the fragment found carries the index asked for; when none is found no fragment carries it |
| Fragments.MergeEmitted | nifi-nar-bundles/nifi-standard-bundle/nifi-standard-processors/src/test/java/org/apache/nifi/processors/standard/TestSplitContent.java:571-582 | merging in index order what was sent on gives the parts concatenated |
| Fragments.MergeAnyOrder | nifi-nar-bundles/nifi-standard-bundle/nifi-standard-processors/src/test/java/org/apache/nifi/processors/standard/TestSplitContent.java:574-582 | any arrangement of what was sent on, indices distinct, merges to the parts concatenated in index order |
| Scanner.StreamSplitter.constructor | nifi-nar-bundles/nifi-standard-bundle/nifi-standard-processors/src/test/java/org/apache/nifi/processors/standard/TestSplitContent.java:365 | a fresh buffer of the capacity, nothing read or recorded yet, and the scan state valid |
| Scanner.StreamSplitter.Refill | nifi-nar-bundles/nifi-standard-bundle/nifi-standard-processors/src/test/java/org/apache/nifi/processors/standard/TestSplitContent.java:454 | the bytes from the cursor on move to the front of the buffer and at least one more byte is read after them; the buffer still mirrors the content it holds |
| Scanner.StreamSplitter.PatternHere | nifi-nar-bundles/nifi-standard-bundle/nifi-standard-processors/src/test/java/org/apache/nifi/processors/standard/TestSplitContent.java:172 | the buffered comparison answers true exactly when the pattern occurs in the content at the cursor |
| Scanner.StreamSplitter.LiteralCutHere | nifi-nar-bundles/nifi-standard-bundle/nifi-standard-processors/src/test/java/org/apache/nifi/processors/standard/TestSplitContent.java:213-236 | an occurrence at the cursor is the next match: the split before it (unless empty) is appended to the recorded splits, the next split starts where the policy cuts, and the cursor moves past the pattern |
| Scanner.StreamSplitter.SkipHere | nifi-nar-bundles/nifi-standard-bundle/nifi-standard-processors/src/test/java/org/apache/nifi/processors/standard/TestSplitContent.java:169-187 | a position where no occurrence begins is passed over |
| Scanner.StreamSplitter.Finish | nifi-nar-bundles/nifi-standard-bundle/nifi-standard-processors/src/test/java/org/apache/nifi/processors/standard/TestSplitContent.java:266-284 | with no match left, the bytes after the last cut are recorded as the last split, if there are any |
| Scanner.StreamSplitter.RunByteHere | nifi-nar-bundles/nifi-standard-bundle/nifi-standard-processors/src/test/java/org/apache/nifi/processors/standard/TestSplitContent.java:518-547 | a class byte at the cursor opens a run starting at the cursor, or extends the open one keeping its start, even across a refill; the cursor moves on one byte |
| Scanner.StreamSplitter.CloseRun | nifi-nar-bundles/nifi-standard-bundle/nifi-standard-processors/src/test/java/org/apache/nifi/processors/standard/TestSplitContent.java:518-547 | the open run ends at the first byte outside the class (or the end) and is the next match: the split before it (unless empty) is appended to the recorded splits and the next split starts where the policy cuts |
| Scanner.StreamSplitter.ScanLiteral | nifi-nar-bundles/nifi-standard-bundle/nifi-standard-processors/src/test/java/org/apache/nifi/processors/standard/TestSplitContent.java:169-346 | the literal search runs to the end of the content and finishes with the scan state valid |
| Scanner.StreamSplitter.ScanRun | nifi-nar-bundles/nifi-standard-bundle/nifi-standard-processors/src/test/java/org/apache/nifi/processors/standard/TestSplitContent.java:449-547 | the run search runs to the end of the content and finishes with the scan state valid |
| Scanner.StreamSplitter.Scan | nifi-nar-bundles/nifi-standard-bundle/nifi-standard-processors/src/test/java/org/apache/nifi/processors/standard/TestSplitContent.java:365 | when the scan ends, the recorded split ranges are exactly those of the pure model |
| Scanner.SplitStreamed | nifi-nar-bundles/nifi-standard-bundle/nifi-standard-processors/src/test/java/org/apache/nifi/processors/standard/TestSplitContent.java:449-547 | streaming through a buffer of any capacity the delimiter fits in (16 B, len+1 B, 1 KB, 64 KB alike) gives exactly Split |
| Processor.Outcome | nifi-nar-bundles/nifi-standard-bundle/nifi-standard-processors/src/test/java/org/apache/nifi/processors/standard/TestSplitContent.java:52-54 | a run fails exactly when validation fails, with its error; otherwise the splits are reassemblable, non-empty, and the original keeps the content and identifier |
| Processor.SplitFlowFile | nifi-nar-bundles/nifi-standard-bundle/nifi-standard-processors/src/test/java/org/apache/nifi/processors/standard/TestSplitContent.java:50 | the streamed run sends on exactly what the model says for the settings and content |
| Processor.KeepSplitsSome | nifi-nar-bundles/nifi-standard-bundle/nifi-standard-processors/src/test/java/org/apache/nifi/processors/standard/TestSplitContent.java:42-61 | keeping the delimiter, non-empty content has at least one split |
| Processor.SplitThenMerge | nifi-nar-bundles/nifi-standard-bundle/nifi-standard-processors/src/test/java/org/apache/nifi/processors/standard/TestSplitContent.java:551-582 | keeping the delimiter, the splits merged in defragment mode give back the content, whatever order they arrive in |
| Processor.NoDelimiterOneFragment | nifi-nar-bundles/nifi-standard-bundle/nifi-standard-processors/src/test/java/org/apache/nifi/processors/standard/TestSplitContent.java:586-609 | non-empty content without the delimiter is sent on as one split equal to it, index 1, count 1, and the original carries count 1 |
| Processor.EmptyContent | nifi-nar-bundles/nifi-standard-bundle/nifi-standard-processors/src/test/java/org/apache/nifi/processors/standard/TestSplitContent.java:586-609 | under any accepted settings, empty content is sent on as no split, and the original carries count 0 |
| Processor.DropOutcome | nifi-nar-bundles/nifi-standard-bundle/nifi-standard-processors/src/test/java/org/apache/nifi/processors/standard/TestSplitContent.java:88-98 | dropping the delimiter, the splits sent on concatenate to the content less every matched delimiter |
| Vectors.HexFFFF | nifi-nar-bundles/nifi-standard-bundle/nifi-standard-processors/src/test/java/org/apache/nifi/processors/standard/TestSplitContent.java:172 | the hexadecimal property FFFF is the two-byte literal 0xFF 0xFF |
| Vectors.Hex05050505 | nifi-nar-bundles/nifi-standard-bundle/nifi-standard-processors/src/test/java/org/apache/nifi/processors/standard/TestSplitContent.java:216 | the hexadecimal property 05050505 is the literal of four 5s |
| Vectors.TextUb | nifi-nar-bundles/nifi-standard-bundle/nifi-standard-processors/src/test/java/org/apache/nifi/processors/standard/TestSplitContent.java:44-45 | the text property ub is the literal of its two ASCII bytes |
| Vectors.RubLeading | nifi-nar-bundles/nifi-standard-bundle/nifi-standard-processors/src/test/java/org/apache/nifi/processors/standard/TestSplitContent.java:42-61 | rub-a-dub-dub split on ub, kept Leading, gives r, ub-a-d, ub-d, ub |
| Vectors.RubTrailing | nifi-nar-bundles/nifi-standard-bundle/nifi-standard-processors/src/test/java/org/apache/nifi/processors/standard/TestSplitContent.java:147-165 | kept Trailing it gives rub, -a-dub, -dub |
| Vectors.SmallDropped | nifi-nar-bundles/nifi-standard-bundle/nifi-standard-processors/src/test/java/org/apache/nifi/processors/standard/TestSplitContent.java:169-187 | three 0xFF bytes split on 0xFF 0xFF leave the third 0xFF at the start of the second split |
| Vectors.SmallKept | nifi-nar-bundles/nifi-standard-bundle/nifi-standard-processors/src/test/java/org/apache/nifi/processors/standard/TestSplitContent.java:551-569 | kept, the first split ends with the matched pair and the second starts with the leftover 0xFF |
| Vectors.SingleDropped | nifi-nar-bundles/nifi-standard-bundle/nifi-standard-processors/src/test/java/org/apache/nifi/processors/standard/TestSplitContent.java:191-210 | one 0xFF between two runs splits them in two |
| Vectors.LargerDropped | nifi-nar-bundles/nifi-standard-bundle/nifi-standard-processors/src/test/java/org/apache/nifi/processors/standard/TestSplitContent.java:213-236 | six 5s split on four 5s leave two 5s in the second split |
| Vectors.LargerKept | nifi-nar-bundles/nifi-standard-bundle/nifi-standard-processors/src/test/java/org/apache/nifi/processors/standard/TestSplitContent.java:240-262 | kept Trailing, the four matched 5s end the first split |
| Vectors.EndsWithDropped | nifi-nar-bundles/nifi-standard-bundle/nifi-standard-processors/src/test/java/org/apache/nifi/processors/standard/TestSplitContent.java:266-284 | a delimiter at the end, dropped, leaves one split and no empty one |
| Vectors.EndsWithKept | nifi-nar-bundles/nifi-standard-bundle/nifi-standard-processors/src/test/java/org/apache/nifi/processors/standard/TestSplitContent.java:287-305 | a delimiter at the end, kept Trailing, leaves one split equal to the content |
| Vectors.StartsWithDropped | nifi-nar-bundles/nifi-standard-bundle/nifi-standard-processors/src/test/java/org/apache/nifi/processors/standard/TestSplitContent.java:308-326 | a delimiter at the start, dropped, leaves one split and no empty one |
| Vectors.StartsWithKept | nifi-nar-bundles/nifi-standard-bundle/nifi-standard-processors/src/test/java/org/apache/nifi/processors/standard/TestSplitContent.java:329-346 | a delimiter at the start, kept Trailing, is a split of its own |
| Vectors.TextFormatLeadingPosition | nifi-nar-bundles/nifi-standard-bundle/nifi-standard-processors/src/test/java/org/apache/nifi/processors/standard/TestSplitContent.java:42-61 | the run sends on four splits, r, ub-a-d, ub-d and ub, with count 4, for any buffer the delimiter fits in |
| Vectors.TextFormatTrailingPosition | nifi-nar-bundles/nifi-standard-bundle/nifi-standard-processors/src/test/java/org/apache/nifi/processors/standard/TestSplitContent.java:147-165 | the run sends on rub, -a-dub and -dub with count 3 |
| Vectors.SmallSplits | nifi-nar-bundles/nifi-standard-bundle/nifi-standard-processors/src/test/java/org/apache/nifi/processors/standard/TestSplitContent.java:169-187 | the default (hexadecimal, dropped, Trailing) run sends on 1..5 and FF 5..1 with count 2 |
| Vectors.WithSingleByteSplit | nifi-nar-bundles/nifi-standard-bundle/nifi-standard-processors/src/test/java/org/apache/nifi/processors/standard/TestSplitContent.java:191-210 | the run on FF sends on 1..5 and 5..1 with count 2 |
| Vectors.WithLargerSplit | nifi-nar-bundles/nifi-standard-bundle/nifi-standard-processors/src/test/java/org/apache/nifi/processors/standard/TestSplitContent.java:213-237 | the run on 05050505 sends on 1..4 and 5 5 4..1 with count 2 |
| Vectors.KeepingSequence | nifi-nar-bundles/nifi-standard-bundle/nifi-standard-processors/src/test/java/org/apache/nifi/processors/standard/TestSplitContent.java:240-263 | kept with no location set (Trailing), it sends on 1..4 5 5 5 5 and 5 5 4..1 |
| Vectors.EndsWithSequence | nifi-nar-bundles/nifi-standard-bundle/nifi-standard-processors/src/test/java/org/apache/nifi/processors/standard/TestSplitContent.java:266-284 | it sends on the single split 1..4 with count 1 |
| Vectors.EndsWithSequenceAndKeepSequence | nifi-nar-bundles/nifi-standard-bundle/nifi-standard-processors/src/test/java/org/apache/nifi/processors/standard/TestSplitContent.java:287-305 | it sends on the single split equal to the content with count 1 |
| Vectors.StartsWithSequence | nifi-nar-bundles/nifi-standard-bundle/nifi-standard-processors/src/test/java/org/apache/nifi/processors/standard/TestSplitContent.java:308-326 | it sends on the single split 1..4 with count 1 |
| Vectors.StartsWithSequenceAndKeepSequence | nifi-nar-bundles/nifi-standard-bundle/nifi-standard-processors/src/test/java/org/apache/nifi/processors/standard/TestSplitContent.java:329-346 | it sends on 5 5 5 5 and 1..4 with count 2 |
| Vectors.SmallSplitsThenMerge | nifi-nar-bundles/nifi-standard-bundle/nifi-standard-processors/src/test/java/org/apache/nifi/processors/standard/TestSplitContent.java:551-583 | kept, the run sends on the two splits with count 2, and merging them in any order gives back the content |
| Vectors.NoSplitterInString | nifi-nar-bundles/nifi-standard-bundle/nifi-standard-processors/src/test/java/org/apache/nifi/processors/standard/TestSplitContent.java:586-610 | UVAT split on a comma is sent on as one split equal to it, index 1, count 1 |
| Sentences.TextTest | nifi-nar-bundles/nifi-standard-bundle/nifi-standard-processors/src/test/java/org/apache/nifi/processors/standard/TestSplitContent.java:68 | the text property test is the literal of its four ASCII bytes |
| Sentences.SentenceFrom0 | nifi-nar-bundles/nifi-standard-bundle/nifi-standard-processors/src/test/java/org/apache/nifi/processors/standard/TestSplitContent.java:72 | the four-sentence input has matches of test at 10, 32 and 62 only: Test at 93 differs in case and does not match |
| Sentences.SentenceEndingFrom0 | nifi-nar-bundles/nifi-standard-bundle/nifi-standard-processors/src/test/java/org/apache/nifi/processors/standard/TestSplitContent.java:117 | the input ending in test has matches at 10, 32, 62 and 93 |
| Sentences.SentenceLeading | nifi-nar-bundles/nifi-standard-bundle/nifi-standard-processors/src/test/java/org/apache/nifi/processors/standard/TestSplitContent.java:82-85 | kept Leading, the four splits each start with test, the last keeping Test. |
| Sentences.SentenceDropped | nifi-nar-bundles/nifi-standard-bundle/nifi-standard-processors/src/test/java/org/apache/nifi/processors/standard/TestSplitContent.java:95-98 | dropped, the four splits are the text between the matches |
| Sentences.SentenceTrailing | nifi-nar-bundles/nifi-standard-bundle/nifi-standard-processors/src/test/java/org/apache/nifi/processors/standard/TestSplitContent.java:109-112 | kept Trailing, the first three splits end with test |
| Sentences.SentenceEndingTrailing | nifi-nar-bundles/nifi-standard-bundle/nifi-standard-processors/src/test/java/org/apache/nifi/processors/standard/TestSplitContent.java:123-126 | kept Trailing with test at the very end, there are four splits and no empty fifth |
| Sentences.SentenceEndingLeading | nifi-nar-bundles/nifi-standard-bundle/nifi-standard-processors/src/test/java/org/apache/nifi/processors/standard/TestSplitContent.java:137-141 | kept Leading with test at the very end, test is a fifth split of its own |
| Sentences.TextFormatSplitsLeading | nifi-nar-bundles/nifi-standard-bundle/nifi-standard-processors/src/test/java/org/apache/nifi/processors/standard/TestSplitContent.java:65-85 | the run sends on the four Leading splits with count 4 |
| Sentences.TextFormatSplitsDropped | nifi-nar-bundles/nifi-standard-bundle/nifi-standard-processors/src/test/java/org/apache/nifi/processors/standard/TestSplitContent.java:88-98 | with the delimiter dropped (location still Leading) the run sends on the four texts with count 4 |
| Sentences.TextFormatSplitsTrailing | nifi-nar-bundles/nifi-standard-bundle/nifi-standard-processors/src/test/java/org/apache/nifi/processors/standard/TestSplitContent.java:101-112 | the run sends on the four Trailing splits with count 4 |
| Sentences.TextFormatSplitsEndingTrailing | nifi-nar-bundles/nifi-standard-bundle/nifi-standard-processors/src/test/java/org/apache/nifi/processors/standard/TestSplitContent.java:115-126 | the run sends on four splits with count 4 |
| Sentences.TextFormatSplitsEndingLeading | nifi-nar-bundles/nifi-standard-bundle/nifi-standard-processors/src/test/java/org/apache/nifi/processors/standard/TestSplitContent.java:129-141 | the run sends on five splits with count 5 |
| RunExamples.BuildTrailing | nifi-nar-bundles/nifi-standard-bundle/nifi-standard-processors/src/test/java/org/apache/nifi/processors/standard/TestSplitContent.java:372-374 | the loop's string is every line followed by its separator, in order |
| RunExamples.BuildLeading | nifi-nar-bundles/nifi-standard-bundle/nifi-standard-processors/src/test/java/org/apache/nifi/processors/standard/TestSplitContent.java:433-435 | the loop's string is every separator followed by its line, in order |
| RunExamples.EncodedTrailing | nifi-nar-bundles/nifi-standard-bundle/nifi-standard-processors/src/test/java/org/apache/nifi/processors/standard/TestSplitContent.java:372-375 | the UTF-8 bytes of the built string are the encoded lines, each followed by its encoded separator |
| RunExamples.EncodedSeparated | nifi-nar-bundles/nifi-standard-bundle/nifi-standard-processors/src/test/java/org/apache/nifi/processors/standard/TestSplitContent.java:370-371 | lines free of the class's characters and separators made only of them encode to lines free of the class's bytes and runs made only of them, non-ASCII characters included |
| RunExamples.RegexSearch | nifi-nar-bundles/nifi-standard-bundle/nifi-standard-processors/src/test/java/org/apache/nifi/processors/standard/TestSplitContent.java:361-386 | with [\n\r]+ dropped, the run sends on exactly the UTF-8 bytes of each line, one split per line, for every buffer size: 1 KB here, 16 B at lines 449-475; any ASCII class will do |
| RunExamples.RegexTrailingSearch | nifi-nar-bundles/nifi-standard-bundle/nifi-standard-processors/src/test/java/org/apache/nifi/processors/standard/TestSplitContent.java:389-417 | kept Trailing, each split is the bytes of its line followed by its separator, for every buffer size: 1 KB here, and at lines 518-547 21 B, exactly the UTF-8 length of the first line, so the run after it begins at the next read |
| RunExamples.RegexLeadingSearch | nifi-nar-bundles/nifi-standard-bundle/nifi-standard-processors/src/test/java/org/apache/nifi/processors/standard/TestSplitContent.java:419-447 | kept Leading, on content built separator first, each split is the bytes of its separator followed by its line |
| RunExamples.RegexLargeMultiReadSearch | nifi-nar-bundles/nifi-standard-bundle/nifi-standard-processors/src/test/java/org/apache/nifi/processors/standard/TestSplitContent.java:478-516 | with \n+ over ASCII lines there are as many splits as lines and each split is exactly as long as its line |

## Left out

- The NiFi framework: the test runner, flow-file repository, relationships and queues. A run is a function from settings and content to what is sent on.
- MergeContent: only its defragment-and-concatenate effect is modelled (`Fragments.Defragment`). Its other strategies, formats and bins are not.
- Regular expressions in general, and their validation by Java's regex library (the missing `]` at lines 349-358). Only expressions of the form "one or more characters of an ASCII class" are modelled, as `RegexRun`; any other expression is not representable in the settings.
- Text decoding: the content is raw bytes. Non-ASCII characters appear only as their UTF-8 bytes, which never match an ASCII delimiter. Non-ASCII classes are refused (`NonAsciiClass`) rather than given a meaning.
- Random sizes and the 10 MB total of the large example (lines 491-502): the model proves the per-split length property for every list of ASCII lines and newline runs, which includes every list that example can generate.
- The fragment identifier is a parameter (`id`) rather than a random UUID. The original-filename attribute (segment.original.filename) is not modelled.
- Parsing of data sizes ("1 KB", "16B", "64KB"): the buffer size is a number of bytes. Its default when the property is not set is not known here, so every statement holds for any buffer size the delimiter fits in.
- The processor's source is not part of this model. Its behaviour is taken from the examples, so a case that no example pins is modelled by the rules the examples follow: leftmost non-overlapping matches, no zero-length split, only dropped delimiter bytes left out. For example, two adjacent literal delimiters with the delimiter dropped give no split between them.
- Reads are modelled as nondeterministic in size rather than as calls into an input stream; I/O errors are not modelled.
- NoDelimiterOneSplit: holds for non-empty content only. Empty content, which holds no occurrence either, gives no split at all (Segmenting.EmptyNoSplit), because a split is never empty; the examples never send empty content, and the rule that no zero-length split is emitted is kept over "one split per content".
- NoDelimiterOneFragment: holds for non-empty content only. Empty content is sent on as no split, with the original carrying count 0 (Processor.EmptyContent).
- SplitThenMerge: holds for non-empty content only. Empty content has no split, so there is nothing to merge, and the merge of an empty group gives nothing rather than empty content.
