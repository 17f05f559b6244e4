# CodeStats line counter, modelled in Dafny

CodeStats is an IDE plugin that walks a project's file tree, classifies the
lines of every qualifying file and shows per-extension statistics. It also
keeps a history of line counts: one sample per commit and one generic sample
per half day. This project models its core:

- **The parser** (`Stats.Parser`). It holds:
  - the excluded-type, excluded-directory, separate-tab and whitelist sets;
  - the map from extension to `OverView.OverViewEntry` objects;
  - the per-file tab lists.

  Its operations:
  - `UpdateState` rebuilds the sets from the saved settings.
  - `ResetCache` clears the map and the tab lists.
  - The visitor prunes excluded directories and filters files by extension (`Walk`, `VisitFile`).
  - `ParseFile` classifies a file's lines or counts its newlines.
  - The footer loop of the overview table (`SumRows`, `Stats.SumFooter`).
  - `UpdatePane` records the COMMIT and GENERIC samples.
- **The per-line comment classifier** (`LineClassifier`). It is the lambda inside
  parseFile. The model is a pure step function `Step` and its fold `Scan`, plus
  the imperative loop `ClassifyLines` proved against them.
- **OverViewEntry.addValues** (`OverView`). The class keeps its eight fields and
  `AddValues` is proved against the pure `Added`.
- **ParsingUtil and StringParsing.** These cover:
  - the two file-extension functions;
  - the small-file and large-file newline counters (the latter over a reused
    262144-byte array buffer);
  - the charset fallback.
- **PersistentSave** (`Persistence`). It models the saved settings, `addTimePoint`
  with its 200-sample cap and half-day coalescing, and `clearPoints`.
- **TimePoint** (`TimePoints`). It models the chart accessors, the tooltip text
  and the mock generator.
- **CommitHandlerFactory.createHandler** (`CommitHandler`). It cuts the commit
  message to 25 characters.

`JavaString` models the pieces of `java.lang.String` the core relies on:
`trim`, `startsWith`, `contains`, `split`, `lastIndexOf` and integer
formatting. Each has lemmas that make it usable.

The file system is abstracted. A directory is a `FileTree.Dir` with its
entries. A file is a `FileTree.File` that carries what reading it yields
(`FileData`):
- its size, or `None` when `Files.size` throws;
- the lines the reader delivers;
- whether the reader stops with an exception;
- its bytes, or `None` when reading them throws.

Values the source takes from the platform are parameters:
- the clock and the hour of day;
- the formatted date;
- `Path.of(..).toString()`, `File.separator` and the set of supported charsets;
- the random draws.

Where the code and the design description of the system disagree, the model
follows the code:
- Only `//`, `#`, `/*` and `/**` are recognised as comment starts. There is no
  `--`, no `"""` docstring and no "misc" line kind.
- A block or doc comment opened on a line is not closed by a `*/` on that same
  line. `LineClassifier.OneLineBlockCommentStaysOpen` shows the following code
  line being counted as a comment.
- The source-code line count is not clamped at zero. After a read failure it
  can be negative (`Stats.FallbackCodeCanBeNegative`).
- Half-day coalescing compares only the hour of day, not the calendar date
  (`Persistence.DateIsIgnored`).
- The history cap is tested with `==` after the append, so at most 199 samples
  are kept (`Persistence.CommitHistoryKeepsNewest`). A longer history loaded
  from an older save is never trimmed (`Persistence.OverlongHistoryGrows`).
- Extensions are case-sensitive and are not lower-cased.

## Model

| member | source | states |
|---|---|---|
| JavaString.Trim | src/main/java/com/gk646/codestats/stats/Parser.java:336 | the trimmed line is no longer than the line and begins and ends with a character above U+0020 |
| JavaString.TrimIsInfix | src/main/java/com/gk646/codestats/stats/Parser.java:336 | the trimmed line is a contiguous piece of the original line |
| JavaString.TrimEmptyIffBlank | src/main/java/com/gk646/codestats/stats/Parser.java:336-350 | a line trims to "" exactly when every character is at most U+0020, which makes it a blank line |
| JavaString.TrimKeeps | src/main/java/com/gk646/codestats/stats/Parser.java:336 | a line that starts and ends with a visible character is unchanged by trim |
| JavaString.TrimStart | src/main/java/com/gk646/codestats/stats/Parser.java:336 | removes exactly the leading whitespace: the result is a suffix, and everything removed is whitespace |
| JavaString.TrimEnd | src/main/java/com/gk646/codestats/stats/Parser.java:336 | removes exactly the trailing whitespace: the result is a prefix, and everything removed is whitespace |
| JavaString.ContainsIffOccurs | src/main/java/com/gk646/codestats/stats/Parser.java:344 | `contains` holds exactly when the needle occurs at some index |
| JavaString.StartsWithContains | src/main/java/com/gk646/codestats/stats/Parser.java:344-353 | a string contains each of its prefixes |
| JavaString.Fields | src/main/java/com/gk646/codestats/stats/Parser.java:129-133 | cutting at the separator gives at least one field, and no field contains the separator |
| JavaString.JoinFields | src/main/java/com/gk646/codestats/stats/Parser.java:129-133 | joining the fields with the separator gives back the original string |
| JavaString.DropTrailingEmpty | src/main/java/com/gk646/codestats/stats/Parser.java:129-133 | removes exactly the trailing empty strings and keeps the rest as a prefix |
| JavaString.Split | src/main/java/com/gk646/codestats/stats/Parser.java:129-133 | `String.split(";")`: a string without ';' gives itself; otherwise the fields minus trailing empty ones; no part contains ';' |
| JavaString.FieldsWithoutSeparator | src/main/java/com/gk646/codestats/stats/Parser.java:129-133 | a string without the separator is a single field |
| JavaString.FieldsOfConcat | src/main/java/com/gk646/codestats/stats/Parser.java:129-133 | a separator-free head followed by the separator is the first field, and the rest is split the same way |
| JavaString.FieldsOfJoin | src/main/java/com/gk646/codestats/stats/Parser.java:129-133 | fields without the separator are recovered by cutting their join |
| JavaString.SplitJoin | src/main/java/com/gk646/codestats/stats/Parser.java:129-133 | split inverts join when no part contains ';' and the last part is non-empty |
| JavaString.LastIndexOf | src/main/java/com/gk646/codestats/util/ParsingUtil.java:42 | -1 exactly when the character is absent; otherwise an index holding it, with no occurrence after it |
| JavaString.LastIndexOfExtend | src/main/java/com/gk646/codestats/util/ParsingUtil.java:42 | the last occurrence in a string that does not end with the character is the last occurrence in its prefix |
| JavaString.DigitRoundTrip | src/main/java/com/gk646/codestats/util/TimePoint.java:70-72 | each decimal digit reads back as its value |
| JavaString.NatToString | src/main/java/com/gk646/codestats/util/TimePoint.java:70-72 | decimal rendering is non-empty, all digits, and has no leading zero except for 0 itself |
| JavaString.NatToStringRoundTrip | src/main/java/com/gk646/codestats/util/TimePoint.java:70-72 | reading the rendered digits gives the number back |
| JavaString.IntToStringRoundTrip | src/main/java/com/gk646/codestats/util/TimePoint.java:70-72 | the decimal text of any int, sign included, reads back as that int |
| ParsingUtil.FileExtension | src/main/java/com/gk646/codestats/util/ParsingUtil.java:41-44 | the text after the last '.', without a '.' in it; "" exactly when there is no '.' or the name ends in '.'; the name is the rest, a '.', and the extension |
| ParsingUtil.NewlineCountBound | src/main/java/com/gk646/codestats/util/ParsingUtil.java:61-69 | never more lines than bytes, and exactly as many only when every byte is a newline |
| ParsingUtil.NewlineCountZero | src/main/java/com/gk646/codestats/util/ParsingUtil.java:61-69 | the count is zero exactly when no byte is a newline |
| ParsingUtil.NewlineCountAppend | src/main/java/com/gk646/codestats/util/ParsingUtil.java:45-59 | the newline count of a concatenation is the sum of the counts |
| ParsingUtil.ParseSmallNonUTFFile | src/main/java/com/gk646/codestats/util/ParsingUtil.java:61-69 | returns the number of bytes equal to 10, which is between 0 and the byte count |
| ParsingUtil.ReadInto | src/main/java/com/gk646/codestats/util/ParsingUtil.java:50 | one `read(buffer)`: the delivered bytes land at the front of the buffer and their number is returned |
| ParsingUtil.ParseLargeNonUTFFile | src/main/java/com/gk646/codestats/util/ParsingUtil.java:45-59 | counting newlines through the reused 262144-byte buffer, read by read, gives the newline count of everything the stream delivered |
| ParsingUtil.Chunked | src/main/java/com/gk646/codestats/util/ParsingUtil.java:48-50 | a stream that always fills the buffer delivers non-empty reads of at most the buffer size |
| ParsingUtil.FlattenPrepend | src/main/java/com/gk646/codestats/util/ParsingUtil.java:50 | concatenating a first read followed by further reads is that read followed by their concatenation |
| ParsingUtil.FlattenChunked | src/main/java/com/gk646/codestats/util/ParsingUtil.java:50 | reading in chunks loses and repeats no byte |
| ParsingUtil.LargeAndSmallAgree | src/main/java/com/gk646/codestats/util/ParsingUtil.java:45-69 | the large-file and the small-file counters give the same count for the same bytes |
| ParsingUtil.CharsetFallback | src/main/java/com/gk646/codestats/util/ParsingUtil.java:71-77 | the named charset when it is supported, the fallback otherwise |
| StringParsing.FileExtension | src/main/java/com/gk646/codestats/util/StringParsing.java:4-7 | "" when there is no '.' or the name ends in '.'; otherwise a non-empty, '.'-free suffix that follows the last '.' |
| StringParsing.AgreesWithParsingUtil | src/main/java/com/gk646/codestats/util/StringParsing.java:4-7 | the two extension functions agree on every file name |
| OverView.Added | src/main/java/com/gk646/codestats/stats/OverViewEntry.java:47-66 | one more file; sums grow by the file's size, lines and code lines; the minima and maxima bracket the new values, move only outward, and are either the old bound or the new value |
| OverView.AddAllSums | src/main/java/com/gk646/codestats/stats/OverViewEntry.java:47-66 | after any sequence of additions to a fresh entry, count is the number of files and each sum is the sum of the added values |
| OverView.AddAllBounds | src/main/java/com/gk646/codestats/stats/OverViewEntry.java:31-66 | every added size and line count lies between the entry's minimum and maximum |
| OverView.AddAllAttained | src/main/java/com/gk646/codestats/stats/OverViewEntry.java:31-66 | each minimum and maximum is either its initial sentinel or a value that was added |
| OverView.SumBetweenExtremes | src/main/java/com/gk646/codestats/stats/OverViewEntry.java:47-66 | count times the minimum is at most the sum, and the sum is at most count times the maximum |
| OverView.SizeSumBounds | src/main/java/com/gk646/codestats/stats/OverViewEntry.java:50-56 | bounds on each size bound the sum of sizes |
| OverView.LineSumBounds | src/main/java/com/gk646/codestats/stats/OverViewEntry.java:58-64 | bounds on each line count bound the sum of line counts |
| OverView.AveragesWithinExtremes | src/main/java/com/gk646/codestats/stats/Parser.java:197-201 | for non-negative samples, the average size and average line count shown lie between the minimum and the maximum |
| OverView.DivBetween | src/main/java/com/gk646/codestats/stats/Parser.java:197-201 | a sum between n·lo and n·hi has its quotient by n between lo and hi |
| OverView.FirstAdd | src/main/java/com/gk646/codestats/stats/OverViewEntry.java:31-66 | the first file added to a fresh entry becomes its minimum and its maximum |
| OverView.OversizedFileKeepsSentinel | src/main/java/com/gk646/codestats/stats/OverViewEntry.java:31-53 | a first file larger than Integer.MAX_VALUE bytes leaves sizeMin at the sentinel, below the file's size |
| OverView.OverViewEntry.constructor | src/main/java/com/gk646/codestats/stats/OverViewEntry.java:31-38 | all fields zero, except the two minima, which start at Integer.MAX_VALUE |
| OverView.OverViewEntry.AddValues | src/main/java/com/gk646/codestats/stats/OverViewEntry.java:47-66 | the fields become the old fields updated by `Added` |
| LineClassifier.StepKeepsConsistent | src/main/java/com/gk646/codestats/stats/Parser.java:335-365 | every line adds one to the total and at most one to the blank, comment and doc counts together; the two flags are never both set |
| LineClassifier.ClassifyKeepsConsistent | src/main/java/com/gk646/codestats/stats/Parser.java:337-364 | the same, for a line that has already been trimmed |
| LineClassifier.ScanConsistent | src/main/java/com/gk646/codestats/stats/Parser.java:335-365 | after any file, the total is the number of lines and the counts and flags are consistent |
| LineClassifier.StepOutsideBlock | src/main/java/com/gk646/codestats/stats/Parser.java:348-363 | outside a comment: a blank line counts as blank; `//`, `#` and `/*` (not `/**`) count as comment; `/**` counts as doc; the flags are set exactly by `/*` and `/**` |
| LineClassifier.ClassifyOutsideBlock | src/main/java/com/gk646/codestats/stats/Parser.java:348-363 | the same, for a trimmed line |
| LineClassifier.StepInsideBlock | src/main/java/com/gk646/codestats/stats/Parser.java:337-347 | inside a comment: never blank; a doc line counts only when it starts with `*`; every block line counts as a comment; `*/` anywhere closes both kinds, and otherwise the flags stay |
| LineClassifier.WhitespaceLineIsBlank | src/main/java/com/gk646/codestats/stats/Parser.java:336-350 | outside a comment, a line of whitespace only is counted as blank |
| LineClassifier.ApplyLine | src/main/java/com/gk646/codestats/stats/Parser.java:335-365 | the imperative body of the lambda on one raw line updates the counters and flags as `Step` says |
| LineClassifier.ApplyTrimmed | src/main/java/com/gk646/codestats/stats/Parser.java:337-364 | the imperative classification of a trimmed line agrees with `Classify` |
| LineClassifier.ClassifyLines | src/main/java/com/gk646/codestats/stats/Parser.java:335-365 | the loop over the file's lines yields `Scan`'s counts: the total is the line count, and blank, comment and doc lines are non-negative and together at most the total |
| LineClassifier.ScanSnoc | src/main/java/com/gk646/codestats/stats/Parser.java:335 | classifying one more line is one more step |
| LineClassifier.NoStar | src/main/java/com/gk646/codestats/stats/Parser.java:344 | a line without '*' never closes a comment |
| LineClassifier.StepUntrimmed | src/main/java/com/gk646/codestats/stats/Parser.java:336 | a line with no surrounding whitespace is classified as it stands |
| LineClassifier.BlankStep | src/main/java/com/gk646/codestats/stats/Parser.java:349-350 | an empty line outside a comment is blank |
| LineClassifier.LineCommentStep | src/main/java/com/gk646/codestats/stats/Parser.java:351-352 | `// hi` is one comment line and opens nothing |
| LineClassifier.CodeStep | src/main/java/com/gk646/codestats/stats/Parser.java:348-364 | a code line outside a comment only adds to the total |
| LineClassifier.BlockOpenStep | src/main/java/com/gk646/codestats/stats/Parser.java:353-355 | `/* note */` counts as a comment and leaves the block open, even though it closes on the same line |
| LineClassifier.DocOpenStep | src/main/java/com/gk646/codestats/stats/Parser.java:356-361 | `/**` and `/** doc */` count as one doc line (not a comment) and open a doc comment |
| LineClassifier.BlockCodeStep | src/main/java/com/gk646/codestats/stats/Parser.java:341-343 | inside a block comment, a code line is counted as a comment |
| LineClassifier.StarStep | src/main/java/com/gk646/codestats/stats/Parser.java:338-340 | inside a doc comment, `* hello` is a doc line |
| LineClassifier.TextStep | src/main/java/com/gk646/codestats/stats/Parser.java:338-340 | inside a doc comment, a line without a leading `*` is counted as nothing but a line |
| LineClassifier.CloseStep | src/main/java/com/gk646/codestats/stats/Parser.java:338-347 | `*/` inside a doc comment is a doc line and closes it |
| LineClassifier.ScanTwo | src/main/java/com/gk646/codestats/stats/Parser.java:335 | classifying two lines is two steps from the initial state |
| LineClassifier.ScanThree | src/main/java/com/gk646/codestats/stats/Parser.java:335 | classifying three lines is three steps |
| LineClassifier.ScanFour | src/main/java/com/gk646/codestats/stats/Parser.java:335 | classifying four lines is four steps |
| LineClassifier.OneLineBlockCommentStaysOpen | src/main/java/com/gk646/codestats/stats/Parser.java:344-355 | after `/* note */`, the next line `int x;` is counted as a comment, and the block is still open |
| LineClassifier.MixedFileScenario | src/main/java/com/gk646/codestats/stats/Parser.java:335-378 | a file of a line comment, a blank line, a code line and a one-line doc comment counts 4 lines: 1 blank, 1 comment, 1 doc, 1 code |
| LineClassifier.DocBlockScenario | src/main/java/com/gk646/codestats/stats/Parser.java:337-361 | a three-line doc block whose middle line starts with `*` is three doc lines |
| LineClassifier.DocBlockPlainLineScenario | src/main/java/com/gk646/codestats/stats/Parser.java:337-361 | a middle line without `*` is not a doc line, so the block counts two |
| FileTree.VisitIsReachableAndQualifying | src/main/java/com/gk646/codestats/stats/Parser.java:100-118 | the walk hands a file to parseFile exactly when it is reached without entering an excluded directory and its extension qualifies |
| FileTree.VisitAllIsReachableAndQualifying | src/main/java/com/gk646/codestats/stats/Parser.java:100-118 | the same, for a directory's list of entries |
| FileTree.ReachableSplit | src/main/java/com/gk646/codestats/stats/Parser.java:100-105 | a file is reachable from a list exactly when it is reachable from its head or from its tail |
| FileTree.WhiteListOverridesExcludes | src/main/java/com/gk646/codestats/stats/Parser.java:110-116 | with a non-empty whitelist, the excluded types are ignored, and a file qualifies exactly when its extension is whitelisted |
| FileTree.NoExtension | src/main/java/com/gk646/codestats/stats/Parser.java:109-116 | a file without an extension qualifies only when "" is whitelisted |
| FileTree.JavaExtension | src/main/java/com/gk646/codestats/stats/Parser.java:109 | `A.java` has extension `java` |
| FileTree.ExactPathPruning | src/main/java/com/gk646/codestats/stats/Parser.java:100-105 | excluding `root/build` prunes that directory but not `root/build2` |
| Footers.JavaDiv | src/main/java/com/gk646/codestats/stats/Parser.java:194-211 | Java's division truncating toward zero: the remainder a - q·b lies in [0, b) for a non-negative dividend and in (-b, 0] for a negative one |
| Footers.PlusSwap | src/main/java/com/gk646/codestats/stats/Parser.java:203-212 | adding two rows to the footer gives the same result in either order |
| Footers.ListedDrop | src/main/java/com/gk646/codestats/stats/Parser.java:190 | dropping one position of an enumeration of the entries leaves every remaining key in the map |
| Footers.DropBeforeLast | src/main/java/com/gk646/codestats/stats/Parser.java:190 | dropping a position before the last one keeps the last element last |
| Footers.FooterRemove | src/main/java/com/gk646/codestats/stats/Parser.java:190-214 | the footer over an enumeration is the footer without one entry, plus that entry's row |
| Footers.FooterFrame | src/main/java/com/gk646/codestats/stats/Parser.java:190-214 | changing an entry that is not enumerated leaves the footer unchanged |
| Footers.RemoveMatching | src/main/java/com/gk646/codestats/stats/Parser.java:190 | two enumerations of the same keys stay enumerations of the same keys when one key is taken out of each |
| Footers.FooterOrderIndependent | src/main/java/com/gk646/codestats/stats/Parser.java:190-214 | the footer does not depend on the HashMap's iteration order |
| Footers.Enumeration | src/main/java/com/gk646/codestats/stats/Parser.java:190 | a key sequence that holds each of the map's keys exactly once |
| Footers.FooterAdd | src/main/java/com/gk646/codestats/stats/Parser.java:203-212 | storing a new extension adds its row to the footer; updating an existing one replaces its old row by the new one |
| Footers.ListedOfKeys | src/main/java/com/gk646/codestats/stats/Parser.java:190 | an enumeration of the keys lists only keys of the map |
| Footers.FooterAddNew | src/main/java/com/gk646/codestats/stats/Parser.java:203-212 | the new-extension case of `FooterAdd` |
| Footers.DropOnly | src/main/java/com/gk646/codestats/stats/Parser.java:190 | a key that occurs once is gone once its position is dropped |
| Footers.FooterAddExisting | src/main/java/com/gk646/codestats/stats/Parser.java:203-212 | the existing-extension case of `FooterAdd` |
| Stats.NormalPathEntry | src/main/java/com/gk646/codestats/stats/Parser.java:329-378 | when the file reads cleanly, its entry has the file's name and line count, and the blank, comment, doc and code lines are non-negative and add up to the total |
| Stats.FallbackCodeCanBeNegative | src/main/java/com/gk646/codestats/stats/Parser.java:367-378 | the counters bumped before the reader threw are kept while the total is replaced: a carriage return, a full 8192-byte decoder buffer of letters and then a malformed byte give one blank line before the reader throws, no byte is a newline, so the total becomes 0 and the code line count -1 |
| Stats.PlainFileAdds | src/main/java/com/gk646/codestats/stats/Parser.java:384-399 | a file of a non-tab type changes only its own entry: one more file, no code lines; its size and newline count are added when they can be read, and 0 otherwise |
| Stats.FileEffect | src/main/java/com/gk646/codestats/stats/Parser.java:325-399 | parsing a file keeps the set of tabs and makes its extension one of the overview's keys |
| Stats.WalkEffect | src/main/java/com/gk646/codestats/stats/Parser.java:402-408 | parsing a sequence of files keeps the set of tabs |
| Stats.WalkFooterTotals | src/main/java/com/gk646/codestats/stats/Parser.java:190-214 | after parsing a sequence of files, the footer's file, line and code counts have grown by exactly the files' tallies |
| Stats.WalkFromEmptyFooter | src/main/java/com/gk646/codestats/stats/Parser.java:171-214 | starting from an empty overview, the footer's file, line and code counts are the walk's tallies |
| Stats.ResetTotals | src/main/java/com/gk646/codestats/stats/Parser.java:410-416 | the state resetCache leaves: no overview entries, and exactly the separate-tab types as tabs, each with an empty list |
| Stats.RefreshedFooter | src/main/java/com/gk646/codestats/stats/Parser.java:171-214 | after a reset and a walk, the footer's file, line and code counts equal the tallies of the admitted files |
| Stats.FileFooterStep | src/main/java/com/gk646/codestats/stats/Parser.java:203-212 | one parsed file adds one to the footer's count and its own lines and code lines to the footer's sums |
| Stats.PrefixCancel | src/main/java/com/gk646/codestats/stats/Parser.java:142-161 | two paths under the same project prefix are equal exactly when their tails are |
| Stats.BundleDirsExact | src/main/java/com/gk646/codestats/stats/Parser.java:141-161 | a directory directly under the project is excluded by the checkboxes exactly when its name belongs to a ticked group |
| Stats.TypeListRoundTrip | src/main/java/com/gk646/codestats/stats/Parser.java:129-134 | a ';'-joined list of types is read back by updateState as the same set of types |
| Stats.Parser.constructor | src/main/java/com/gk646/codestats/stats/Parser.java:85-120 | empty sets, maps and commit text, no pending commit, UTF-8 charset |
| Stats.Parser.ResetCache | src/main/java/com/gk646/codestats/stats/Parser.java:410-416 | the overview is empty and each separate-tab type has an empty tab list |
| Stats.Parser.UpdateState | src/main/java/com/gk646/codestats/stats/Parser.java:122-164 | the four sets are exactly the ';'-split settings (whitelist empty when the setting is ""), the excluded directories are the normalised saved ones plus the ticked bundles, and the charset is the saved one or UTF-8 |
| Stats.Parser.UpdateTypes | src/main/java/com/gk646/codestats/stats/Parser.java:124-134 | the type sets are exactly the split lists |
| Stats.Parser.UpdateDirectories | src/main/java/com/gk646/codestats/stats/Parser.java:136-161 | the excluded directories are exactly the normalised saved ones plus the ticked bundles |
| Stats.Parser.ExcludeDirectories | src/main/java/com/gk646/codestats/stats/Parser.java:136-139 | adds exactly the normalised saved directories |
| Stats.Parser.ExcludeBundles | src/main/java/com/gk646/codestats/stats/Parser.java:141-161 | adds exactly the directories of the ticked checkboxes under the project path |
| Stats.Parser.ParseFile | src/main/java/com/gk646/codestats/stats/Parser.java:325-400 | the overview and tabs become those of `FileEffect` on the old ones |
| Stats.Parser.Walk | src/main/java/com/gk646/codestats/stats/Parser.java:402-408 | walking a subtree parses, in order, exactly the files the visitor admits |
| Stats.Parser.VisitFile | src/main/java/com/gk646/codestats/stats/Parser.java:107-118 | a file is parsed exactly when its extension qualifies |
| Stats.Parser.UpdatePane | src/main/java/com/gk646/codestats/stats/Parser.java:166-184 | walking the project root, the overview and tabs become exactly those of a reset followed by parsing the admitted files; the footer is the footer of that overview, so its file, line and code counts are the walk's tallies; a pending commit records a COMMIT sample of those counts and is cleared; a GENERIC sample is always recorded |
| Stats.Parser.ResetAndIterate | src/main/java/com/gk646/codestats/stats/Parser.java:171-172 | the overview and tabs become those of an empty overview, one empty list per separate-tab type, after parsing exactly the files the walk admits |
| Stats.Parser.RebuildTabbedPane | src/main/java/com/gk646/codestats/stats/Parser.java:186-219 | the overview and tabs are left unchanged; the footer is the sum of all entries' rows; the time points are recorded from its code and total lines |
| Stats.Parser.RecordSamples | src/main/java/com/gk646/codestats/stats/Parser.java:215-219 | the overview entries are untouched; a COMMIT sample only when a commit happened, which is then cleared; always a GENERIC sample dated today |
| Stats.Parser.SumRows | src/main/java/com/gk646/codestats/stats/Parser.java:190-214 | the footer of the current overview |
| Stats.Parser.AddToOverView | src/main/java/com/gk646/codestats/stats/Parser.java:325-399 | the entry for the extension is created if absent and then updated by `Added`; all other entries are unchanged |
| Stats.Parser.AddValuesAt | src/main/java/com/gk646/codestats/stats/Parser.java:381-398 | only the named entry changes, by `Added` |
| Stats.Parser.EntryFor | src/main/java/com/gk646/codestats/stats/Parser.java:326 | computeIfAbsent: an existing entry is returned, otherwise a new fresh entry is stored |
| Stats.SumFooter | src/main/java/com/gk646/codestats/stats/Parser.java:190-214 | the loop over the entries, in any order, gives the footer of the overview |
| Stats.WalkEffectOne | src/main/java/com/gk646/codestats/stats/Parser.java:107-118 | walking nothing changes nothing, and walking one file parses it |
| Stats.UpdateTwice | src/main/java/com/gk646/codestats/stats/Parser.java:326-381 | storing twice under one key keeps the last value |
| Stats.VisitAllAppend | src/main/java/com/gk646/codestats/stats/Parser.java:100-118 | walking two lists of entries visits the first, then the second |
| Stats.VisitAllStep | src/main/java/com/gk646/codestats/stats/Parser.java:100-118 | walking one more directory entry is parsing its admitted files after the earlier ones |
| Stats.VisitAllSnoc | src/main/java/com/gk646/codestats/stats/Parser.java:100-118 | the files admitted from one more entry come after the earlier ones |
| Stats.WalkEffectAppend | src/main/java/com/gk646/codestats/stats/Parser.java:402-408 | parsing two sequences of files is parsing the first, then the second |
| Stats.ParseDetailed | src/main/java/com/gk646/codestats/stats/Parser.java:329-378 | the separate-tab branch yields the classified entry, with the newline-count fallback, and the size or 0 |
| Stats.ParsePlain | src/main/java/com/gk646/codestats/stats/Parser.java:385-395 | the plain branch yields the size and the newline count, each 0 when it cannot be read |
| Stats.CountNewlines | src/main/java/com/gk646/codestats/stats/Parser.java:369-393 | large or small, the counter used gives the file's newline count |
| Persistence.SizeLimited | src/main/java/com/gk646/codestats/settings/PersistentSave.java:87-91 | drops exactly the oldest sample, and only when the list has reached 200 |
| Persistence.GenericLimited | src/main/java/com/gk646/codestats/settings/PersistentSave.java:93-113 | drops exactly the newest sample, and only when it lies in the same half of day as now |
| Persistence.AfterAddKeepsCap | src/main/java/com/gk646/codestats/settings/PersistentSave.java:75-91 | below the cap, adding keeps the history below 200 and puts the new sample last |
| Persistence.OverlongHistoryGrows | src/main/java/com/gk646/codestats/settings/PersistentSave.java:87-91 | a history already over 200 is never trimmed: a commit is simply appended |
| Persistence.AfterAddIsFifo | src/main/java/com/gk646/codestats/settings/PersistentSave.java:75-101 | the new history is a contiguous slice of the old one, losing at most the oldest and, in GENERIC mode, the newest sample, followed by the new sample |
| Persistence.CommitHistoryKeepsNewest | src/main/java/com/gk646/codestats/settings/PersistentSave.java:75-91 | from an empty history, a run of commits keeps the newest min(n, 199) samples, oldest first |
| Persistence.CommitAddIsCapped | src/main/java/com/gk646/codestats/settings/PersistentSave.java:80-84 | in COMMIT mode, adding is appending and then capping |
| Persistence.SnocSlice | src/main/java/com/gk646/codestats/settings/PersistentSave.java:83 | a slice of the history before the append, followed by the new sample, is the same slice of the new history |
| Persistence.DropFirst | src/main/java/com/gk646/codestats/settings/PersistentSave.java:89 | removing the first sample of a slice shortens the slice by one |
| Persistence.SameHalfIsEquivalence | src/main/java/com/gk646/codestats/settings/PersistentSave.java:103-113 | the half-of-day test is reflexive, symmetric and transitive |
| Persistence.SameHalfIsSameHalfIndex | src/main/java/com/gk646/codestats/settings/PersistentSave.java:109-112 | for hours 0..23 the test compares hour / 12 |
| Persistence.DateIsIgnored | src/main/java/com/gk646/codestats/settings/PersistentSave.java:103-113 | a morning three days later is in the same half of day as this morning |
| Persistence.PersistentSave.constructor | src/main/java/com/gk646/codestats/settings/PersistentSave.java:54-69 | empty histories and the default settings |
| Persistence.PersistentSave.AddTimePoint | src/main/java/com/gk646/codestats/settings/PersistentSave.java:75-85 | only the history of the given mode changes, and it becomes `AfterAdd` of the old one |
| Persistence.PersistentSave.ClearPoints | src/main/java/com/gk646/codestats/settings/PersistentSave.java:115-119 | both histories become empty |
| Persistence.EnforceSizeLimit | src/main/java/com/gk646/codestats/settings/PersistentSave.java:87-91 | returns the capped history |
| Persistence.EnforceGenericLimits | src/main/java/com/gk646/codestats/settings/PersistentSave.java:93-101 | returns the history without a newest sample in the current half of day |
| TimePoints.TimePoint.ToString | src/main/java/com/gk646/codestats/util/TimePoint.java:67-74 | the text, the caption of the selected mode, and the shown count in decimal |
| TimePoints.ToStringShowsY | src/main/java/com/gk646/codestats/util/TimePoint.java:59-74 | the tooltip starts with the text, and what follows the caption reads back as the value the chart plots |
| TimePoints.ToStringDistinguishesY | src/main/java/com/gk646/codestats/util/TimePoint.java:59-74 | samples with the same text have equal tooltips exactly when their plotted values are equal |
| TimePoints.GenerateMockTimePoints | src/main/java/com/gk646/codestats/util/TimePoint.java:75-96 | numPoints samples, going back one day each, with 50..499 code lines and 100..999 total lines, each dated from its own timestamp |
| TimePoints.MockTimestampsDecrease | src/main/java/com/gk646/codestats/util/TimePoint.java:79-83 | while the clock advances less than a day per reading, the mock timestamps strictly decrease |
| TimePoints.ClockDrift | src/main/java/com/gk646/codestats/util/TimePoint.java:83 | the clock's drift over j - i readings stays below j - i days |
| CommitHandler.CommitLabel | src/main/java/com/gk646/codestats/util/CommitHandlerFactory.java:38-43 | a prefix of the message, at most 25 characters long; the whole message when it fits, otherwise exactly 25 characters |
| CommitHandler.CommitLabelIsLongestPrefix | src/main/java/com/gk646/codestats/util/CommitHandlerFactory.java:39-43 | every prefix of at most 25 characters is a prefix of the stored text |
| CommitHandler.CommitLabelIdempotent | src/main/java/com/gk646/codestats/util/CommitHandlerFactory.java:39-43 | cutting twice is cutting once |
| CommitHandler.CreateHandler | src/main/java/com/gk646/codestats/util/CommitHandlerFactory.java:37-45 | the parser's commit text becomes the cut message, and nothing else changes |

## Left out

- **File I/O.** `Files.size`, the buffered reader, `readAllBytes` and the input stream are replaced by the `FileData` each file carries. The charset only chooses which `FileData` a file yields, so decoding is not modelled: the lines a file delivers and its bytes are independent fields, and which lines a strict decoder delivers before a malformed byte stops it (none, when the byte lies in the first 8192-byte buffer) is not derived from the bytes.
- **Charset.forName** throws `IllegalCharsetNameException` for a malformed name, and the source does not catch it. `ParsingUtil.CharsetFallback` abstracts the lookup as membership in the set of supported names and does not model that exception.
- **Integer widths.** Dafny integers are unbounded. Overflow of Java `int` and `long` (counts, line sums, the `(int)` casts of the footer cells) is not modelled. `(long) i * MILLISEC_PER_DAY` in the mock generator therefore cannot overflow.
- **UTF-16.** `String.length` counts UTF-16 units. A Dafny `char` is a Unicode scalar, so the 25-character cut can differ for characters outside the Basic Multilingual Plane.
- **The Swing tables.** These are the formatted cells of the rows (German thousands separators, the "kb" suffix), the percentage columns, the separate-tab tables and their footers, and the tab icons (Parser.java:220-322). The footer is modelled as numbers. The per-file tab lists are modelled, but their tables are not.
- **The update notification and its duration** (Parser.java:170, 175-179) are not modelled.
- **Concurrency.** `Task.Backgroundable` and `invokeLater` are not modelled. `UpdatePane` runs the reset, the walk and the rebuild in sequence, and `isSilentUpdate` only affects the notification.
- **One clock reading.** The source calls `ZonedDateTime.now()` separately for each sample and for the generic-limit check. The model uses one reading `now` for all of them.
- **Statics as instance fields.** The static sets and maps of Parser and the static `PersistentSave.getInstance()` become fields of the one `Stats.Parser` and an explicit `Persistence.PersistentSave` argument.
- **Missing tab list.** `tabs.get(extension).add(entry)` throws `NullPointerException` when the separate-tab set changed after the last reset. `Stats.Parser.ParseFile` requires the tab list to exist, as resetCache guarantees for every run of updatePane.
- **The walk's exceptions.** `Files.walkFileTree` can throw an `IOException` that is printed and swallowed, and `visitFileFailed` is not overridden. The model walks a complete tree, and a file's failures are carried in its `FileData`.
- **HashMap and HashSet order** is abstracted away. `Stats.SumFooter` chooses the entries in any order, and `Footers.FooterOrderIndependent` shows the footer does not depend on it.
- **The CommitListener** returned by createHandler, and the code that sets `commitHappened`, are not part of this model.
- **Mock generator inputs.** `Random` and `System.currentTimeMillis()` in generateMockTimePoints are sequences of draws and clock readings given as parameters. `LocalDate.toString` is a date-formatting function parameter.
- **Extension case.** Extensions are not lower-cased; the code does not do it either.
- **TimePoints.TimePoint.ToString:** `string + ...` renders a null text as "null". The model's text is never null.
- **Stats.Parser.constructor:** the commit text starts as "" where the Java field starts as null. It is only read after a commit has set it.
