# StegaScan core, modelled in Dafny

StegaScan looks for hidden data in media files. It has a command-line tool and an HTTP service. Both identify a file's type and run the analyses below, then condense the evidence into a summary. The summary says whether steganography is detected, gives a confidence level, and lists threat indicators and recommendations.

This project models that core and proves properties of the model. There is one Dafny module per source file:

| module | models |
|---|---|
| `Common` | shared types and text helpers: the `Result` type with a `Panic` case for Rust panics, chi-square scores that may be NaN, ASCII case mapping, substring search, UTF-8 byte length, decimal and hexadecimal rendering, saturating subtraction, RGBA images |
| `MagicBytes` | `magic_bytes_analyzer.rs`: the signature analysis (see below) |
| `CategoryExamples` | the repository's literal category and complete-header test cases, evaluated on the keyword rules of `MagicBytes` |
| `Lsb` | `lsb_analyzer.rs`: least-significant-bit planes, the pair chi-square test, bit entropy and the bit-plane visualisation |
| `VideoFrame` | `video_frame_analyzer.rs`: the per-frame LSB scores, histogram anomalies and edge density |
| `Spectrogram` | `spectrogram_analyzer.rs`: framing, the high-frequency energy share, tone, edge and spike patterns, and the spectrogram image |
| `ImageFilter` | `image_filter.rs`: the eleven channel-isolation views |
| `MetadataRules` | the base64 heuristic that the ID3 and EXIF analysers each carry a copy of |
| `Id3` | `id3_analyzer.rs`: comments, lyrics, pictures and private frames of an ID3 tag |
| `Exif` | `exif_analyzer.rs`: the EXIF field loop and the thumbnail check |
| `TextParser` | `text_parser.rs`: text statistics, dispatch on the extension, RTF text extraction and the printable-run extractor for `.doc` files |
| `VideoParser` | `video_parser.rs`: the frame iterator over a demuxer and a decoder, as a class over its fields |
| `VideoSampling` | the every-Nth-frame loop shared by the two front ends |
| `Reports` | the conversion of analysis results into report records, which the two front ends share |
| `ApiAnalysis` | `analysis.rs`: the service's response, its MIME classification, its video loop and `finalize_summary` |
| `CliReport` | `json_report.rs`: the tool's report object and its `finalize_summary` |
| `CliMain` | `main.rs`: the tool's per-file run |

The magic-bytes analysis takes the signature scanner's hits as input. It merges them with its own table scan, sorts them by offset and categorises each hit by its description. It counts the hits per category, reducing the count for the primary file, and then raises the findings: complete headers, an extension mismatch, multiple files and a polyglot. A file of 9 to 11 bytes that starts with "RIFF" and has no hit at offset 0 makes the analysis panic, as the code does.

The RTF extraction keeps the code's ten-character look-ahead after `{`, which is too short for `\stylesheet`. The corrected scanner, with an eleven-character look-ahead, is the same function with a wider window. Both appear under Findings.

The imperative parts keep their loops. Each loop is proved against a function of its input:
- every scanning and counting loop;
- the histograms, which are built in a two-dimensional array;
- the frame iterator, a class whose methods update its fields;
- the report objects, whose setters and `finalize_summary` change those objects.

The following are parameters of the model:
- the FFT magnitudes, `log2`, `log10` and `adjust_contrast`;
- the decoders and the demuxer, given as scripts of replies;
- the clock.

Floating-point values are exact reals. NaN appears only where the code can produce it: a chi-square score on a plane of fewer than two bits, a mean over no samples, and the edge density of a frame with one dimension zero and the other 1 or 2.

## Model

| member | source | states |
|---|---|---|
| MagicBytes.CategoryCascade | analyzers/src/magic_bytes_analyzer.rs:253-306 | the category is the first of image, audio, video, text, archive and executable whose keyword list the lower-cased description mentions, and other when none does |
| MagicBytes.DetermineFileCategory | analyzers/src/magic_bytes_analyzer.rs:253-306 | the category of a description; its contract is stated by CategoryCascade, CascadeUnrolled and ClassificationIgnoresCase, and by the test examples in CategoryExamples |
| MagicBytes.IsCompleteFileSignature | analyzers/src/magic_bytes_analyzer.rs:320-333 | whether a description names a whole file header; its cases are stated by ClassificationIgnoresCase and by the examples in CategoryExamples |
| MagicBytes.CascadeUnrolled | analyzers/src/magic_bytes_analyzer.rs:253-306 | the keyword-table lookup equals the explicit if-chain of the six keyword tests |
| MagicBytes.ClassificationIgnoresCase | analyzers/src/magic_bytes_analyzer.rs:253-333 | the category and the complete-header verdict do not change when the description is upper-cased |
| MagicBytes.IncrementCounts | analyzers/src/magic_bytes_analyzer.rs:142-156 | counting a hit adds one to its own category and to the total, and leaves every other counter unchanged |
| MagicBytes.DecrementCounts | analyzers/src/magic_bytes_analyzer.rs:158-184 | the primary file's decrement subtracts one, saturating at zero, from its own category only |
| MagicBytes.SummaryExt | analyzers/src/magic_bytes_analyzer.rs:142-184 | two summaries with equal counters are equal |
| MagicBytes.DecrementUndoesIncrement | analyzers/src/magic_bytes_analyzer.rs:142-184 | decrementing a category just incremented restores the summary |
| MagicBytes.IncrementCommutes | analyzers/src/magic_bytes_analyzer.rs:142-156 | the counts do not depend on the order in which hits are counted |
| MagicBytes.TallyCounts | analyzers/src/magic_bytes_analyzer.rs:142-156 | each category counter equals the number of hits of that category |
| MagicBytes.TallyTotal | analyzers/src/magic_bytes_analyzer.rs:142-156 | the total counter equals the number of hits |
| MagicBytes.ConfidenceLabel | analyzers/src/magic_bytes_analyzer.rs:100-104 | a binwalk confidence below 100 is "low", from 100 to 199 "medium", and from 200 up "high" |
| MagicBytes.MergeAllProperties | analyzers/src/magic_bytes_analyzer.rs:113-118 | the merge keeps the binwalk hits as a prefix; each appended hit comes from the manual scan at an offset binwalk did not report; every manual offset appears in the result |
| MagicBytes.InsertMultiset | analyzers/src/magic_bytes_analyzer.rs:121 | inserting into the sorted list adds exactly the new element |
| MagicBytes.InsertFilter | analyzers/src/magic_bytes_analyzer.rs:121 | inserting e adds it after the entries already at its offset and changes no other offset's entries |
| MagicBytes.InsertSorted | analyzers/src/magic_bytes_analyzer.rs:121 | insertion keeps the list sorted by offset |
| MagicBytes.SortProperties | analyzers/src/magic_bytes_analyzer.rs:121 | `sort_by_key(offset)` gives a list sorted by offset that is a permutation of its input and is stable among equal offsets |
| MagicBytes.SortIsSorted | analyzers/src/magic_bytes_analyzer.rs:121 | the sorted list is ordered by offset |
| MagicBytes.SortPermutes | analyzers/src/magic_bytes_analyzer.rs:121 | the sorted list has the same multiset of entries as its input |
| MagicBytes.SortIsStable | analyzers/src/magic_bytes_analyzer.rs:121 | entries at one offset keep their input order |
| MagicBytes.ManualTableValid | analyzers/src/magic_bytes_analyzer.rs:342-382 | every magic number of the manual table is non-empty, so each scan advances |
| MagicBytes.IsLikelyRealFileIff | analyzers/src/magic_bytes_analyzer.rs:443-470 | a hit is kept exactly when its offset is 0 or a multiple of 512, or the 4 bytes before it are all 0x00 or all 0xFF; offsets 1 to 3 are never kept |
| MagicBytes.UniformWindow | analyzers/src/magic_bytes_analyzer.rs:451-460 | the `all(b == x)` test on the four bytes before the offset is equivalent to the window being `[x, x, x, x]` |
| MagicBytes.AlignedTo512 | analyzers/src/magic_bytes_analyzer.rs:464 | the `% 1024` test adds nothing: a multiple of 1024 is a multiple of 512 |
| MagicBytes.MatchAtOffset | analyzers/src/magic_bytes_analyzer.rs:391-436 | one position yields at most one hit, located at that position |
| MagicBytes.MatchAtGenuine | analyzers/src/magic_bytes_analyzer.rs:394-431 | a hit at a position where the signature occurs passes the RIFF sub-type check or the non-RIFF filter |
| MagicBytes.ScanFromOffsets | analyzers/src/magic_bytes_analyzer.rs:391-436 | every hit of a scan from a start offset lies at or after it |
| MagicBytes.ScanFromGenuine | analyzers/src/magic_bytes_analyzer.rs:394-431 | a RIFF hit needs a WAVE, AVI or WEBP tag and has confidence "high"; any other hit passes the real-file filter and has confidence "medium" |
| MagicBytes.SpacedPairs | analyzers/src/magic_bytes_analyzer.rs:432-434 | when neighbouring hits are spaced by the gap, every pair of hits is |
| MagicBytes.SpacedPrepend | analyzers/src/magic_bytes_analyzer.rs:432-434 | a hit at pos before a list starting at least the gap later keeps the list spaced |
| MagicBytes.ScanFromSpaced | analyzers/src/magic_bytes_analyzer.rs:432-434 | after a match the scan moves past the whole signature, so its hits do not overlap |
| MagicBytes.DetectFormatAtOffset | analyzers/src/magic_bytes_analyzer.rs:472-528 | with fewer than four bytes left the format is "UNKNOWN" (the corrected detector; see Findings) |
| MagicBytes.DetectFormatPanicExactly | analyzers/src/magic_bytes_analyzer.rs:478-486 | the detector as written panics exactly on a RIFF header with 9 to 11 bytes left, and otherwise agrees with the corrected one |
| MagicBytes.DetectFormatRiffTenBytes | analyzers/src/magic_bytes_analyzer.rs:482 | on a ten-byte "RIFF" buffer the detector as written panics, while the corrected one answers "RIFF container" |
| MagicBytes.CompleteFindingsIff | analyzers/src/magic_bytes_analyzer.rs:142-156 | there is a complete-header finding exactly when `has_suspicious_data` holds: some hit past offset 0 is a complete header |
| MagicBytes.CompleteFindingsWitness | analyzers/src/magic_bytes_analyzer.rs:142-156 | a complete-header finding implies `has_suspicious_data` |
| MagicBytes.CompleteFindingsAt | analyzers/src/magic_bytes_analyzer.rs:150-154 | a complete header past offset 0 at any index gives a non-empty finding list |
| MagicBytes.MismatchFindings | analyzers/src/magic_bytes_analyzer.rs:186-195 | there is at most one extension-mismatch finding |
| MagicBytes.ReportFlags | analyzers/src/magic_bytes_analyzer.rs:197-236 | the result holds all merged hits; its total is their number and the summary's total; "multiple files" holds exactly when there is more than one hit; "suspicious" holds exactly when there is a complete-header finding |
| MagicBytes.ReportFindingsOrder | analyzers/src/magic_bytes_analyzer.rs:142-195 | the findings begin with the complete-header findings, followed by the mismatch finding |
| MagicBytes.ReportFindingsTail | analyzers/src/magic_bytes_analyzer.rs:197-217 | with more than one hit, the "Multiple file signatures detected (N total)" finding follows; the polyglot warning comes last when it is raised |
| MagicBytes.FindingsInOrder | analyzers/src/magic_bytes_analyzer.rs:142-217 | the findings list is the concatenation of the four groups, in source order |
| MagicBytes.MergedSorted | analyzers/src/magic_bytes_analyzer.rs:113-121 | the merged and sorted list is sorted, a permutation of the merge, and holds every manual offset |
| MagicBytes.AnalysisEntries | analyzers/src/magic_bytes_analyzer.rs:95-121 | the analysis' entries are sorted, a permutation of the binwalk hits merged with the manual scan, and contain every manual offset |
| MagicBytes.JpgIsMismatch | analyzers/src/magic_bytes_analyzer.rs:186-195 | a `.jpg` file whose primary format is "JPEG image" is flagged as a mismatch, because the expected "JPG" is sought in "JPEG IMAGE"; the model follows the code |
| MagicBytes.UpperJpg | analyzers/src/magic_bytes_analyzer.rs:82-86 | upper-casing gives "JPG" for the extension and "JPEG IMAGE" for the primary format |
| MagicBytes.NoJpgInJpegImage | analyzers/src/magic_bytes_analyzer.rs:186-195 | "JPEG IMAGE" does not contain "JPG" |
| MagicBytes.PngIsNoMismatch | analyzers/src/magic_bytes_analyzer.rs:186-195 | a `.png` file whose primary format is "PNG image" is not flagged |
| MagicBytes.NoMismatchWithoutEvidence | analyzers/src/magic_bytes_analyzer.rs:186-195 | without an extension, or with an "UNKNOWN" primary format, no mismatch is raised |
| MagicBytes.BinwalkEntries | analyzers/src/magic_bytes_analyzer.rs:95-107 | there is one entry per binwalk hit, in order, with its offset, description and confidence label |
| MagicBytes.Analyze | analyzers/src/magic_bytes_analyzer.rs:71-237 | an empty file is the error "Empty file"; a non-empty file panics exactly when no merged hit lies at offset 0 and the file starts with a RIFF header of 9 to 11 bytes; otherwise the report is the one built from the merged, sorted hits |
| MagicBytes.PrimaryPanicsExactly | analyzers/src/magic_bytes_analyzer.rs:128-139 | the primary format as written panics exactly when there is no offset-0 hit and the file is a 9- to 11-byte RIFF header; otherwise it is the description of the offset-0 hit or of the file start |
| MagicBytes.PrimaryFormat | analyzers/src/magic_bytes_analyzer.rs:128-139 | the primary format with the corrected detector; PrimaryPanicsExactly states that it is what the program returns whenever the program does not panic |
| MagicBytes.ScanTableAvoids | analyzers/src/magic_bytes_analyzer.rs:385-437 | an offset that no signature's scan reports is absent from the whole manual scan |
| MagicBytes.RiffScanShort | analyzers/src/magic_bytes_analyzer.rs:393-396 | on a buffer shorter than 12 bytes the RIFF signature keeps no hit, since its sub-type check needs bytes 8 to 12 |
| MagicBytes.OnlyRiffBeginsRI | analyzers/src/magic_bytes_analyzer.rs:342-382 | of the manual magic numbers only RIFF's begins with "RI" |
| MagicBytes.NotAtStart | analyzers/src/magic_bytes_analyzer.rs:391-392 | a magic number that differs from the file in its first two bytes does not occur at offset 0 |
| MagicBytes.NoManualHitAtZero | analyzers/src/magic_bytes_analyzer.rs:337-440 | a file starting with "RIFF" and shorter than 12 bytes has no manual hit at offset 0 |
| MagicBytes.AnalyzeShortRiffPanics | analyzers/src/magic_bytes_analyzer.rs:128-139 | a 9- to 11-byte file starting with "RIFF", with no binwalk hit at offset 0, makes the analysis panic |
| MagicBytes.AnalyzeRiffTenBytesPanics | analyzers/src/magic_bytes_analyzer.rs:482 | the ten bytes "RIFF" 00 00 00 00 "WA" with no binwalk hit make the analysis panic |
| MagicBytes.CollectEntries | analyzers/src/magic_bytes_analyzer.rs:95-121 | the collection loop yields exactly the merged, sorted entry list |
| MagicBytes.BinwalkStep | analyzers/src/magic_bytes_analyzer.rs:95-107 | one more binwalk hit appends one entry |
| MagicBytes.MergeStep | analyzers/src/magic_bytes_analyzer.rs:113-118 | merging one manual hit appends it exactly when its offset is not yet present |
| MagicBytes.SummarizeEntries | analyzers/src/magic_bytes_analyzer.rs:142-184 | the counting loop, which counts the primary file once more and then decrements it, yields the tally of all hits and the complete-header findings |
| MagicBytes.LeadTallyStep | analyzers/src/magic_bytes_analyzer.rs:142-156 | each loop step adds the hit's category to the tally, which holds the primary counted once extra, and extends the complete-header findings by that hit's finding if any |
| MagicBytes.LeadTallyEnd | analyzers/src/magic_bytes_analyzer.rs:158-184 | taking the primary's extra count off again leaves exactly the tally of all hits |
| MagicBytes.SummaryStep | analyzers/src/magic_bytes_analyzer.rs:142-156 | one more hit increments its category and appends its finding when it is a complete header past offset 0 |
| MagicBytes.AnySuspicious | analyzers/src/magic_bytes_analyzer.rs:219-222 | the loop computes `has_suspicious_data` |
| MagicBytes.HasOffsetScan | analyzers/src/magic_bytes_analyzer.rs:113-118 | the membership loop finds an offset exactly when some entry has it |
| MagicBytes.ManualSignatureScan | analyzers/src/magic_bytes_analyzer.rs:337-440 | the scan over the table returns exactly the concatenation of each signature's hits, in table order |
| MagicBytes.ScanTableStep | analyzers/src/magic_bytes_analyzer.rs:385-437 | one more table row appends that signature's hits |
| MagicBytes.ScanSignature | analyzers/src/magic_bytes_analyzer.rs:391-436 | the while loop over offsets returns exactly one signature's hits from offset 0 |
| MagicBytes.ScanMatchStep | analyzers/src/magic_bytes_analyzer.rs:392-432 | at a match, the remaining hits are the current hit (if genuine) followed by the hits after the signature |
| MagicBytes.ScanMissStep | analyzers/src/magic_bytes_analyzer.rs:433-434 | at a non-match, the scan moves one byte on |
| CategoryExamples.ExpectedCategories | analyzers/src/magic_bytes_analyzer.rs:534-542 | "JPEG image data" and "PNG image data" are images, "MP3 audio" is audio, "MP4 video" is video, "PDF document" is a text document and "ZIP archive" is an archive |
| CategoryExamples.ExpectedCompleteHeaders | analyzers/src/magic_bytes_analyzer.rs:544-550 | JPEG image data, PNG image headers and PDF documents are complete headers, while "random data" is not |
| CategoryExamples.Id3TagDescription | analyzers/src/magic_bytes_analyzer.rs:253-333 | the manual scan's "ID3 tag" matches no keyword list and is no complete header |
| CategoryExamples.ScanImageDescriptions | analyzers/src/magic_bytes_analyzer.rs:320-333 | "GIF87a image" and "WebP image (RIFF)" are no complete headers |
| CategoryExamples.ScanContainerDescriptions | analyzers/src/magic_bytes_analyzer.rs:320-333 | "Mp4" and "Webm/mkv" are no complete headers, while "7-Zip archive" is one, since it contains "zip archive" |
| Lsb.ExtractLsbPlane | analyzers/src/lsb_analyzer.rs:74-76 | the plane has one bit per pixel, and a bit is 1 exactly when the channel value is odd |
| Lsb.PlaneLength | analyzers/src/lsb_analyzer.rs:74-76 | a plane has width times height bits |
| Lsb.PairValue | analyzers/src/lsb_analyzer.rs:102-109 | a pair of bits encodes a value below 4 |
| Lsb.PairCountsSum | analyzers/src/lsb_analyzer.rs:102-109 | the four pair counts add up to the number of pairs |
| Lsb.ChiSumStep | analyzers/src/lsb_analyzer.rs:111-119 | each value adds (observed − expected)² / expected to the statistic |
| Lsb.ChiTermOf | analyzers/src/lsb_analyzer.rs:115-117 | one term of the statistic written with the loop's difference |
| Lsb.ChiSquareSpec | analyzers/src/lsb_analyzer.rs:98-122 | the pair chi-square score; ChiSquareNaNIff, ChiSquareNonNegative and ChiSquareUniform state when it is NaN, its sign and its value on uniform counts, and CalculateChiSquare ties the loops to it |
| Lsb.ChiSquareNaNIff | analyzers/src/lsb_analyzer.rs:98-122 | the score is NaN exactly when the plane has fewer than two bits, because the expected count is then 0 |
| Lsb.ChiSumNonNegative | analyzers/src/lsb_analyzer.rs:111-119 | every partial sum of terms is non-negative |
| Lsb.ChiSquareNonNegative | analyzers/src/lsb_analyzer.rs:98-122 | a numeric chi-square score is non-negative |
| Lsb.ChiSquareUniform | analyzers/src/lsb_analyzer.rs:98-122 | equal pair counts give a score of 0 |
| Lsb.CalculateChiSquare | analyzers/src/lsb_analyzer.rs:98-122 | the loops compute the pair chi-square statistic of the plane |
| Lsb.CountPairs | analyzers/src/lsb_analyzer.rs:100-109 | the 256-slot count array holds each pair value's count, and its slots from 4 up stay 0 |
| Lsb.BitCountsSum | analyzers/src/lsb_analyzer.rs:124-144 | the counts of zeros and ones add up to the plane length |
| Lsb.EntropySpec | analyzers/src/lsb_analyzer.rs:124-144 | the binary entropy of the bit counts; EntropyConstant and EntropyAlternating give its values 0 and 1, and CalculateEntropy ties the loop to it |
| Lsb.EntropyConstant | analyzers/src/lsb_analyzer.rs:124-144 | a constant plane has entropy 0 |
| Lsb.ConstantCount | analyzers/src/lsb_analyzer.rs:127-131 | a constant plane counts all its bits under its value |
| Lsb.AlternatingCount | analyzers/src/lsb_analyzer.rs:127-131 | an alternating plane of even length has as many ones as zeros |
| Lsb.EntropyAlternating | analyzers/src/lsb_analyzer.rs:124-144 | an alternating plane has entropy 1 |
| Lsb.CalculateEntropy | analyzers/src/lsb_analyzer.rs:124-144 | the loop computes the binary entropy of the plane's bit counts |
| Lsb.CeilSqrtFrom | analyzers/src/lsb_analyzer.rs:80 | the search finds the smallest width whose square covers n |
| Lsb.CeilSqrt | analyzers/src/lsb_analyzer.rs:80 | `sqrt(n).ceil()` is the least w with w² ≥ n |
| Lsb.CeilDivBounds | analyzers/src/lsb_analyzer.rs:81 | the height `(n + w − 1) / w` is the number of rows of width w needed for n bits, with none to spare |
| Lsb.VisualizeLsbPlane | analyzers/src/lsb_analyzer.rs:78-96 | the plane drawn as an image; VisualizeLayout states its panic, size and pixels |
| Lsb.VisualizeLayout | analyzers/src/lsb_analyzer.rs:78-96 | an empty plane panics (the height divides by a zero width); otherwise the image is ⌈√n⌉ wide and tall enough for every bit, with no empty row; every pixel is opaque, padding pixels are black, and a bit pixel's channel is 255 exactly when the bit is set |
| Lsb.Analyze | analyzers/src/lsb_analyzer.rs:35-71 | an image without pixels panics, and the analysis never returns an error; otherwise there are three scores and three planes, and "suspicious" holds exactly when a chi-square score exceeds 100 or an entropy score exceeds 0.9 |
| VideoFrame.GuardedChiSquareSpec | analyzers/src/video_frame_analyzer.rs:80-105 | the guarded statistic is never NaN |
| VideoFrame.GuardedChiSquareAgrees | analyzers/src/video_frame_analyzer.rs:80-84 | with two bits or more it equals the LSB analyser's statistic; below that it is 0, where the unguarded one is NaN |
| VideoFrame.CalculateChiSquare | analyzers/src/video_frame_analyzer.rs:80-105 | the loops compute the guarded statistic |
| VideoFrame.CountPairs4 | analyzers/src/video_frame_analyzer.rs:86-94 | the four-slot array holds each pair value's count |
| VideoFrame.CalculateEntropy | analyzers/src/video_frame_analyzer.rs:107-126 | the loop computes the bit entropy |
| VideoFrame.Max | analyzers/src/video_frame_analyzer.rs:138-143 | the maximum is an element of the histogram and bounds all of it |
| VideoFrame.Histogram | analyzers/src/video_frame_analyzer.rs:129-135 | a channel histogram has 256 bins |
| VideoFrame.SumIncrement | analyzers/src/video_frame_analyzer.rs:129-135 | incrementing a bin adds one to the sum |
| VideoFrame.SumZero | analyzers/src/video_frame_analyzer.rs:129-135 | an all-zero histogram sums to 0 |
| VideoFrame.HistogramSum | analyzers/src/video_frame_analyzer.rs:129-135 | each channel histogram counts every pixel once |
| VideoFrame.PositiveSumPositiveMax | analyzers/src/video_frame_analyzer.rs:138-143 | a histogram with a positive sum has a positive maximum |
| VideoFrame.SmallFrameAnomalous | analyzers/src/video_frame_analyzer.rs:138-153 | a frame of 1 to 255 pixels is always anomalous, because the integer average count is then 0 |
| VideoFrame.BuildHistograms | analyzers/src/video_frame_analyzer.rs:129-135 | the 3 × 256 array holds the three channel histograms |
| VideoFrame.BinStats | analyzers/src/video_frame_analyzer.rs:138-143 | the loop returns the maximum and the sum of one histogram |
| VideoFrame.PairTest | analyzers/src/video_frame_analyzer.rs:145-153 | the loop finds a pair (2i, 2i+1) whose counts differ by more than three times the average, exactly when one exists |
| VideoFrame.DetectHistogramAnomalies | analyzers/src/video_frame_analyzer.rs:128-157 | the method computes the frame's anomaly verdict |
| VideoFrame.RowEdgesBound | analyzers/src/video_frame_analyzer.rs:159-185 | a row has at most as many edge pixels as interior columns |
| VideoFrame.EdgesUpToBound | analyzers/src/video_frame_analyzer.rs:159-185 | the rows scanned so far hold at most (w − 2) edges each |
| VideoFrame.EdgeCountBound | analyzers/src/video_frame_analyzer.rs:159-185 | there are at most (w − 2)(h − 2) edge pixels, so the density is at most 1 |
| VideoFrame.EdgeDensitySpec | analyzers/src/video_frame_analyzer.rs:159-185 | the edge density as a release build computes it: a zero dimension wraps its `- 1` to `u32::MAX`, and the out-of-bounds pixel read that follows is a panic unless the other dimension is 1 or 2; CalculateEdgeDensity ties the loops to it, and EdgeCountBound bounds the edge count by the interior pixels |
| VideoFrame.EdgeDensityOutcomes | analyzers/src/video_frame_analyzer.rs:159-185 | the density panics exactly when one dimension is zero and the other is 0 or at least 3; it is 0/0, NaN, exactly when one dimension is zero and the other is 1 or 2; any other frame narrower or lower than 3 pixels, such as 1×1, 1×5 or 5×1, scores 0 |
| VideoFrame.EdgeAt | analyzers/src/video_frame_analyzer.rs:166-178 | the channel loop, including its `break`, decides exactly whether some channel's squared gradient exceeds 30² |
| VideoFrame.CalculateEdgeDensity | analyzers/src/video_frame_analyzer.rs:159-185 | the loops, with the release build's wrapping bounds and a panic on a pixel read outside the image, compute the edge density of `EdgeDensitySpec`, panicking exactly where it does |
| VideoFrame.Analyze | analyzers/src/video_frame_analyzer.rs:39-73 | the frame analysis panics exactly when the edge density does; otherwise it reports the three scores, the histogram verdict, the density, and "suspicious" as the source combines them |
| Spectrogram.ShortInputUnderflows | analyzers/src/spectrogram_analyzer.rs:86 | every non-empty clip shorter than 2048 samples makes the `usize` subtraction underflow |
| Spectrogram.FrameCount | analyzers/src/spectrogram_analyzer.rs:86-102 | there are no frames exactly when the clip is shorter than one window; otherwise the count is the source's formula |
| Spectrogram.WrappingSub | analyzers/src/spectrogram_analyzer.rs:86 | `usize` subtraction in a release build: the difference when it is non-negative, and otherwise the difference plus 2^64 |
| Spectrogram.ReleaseFrameBound | analyzers/src/spectrogram_analyzer.rs:86-102 | the wrapped loop bound is never below the number of frames that fit, and equals it for a clip of at least one window, so the `break` ends the loop |
| Spectrogram.FrameFits | analyzers/src/spectrogram_analyzer.rs:86-96 | frame k lies inside the clip exactly when k is below the frame count |
| Spectrogram.Row | analyzers/src/spectrogram_analyzer.rs:96-121 | each frame yields 1024 magnitudes |
| Spectrogram.SpectrogramSpec | analyzers/src/spectrogram_analyzer.rs:75-124 | the grid has one row of 1024 bins per frame |
| Spectrogram.GenerateSpectrogram | analyzers/src/spectrogram_analyzer.rs:75-124 | the loop produces exactly that grid |
| Spectrogram.StartBinOfFullFrame | analyzers/src/spectrogram_analyzer.rs:130-136 | with 1024 bins at 44.1 kHz the high band starts at bin 696 |
| Spectrogram.RowEnergy | analyzers/src/spectrogram_analyzer.rs:141-149 | a frame's energy is non-negative |
| Spectrogram.GridEnergy | analyzers/src/spectrogram_analyzer.rs:141-149 | the grid's energy is non-negative |
| Spectrogram.RowEnergyBand | analyzers/src/spectrogram_analyzer.rs:141-149 | a frame's high-band energy is at most its total energy |
| Spectrogram.GridEnergyBand | analyzers/src/spectrogram_analyzer.rs:141-149 | the grid's high-band energy is at most its total |
| Spectrogram.HighFrequencyEnergyRange | analyzers/src/spectrogram_analyzer.rs:126-157 | the share lies in [0, 1], and is 0 for an empty or silent grid |
| Spectrogram.RatioAtMostOne | analyzers/src/spectrogram_analyzer.rs:152-156 | a part divided by a positive whole lies in [0, 1] |
| Spectrogram.AddFrameEnergy | analyzers/src/spectrogram_analyzer.rs:142-149 | the inner loop adds the frame's total and high-band energy |
| Spectrogram.HighFrequencyEnergy | analyzers/src/spectrogram_analyzer.rs:126-157 | the loops compute the high-band share of the energy |
| Spectrogram.GeneratedRectangular | analyzers/src/spectrogram_analyzer.rs:75-124 | all rows of a generated grid have the same length |
| Spectrogram.RunEnd | analyzers/src/spectrogram_analyzer.rs:170-187 | the run of high frames ending at k is no longer than k |
| Spectrogram.RunEndIsHigh | analyzers/src/spectrogram_analyzer.rs:170-187 | every frame of that run is high in the bin |
| Spectrogram.HighRunBoundsRunEnd | analyzers/src/spectrogram_analyzer.rs:170-187 | any run of high frames ending at b is no longer than the counted run |
| Spectrogram.ToneIff | analyzers/src/spectrogram_analyzer.rs:170-187 | a bin raises a tone exactly when some run of high frames in it is longer than a quarter of the frames |
| Spectrogram.ScanTone | analyzers/src/spectrogram_analyzer.rs:170-187 | the `consecutive_high` loop decides exactly that |
| Spectrogram.ToneBins | analyzers/src/spectrogram_analyzer.rs:170-187 | the tone bins form a sub-range of the scanned range |
| Spectrogram.ToneBinsProperties | analyzers/src/spectrogram_analyzer.rs:170-187 | the tone bins are ascending, and are exactly the bins of the upper half that raise a tone |
| Spectrogram.ToneMessages | analyzers/src/spectrogram_analyzer.rs:180-183 | there is one message per tone bin |
| Spectrogram.FrameEdges | analyzers/src/spectrogram_analyzer.rs:213-230 | a frame has at most as many edges as cells after its first |
| Spectrogram.EdgesBeforeBound | analyzers/src/spectrogram_analyzer.rs:213-230 | there are at most (frames − 1)(bins − 1) edges up to a frame |
| Spectrogram.EdgeCountBound | analyzers/src/spectrogram_analyzer.rs:213-230 | the edge count is at most (frames − 1)(bins − 1) |
| Spectrogram.DetectEdges | analyzers/src/spectrogram_analyzer.rs:213-230 | the loops count exactly the cells that differ by more than 0.3 from the previous frame or bin |
| Spectrogram.FoldMax | analyzers/src/spectrogram_analyzer.rs:198 | the fold maximum is non-negative and bounds the frame |
| Spectrogram.SpikeFrames | analyzers/src/spectrogram_analyzer.rs:196-208 | at most every frame is a spike frame |
| Spectrogram.MaxAndSum | analyzers/src/spectrogram_analyzer.rs:197-200 | the method returns the frame's fold maximum and sum |
| Spectrogram.CountSpikeFrames | analyzers/src/spectrogram_analyzer.rs:196-205 | the loop counts the frames whose maximum exceeds five times their mean |
| Spectrogram.PatternsLength | analyzers/src/spectrogram_analyzer.rs:159-211 | an empty grid has no patterns; otherwise there are at most (upper-half bins) + 2 patterns |
| Spectrogram.ToneScanAll | analyzers/src/spectrogram_analyzer.rs:170-187 | the outer loop emits one message per tone bin of the upper half, in order |
| Spectrogram.DetectPatterns | analyzers/src/spectrogram_analyzer.rs:159-211 | the method computes exactly the tone, edge and spike pattern list |
| Spectrogram.GridMax | analyzers/src/spectrogram_analyzer.rs:241-244 | the normalising maximum is non-negative |
| Spectrogram.SpectrogramImage | analyzers/src/spectrogram_analyzer.rs:232-266 | an empty grid gives a 1×1 image; otherwise the image is frames wide and bins high, and pixel (x, y) shades bin h − 1 − y of frame x |
| Spectrogram.AnalyzeSpec | analyzers/src/spectrogram_analyzer.rs:39-72 | empty input is exactly the error "Empty audio input"; a hidden message is reported exactly when the high-band share exceeds 0.1 or a pattern was found |
| Spectrogram.Analyze | analyzers/src/spectrogram_analyzer.rs:39-72 | the analyser computes that result |
| Spectrogram.ShortClipClean | analyzers/src/spectrogram_analyzer.rs:39-72 | in a release build, a non-empty clip shorter than one window gives a 1×1 image, energy 0, no patterns and no hidden message |
| ImageFilter.Isolation | analyzers/src/image_filter.rs:36-127 | outputs 1 to 4 keep one channel and zero the others; outputs 5 to 8 keep one channel and set the others to 255 |
| ImageFilter.MapAll | analyzers/src/image_filter.rs:35-36 | each pixel is mapped in place, keeping the order |
| ImageFilter.Flatten | analyzers/src/image_filter.rs:36-37 | `flat_map` gives four bytes per pixel |
| ImageFilter.Unflatten | analyzers/src/image_filter.rs:29-38 | a raw buffer is read back four bytes per pixel |
| ImageFilter.UnflattenFlatten | analyzers/src/image_filter.rs:29-38 | reading back a flattened buffer gives the same pixels |
| ImageFilter.IsolateSucceeds | analyzers/src/image_filter.rs:29-39 | `from_vec` always succeeds on these buffers, so the `expect` never fires |
| ImageFilter.Analyze | analyzers/src/image_filter.rs:25-134 | there are eleven outputs: the input, the eight isolations in order, then the contrast adjustments by −10 and +10 |
| ImageFilter.IsolationsRecombine | analyzers/src/image_filter.rs:26-131 | the black-background outputs together hold every channel of the input, and so do the white-background ones |
| MetadataRules.Base64Count | analyzers/src/id3_analyzer.rs:209-212 | the alphabet count is at most the text length |
| MetadataRules.Base64CountAppend | analyzers/src/id3_analyzer.rs:209-212 | the count of a concatenation is the sum of the counts |
| MetadataRules.AllBase64Count | analyzers/src/exif_analyzer.rs:147-150 | text drawn from the alphabet alone counts in full |
| MetadataRules.NonAscii | analyzers/src/id3_analyzer.rs:204-216 | the number of non-ASCII characters is at most the length |
| MetadataRules.NonAsciiBounds | analyzers/src/id3_analyzer.rs:204-216 | non-ASCII characters fall outside the alphabet and add at least one byte each |
| MetadataRules.FlaggedTextIsMostlyAscii | analyzers/src/id3_analyzer.rs:204-216 | a flagged text has at least four alphabet characters, and fewer than one in nineteen characters is non-ASCII |
| MetadataRules.AsciiRule | analyzers/src/exif_analyzer.rs:142-154 | on ASCII text, a text is flagged exactly when it has at least four characters and fewer than a tenth of them lie outside the alphabet |
| MetadataRules.AlphabetTextFlagged | analyzers/src/exif_analyzer.rs:142-154 | a text of four or more alphabet characters is flagged |
| MetadataRules.IsPotentialBase64 | analyzers/src/id3_analyzer.rs:204-216 | the base64 rule; FlaggedTextIsMostlyAscii, AsciiRule, AlphabetTextFlagged and Base64Examples state when it holds |
| MetadataRules.Base64Examples | analyzers/src/id3_analyzer.rs:223-228 | the test's two base64 words are flagged and "abc" is not; "Hello World" is flagged as the code reads (see Left out) |
| Id3.NewId3Data | analyzers/src/id3_analyzer.rs:61-74 | every field of a new record is absent or empty |
| Id3.PlaceholderAnalyze | analyzers/src/id3_analyzer.rs:198-201 | the trait implementation returns an empty record |
| Id3.CommentFlags | analyzers/src/id3_analyzer.rs:115-125 | a comment raises one flag for being over 500 bytes and one for being base64-like over 50 bytes, in that order |
| Id3.CommentLines | analyzers/src/id3_analyzer.rs:107-112 | there is one "lang [description]: text" line per comment, in order |
| Id3.AllCommentFlags | analyzers/src/id3_analyzer.rs:107-126 | the comments raise at most two flags each |
| Id3.AllPictureFlags | analyzers/src/id3_analyzer.rs:141-158 | the pictures raise at most one flag each |
| Id3.PictureInfos | analyzers/src/id3_analyzer.rs:141-158 | every picture is recorded, in order, with its type, MIME type, description and size |
| Id3.AllPrivateFlags | analyzers/src/id3_analyzer.rs:161-171 | each frame raises at most one flag |
| Id3.PrivateFrames | analyzers/src/id3_analyzer.rs:161-180 | one record per PRIV frame, owned by "PRIV" and marked binary |
| Id3.Analyze | analyzers/src/id3_analyzer.rs:92-189 | an unreadable tag is an `Id3Error`; otherwise the record is the tag's analysis |
| Id3.ScanComments | analyzers/src/id3_analyzer.rs:107-126 | the comment loop yields the comment lines and their flags |
| Id3.ScanPictures | analyzers/src/id3_analyzer.rs:141-158 | the picture loop yields the picture records and their flags |
| Id3.ScanFrames | analyzers/src/id3_analyzer.rs:161-186 | the frame loop yields the private frames, the frame map and the flags |
| Id3.LargeEncodedComment | analyzers/src/id3_analyzer.rs:115-125 | a long, base64-like comment raises both flags, the size flag first |
| Id3.AllFramesKeepsLast | analyzers/src/id3_analyzer.rs:182-185 | the frame map's keys are exactly the frame identifiers, and each maps to the content of the last frame with that identifier |
| Id3.OnlyFirstLyrics | analyzers/src/id3_analyzer.rs:129-138 | only the first lyrics frame is read; later ones change nothing |
| Id3.LargePictureFlag | analyzers/src/id3_analyzer.rs:150-157 | a picture over 5,000,000 bytes is flagged with its size in whole megabytes, at least 5, and is still recorded |
| Id3.FlagBounds | analyzers/src/id3_analyzer.rs:107-186 | there are no more private frames than frames, and the flags are bounded by the items inspected |
| Id3.PrivateCountBound | analyzers/src/id3_analyzer.rs:161-180 | there are no more PRIV frames than frames |
| Exif.NewExifData | analyzers/src/exif_analyzer.rs:41-49 | a new record is empty, with no thumbnail |
| Exif.PlaceholderAnalyze | analyzers/src/exif_analyzer.rs:136-139 | the trait implementation returns an empty record |
| Exif.FieldFlags | analyzers/src/exif_analyzer.rs:99-112 | a field raises at most two flags; the size flag comes first, exactly when the value is over 1000 bytes |
| Exif.AllFieldFlags | analyzers/src/exif_analyzer.rs:82-113 | the fields raise at most two flags each |
| Exif.PrimaryField | analyzers/src/exif_analyzer.rs:116-118 | `get_field` finds a primary-image field with the tag exactly when one exists |
| Exif.Thumbnail | analyzers/src/exif_analyzer.rs:115-124 | a thumbnail exists exactly when the primary image has an interchange-format field; its size is known exactly when the length field also exists and holds an unsigned value |
| Exif.CollectFields | analyzers/src/exif_analyzer.rs:82-113 | the field loop yields the metadata map, the comment lines and the flags |
| Exif.PushFieldFlags | analyzers/src/exif_analyzer.rs:99-112 | the two checks append the field's flags |
| Exif.FieldStep | analyzers/src/exif_analyzer.rs:82-113 | one more field updates the three collections as the loop body does |
| Exif.Analyze | analyzers/src/exif_analyzer.rs:67-127 | a failed open is `Io`, a failed read is `ExifError`, and otherwise the record is the fields' analysis |
| Exif.MetadataKeepsLast | analyzers/src/exif_analyzer.rs:83-86 | the map's keys are exactly the tag names, and each maps to the value of the last field with that name |
| Exif.MetadataKeys | analyzers/src/exif_analyzer.rs:83-86 | the map's keys are exactly the tag names |
| Exif.MetadataLast | analyzers/src/exif_analyzer.rs:83-86 | a field not overwritten later survives in the map |
| Exif.CommentFieldsExactly | analyzers/src/exif_analyzer.rs:88-96 | exactly the user-comment and image-description fields add a line, "name: value" |
| Exif.LargeEncodedValue | analyzers/src/exif_analyzer.rs:99-112 | a long, base64-like value raises both flags, the size flag first |
| TextParser.Newlines | parsers/src/text_parser.rs:49 | there are at most as many line feeds as characters |
| TextParser.TextStatisticsBounds | parsers/src/text_parser.rs:47-61 | lines ≤ characters ≤ bytes; a text has no lines exactly when it is empty; at most every second character starts a word |
| TextParser.NewTextContent | parsers/src/text_parser.rs:47-61 | the content with its statistics; TextStatisticsBounds, StatisticsExample and the Newlines and WordCount lemmas state what they mean |
| TextParser.WordCountStep | parsers/src/text_parser.rs:51 | twice the word count is at most one more than the length |
| TextParser.NewlinesAppend | parsers/src/text_parser.rs:49 | line feeds add up over a concatenation |
| TextParser.NoNewlines | parsers/src/text_parser.rs:49 | a text without line feeds has none |
| TextParser.WordCountAppend | parsers/src/text_parser.rs:51 | words add up over a concatenation, less one when the join falls inside a word |
| TextParser.SolidWord | parsers/src/text_parser.rs:51 | a non-empty text without whitespace is one word |
| TextParser.StatisticsExample | parsers/src/text_parser.rs:400-405 | "Hello World\nTest" has 2 lines, 3 words and 16 characters, as the test expects |
| TextParser.ExampleLines | parsers/src/text_parser.rs:402 | the test text has 2 lines |
| TextParser.ExampleWords | parsers/src/text_parser.rs:403 | the test text has 3 words |
| TextParser.ParserFor | parsers/src/text_parser.rs:76-95 | the lower-cased extension selects the PDF, DOCX, DOC, RTF or ODT parser, and any other extension selects plain text |
| TextParser.DispatchIgnoresCase | parsers/src/text_parser.rs:81-85 | the parser choice ignores the extension's case |
| TextParser.StylesheetLookahead | parsers/src/text_parser.rs:194-201 | as written, a `\stylesheet` group is never skipped, whereas the corrected test skips it; the two tests agree on every other text (see Findings) |
| TextParser.PrefixOfLookahead | parsers/src/text_parser.rs:194 | for any look-ahead window, a word no longer than the window is a prefix of the look-ahead exactly when it is a prefix of the rest |
| TextParser.CorrectedLookahead | parsers/src/text_parser.rs:194-201 | an eleven-character look-ahead, long enough for every destination word, decides the same as testing the whole rest |
| TextParser.RtfFrom | parsers/src/text_parser.rs:181-259 | with the `take(10)` look-ahead of the code, or any other window, the extracted text is no longer than the input |
| TextParser.ExtractRtfPlainText | parsers/src/text_parser.rs:181-259 | the character loop, with its one-character peek and the ten-character look-ahead after `{`, computes the extraction as written |
| TextParser.RtfStep | parsers/src/text_parser.rs:189-256 | each match arm consumes at least one character, and what it emits followed by the rest gives the whole extraction, with the ten-character look-ahead |
| TextParser.LookaheadOpensSkipGroup | parsers/src/text_parser.rs:194-201 | the ten characters after `{` decide a skipped group exactly as the look-ahead test of the extraction |
| TextParser.EscapeEmitsLiteral | parsers/src/text_parser.rs:218-224 | `\\`, `\{` and `\}` outside a skipped group emit the escaped character, at any brace depth, for the look-ahead as written and for the corrected one |
| TextParser.HexEscapeConsumesTwoDigits | parsers/src/text_parser.rs:225-248 | `\'` followed by two hex digits consumes four characters and emits nothing, for the look-ahead as written and for the corrected one |
| TextParser.SkipGroupSilent | parsers/src/text_parser.rs:191-212 | inside a skipped group nothing is emitted while the brace depth stays positive, so a font table inside the document silences everything up to the document's closing brace, for the look-ahead as written and for the corrected one |
| TextParser.NothingOutsideGroups | parsers/src/text_parser.rs:249-254 | without braces or backslashes, text outside every group is never emitted, for the look-ahead as written and for the corrected one |
| TextParser.NoBackslashNoSkip | parsers/src/text_parser.rs:194-201 | a look-ahead that does not start with a backslash opens no skipped group |
| TextParser.StylesheetSampleLookahead | parsers/src/text_parser.rs:194-201 | in `{{\stylesheet x}y}` the ten-character look-ahead opens no skipped group at either brace |
| TextParser.StylesheetSampleCorrectedLookahead | parsers/src/text_parser.rs:194-201 | in that sample the eleven-character look-ahead sees `\stylesheet` after the inner brace, and nothing after the outer one |
| TextParser.StylesheetGroupText | parsers/src/text_parser.rs:181-259 | as written, `{{\stylesheet x}y}` extracts to "xy": the stylesheet group is not skipped |
| TextParser.StylesheetWordAsWritten | parsers/src/text_parser.rs:226-254 | in that sample, the control word `\stylesheet` and the space end before "x" is emitted |
| TextParser.StylesheetTailAsWritten | parsers/src/text_parser.rs:191-254 | in that sample, "x", the closing brace, "y" and the last brace give "xy" |
| TextParser.StylesheetGroupSkipped | parsers/src/text_parser.rs:181-259 | with the corrected look-ahead, `{{\stylesheet x}y}` extracts to the empty text |
| TextParser.StylesheetWordSkipped | parsers/src/text_parser.rs:191-254 | in that sample, with the corrected look-ahead, the control word, "x" and everything after stay silent |
| TextParser.StylesheetTailSkipped | parsers/src/text_parser.rs:191-212 | in that sample, with the corrected look-ahead, the skip lasts through the inner closing brace and "y" until depth 0 |
| TextParser.ParseRtf | parsers/src/text_parser.rs:170-178 | with the extraction as written, a whitespace-only extraction is exactly the error "No text found in RTF file"; otherwise the content is the extraction labelled "RTF" |
| TextParser.ExtractStringsFromBinary | parsers/src/text_parser.rs:355-379 | the byte loop computes the printable-run extraction |
| TextParser.StringsAreKept | parsers/src/text_parser.rs:359-376 | the extract consists only of kept bytes |
| TextParser.RunLengthCountsBytes | parsers/src/text_parser.rs:366-374 | run lengths are UTF-8 byte lengths, so two high bytes form an emitted run while three ASCII bytes do not |
| TextParser.ParseDoc | parsers/src/text_parser.rs:138-153 | an empty extract is exactly the error naming antiword/catdoc; otherwise the content is the extract labelled "DOC (partial)" |
| VideoParser.VideoPackets | parsers/src/video_parser.rs:95-105 | the selected packets all belong to the video stream |
| VideoParser.VideoPacketsAppend | parsers/src/video_parser.rs:95-105 | selection distributes over concatenation |
| VideoParser.LoadEnd | parsers/src/video_parser.rs:95-105 | the load stops within the demuxer's items |
| VideoParser.LoadSplit | parsers/src/video_parser.rs:95-105 | the number of items consumed is at most the number available |
| VideoParser.VideoPacketsFrom | parsers/src/video_parser.rs:95-105 | one item contributes one video packet or none |
| VideoParser.LoadProperties | parsers/src/video_parser.rs:90-106 | one load takes at most what it wants and only video packets; it runs dry exactly when fewer are available, consuming everything; an empty load means exhaustion |
| VideoParser.LoadEndProperties | parsers/src/video_parser.rs:95-105 | the same, from a given item |
| VideoParser.LoadEndLast | parsers/src/video_parser.rs:99-103 | with enough packets, the last item consumed is a video packet |
| VideoParser.LoadEndShort | parsers/src/video_parser.rs:95-105 | with too few packets, the load runs to the end |
| VideoParser.LoadEndFull | parsers/src/video_parser.rs:99-103 | with enough packets, exactly the wanted number is taken |
| VideoParser.TakeItem | parsers/src/video_parser.rs:95-105 | taking one item extends the selected packets by it exactly when it is a video packet |
| VideoParser.TakeVideoPackets | parsers/src/video_parser.rs:95-105 | the demuxer loop takes the video packets up to the split and leaves the rest, and is exhausted exactly when fewer packets than wanted exist (a count of 0 loads one) |
| VideoParser.AsSent | parsers/src/video_parser.rs:170-176 | one decoder input per packet sent |
| VideoParser.SendPacketStep | parsers/src/video_parser.rs:170-176 | an accepted packet keeps the iterator's invariant and advances the index |
| VideoParser.SendEofStep | parsers/src/video_parser.rs:146-152 | an accepted EOF keeps the invariant and starts the flush |
| VideoParser.RefillStep | parsers/src/video_parser.rs:155-157 | clearing and reloading ten packets keeps the invariant; an empty buffer means the demuxer ran dry, and each packet loaded consumed an item |
| VideoParser.VideoFrameIterator.constructor | parsers/src/video_parser.rs:77-87 | a new iterator has an empty buffer, nothing sent, and is neither exhausted nor flushing |
| VideoParser.VideoFrameIterator.LoadPackets | parsers/src/video_parser.rs:90-106 | once exhausted, nothing changes; otherwise the next video packets are appended, and exhaustion is recorded exactly when the demuxer runs out first |
| VideoParser.VideoFrameIterator.DecodeFrame | parsers/src/video_parser.rs:108-124 | the decoder's next reply gives a frame, no frame, or a decode error; nothing else changes |
| VideoParser.VideoFrameIterator.Send | parsers/src/video_parser.rs:170-176 | a send consumes the next reply, and an accepted input is logged |
| VideoParser.VideoFrameIterator.Refill | parsers/src/video_parser.rs:155-157 | the refill keeps the invariant and resets the index; an empty buffer means exhaustion; the demuxer shrinks |
| VideoParser.VideoFrameIterator.Advance | parsers/src/video_parser.rs:140-176 | a round that does not fail makes progress: either flushing starts, or fewer packets remain to be sent |
| VideoParser.VideoFrameIterator.SendEof | parsers/src/video_parser.rs:146-152 | EOF is sent only once the buffer is consumed and the demuxer exhausted; flushing starts exactly when it is accepted |
| VideoParser.VideoFrameIterator.SendNextPacket | parsers/src/video_parser.rs:168-176 | the index moves past the packet exactly when the decoder accepts it |
| VideoParser.VideoFrameIterator.Next | parsers/src/video_parser.rs:130-178 | a frame or a decode error the decoder holds is returned before anything is sent; a flushing iterator that finds no frame returns None and stays finished; None comes only after an accepted EOF |
| VideoParser.Open | parsers/src/video_parser.rs:49-88 | an FFmpeg failure of initialisation or of opening the input is returned first as an Ffmpeg error; then a container without a video stream is exactly the error "No video stream found"; then a failure of the codec context, decoder or scaler is an Ffmpeg error; the iterator is returned exactly when none of these happens, and it starts on the best video stream with an empty packet buffer, not flushing |
| VideoSampling.PrefixWellFormed | stegascan-api/src/analysis.rs:213-231 | a prefix of well-formed items is well-formed |
| VideoSampling.DecodedCount | stegascan-api/src/analysis.rs:213-231 | the decoded count is at most the number of items |
| VideoSampling.FailedCount | stegascan-api/src/analysis.rs:213-231 | the error count is at most the number of items |
| VideoSampling.CountsCoverItems | stegascan-api/src/analysis.rs:213-231 | the decoded and error counters together count every item once |
| VideoSampling.SuspiciousIndices | stegascan-api/src/analysis.rs:213-231 | there are no more suspicious indices than items |
| VideoSampling.SampledCount | steg_cli/src/main.rs:351-415 | no more frames are analysed than decoded |
| VideoSampling.SuspiciousIndicesExactly | stegascan-api/src/analysis.rs:213-231 | the suspicious indices are strictly ascending, and are exactly the sampled items whose frame is suspicious |
| VideoSampling.SuspiciousIndicesListed | stegascan-api/src/analysis.rs:213-231 | the list names exactly the sampled suspicious items |
| VideoSampling.SuspiciousIndicesAscending | stegascan-api/src/analysis.rs:213-231 | the list is strictly ascending |
| VideoSampling.AppendIndex | stegascan-api/src/analysis.rs:224-226 | appending a larger index keeps the list ascending |
| VideoSampling.SuspiciousAmongSampled | steg_cli/src/main.rs:351-415 | there are no more suspicious frames than analysed frames |
| VideoSampling.RateOneSamplesAll | stegascan-api/src/analysis.rs:218 | with a rate of 1, every decoded frame is analysed |
| VideoSampling.RateZeroWithoutPanic | stegascan-api/src/analysis.rs:218 | with a rate of 0, a loop that does not panic has seen no decoded frame |
| VideoSampling.NoDecodedCount | stegascan-api/src/analysis.rs:213-231 | a run with no decoded items has a decoded count of 0 |
| VideoSampling.ItemStep | stegascan-api/src/analysis.rs:213-231 | one more item updates each counter, the entropy total and the suspicious list as the loop body does |
| Reports.SummaryReport | stegascan-api/src/analysis.rs:78-107 | the seven report counters are the summary's category counts |
| Reports.EmbeddedInfo | stegascan-api/src/analysis.rs:78-107 | each record keeps the entry's offset and renders it as "0x" followed by upper-case hexadecimal |
| Reports.EmbeddedInfos | stegascan-api/src/analysis.rs:78-107 | there is one record per entry, in order |
| Reports.MagicBytesReportOf | steg_cli/src/main.rs:180-209 | the report keeps the analysis' flags and findings, and has one record per embedded file with its offset |
| Reports.ReportCountsEveryEntry | steg_cli/src/main.rs:180-209 | when the tally and total come from the entry list, the seven counters sum to the total, which equals the number of embedded files |
| Reports.ReportFromEntries | analyzers/src/magic_bytes_analyzer.rs:224-235 | `analyze` builds its tally and total from the entry list it reports |
| Reports.ExifReportOf | stegascan-api/src/analysis.rs:125-141 | `fields_found` is the number of distinct tag names, and the flags are kept |
| Reports.Id3ReportOf | stegascan-api/src/analysis.rs:182-193 | the ID3 report counts the comments, pictures and private frames, and keeps the flags |
| Reports.LsbChannels | stegascan-api/src/analysis.rs:144-162 | there is one channel record per chi-square score, named Red, Green and Blue by position, paired with the entropy at the same position |
| Reports.ConfidenceLevel | stegascan-api/src/analysis.rs:305-311 | three or more indicators give "high", one or two "medium", and none "low" |
| ApiAnalysis.PrefixesExclusive | stegascan-api/src/analysis.rs:35-45 | no MIME type starts with two of the prefixes the match tests |
| ApiAnalysis.ClassifyMime | stegascan-api/src/analysis.rs:35-45 | the type is audio, video or image exactly when the MIME type starts with "audio/", "video/" or "image/"; it is text exactly when there is no MIME type or none of those prefixes matches |
| ApiAnalysis.DetectedType | stegascan-api/src/analysis.rs:47-52 | the name is one of "Audio", "Video", "Text" and "Image" |
| ApiAnalysis.DetectedTypeDistinct | stegascan-api/src/analysis.rs:47-52 | different types have different names |
| ApiAnalysis.AnalysisResponse.constructor | stegascan-api/src/analysis.rs:59-75 | the response starts with the file info and timestamp, every analysis absent, and a "low" summary with no indicators and no recommendations |
| ApiAnalysis.FormatIndicators | stegascan-api/src/analysis.rs:275-303 | the format analyses add at most one indicator |
| ApiAnalysis.FinalizeSummary | stegascan-api/src/analysis.rs:259-329 | the summary becomes the one computed from the analyses, and nothing else changes |
| ApiAnalysis.ApiSummary | stegascan-api/src/analysis.rs:259-329 | the service's summary; DetectionHasEvidence, RecommendationCount, FindingAloneNotDetected, NoEvidenceSummary and TextContributesNothing state its properties |
| ApiAnalysis.CollectMagic | stegascan-api/src/analysis.rs:263-273 | the magic-bytes part gives its indicators and its detection verdict |
| ApiAnalysis.CollectFormat | stegascan-api/src/analysis.rs:275-303 | the format part appends its indicators and updates the verdict |
| ApiAnalysis.IndicatorLayout | stegascan-api/src/analysis.rs:264-303 | the indicators are, in order, the structure indicator (when there is suspicious data), the multiple-formats indicator (when there are several), the findings verbatim, and then at most one format indicator |
| ApiAnalysis.DetectionHasEvidence | stegascan-api/src/analysis.rs:259-328 | a detection always has an indicator and is never "low"; the confidence is "high" exactly when there are three or more indicators |
| ApiAnalysis.RecommendationCount | stegascan-api/src/analysis.rs:313-321 | there are three recommendations when steganography is detected, and otherwise exactly "No obvious steganography detected" |
| ApiAnalysis.FindingAloneNotDetected | stegascan-api/src/analysis.rs:263-273 | a single finding without suspicious data or multiple formats is the only indicator: not detected, "medium", and the no-steganography recommendation |
| ApiAnalysis.NoEvidenceSummary | stegascan-api/src/analysis.rs:259-328 | with neither a magic-bytes report nor any format evidence, the summary is not detected, "low", with no indicators and the no-steganography recommendation |
| ApiAnalysis.TextContributesNothing | stegascan-api/src/analysis.rs:275-303 | a text analysis yields the same summary as no format analysis |
| ApiAnalysis.SampleVideo | stegascan-api/src/analysis.rs:207-238 | the video loop panics exactly when the sampling panics, and otherwise reports the decoded count, the error count and the suspicious indices |
| ApiAnalysis.SampledVideoAccounts | stegascan-api/src/analysis.rs:207-238 | the counts cover every item, and the indices ascend over sampled frames at multiples of the rate |
| CliReport.LastIndexOf | steg_cli/src/json_report.rs:160-163 | gives the last position of the character, and none exactly when it is absent |
| CliReport.FileName | steg_cli/src/json_report.rs:160-163 | the file name contains no "/" |
| CliReport.PathExtension | steg_cli/src/json_report.rs:160-163 | the extension contains no dot and no "/", and follows a non-empty stem and a dot in the file name; it is absent exactly for "..", a name without a dot, or a name whose only dot is its first character |
| CliReport.FormatIndicators | steg_cli/src/json_report.rs:212-242 | the format part adds at most two indicators |
| CliReport.SteganalysisReport.constructor | steg_cli/src/json_report.rs:159-182 | a new report has the path, size, type and extension, no magic analysis, an Unknown format, and a "low" summary with nothing in it |
| CliReport.SteganalysisReport.SetMagicBytesAnalysis | steg_cli/src/json_report.rs:184-186 | the setter stores the magic-bytes report and changes nothing else |
| CliReport.SteganalysisReport.SetFormatAnalysis | steg_cli/src/json_report.rs:188-190 | the setter stores the format analysis and changes nothing else |
| CliReport.SteganalysisReport.FinalizeSummary | steg_cli/src/json_report.rs:192-270 | the summary becomes the one computed from the analyses, and nothing else changes |
| CliReport.CliSummary | steg_cli/src/json_report.rs:192-270 | the tool's summary; CliDetectionHasEvidence, CliRecommendationCount, MetadataNeverDetects, ExifAloneNotDetected, VideoAndTextAddNothing and FindingOnlyDisagreement state its properties |
| CliReport.PushRecommendations | steg_cli/src/json_report.rs:253-262 | the recommendations are the three for a detection, and otherwise the two general ones |
| CliReport.CollectMagic | steg_cli/src/json_report.rs:197-210 | the magic part lists the structure, multiple-formats and finding indicators in that order, and detects on suspicious data or a finding but not on multiple formats alone |
| CliReport.CollectFormat | steg_cli/src/json_report.rs:212-242 | the format part appends its indicators and updates the verdict |
| CliReport.NewReportExample | steg_cli/src/json_report.rs:288-296 | the test path "/test/file.png" has the extension "png" |
| CliReport.SlashInTestPath | steg_cli/src/json_report.rs:160-163 | the test path's last "/" is at position 5 |
| CliReport.DotInFileName | steg_cli/src/json_report.rs:160-163 | the last dot of "file.png" is at position 4 |
| CliReport.LastIndexOfSkips | steg_cli/src/json_report.rs:160-163 | a suffix that does not contain the character does not change its last position |
| CliReport.CliDetectionHasEvidence | steg_cli/src/json_report.rs:192-269 | a detection has an indicator and is never "low"; without indicators there is no detection and the level is "low" |
| CliReport.MetadataNeverDetects | steg_cli/src/json_report.rs:212-242 | removing the EXIF or the ID3 report never changes the detection verdict |
| CliReport.ExifAloneNotDetected | steg_cli/src/json_report.rs:212-242 | EXIF flags alone give the EXIF indicator and "medium", but no detection |
| CliReport.VideoAndTextAddNothing | steg_cli/src/json_report.rs:212-242 | a video or text analysis yields the same summary as an Unknown one |
| CliReport.CliRecommendationCount | steg_cli/src/json_report.rs:253-262 | there are three recommendations when steganography is detected, and two otherwise |
| CliReport.FindingOnlyDisagreement | steg_cli/src/json_report.rs:197-210 | on findings without suspicious data the tool reports a detection and the service does not, both with "medium" confidence |
| CliMain.ClassifyFile | steg_cli/src/main.rs:62-82 | a known MIME prefix decides as in the service; otherwise the file is audio exactly when its extension is "wma", and text in any other case |
| CliMain.ClassificationsDiffer | steg_cli/src/main.rs:62-82 | the tool and the service disagree exactly on the "wma" fallback, where the tool says audio and the service text |
| CliMain.SumOfThree | steg_cli/src/main.rs:370-372 | the sum of three scores is their sum |
| CliMain.SampleVideo | steg_cli/src/main.rs:336-450 | the loop panics exactly when the sampling panics, and otherwise returns the decoded, error and analysed counts, the suspicious indices and the average entropy |
| CliMain.AnalyseFrame | steg_cli/src/main.rs:364-379 | one frame's analysis panics exactly when its edge density does, and otherwise gives its mean entropy and suspicion |
| CliMain.MeanOfScores | steg_cli/src/main.rs:370-372 | the mean of the three entropy scores is the frame's mean entropy |
| CliMain.VideoReport | steg_cli/src/main.rs:447-450 | the report records the frame and error counts |
| CliMain.TallyProperties | steg_cli/src/main.rs:351-421 | the counters cover every item, analysed ≤ decoded, every suspicious index is an analysed frame, and the average is 0 when nothing was analysed |
| CliMain.Run | steg_cli/src/main.rs:96-215 | a panic of the magic-bytes analysis or of the format stage is exactly the run's panic; a parse failure of a non-image file is exactly the run's error; otherwise the report holds the file info, the magic report if there is one, and the format analysis (Unknown for a skipped image), and its summary is finalized |

## Left out

- The binwalk scan and `fs::read` are not modelled: the analyser receives the file's bytes and binwalk's hits as inputs.
- The image, audio and video decoder crates (`image`, `symphonia`, `ffmpeg`) are not modelled. The demuxer and the decoder are scripts of replies; decoded images are inputs.
- `audio_parser.rs` and `image_parser.rs` are not part of this model. Their results reach the front ends as given format analyses.
- The spectrogram's FFT with a Hann window, and its square-root magnitudes, are a `magnitude` parameter. `log2`, `log10` and `adjust_contrast` are parameters too.
- Floating-point arithmetic is modelled on exact reals: rounding, infinities and `f32`/`f64` differences are not modelled. NaN appears only in the chi-square score of a plane of fewer than two bits, the spike mean over no samples and the edge density of a frame with one dimension zero and the other 1 or 2.
- Serialisation is not modelled: serde/JSON output, `to_json`, `save_to_file` and the saving of images.
- The `chrono` timestamp is a parameter of the constructors.
- The iteration order of `HashMap` is not modelled; maps are Dafny maps.
- Exif.PrimaryField: assumes `get_field` returns the first matching field of the primary image, since the `exif` crate's lookup order is not part of this model.
- CliReport.PathExtension: non-UTF-8 paths and trailing separators are not modelled; paths are strings split at "/". For "foo.txt/." the model gives no extension, while `Path::extension` gives "txt", because `file_name` ignores a trailing "." component.
- Printing, progress messages and logging are not modelled.
- The HTTP handlers, routing, multipart upload, the `main` functions and the mapping of errors to HTTP responses are not modelled. The service's core is `analysis.rs`.
- CliMain.Run: receives the format-specific stage as a given outcome, which may be a panic (`idx % 0` at main.rs:361 for a zero sample rate, or the `.save(..).unwrap()` calls at main.rs:308, 622 and 656 on a failed write). That stage is the parser and analyser calls of each file type, which the other modules model.
- VideoSampling.RateZeroWithoutPanic: a sample rate of 0 is modelled as the panic of `idx % 0` at the first decoded frame.
- MetadataRules.Base64Examples: the source's tests at id3_analyzer.rs:226 and exif_analyzer.rs:164 expect "Hello World" not to be flagged. The code as written flags it: 10 of its 11 bytes are alphabet characters, and 10/11 > 0.9. The model follows the code.
- VideoFrame.EdgeDensitySpec: follows the release build, like the spectrogram. A debug build panics at `height - 1` for every zero-height frame and at `width - 1` for a zero-width frame of 3 or more rows, so there a zero-height frame of width 1 or 2 panics instead of giving NaN. The pixel count `width * height` is taken exactly; as a `u32` product it would wrap for frames of 2^32 pixels or more.
- Spectrogram.Analyze: follows the release build, where `samples.len() - window_size` at spectrogram_analyzer.rs:86 wraps and the `break` at lines 100-102 leaves a short clip with no frames; the debug build's overflow panic on clips of 1 to 2047 samples is only described, by Spectrogram.ShortInputUnderflows.
- Iterators such as `tag.comments()`, `exif.fields()` and the frame iterator's outputs are modelled as sequences. A finite sequence cannot show one behaviour of the frame iterator. When `send_packet` fails, video_parser.rs:172-174 returns the error before `packet_index += 1`, so the same packet is sent again on the next call. A decoder that keeps refusing a packet therefore yields errors forever, and the `while let Some(..)` loops of analysis.rs:213-231 and main.rs:351-415 need not terminate. `VideoParser.VideoFrameIterator.SendNextPacket` keeps the index unchanged on a failed send, but the sampling loops in `VideoSampling`, `ApiAnalysis.SampleVideo` and `CliMain.SampleVideo` only see finite item sequences.
- Case mapping is ASCII only; `to_lowercase` on non-ASCII letters is not modelled.
- The spectrogram test at spectrogram_analyzer.rs:290 compares `!width` with 0, which holds for any width below `u32::MAX`, so it checks nothing. It is not modelled as a property.
- The PDF, DOCX and ODT extractors and plain-text reading reduce to the parser choice of `TextParser.ParserFor`, because they call external crates.
- VideoParser.VideoFrameIterator.DecodeFrame: the scaler and `from_raw` failures are merged into the single decode failure of the decoder script.
- The `Analyzer` and `Parser` traits of `lib.rs` are not modelled: each implementation is a function or method of its module.

## Findings

| source | as written | input that shows it | evidently intended | confidence | as-written member | corrected member |
|---|---|---|---|---|---|---|
| analyzers/src/magic_bytes_analyzer.rs:478-486 | the RIFF branch tests `data.len() > offset + 8` and then slices `data[offset + 8..offset + 12]` | the ten bytes "RIFF" + 00 00 00 00 57 41 at offset 0 with no hit there: the slice end 12 exceeds the length, and `analyze` panics | read the sub-type only when 12 bytes are available; otherwise report a bare RIFF container | not executed | MagicBytes.DetectFormatAtOffsetAsWritten, MagicBytes.DetectFormatRiffTenBytes, MagicBytes.AnalyzeRiffTenBytesPanics | MagicBytes.DetectFormatAtOffset, MagicBytes.DetectFormatPanicExactly, MagicBytes.PrimaryFormat |
| analyzers/src/spectrogram_analyzer.rs:86 | `(samples.len() - window_size) / hop_size + 1` in `usize` | any clip of 1 to 2047 samples: the subtraction underflows, a panic in a debug build; a release build wraps it, and only the `break` at lines 100-102 saves the loop | a clip shorter than one window has no frames, without relying on the `break` | not executed | Spectrogram.FrameCountAsWritten, Spectrogram.ShortInputUnderflows | Spectrogram.FrameCount, Spectrogram.ReleaseFrameBound, Spectrogram.ShortClipClean |
| parsers/src/text_parser.rs:194-201 | the lookahead `take(10)` is compared with `"\\stylesheet"`, which is 11 characters long | `{{\stylesheet x}y}`: the group is not skipped, and "x" reaches the text, so the result is "xy" | the lookahead is long enough for every destination word, so stylesheet groups are skipped | not executed | TextParser.OpensSkipGroupAsWritten, TextParser.StylesheetLookahead, TextParser.StylesheetGroupText | TextParser.OpensSkipGroup, TextParser.CorrectedLookahead, TextParser.StylesheetGroupSkipped, TextParser.SkipGroupSilent |
