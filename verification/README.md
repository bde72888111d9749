# Hand: verified parts

Hand supervises coding agents. This project models the self-contained parts of it that carry hard
logic, and proves what they promise for every input, every run or every interleaving.

- QR codes for pairing links: the field and the Reed-Solomon code (`GaloisField`, `ReedSolomon`), codewords
  and blocks (`QrData`, `QrBlocks`), the zigzag path, the patterns and the grid changed in place (`QrPath`,
  `QrPatterns`, `QrSymbol`, `QrPenalty`), the printed pictures, words and tables of ISO/IEC 18004:2015 and that the
  code is theirs (`QrStandard`, `QrConformance`), and the encoder with a reader that undoes it (`QrEncoder`).
- The Markdown renderer: HTML trees and readers of HTML (`Html`, `HtmlReading`), the inline scanner with its memo
  of dead markers (`MarkdownInline`), blocks (`MarkdownBlocks`), and the whole (`MarkdownRender`). What its trees
  mean is stated without it: a reader checks that they spell their lines (`MarkdownMeaning`, `MarkdownReading`),
  and laws say what every form of markup becomes (`MarkdownLaws`).
- Viewers: the JSON pretty-printer (`JsonIndent`), windows and line scans over log files (`TextPages`), and
  the writer that turns terminal colours into HTML (`LineWriter`).
- Protocols: the cache of opened fleets (`FleetHost`), pairing codes (`Phones`), the table of attempts and its
  log (`Attempts`), the wake cursor (`Wake`), the start of a turn (`Turns`), the watcher's status machine
  (`Watch`), and moving a fleet's home across crashes (`Gitfiles`, `FleetMove`).
- Git settings: the record of a project's settings and the exact difference (`GitConfig`).
- `Basics` holds what several parts use.

Objects that the source changes in place are classes whose methods are proved against functions; the
properties are proved about those functions and about runs of them. `dafny verify dfyconfig.toml` checks
everything.

Five properties that one might expect do not hold without a condition; each is stated exactly.

- The zigzag path of the QR code covers all modules outside column 6 of an odd grid only from size 7 on
  (`QrPath.OddGridsCoverAllButTiming`). The symbols start at 21.
- The event log tells the status of an attempt only as long as no note is given the name of a lifecycle
  event; `NoteAttempt` takes any name (`Attempts.NoteAgreesExactlyWhen`). Its callers use none of these names.
- Rewriting the home in a gitfile twice is the same as once, and moves reach one state across crashes, only
  when the homes settle: they are not nested, by a slash or by a backslash, and what a gitfile can hold of the
  new home does not name the old one (`Gitfiles.SettlesExactlyWhen`, `FleetMove.MovesSettleExactlyWhen`). The
  check before a move refuses homes nested by a slash. On POSIX a folder name with a backslash or a newline
  passes it (`Gitfiles.ABackslashPassesTheCheck`, `Gitfiles.ANewlinePassesTheCheck`); names without these, and
  without a carriage return at the end, settle (`Gitfiles.CheckedHomesSettle`).
- A gitfile holds its target on one line, so every gitfile is read back with the new home exactly when the
  destination has no newline and does not end in a carriage return (`Gitfiles.TargetKeptExactlyWhen`). The
  source does not check this.
- A gitfile is emptied before it is written. A crash in between leaves an empty or partial gitfile, and the
  rerun repairs it exactly when it is the whole gitfile, old or new (`Gitfiles.HealsExactlyWhen`,
  `FleetMove.FinishesExactlyWhen`, `FleetMove.AnEmptiedGitfileStays`). The registry, the database and the
  folder change in one step each.

## Model

| member | source | states |
|---|---|---|
| GaloisField.QrMul | internal/board/qr.go:336-343 | The shift-and-reduce loop returns the field product of its two bytes modulo 0x11D. |
| GaloisField.MulCommutes | internal/board/qr.go:336-343 | The product commutes, for all 65536 pairs. |
| GaloisField.MulXor | internal/board/qr.go:336-343 | The product distributes over the exclusive-or, the addition of the field. |
| GaloisField.MulAssociates | internal/board/qr.go:336-343 | The product is associative, for all triples of bytes. |
| GaloisField.MulOne | internal/board/qr.go:336-343 | 1 is the unit of the product. |
| ReedSolomon.QrDivisor | internal/board/qr.go:345-359 | In place, for every degree n: the product of (x + 2^i) for i < n without its leading term. |
| ReedSolomon.EvalMulLinear | internal/board/qr.go:345-359 | Multiplying by (x + r) multiplies the value by (y + r) at every point y, which is what makes the loop a product. |
| ReedSolomon.GeneratorRoot | internal/board/qr.go:345-359 | Each 2^i with i < n is a root of the generator polynomial. |
| ReedSolomon.QrRemainder | internal/board/qr.go:361-372 | The shift register in place computes the remainder of the long division, for every data and divisor. |
| ReedSolomon.DivisionIdentity | internal/board/qr.go:361-372 | At every point, data followed by the remainder equals quotient times divisor. |
| ReedSolomon.SyndromesVanish | internal/board/qr.go:336-372 | Data followed by its check bytes evaluates to zero at 2^0 .. 2^(n-1), for every data and degree (section 7.5.2 of ISO/IEC 18004:2015). |
| QrData.LongestText | internal/board/qr.go:24-70 | A text fits some version exactly when it has at most 213 bytes. |
| QrData.QrVersion | internal/board/qr.go:57-70 | The loop finds the smallest version that fits, and fails exactly above 213 bytes. |
| QrData.NatBitsRoundTrip | internal/board/qr.go:71-76 | The bits that put appends give the number back. |
| QrData.UnpackPack | internal/board/qr.go:88-98 | Packing whole bytes and unpacking them gives the bits back. |
| QrData.PackUnpack | internal/board/qr.go:88-98 | Unpacking bytes and packing the bits gives the bytes back. |
| QrData.QrCodewords | internal/board/qr.go:71-101 | Mode, count, bytes, terminator, fill bits and alternating pad bytes make exactly the data codewords of the version. |
| QrData.CodewordsAsPrinted | internal/board/qr.go:71-101 | The codewords bit by bit: 0100, the count, the bytes, four zeros, zeros to the next byte, then 11101100 and 00010001 in turn (section 7.4). |
| QrData.CodewordsRoundTrip | internal/board/qr.go:71-101 | A reader of mode, count and bytes recovers every text that fits (section 7.4). |
| QrBlocks.ShapeFits | internal/board/qr.go:18-36 | For each version the block tables add up: the block sizes and check bytes fill the raw capacity. |
| QrBlocks.QrColumns | internal/board/qr.go:305-324 | The data is cut into short and long blocks, each followed by its check bytes. |
| QrBlocks.QrInterleave | internal/board/qr.go:305-334 | The loops emit every rank of all blocks and skip the filler bytes of the short ones. |
| QrBlocks.StreamLength | internal/board/qr.go:305-334 | The stream has exactly the raw capacity, for every valid shape. |
| QrBlocks.InterleaveRoundTrip | internal/board/qr.go:305-334 | De-interleaving gives the data back, and every block read from the stream has zero syndromes. |
| QrPath.PathVisitsOnce | internal/board/qr.go:187-207 | For every size the zigzag visits no module twice, and visits exactly the modules of the listed columns. |
| QrPath.OddGridsCoverAllButTiming | internal/board/qr.go:187-207 | For an odd size the path covers exactly the modules outside column 6 if and only if the size is at least 7. |
| QrPath.FreeCount | internal/board/qr.go:187-207 | A lower bound for the free modules of a path when the reserved ones lie in given rectangles. |
| QrPath.ZigzagOrder | internal/board/qr.go:187-207 | Where the k-th module of the path stands, in closed form: strips of two columns from the right, upwards and downwards in turn, right before left (section 7.7.3). |
| QrPatterns.QrFormatWord | internal/board/qr.go:161-168 | The shift register computes the fifteen format bits. |
| QrPatterns.MaskFromFormat | internal/board/qr.go:161-168 | The mask number is read back from the format bits. |
| QrPatterns.MaskTwice | internal/board/qr.go:209-236 | mask is its own inverse on every grid and reserve grid. |
| QrConformance.MaskIsThePicture | internal/board/qr.go:209-236 | For every mask and module, the mask flips it exactly when the picture of the mask in section 7.8.2 of ISO/IEC 18004:2015, a literal 12 by 12 table, is dark there. |
| QrConformance.FormatIsPrinted | internal/board/qr.go:161-168 | The format word of every mask is the word printed in table C.1 of the standard. |
| QrConformance.VersionIsPrinted | internal/board/qr.go:147-158 | The version word of every large version is the word printed in table D.1. |
| QrConformance.TimingIsPrinted | internal/board/qr.go:116-120 | The timing lines alternate, beginning dark. |
| QrConformance.FinderIsPrinted | internal/board/qr.go:121-131 | A finder and its separator are the printed picture, module by module. |
| QrConformance.AlignmentIsPrinted | internal/board/qr.go:132-145 | An alignment pattern is the printed picture, module by module. |
| QrConformance.FormatStands | internal/board/qr.go:161-185 | Each bit of the printed format word stands at both printed places. |
| QrConformance.VersionStands | internal/board/qr.go:147-158 | Each bit of the printed version word stands at both printed places. |
| QrConformance.BlocksArePrinted | internal/board/qr.go:18-36 | The number, sizes and check bytes of the blocks of every version are those of a literal copy of table 9. |
| QrSymbol.QrCode.SetModule | internal/board/qr.go:112-114 | A module is set and reserved; nothing else changes. |
| QrSymbol.QrCode.PaintTiming | internal/board/qr.go:116-120 | The timing lines are drawn and reserved, and nothing else. |
| QrSymbol.QrCode.PaintFinder | internal/board/qr.go:121-131 | A finder with its separator is drawn and reserved, and nothing else. |
| QrSymbol.QrCode.PaintAlignment | internal/board/qr.go:132-145 | An alignment pattern is drawn and reserved, and nothing else. |
| QrSymbol.QrCode.PaintVersion | internal/board/qr.go:147-158 | The version bits are drawn and reserved at both places. |
| QrSymbol.QrCode.Functions | internal/board/qr.go:116-159 | All function patterns of a version, later ones over earlier ones, and exactly their modules reserved. |
| QrSymbol.QrCode.PaintFormat | internal/board/qr.go:161-185 | The format bits stand twice, with the dark module, in one fixed set of modules. |
| QrSymbol.QrCode.Place | internal/board/qr.go:187-207 | In place, the bits go in order to the free modules of the path; reserved modules keep their colour. |
| QrSymbol.QrCode.ApplyMask | internal/board/qr.go:209-236 | In place, exactly the unreserved modules are flipped where the printed picture of the mask is dark. |
| QrSymbol.QrCode.Score | internal/board/qr.go:238-303 | The loops compute the sum of the four penalty terms of the grid. |
| QrSymbol.QrCode.Runs | internal/board/qr.go:389-402 | The runs of the drawing cover exactly the dark modules, in order and without overlap. |
| QrPenalty.RunScore | internal/board/qr.go:249-260 | The run counter computes the cost of the maximal runs of a line. |
| QrPenalty.FinderScore | internal/board/qr.go:261-286 | The window loop counts the finder-like windows of a line. |
| QrPenalty.ImbalanceIsLeast | internal/board/qr.go:289-302 | The balance term is the least k for which the dark share is within 5(k + 1)% of one half. |
| QrPenalty.PenaltyAsPrinted | internal/board/qr.go:238-303 | The penalty of a grid with the weights of section 7.8.3: runs of n >= 5 cost n - 2, squares 3, finder-like windows 40, each step of imbalance 10. |
| QrEncoder.AreasLeaveRoom | internal/board/qr.go:24-34 | The capacity formula is what the areas of the function patterns leave of the grid. |
| QrEncoder.RoomForCodewords | internal/board/qr.go:24-36 | Every version has free modules for all its codewords, each module once. |
| QrEncoder.QrLayout | internal/board/qr.go:57-110 | Fails exactly above 213 bytes; else the smallest version, its function patterns, and the stream along the path. |
| QrEncoder.TrialIsClean | internal/board/qr.go:38-55 | For any stream: a trial gives the same matrix whatever trials came before, and undoing the mask leaves nothing but format bits. |
| QrEncoder.QrEncode | internal/board/qr.go:38-55 | Returns the finished matrix of the lowest-numbered mask of minimal penalty; reading the matrix gives the text. |
| QrEncoder.PlacedReadsBack | internal/board/qr.go:187-207 | For every size, reserve grid and data: reading along the path gives the bits back, as many as there is room for, and every other module is as before. |
| QrEncoder.StreamBits | internal/board/qr.go:187-236 | For any stream of the right length, reading an unmasked trial along the path gives its bits. |
| QrEncoder.EncodingRoundTrip | internal/board/qr.go:38-110 | A reader that finds the mask by the printed format words at their printed places, and undoes it with the printed pictures, takes every trial matrix back to the text. |
| QrEncoder.FunctionModuleSurvives | internal/board/qr.go:38-110 | A function module that no later pattern covers keeps its colour in every trial. |
| QrEncoder.FindersIntact | internal/board/qr.go:121-131 | The three finders and their separators are complete in every finished symbol. |
| Html.NodesRead | internal/markdown/markdown.go:70-115 | A reader of tags, attributes and entities accepts printed good trees wherever they stand. |
| Html.PrintIsWellFormed | internal/markdown/markdown.go:70-115 | The text of a good tree is properly nested, escaped, and has no anchor inside an anchor. |
| HtmlReading.EscapeDecodes | internal/markdown/markdown.go:22-66 | Escaping is undone by a literal table of entities, for every text. |
| HtmlReading.PrintIsRead | internal/markdown/markdown.go:70-115 | The text of a good tree is read back as the tree: the same tags with the same attribute values, and the same characters, in order. |
| MarkdownInline.FindClosing | internal/markdown/markdown.go:467-478 | The closing search returns the marker that ends the emphasis, or says that none does. |
| MarkdownInline.ClosingLater | internal/markdown/markdown.go:467-478 | Emphasis that nothing closes is closed nowhere further on, which justifies remembering its marker. |
| MarkdownInline.CanLinkLater | internal/markdown/markdown.go:480-500 | A link that cannot end here cannot end further on. |
| MarkdownInline.DeadMarker | internal/markdown/markdown.go:366-431 | When the memo skips a marker, the plain scanner finds nothing there but the bare forms. |
| MarkdownInline.Marker | internal/markdown/markdown.go:366-431 | One marker with the memo: same text, same length and same path budget as the plain scanner, and the memo stays right. |
| MarkdownInline.Inline | internal/markdown/markdown.go:351-364 | For every input the scanner with the memo writes what the plain scanner writes and spends the same path budget. |
| MarkdownInline.InlineGood | internal/markdown/markdown.go:351-431 | Inline markup makes good trees, and no anchor inside an anchor. |
| MarkdownMeaning.InlineSpells | internal/markdown/markdown.go:351-431 | Text conservation: for every line a reader that knows only which marks belong to which element walks the tree and finds the line, byte for byte, with nothing left over. |
| MarkdownLaws.PairMeans | internal/markdown/markdown.go:380-398 | For every non-empty x in which the mark first comes at its end, ** x ** is one strong, and ~~ x ~~ one del, around the nodes of x, with the budget of x. |
| MarkdownLaws.OpenPairMeans | internal/markdown/markdown.go:380-398 | A ** or ~~ that is closed at once or never is shown. |
| MarkdownLaws.EmphasisMeans | internal/markdown/markdown.go:399-403 | From a * or _ that can open emphasis to the first one that can close it there is one em around the nodes between them. |
| MarkdownLaws.OpenEmphasisMeans | internal/markdown/markdown.go:399-403 | A * or _ that opens nothing, or that nothing closes, is shown. |
| MarkdownLaws.CodeMeans | internal/markdown/markdown.go:370-379 | A text between backticks is code with exactly that text, in a link when it is a path the hook knows, which costs one of the budget. |
| MarkdownLaws.OpenCodeMeans | internal/markdown/markdown.go:370-379 | A backtick that is closed at once or never is shown. |
| MarkdownLaws.LinkMeans | internal/markdown/markdown.go:410-415 | [x](u) is an anchor around the nodes of x: to u itself when relative in a document, to the normal form when safe, else text. |
| MarkdownLaws.NoLinkMeans | internal/markdown/markdown.go:480-500 | A [ after which no target is closed is shown. |
| MarkdownLaws.PictureMeans | internal/markdown/markdown.go:404-409 | In a document ![alt](u) is an image with that source and text when u is relative, else text. |
| MarkdownLaws.NoPictureMeans | internal/markdown/markdown.go:404-409 | A ! before a [ after which no target is closed is shown. |
| MarkdownLaws.AddressMeans | internal/markdown/markdown.go:416-419 | A safe http or https address that no word or slash precedes is an anchor to its normal form with its own text. |
| MarkdownLaws.TokenMeans | internal/markdown/markdown.go:531-541 | An address goes to the first stop, without the punctuation that closes the sentence. |
| MarkdownLaws.ParenthesisEnds | internal/markdown/markdown.go:531-541 | A closing parenthesis that the address does not open is not part of it. |
| MarkdownLaws.PathMeans | internal/markdown/markdown.go:420-424 | A path where one can start is a link by the hook, and asking costs one of the budget. |
| MarkdownLaws.PathsAreRooted | internal/markdown/markdown.go:443-453 | Which texts are paths with a root: after /, ~/ or a drive comes a name. |
| MarkdownLaws.RelativePathsMean | internal/markdown/markdown.go:455-461 | Which texts are relative paths: a slash, no root, scheme, white space, drive or step upwards. |
| MarkdownLaws.ReferenceMeans | internal/markdown/markdown.go:425-429 | A letter of t, d, a, r and a number without leading zero, with no word around it, is a reference. |
| MarkdownLaws.TextMeans | internal/markdown/markdown.go:351-364 | Every byte at which none of these forms starts is shown as it is. |
| MarkdownBlocks.CutCells | internal/markdown/markdown.go:137-156 | The loop cuts a table row into its cells, with escaped bars kept. |
| MarkdownBlocks.WriteTable | internal/markdown/markdown.go:158-198 | The table loops write the rows, cut or padded to the width of the head, and say where the table ends. |
| MarkdownBlocks.WriteItems | internal/markdown/markdown.go:254-282 | The list loop writes nested items and spends the path budget in their order. |
| MarkdownBlocks.WriteFlat | internal/markdown/markdown.go:284-294 | A list that is too deep is written without nesting. |
| MarkdownBlocks.Dedent | internal/markdown/markdown.go:296-312 | Every line loses the least indentation of the lines that are not blank. |
| MarkdownBlocks.WriteParagraph | internal/markdown/markdown.go:107-112 | A paragraph goes to the first line that starts something else. |
| MarkdownBlocks.WriteBlocks | internal/markdown/markdown.go:70-115 | Terminates on every input, by the quotes flag and the lines left, and writes the text of the block tree. |
| MarkdownReading.KindsAgree | internal/markdown/markdown.go:117-135 | The kind of a line by literal first characters - fence, rule, one to six #, quote, table, bullet, number - is the one the renderer takes. |
| MarkdownReading.LinesRead | internal/markdown/markdown.go:107-112 | The lines of a paragraph stand in order with one break between two, each with the nodes of its line. |
| MarkdownReading.TableReads | internal/markdown/markdown.go:158-198 | Head and rows hold the cells of their lines, column by column, in the class of the column: :-: c, -: r, :- l, and r for numbers. |
| MarkdownReading.ItemsRead | internal/markdown/markdown.go:254-282 | Every item has its line, with the box of a task as style and caption, and then the blocks of the lines that belong to it. |
| MarkdownReading.BlocksRead | internal/markdown/markdown.go:70-115 | For every page: a reader that goes through the lines once finds in the tree, for each line in order, the element it asks for with its text spelled in it, the path budget spent in that order, and nothing more. |
| MarkdownReading.DedentMeans | internal/markdown/markdown.go:296-312 | The same white space is taken off every line that is not blank, and so much that one of them is flush. |
| MarkdownReading.CellsMean | internal/markdown/markdown.go:137-156 | A row is cut at exactly the bars that no backslash precedes, and the cells are the trimmed parts. |
| MarkdownReading.RowTextMeans | internal/markdown/markdown.go:137-145 | The row is its line without one bar at the start and one unescaped bar at the end. |
| MarkdownReading.BackslashesGo | internal/markdown/markdown.go:153-155 | The backslashes before bars are taken off, and no others. |
| MarkdownRender.LinesAreTheText | internal/markdown/markdown.go:34-36 | The lines joined by line breaks are the text, and none holds a line break. |
| MarkdownRender.BreaksAreNormalized | internal/markdown/markdown.go:34-36 | Both of the other line breaks become one newline. |
| MarkdownRender.OthersAreKept | internal/markdown/markdown.go:34-36 | A text without carriage returns is not changed. |
| MarkdownRender.BlocksGood | internal/markdown/markdown.go:70-115 | Every block tree is good, whatever the input and the hooks. |
| MarkdownRender.Render | internal/markdown/markdown.go:34-41 | For every input the HTML is properly nested and escaped, with no anchor inside an anchor; it is read back as the tree, and the tree as the lines. |
| MarkdownRender.RenderLine | internal/markdown/markdown.go:43-50 | The same for one line without blocks, which its tree spells. |
| JsonIndent.Indent | internal/board/preview.go:114-161 | The loop returns the printed text, or nothing when it is over the limit or empty. |
| JsonIndent.Step | internal/board/preview.go:124-156 | Each round keeps printed text plus text still to print unchanged. |
| JsonIndent.StripPretty | internal/board/preview.go:114-161 | Printing adds and removes nothing but white space outside strings. |
| JsonIndent.SpacesAreSpace | internal/board/preview.go:114-123 | Every level indents by exactly two spaces. |
| JsonIndent.IndentKeepsMeaning | internal/board/preview.go:114-161 | Input and output agree without white space outside strings, and indenting twice is indenting once, for every input. |
| JsonIndent.JsonIsPrinted | internal/board/preview.go:114-161 | On a JSON text (sections 2 and 7 of RFC 8259) the pass equals the recursive printer, and its depth never is negative and ends at 0. |
| TextPages.ReadLine | internal/board/text.go:303-325 | For every buffer size: the text is the line without newline and trailing carriage returns, cut to the limit, and cut counts the bytes dropped. |
| TextPages.HitLines | internal/board/text.go:375-390 | The numbers of the first matching lines, in order. |
| TextPages.HitsMatch | internal/board/text.go:375-390 | Every hit is the number of a line that matches. |
| TextPages.HitsComplete | internal/board/text.go:375-390 | Every matching line is a hit unless the hits are full. |
| TextPages.CountLines | internal/board/text.go:392-407 | For every buffer size: the number of newlines before an offset. |
| TextPages.LineStart | internal/board/text.go:409-429 | For every buffer size: succeeds exactly for the lines of the file, and gives the offset where the line begins. |
| TextPages.LineAfterTwice | internal/board/text.go:431-441 | lineAfter is idempotent. |
| TextPages.LineAfterIsFirst | internal/board/text.go:431-441 | It gives the first line start within the limit, and stays where it is when there is none. |
| TextPages.LaterTilesTheFile | internal/board/text.go:479-509 | Following Later from 0 ends and tiles the file without gap or overlap, and each page knows how many newlines come before it. |
| TextPages.EarlierShowsAll | internal/board/text.go:479-504 | Following Earlier from any page ends at the start of the file, and every byte before that page is on one of those pages. |
| TextPages.TextPage | internal/board/text.go:469-508 | The window of a request for a line, an offset or neither: the page of that place, or of the end when the line does not exist, with its line number. |
| TextPages.CompleteLines | internal/board/text.go:550-565 | For every buffer size: the end of the last complete line and the number of complete lines. |
| TextPages.Follow | internal/board/text.go:567-591 | A place outside the file or not at a line start is reset; else the complete lines of one window are sent and the next place is again a line start with its number. |
| TextPages.FollowKeepsPlace | internal/board/text.go:567-591 | However the file grows between requests, the follower stays at a line start with the right line number. |
| LineWriter.EscapeEnd | internal/board/text.go:264-293 | Every escape sequence consumes input and ends inside the line. |
| LineWriter.JumpsAreScans | internal/board/text.go:254-262 | Jumping from escape to escape, as for hidden text, meets the same SGR sequences as showing the text does. |
| LineWriter.PlainRun | internal/board/text.go:221-232 | Writing a run of plain bytes at once shows the same as writing them one by one. |
| LineWriter.LineWriter.SetSgr | internal/board/text.go:151-180 | Colour and bold follow all parameters in order; what each parameter does is said by the next seven rows. |
| LineWriter.ColoursMean | internal/board/text.go:33-33 | By a literal table of codes and letters: 30 to 37 and 90 to 97 set the letter of their class and nothing else. |
| LineWriter.FlagsMean | internal/board/text.go:151-180 | 1 and 22 change boldness only, 39 clears the colour only, 0 and the empty parameter clear both. |
| LineWriter.OtherNumbersMeanNothing | internal/board/text.go:151-180 | Every other number changes nothing. |
| LineWriter.OtherTextsMeanNothing | internal/board/text.go:157-158 | A parameter with a character that is neither digit nor sign changes nothing. |
| LineWriter.SgrFollows | internal/board/text.go:151-180 | a;b is b after a, unless a starts a palette or RGB colour. |
| LineWriter.PaletteIsSkipped | internal/board/text.go:168-175 | 38;5;n, 48;5;n and 58;5;n are skipped whole, also before further parameters. |
| LineWriter.ComponentsAreSkipped | internal/board/text.go:168-175 | So are 38;2;r;g;b and the like. |
| LineWriter.LineWriter.Escape | internal/board/text.go:264-293 | One sequence: where it ends and what style follows, and nothing shown. |
| LineWriter.ControlSequenceMeans | internal/board/text.go:268-276 | A control sequence is hidden up to its first byte from @ to ~; with m its parameters set the style, with any other nothing changes. |
| LineWriter.OpenControlSequenceMeans | internal/board/text.go:268-276 | One without such a byte hides the rest of the line. |
| LineWriter.CommandMeans | internal/board/text.go:277-286 | A command for the terminal is hidden up to BEL or ESC and backslash, else to the end of the line, and changes nothing. |
| LineWriter.CharacterSetMeans | internal/board/text.go:287-288 | The choice of a character set hides three bytes. |
| LineWriter.OtherEscapesMean | internal/board/text.go:290-292 | Every other sequence hides ESC and one character. |
| LineWriter.GlyphsMean | internal/board/text.go:205-252 | What each character is shown as: itself, the symbol of a control or of one of twelve bidirectional controls, or the mark of a byte that is no UTF-8. |
| LineWriter.ReturnMeans | internal/board/text.go:205-209 | Of a line with carriage returns only what follows the last one is shown, in the style that the rest sets. |
| LineWriter.DiffClassesMean | internal/board/text.go:61-76 | By a literal table in order: diff, index, +++ and --- lines are files, @@ hunks, + added and - deleted lines. |
| LineWriter.LineWriter.Ctl | internal/board/text.go:186-203 | A control character shows its symbol; at most 20000 marks are opened. |
| LineWriter.LineWriter.Paint | internal/board/text.go:137-149 | Afterwards the innermost open span has the current style. |
| LineWriter.LineWriter.Track | internal/board/text.go:254-262 | Hidden text shows nothing and sets the style that showing it would set. |
| LineWriter.LineWriter.Text | internal/board/text.go:205-248 | Every character shown has, for a browser that nests the spans, the style of all SGR sequences before it, also those before the last carriage return. |
| LineWriter.LineWriter.Line | internal/board/text.go:83-117 | Everything of the line, its end too, is shown inside the class of its diff line, and inside the mark of a line without end; everything opened for it is closed; a chunk of 500 lines is closed; the line has one number. |
| LineWriter.LineWriter.Close | internal/board/text.go:119-128 | The chunk and its gutter are closed, and the gutters hold every number once, in order. |
| LineWriter.LineWriter.Stream | internal/board/text.go:327-351 | For every stream: all tags match and nothing stays open, the characters have their styles, and the last complete line and the next number are right. |
| FleetHost.Host.Cached | internal/board/host.go:382-391 | A hit takes a count; anything else retires what is cached for the fleet. |
| FleetHost.Host.Retire | internal/board/host.go:393-398 | The entry leaves the map and its closer gets a retiring goroutine. |
| FleetHost.Host.Settle | internal/board/host.go:364-377 | The fleet just opened is cached with a count of one, unless another request cached one for the same home first. |
| FleetHost.Host.Done | internal/board/host.go:151-182 | A request gives its count back. |
| FleetHost.StepKeeps | internal/board/host.go:347-414 | Every step of every request and goroutine keeps the invariant, whatever the resolver and the opener answer. |
| FleetHost.RunsAreSafe | internal/board/host.go:347-414 | Over all interleavings each opened closer is in exactly one of: a request, the map, retiring, closed; nothing closes twice; a fleet in use is not closed; counts are the users. |
| FleetHost.ClosesWhenIdle | internal/board/host.go:399-413 | Only a closer that never closed, with count 0 and no user, is closed. |
| FleetHost.NoCountRisesAfterRetirement | internal/board/host.go:382-398 | Once a fleet retires its count never rises again. |
| FleetHost.NothingLeaks | internal/board/host.go:347-414 | When requests and goroutines have ended, what was opened is cached or closed, and not both. |
| FleetHost.SteadyIsServed | internal/board/host.go:347-380 | Over all interleavings a request whose home does not move between its looks, and whose fleet can be opened, is served after at most six steps of its own. |
| FleetHost.SteadyStep | internal/board/host.go:347-380 | Each of those steps brings it nearer, no step of another request takes it back, and it always has one to make. |
| FleetHost.DoneNeverPanics | internal/board/host.go:151-182 | A request that is served can always give its count back. |
| Phones.NormFixesNewCode | internal/board/phone.go:282-300 | normCode leaves every code of newCode as it is. |
| Phones.Store.Prune | internal/board/phone.go:316-327 | Exactly the codes past their keep time and the tries past their window go. |
| Phones.Store.Mint | internal/board/phone.go:302-314 | Live codes are cancelled and the new one is live for five minutes with its fleets. |
| Phones.Store.Burn | internal/board/phone.go:329-333 | All codes, tries and fails go. |
| Phones.Store.Redeem | internal/board/phone.go:335-378 | The result, the fleets and the whole new state, for every guess. |
| Phones.AnswersTell | internal/board/phone.go:335-378 | Which of the six answers every guess gets: wrong when no code is kept, blocked after five tries within a minute, ok for a live code, burned at the tenth counted guess, else wrong, used or expired as the code is unknown, paired before or past its time. |
| Phones.PairsExactlyWhen | internal/board/phone.go:335-360 | A guess pairs exactly when it is a live code and its address is not blocked, with exactly the minted fleets, and that code never paired before. |
| Phones.StepKeeps | internal/board/phone.go:302-378 | At most one code is live, used codes are those that paired, fewer than ten fails are counted, and no address holds more than five tries. |
| Phones.PairsOnce | internal/board/phone.go:335-360 | Over every run a code pairs at most once. |
| Phones.FewGuessesWhileLive | internal/board/phone.go:361-370 | While a code stays live at most nine wrong guesses are counted. |
| Phones.Grant.Take | internal/board/phone.go:66-80 | A fleet is granted exactly when it is named and was not granted before. |
| Phones.Pair | internal/board/phone.go:681-696 | The fleets paired are named and distinct, in order; all are paired when each stands behind its name and stores the phone. |
| Attempts.NameIsUnique | internal/state/attempt.go:205-209 | tN-aM names one task and one attempt. |
| Attempts.PathsAreUnique | internal/state/attempt.go:205-209 | A worktree names its attempt whatever the root, and a first branch its attempt. |
| Attempts.Store.Add | internal/state/attempt.go:143-238 | Inserts the attempt with its events, or refuses with the right error and changes nothing. |
| Attempts.Store.Running | internal/state/attempt.go:240-259 | launching becomes running; anything else is refused. |
| Attempts.Store.Switched | internal/state/attempt.go:261-291 | A running attempt changes terminal and model, with its events. |
| Attempts.Store.End | internal/state/attempt.go:297-320 | An attempt ends only as its status allows. |
| Attempts.Store.Clean | internal/state/attempt.go:350-376 | An ended attempt is cleaned once. |
| Attempts.Store.Keep | internal/state/attempt.go:330-344 | A kept reason is recorded once and not after cleaning. |
| Attempts.Store.Note | internal/state/attempt.go:378-389 | A note is refused for some kinds when the attempt ended. |
| Attempts.StepKeeps | internal/state/attempt.go:143-389 | Every transaction keeps: at most one live attempt a task, live only in active tasks, chains that go down in id, in one task and on one branch, ended and cleaned before they are continued. |
| Attempts.AttemptsGrow | internal/state/attempt.go:240-376 | Over every run an attempt keeps task, branch, worktree and chain; an ended one keeps its status, a cleaned one stays cleaned. |
| Attempts.CleanedOnce | internal/state/attempt.go:350-376 | No attempt is cleaned twice. |
| Attempts.LogAgrees | internal/state/attempt.go:143-389 | Every transaction keeps the replay of the log equal to the rows, a note as long as its kind is no lifecycle event. |
| Attempts.RunLogAgrees | internal/state/attempt.go:143-389 | Over every run without such notes, replaying the log gives each status and cleaned flag. |
| Attempts.NoteAgreesExactlyWhen | internal/state/attempt.go:378-389 | A note keeps the log in step if and only if its kind is no lifecycle event, or says what the row says already. |
| Attempts.ANoteCanContradictTheRow | internal/state/attempt.go:378-389 | The note "exited" on a running attempt makes the log disagree with the row. |
| Attempts.ChainIsOneLine | internal/state/attempt.go:173-188 | A chain of continued attempts ends in a first attempt with the same task, whose branch all of them have. |
| Attempts.NothingShared | internal/state/attempt.go:189-209 | No two attempts share a worktree and no two live ones a branch. |
| Wake.WakeDigest | internal/cli/supervisor.go:1318-1348 | The digest is the longest non-empty prefix of the batch that fits in 16384 bytes, a first line too long cut to fit, with the number of its last event. |
| Wake.ShownMeans | internal/cli/supervisor.go:1318-1331 | Of a blocked attempt the digest names the reference and whether its screen asks a question or waits for a key, and nothing that the screen shows. |
| Wake.LineMeans | internal/cli/supervisor.go:1318-1348 | A line has the kind of its event, the text, and the number and title of the task when there is one. |
| Wake.Supervisor.Deliver | internal/cli/supervisor.go:1205-1264 | Inputs go out in order; the digest only when none waited and the supervisor is idle and not limited; the cursor moves exactly then. |
| Wake.MatchingIsComplete | internal/state/event.go:230-269 | The query returns exactly the wanted events after the cursor, in sequence order. |
| Wake.PrefixIsComplete | internal/cli/wait.go:21-27 | A prefix of a batch misses no wanted event up to its last one. |
| Wake.EachWakeEventOnce | internal/cli/supervisor.go:1245-1264 | Over every run each wake event up to the cursor is in exactly one digest, or was stale when its batch was read and is in none. |
| Wake.DigestsFollow | internal/cli/supervisor.go:1245-1264 | Later digests hold later events. |
| Wake.CursorRises | internal/cli/supervisor.go:1249-1264 | The cursor never goes back, and every delivery moves it on. |
| Wake.NothingIsStarved | internal/cli/wait.go:21-31 | While an event that wakes is after the cursor and not stale, there is a batch. |
| Wake.StaleStays | internal/state/event.go:230-233 | An event that is stale stays stale over every run of the store. |
| Turns.TurnStart | internal/state/event.go:185-218 | Scanning back: the turn began with the first message, key or denial since the last end of a turn, else with the launch if that is what it was; and whether it was noted as long. |
| Gitfiles.ReplaceTwiceExactlyWhen | internal/cli/fleet_move.go:546-559 | Replacing the home twice is replacing it once, for every target, if and only if neither home lies below the other by a slash or a backslash. |
| Gitfiles.WithinRefusesNested | internal/cli/fleet_move.go:622-628 | The check for nested homes rules that out for homes without backslashes. |
| Gitfiles.ABackslashPassesTheCheck | internal/cli/fleet_move.go:546-628 | A destination whose name continues the home with a backslash passes the check, and there a second replacement goes wrong. |
| Gitfiles.TargetReads | internal/cli/fleet_move.go:528-544 | A gitfile put together from a target and the rest of its line is read back as that target. |
| Gitfiles.TargetKeptExactlyWhen | internal/cli/fleet_move.go:467-544 | Every gitfile is read back with its new target if and only if the new home has no newline and no carriage return at its end. |
| Gitfiles.SettlesExactlyWhen | internal/cli/fleet_move.go:489-544 | Rewriting a gitfile twice is rewriting it once, for every gitfile, if and only if the homes are not nested and what a gitfile with nothing but the new home is read as does not name the old one. |
| Gitfiles.CheckedHomesSettle | internal/cli/fleet_move.go:622-628 | The check leaves homes that settle when they hold no backslash and a gitfile can hold the new one. |
| Gitfiles.ANewlinePassesTheCheck | internal/cli/fleet_move.go:528-628 | A destination that continues the home with a newline passes the check and does not settle. |
| Gitfiles.HealsExactlyWhen | internal/cli/fleet_move.go:489-510 | Whatever a torn write leaves in a gitfile, a rewrite repairs it if and only if it is the gitfile as it was or as it should be. |
| Gitfiles.RewriteWorktrees | internal/cli/fleet_move.go:467-526 | The pass rewrites every gitfile or, dry, none, and reports exactly: a worktree is broken if and only if it has no target or the one that counts does not exist; rewritten is the number that name the old home, correct the number of the others whose target exists. |
| Gitfiles.NoneIsStale | internal/cli/fleet_move.go:577-605 | After the pass no worktree is stale, when the homes settle. |
| FleetMove.PendingMove | internal/state/move.go:213-260 | Scanning back, a move is pending exactly when the last mark of a move is a start; a start that leaves out a home is an error. |
| FleetMove.CompleteReachesGoal | internal/cli/fleet_move.go:158-184 | A run to its end reaches the goal, from the old place and from the new one, for every two homes. |
| FleetMove.CrashKeeps | internal/cli/fleet_move.go:187-272 | A crash after any step, and inside the write of a gitfile after any byte, leaves a world that a rerun can finish and touches only gitfiles that name the old home; outside a write every gitfile stays as it was or becomes as it should be. |
| FleetMove.FinishesExactlyWhen | internal/cli/fleet_move.go:158-272 | However often and wherever a move is interrupted, also inside writes: a run to its end reaches the one state if and only if the crashes left every gitfile as it was or as it should be, and all but the gitfiles is right in any case. |
| FleetMove.AnyCrashFinishes | internal/cli/fleet_move.go:158-272 | However often a move is interrupted, and wherever but inside the write of a gitfile: a rerun reaches one state, with folder, registry and record moved, every gitfile rewritten once, and the move confirmed. |
| FleetMove.MovesSettleExactlyWhen | internal/cli/fleet_move.go:158-272 | Between two homes every move reaches its one state, whatever is interrupted outside a write, if and only if the homes settle. |
| FleetMove.AnEmptiedGitfileStays | internal/cli/fleet_move.go:498-506 | The failing crash: for every move and every gitfile to rewrite, a crash right after it was emptied leaves it empty, and no rerun repairs it, however often it is interrupted. |
| FleetMove.Disk.Finish | internal/cli/fleet_move.go:211-272 | The steps in their order reach the goal, leave no stale worktree and report every worktree as the pass does; refused in the old place, and without a pending move, nothing changes. |
| GitConfig.StarIsAnyText | internal/gitcfg/gitcfg.go:99-108 | A pattern with a star matches exactly the names with any text in its place. |
| GitConfig.EncodingIsDecodable | internal/gitcfg/gitcfg.go:115-121 | The length-prefixed values can be read back, whatever bytes they hold. |
| GitConfig.EncodingIsInjective | internal/gitcfg/gitcfg.go:115-121 | Two lists of values with one encoding are equal. |
| GitConfig.ReadSettings | internal/gitcfg/gitcfg.go:145-181 | Distinct one-line names in order, each with the values git lists for it, or the lines of the attributes file. |
| GitConfig.Digest | internal/gitcfg/gitcfg.go:183-190 | One line per setting after the header. |
| GitConfig.RecordTells | internal/gitcfg/gitcfg.go:183-200 | Reading a record back gives the hash of every recorded setting and of no other. |
| GitConfig.Changed | internal/gitcfg/gitcfg.go:192-212 | The names of the difference, each once, in byte order. |
| GitConfig.ChangedExactlyWhen | internal/gitcfg/gitcfg.go:192-212 | Against the record of t a name is reported if and only if its values differ in s and t; when linked, recorded worktree settings are ignored and current ones always reported. |
| Watch.Watcher.Observe | internal/cli/watch.go:656-775 | What one status changes for its attempt, what is noted, and that nothing else changes. |
| Watch.NotedExactlyWhen | internal/cli/watch.go:656-775 | The exact condition for each note of a status: working, limited and quiet. |
| Watch.Watcher.HeldOne | internal/cli/watch_opencode.go:65-106 | What a list changes for a held attempt; a list older than the hold changes nothing. |
| Watch.Watcher.Held | internal/cli/watch_opencode.go:47-108 | For attempts with distinct ids a list that is handled brings every attempt to the state that its answers give, with a note exactly when there is one, up to the attempt that failed; the first unreadable list in a row makes none. |
| Watch.RestingSessionIsReleased | internal/cli/watch_opencode.go:65-106 | A held session that a handled list shows at rest, with no limit and a turn that is not fresh, is noted as quiet once and held no more. |
| Watch.Watcher.ConfirmBlocked | internal/cli/watch.go:777-805 | Pending blocks are looked at again, each attempt changed and noted as its answers say, and those of attempts that are gone dropped. |
| Watch.Watcher.CatchUpOne | internal/cli/watch.go:553-597 | What the first look after a connection changes for one attempt, from what it is taken to have been. |
| Watch.Watcher.CatchUp | internal/cli/watch.go:548-599 | After a connection every live attempt gets the state of its first look, with a note exactly when there is one, up to the attempt that failed. |
| Watch.Watcher.Unblock | internal/cli/watch.go:601-624 | Every running opencode agent that was not seen blocked, whose last event is a block and that works, gets the state and the note of the status working; nothing else changes. |
| Watch.Watcher.Reconnect | internal/cli/watch.go:212-216 | A new connection forgets what was seen, held and pending, and carries which attempts were held. |
| Watch.Watcher.ListSessions | internal/cli/watch_opencode.go:26-45 | The one-slot hand-over holds the newest list. |
| Watch.SessionIsHeld | internal/cli/watch.go:713-727 | Outside a list an opencode session is never recorded quiet or limited; a turn that ended is held. |
| Watch.Drive | internal/cli/watch.go:178-275 | Over every sequence of statuses, ticks, lists and reconnects: an opencode session is recorded quiet or limited only by a list read no earlier than its hold that shows it not busy, or by the second unreadable list in a row; a block only after two blocked observations with no other between. |

## Left out

- MarkdownRender.Render: the title rewrite of the finished text is left out.
- MarkdownRender.RenderLine: the title rewrite of references is left out.
- Attempts.Store.Add: the timers that a new attempt cancels, and the hook that makes the launch command from the worktree; the command is a parameter.
- Attempts.Store.Switched: the words of a changed model are separated by ASCII white space.
- Attempts.Store.End: the cleaned tail of the screen is a parameter.
- Phones.Grant.Take: a missing redemption, which grants nothing, is not an object of the model.
- Wake.Supervisor.Deliver: the checks before the inputs (session, trust screen, switch, hold) are left out; each of them either ends a delivery before the first input or lets it go on.
- JsonIndent.JsonIsPrinted: numbers and literal names are any texts without white space and punctuation; the pass does not look inside them.
- HTTP handlers, templates, cookies, SQL text, the luvus protocol, processes, locks and the clock. Replies and times are parameters; each transaction is one step.
- Bytes of texts are characters, except in the QR code, where they are octets. UTF-8 decoding, upper and lower case, trimming, URL parsing, one-line and title texts are functions of the caller with the few properties that are used.
- QR code: the text of the SVG around its runs, and the error-correcting property of the format and version bits. The block and capacity tables are constants.
- Markdown: the title rewrite, and the wording of classes. The trees say what is written.
- LineWriter: the numbers inside attributes, and cancelling a request. Decoders are arbitrary functions that consume input and keep ASCII apart.
- TextPages: cancelled requests and read errors; every read of a fixed file is as long as asked for. The case-insensitive search is an arbitrary predicate on the shown text.
- FleetHost: Host.Close, which empties the cache at the end of the process, and the grace period, after which a request's context is cancelled while its count still holds.
- Phones: the device table, cookies and the peers' connections. Random codes are fresh, and the clock does not go back.
- Attempts: timers, and unread reports that hold up the end of a task.
- Wake: LIKE in the query ignores the case of ASCII letters; kinds and details are written in one case. A delivery whose cursor update fails sends its digest again; runs are of deliveries that succeed.
- Watch: alerts, timers, approvals, long turns, snapshots and model labels. The patterns for screens are arbitrary.
- FleetMove.Disk.Finish: the checks of the destination and of running agents are one answer, `refused`; of them only the one for nested homes is modelled. A step that fails with an error is a run that ends there, as after a crash.
- FleetMove: the folder names are POSIX paths in canonical form. The rewrite of the recorded paths inside the database is one step that always succeeds here; a refusal changes nothing.
- GitConfig: running git, and the check that calls the difference. The hash is injective and has no space or newline in it.
