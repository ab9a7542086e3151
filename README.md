# PHYLIP reader and writer of goalign, modelled in Dafny

goalign reads and writes multiple sequence alignments in several formats.
This project models its PHYLIP package:

- **The parser** (`io/phylip/parser.go`). It reads the scanner's tokens
  through a one-token push-back buffer. It reads the header
  `nbseq WS lenseq ENDOFLINE`, then a first block with one named line per
  sequence, then any number of continuation blocks. Each continuation line
  appends more symbols to its sequence. Finally it checks every sequence
  against the declared length, and builds the alignment with the alphabet
  detected from the first sequence.
- **The writer** (`io/phylip/writer.go`). It renders an alignment as the
  header line `"  n   L\n"` followed by blocks of 60 columns. Each block has
  one line per sequence, cut into chunks of 10 symbols separated by single
  spaces. Names appear only in the first block. Blocks after the first are
  each preceded by an empty line.

Module layout:

- `Tokens` models the token stream. It is a value; reading past its end
  yields EOF forever.
- `Decimal` models `strconv.ParseInt` on a NUMERIC literal and `%d`.
- `Alignments` holds the rows and the alignment.
- `PhylipGrammar` states what each stage of `Parse` computes, as pure
  functions over the tokens not yet read.
- `PhylipParser` holds a class `Parser`. Its fields are the scanner's
  remaining tokens and the push-back buffer. Its methods follow the Go
  functions line by line, and each is proved to compute its grammar
  function. Names and sequences are `array`s, updated in place as in Go.
- `PhylipSteps` holds the step lemmas the parser's loop invariants use.
- `PhylipLines` describes what the parser accepts line by line: the first
  block's lines carry the names, and sequence j collects line j of every
  later block. It proves that each stage of the grammar reads exactly those
  lines, and what every row of a successful parse holds.
- `PhylipWriter` has `WriteAlignment` as a loop over blocks, rows and
  chunks. It is proved equal to the function `Serialized`, and the layout
  properties are proved about that function.
- `PhylipRoundTrip` pairs the writer's text with the tokens a scanner
  yields for it. It proves that parsing those tokens gives back the written
  rows.

The written specification and the code do not always agree. This model
follows the code:

- **Blank line between blocks.** The specification says a blank line
  before a continuation block is optional. In the code, every block must be
  followed by a blank line, or by EOF once sequence 0 has the declared
  length (`parser.go:129-136`, `156-164`). A continuation block that follows
  with no blank line is always rejected.
- **Length zero.** The specification says the writer is a left inverse of
  the parser for every alignment the parser can produce. The parser
  accepts alignments of length zero (`ZeroLengthParses`). For those, the
  writer emits the header alone, so the names cannot be read back
  (`ZeroLengthLosesNames`). `RoundTrip` is therefore stated for positive
  lengths.

## Model

| member | source | states |
|---|---|---|
| PhylipParser.Parser.constructor | io/phylip/parser.go:22-24 | a fresh parser has nothing pushed back and will read exactly the scanner's tokens |
| PhylipParser.Parser.Scan | io/phylip/parser.go:28-41 | returns the pushed-back token if there is one (clearing the buffer, scanner untouched), else the scanner's next token, which it keeps in the buffer; either way the tokens still to read lose their first one |
| PhylipParser.Parser.Unscan | io/phylip/parser.go:58 | only the buffer flag changes; it is set, not counted, so the next Scan returns the last token read, and pushing back twice leaves the same state as once |
| PhylipParser.Parser.Rescan | io/phylip/parser.go:28-41 | push-back then scan returns the last token read and leaves the scanner where it was |
| PhylipParser.Parser.ScanWithEol | io/phylip/parser.go:43-55 | a first token that is not ENDOFLINE is returned with nothing pushed back; otherwise the whole run of ENDOFLINE tokens is consumed, its last one returned, and the token after the run pushed back |
| PhylipGrammar.EolRun | io/phylip/parser.go:49-51 | the length of the leading ENDOFLINE run: every token before it is ENDOFLINE and the token at it is not |
| PhylipParser.Parser.ParseHeader | io/phylip/parser.go:67-104 | computes ReadHeader on the unread tokens, error for error, and on success leaves exactly the tokens after the header |
| PhylipGrammar.ReadHeader | io/phylip/parser.go:67-104 | success means: optional WS, NUMERIC count, WS, NUMERIC length, ENDOFLINE, in that order, with both literals parsable; every failure is one of the five header errors |
| Decimal.ParseNumeric | io/phylip/parser.go:75-78 | a literal parses exactly when it is a nonempty digit string whose value fits in int64 |
| Decimal.ParseNumericOfNatToString | io/phylip/parser.go:75 | parsing the decimal rendering of any int64-sized count gives the count back |
| PhylipParser.Parser.ParseLineRest | io/phylip/parser.go:115-124 | computes ReadLineRest: on success `seqs[i]` gains the line's fragment and no other entry changes; on a bad token the error carries its literal |
| PhylipGrammar.ReadLineRest | io/phylip/parser.go:115-124 | reads up to and including an ENDOFLINE; any token other than IDENTIFIER or WS is an UnexpectedToken error |
| PhylipGrammar.ReadLineRestSound | io/phylip/parser.go:115-124 | an accepted line is a body of IDENTIFIER and WS tokens, then ENDOFLINE, and its fragment is the body's IDENTIFIER literals in order |
| PhylipGrammar.ReadLineRestOfBody | io/phylip/parser.go:115-124 | conversely, any such body followed by ENDOFLINE is accepted whole, with its identifiers as fragment |
| PhylipParser.Parser.ParseNamedLine | io/phylip/parser.go:108-124 | computes ReadNamedLine: on success `names[i]` and `seqs[i]` are set to the line's name and fragment and every other entry is unchanged |
| PhylipGrammar.ReadNamedLine | io/phylip/parser.go:108-124 | success means the line starts with an IDENTIFIER or NUMERIC token whose literal is the name, and the rest of the line is read by ReadLineRest, whose fragment is the line's; failure is NoSequenceName or UnexpectedToken |
| PhylipGrammar.ReadLineRestError | io/phylip/parser.go:115-124 | a rejected line holds, after IDENTIFIER and WS tokens only, a token of another kind that is not ENDOFLINE, and the error carries that token's literal |
| PhylipParser.Parser.ParseNamedBlock | io/phylip/parser.go:107-125 | computes ReadNamedLines for the declared count: on success the arrays hold exactly the names and first fragments, in line order |
| PhylipLines.NamedLinesExactly | io/phylip/parser.go:107-125 | the first block is accepted exactly when each of the first n lines is a name (IDENTIFIER or NUMERIC) followed by IDENTIFIER and WS tokens; then name j is the first literal of line j and fragment j is the identifiers after it, and reading stops right after line n |
| PhylipGrammar.ReadNamedLinesSpan | io/phylip/parser.go:107-125 | the first block spans exactly n lines (n ENDOFLINE tokens) |
| PhylipParser.Parser.ParseBlockLine | io/phylip/parser.go:141-154 | computes ReadBlockLine: a continuation line must start with an IDENTIFIER, and on success only `seqs[i]` changes, gaining the fragment |
| PhylipGrammar.ReadBlockLine | io/phylip/parser.go:141-154 | an accepted continuation line starts with an IDENTIFIER and is read by ReadLineRest; failure is NoSequenceBlock or UnexpectedToken |
| PhylipParser.Parser.ParseBlock | io/phylip/parser.go:140-155 | computes ReadBlock: on success every sequence is extended by its own line's fragment, in index order |
| PhylipLines.BlockExactly | io/phylip/parser.go:140-155 | a continuation block is accepted exactly when each of the first n lines starts with an IDENTIFIER and holds only IDENTIFIER and WS tokens; then fragment j is the identifiers of line j, and reading stops right after line n |
| PhylipGrammar.ReadBlockSpan | io/phylip/parser.go:140-155 | a continuation block spans exactly n lines |
| PhylipParser.Parser.ParseSeparator | io/phylip/parser.go:127-136 | computes ReadSeparator: skips the blank lines and pushes back the token after them, or accepts EOF, and returns the token the block loop tests |
| PhylipGrammar.ReadSeparator | io/phylip/parser.go:156-164 | fails exactly when no blank line follows and the stream is not at EOF or sequence 0 lacks the declared length; an incomplete sequence 0 gives MissingBlankLine |
| PhylipParser.Parser.ParseBlocks | io/phylip/parser.go:139-166 | computes ReadBlocks: continuation blocks, each followed by its separator, until EOF |
| PhylipLines.BlocksOfLines | io/phylip/parser.go:139-166 | when the continuation blocks are accepted, their non-blank lines are continuation lines in whole blocks of n, and sequence j is what it had followed by the identifiers of its own line in every block, block after block |
| PhylipParser.BuildAlignment | io/phylip/parser.go:168-178 | computes Assemble on the arrays |
| PhylipGrammar.Assemble | io/phylip/parser.go:168-178 | succeeds exactly when every sequence has the declared length; the rows are the names and sequences in index order, the alphabet is detected from sequence 0, and no sequence gives no alignment |
| PhylipParser.Parser.Parse | io/phylip/parser.go:61-179 | returns exactly ParseStream of the tokens it had not read yet, errors included |
| PhylipGrammar.ParseStreamShape | io/phylip/parser.go:61-179 | a successful parse has as many rows as the header declares, each of the declared length, with the alphabet of the first row; a count of zero gives no alignment |
| PhylipLines.ParseStreamRows | io/phylip/parser.go:107-178 | on success, the first n lines after the header are the named lines, the non-blank lines after them are continuation lines in whole blocks of n, and row j pairs the name on line j with the identifiers of line j followed by those of its line in every later block, in index order |
| PhylipGrammar.ParseStreamHeaderError | io/phylip/parser.go:67-104 | a header error is the parse's error |
| PhylipWriter.MinInt | io/phylip/writer.go:14-19 | the result is one of the two arguments and no larger than either |
| PhylipWriter.IntToString | io/phylip/writer.go:25 | `%d`: a non-negative value is rendered as digits whose decimal value is the number, with no leading zero; a negative one as a minus sign followed by such digits for its absolute value |
| PhylipWriter.Segment | io/phylip/writer.go:36-41 | the block at column `start` shows `sq[start..min(start+60, len)]`, nothing past the end, and never more than 60 symbols |
| PhylipWriter.BlockCount | io/phylip/writer.go:26 | the column loop runs ceil(L/60) times for a positive L and never otherwise |
| PhylipWriter.BlockCountIs | io/phylip/writer.go:26 | the loop's exit condition pins the number of blocks to BlockCount |
| PhylipWriter.WriteAlignment | io/phylip/writer.go:21-49 | returns exactly Serialized: the header, then BlockCount blocks |
| PhylipWriter.WriteBlock | io/phylip/writer.go:30-44 | returns exactly the block's lines in row order, names only when `header` is set |
| PhylipWriter.WriteLine | io/phylip/writer.go:36-43 | returns the chunked segment of the sequence and the newline |
| PhylipWriter.SerializedHeader | io/phylip/writer.go:25-26 | the output starts with the header; a length of zero or less gives the header alone |
| PhylipWriter.ChunksOfText | io/phylip/writer.go:36-42 | a line is its chunks joined by single spaces; the chunks put together are the segment; there are ceil(len/10) of them, each of 1 to 10 symbols |
| PhylipWriter.LineChunkCount | io/phylip/writer.go:36 | a line holds at most six chunks |
| PhylipWriter.UnspacedChunkedText | io/phylip/writer.go:36-42 | removing the spaces from a chunked segment without spaces gives the segment back |
| PhylipWriter.UnspacedSegment | io/phylip/writer.go:36-42 | a sequence line with its spaces removed is that block's segment of the sequence |
| PhylipWriter.ShownStep | io/phylip/writer.go:36-45 | each block shows the symbols directly after those of the blocks before it |
| PhylipWriter.ShownAll | io/phylip/writer.go:26-45 | the blocks of a sequence of the reported length show all of it |
| PhylipWriter.RowLineShape | io/phylip/writer.go:31-43 | every line ends in a newline; it starts with the name and two spaces in the first block and has no name in later blocks |
| PhylipWriter.BlockIsLines | io/phylip/writer.go:30-44 | a block is exactly its rows' lines one after another |
| PhylipWriter.BlocksLayout | io/phylip/writer.go:26-47 | the blocks are the named first block followed by the later blocks, each after its empty line |
| PhylipWriter.LinesShowAll | io/phylip/writer.go:26-47 | the unspaced lines of the first n blocks put together are what those blocks show |
| PhylipWriter.RecoverSequence | io/phylip/writer.go:26-47 | a sequence without spaces is given back by putting its unspaced lines of all blocks together |
| PhylipRoundTrip.HeaderTokensLits | io/phylip/writer.go:25 | the header tokens spell the header line |
| PhylipRoundTrip.WriterTokensLits | io/phylip/writer.go:21-49 | the token stream's literals spell exactly the text WriteAlignment returns |
| PhylipRoundTrip.RoundTrip | io/phylip/parser.go:61-179 | parsing what the writer writes, for rows of a positive common length, gives back the same rows in the same order, with the alphabet of the first |
| PhylipRoundTrip.ZeroLengthLosesNames | io/phylip/writer.go:25-26 | with length zero the writer emits the header alone, and reading it back fails at the first missing name |
| PhylipRoundTrip.ZeroLengthParses | io/phylip/parser.go:107-178 | the parser accepts a header of length zero followed by a name-only line |

## Left out

- The scanner (`io/phylip/scanner.go`) is not part of this model. The parser reads a given token sequence, and reading past its end yields EOF again and again, as the scanner does at end of input.
- I/O is left out: the `io.Reader`, and the `bytes.Buffer` the writer fills. The writer returns a string and the parser's sequence buffers are strings.
- `align.DetectAlphabet` is foreign code. `Parse` takes it as the parameter `detect`.
- `AddSequence` is modelled as appending a row. Its own checks, whose error the parser discards, are not modelled.
- Go counts bytes in `len(seq)` and `seqs[0].Len()`; the model counts characters. The two agree for ASCII input.
- NUMERIC literals are digit runs. `strconv.ParseInt`'s handling of a sign is never reached and is not modelled.
- The panics of `Parse` are modelled as error results: MissingBlankLine, TrailingToken and LengthMismatch.
- The out-of-range `seqs[0]` access when the header declares zero sequences is modelled as the error NoFirstSequence.
- Allocating the arrays for a huge declared count is not modelled. Go may run out of memory there.
- PhylipParser.Parser.constructor: Go's buffer starts with the zero token. The model uses an EOF token instead. It can only be seen by a push-back before any read, which `Parse` never does.
- PhylipParser.Parser.ParseLineRest, PhylipParser.Parser.ParseNamedLine, PhylipParser.Parser.ParseNamedBlock, PhylipParser.Parser.ParseBlockLine, PhylipParser.Parser.ParseBlock and PhylipParser.Parser.ParseBlocks: on an error the array contents are left unspecified. Any error aborts `Parse`, so nothing reads them.
- The code inside `Parse` is split into methods, one per stage, each proved against its grammar function. They are ParseHeader, ParseNamedBlock, ParseSeparator, ParseBlocks and BuildAlignment.
- PhylipWriter.WriteAlignment: takes `al.Length()` as a parameter and `al.NbSequences()` as the number of rows. `al.Iterate` is modelled as a loop over the rows in order.
- PhylipRoundTrip.RoundTrip: requires at least one row and a positive length. It is stated on the tokens a scanner yields when every name and every chunk lexes as one IDENTIFIER. Names with spaces or starting with digits are not covered. Neither are chunks that would lex as NUMERIC.
