# EDIGEO file reader

A Dafny model of the reader at the heart of the French cadastre plugin's
EDIGEO import (`EdigeoFile`). EDIGEO is the French cadastral vector exchange
format of standard AFNOR NF Z 52-000. An EDIGEO file is a text file with one
record per line. Each record has a name, a declared length and values.

The reader goes through four phases:

- The first non-empty record must be `BOM`.
- The next one must be `CSE`. Its first value gives the charset.
- Then comes the body, up to `EOM`. In the body, `RTY` opens a new current
  block through the `createBlock` factory. Every other record goes to the
  current block.
- After `EOM`, no other non-empty record may appear.

A base block has a fixed type code. An `RID` record sets its identifier. The
base block rejects every other record. The `safeGet*` accessors read the first
value of a record as a string, an `int` or a `yyyyMMdd` date. They give a
default value when the declared length is not positive.

The project has four modules:

- `EdigeoValues` (`values.dfy`) models the two library parsers that the
  accessors call: `Integer.parseInt` and `LocalDate.parse` with the pattern
  `yyyyMMdd`. Each has a round-trip lemma against the matching formatter.
- `EdigeoRecords` (`records.dfy`) holds the record, the errors and the five
  accessors.
- `EdigeoReader` (`reader.dfy`) describes the reader as pure functions.
  `Step` processes one line and `Run` processes a whole input. The lemmas
  state what the reader promises about whole files.
- `EdigeoFiles` (`files.dfy`) holds the classes `Block` and `EdigeoFile`.
  Their methods update fields in place, as the source does. Each method is
  proved to do exactly what the matching `EdigeoReader` function says. On an
  error, the method reports that function's error and changes nothing.

The reader calls three pieces of code that are not part of this model. They
are parameters, bundled in `EdigeoReader.Hooks`:

- the record lexer (the `EdigeoRecord` constructor);
- the charset resolver (`EdigeoCharset.of`);
- the `createBlock` factory of each concrete file kind.

The model keeps three outcomes of the factory for a type code
(`EdigeoReader.Creation`):

- `Created(own)`: a new block. `own` is the set of record names that the
  concrete block kind consumes itself before it hands over to the base block.
  For the base block, this set is empty.
- `CreatedNull`: the factory returns null. `currentBlock` becomes null.
- `CreateFailed`: the factory throws. The read stops with
  `BlockCreationFailed` on the `RTY` record, and `currentBlock` keeps its
  old value.

Java exceptions become values of the `Error` datatype. Where the code takes
`values.get(0)` from an empty list, the model returns `MissingValue`.

### Behaviour as coded

The usual reading of the format is stricter than this code. The model
follows the code:

- A second `CSE` record is not a charset error. Once a charset is set, `CSE`
  is an ordinary body record. It goes to the current block, or fails as an
  orphan when there is no block.
- Nothing is checked at the end of the input. A file with no `CSE`, with no
  `EOM`, or with no lines at all reads without error.
- A second `RID` overwrites the identifier.
- The shape of `BOM` and `EOM` (declared length, value count) is checked only
  by Java `assert` statements. Those are off by default, so the model does
  not check it.
- `EOM` does not touch the current block.
- When `createBlock` returns null, the next body record other than `RTY` and
  `EOM` fails as an orphan.

## Model

| member | source | states |
|---|---|---|
| `EdigeoValues.ParseInt` | cadastre-fr/src/org/openstreetmap/josm/plugins/fr/cadastre/edigeo/EdigeoFile.java:119 | `Integer.parseInt` gives a value only within the range of a Java `int`, and gives a negative value only for text that starts with '-' |
| `EdigeoValues.ParseIntRoundTrip` | cadastre-fr/src/org/openstreetmap/josm/plugins/fr/cadastre/edigeo/EdigeoFile.java:119 | every `int` written in decimal parses back to itself |
| `EdigeoValues.ParseIntAcceptsOnlyNumerals` | cadastre-fr/src/org/openstreetmap/josm/plugins/fr/cadastre/edigeo/EdigeoFile.java:119 | any text `Integer.parseInt` accepts is an optional '+' or '-', then zeros, then the decimal digits of the value, with '-' for every negative value and no sign or '+' for a positive one; anything else is rejected |
| `EdigeoValues.ParseIntAcceptsNumerals` | cadastre-fr/src/org/openstreetmap/josm/plugins/fr/cadastre/edigeo/EdigeoFile.java:119 | conversely, every optional sign, then any number of zeros, then the decimal digits of an `int` parses to that `int` ("+5" gives 5, "007" gives 7, "-0" gives 0) |
| `EdigeoValues.ParseDate` | cadastre-fr/src/org/openstreetmap/josm/plugins/fr/cadastre/edigeo/EdigeoFile.java:22 | a date parsed with the `yyyyMMdd` pattern is a real calendar date with a year from 1 to 9999 |
| `EdigeoValues.ParseDateRoundTrip` | cadastre-fr/src/org/openstreetmap/josm/plugins/fr/cadastre/edigeo/EdigeoFile.java:22 | every valid date formatted with `yyyyMMdd` parses back to itself |
| `EdigeoValues.ParseDateCanonical` | cadastre-fr/src/org/openstreetmap/josm/plugins/fr/cadastre/edigeo/EdigeoFile.java:122-124 | only text of exactly eight ASCII digits is accepted; a parsed date formats back to the same text, unless the day field (the last two digits) is beyond the end of its month but at most 31, and the smart resolver moved it to the month's last day |
| `EdigeoValues.ParseDateClampsDay` | cadastre-fr/src/org/openstreetmap/josm/plugins/fr/cadastre/edigeo/EdigeoFile.java:122-124 | conversely, a day field past the end of its month but at most 31 is accepted and gives the month's last day ("20230231" is 28 February 2023) |
| `EdigeoRecords.SafeGet` | cadastre-fr/src/org/openstreetmap/josm/plugins/fr/cadastre/edigeo/EdigeoFile.java:114-116 | the result is absent exactly when the declared length is not positive; it fails, with `MissingValue`, exactly when the length is positive and there are no values; otherwise it is the first value |
| `EdigeoRecords.SafeGetInt` | cadastre-fr/src/org/openstreetmap/josm/plugins/fr/cadastre/edigeo/EdigeoFile.java:118-120 | the integer read lies within the range of a Java `int`; the only errors are a missing value and an invalid number |
| `EdigeoRecords.SafeGetDate` | cadastre-fr/src/org/openstreetmap/josm/plugins/fr/cadastre/edigeo/EdigeoFile.java:122-124 | a date read is a valid calendar date with a four-digit year; the only errors are a missing value and an invalid date |
| `EdigeoRecords.SafeGetAndLog` | cadastre-fr/src/org/openstreetmap/josm/plugins/fr/cadastre/edigeo/EdigeoFile.java:126-133 | returns exactly what `safeGet` returns, with the same errors, and logs "msg: value" exactly when a value is present |
| `EdigeoRecords.SafeGetDateAndLog` | cadastre-fr/src/org/openstreetmap/josm/plugins/fr/cadastre/edigeo/EdigeoFile.java:135-142 | returns exactly what `safeGetDate` returns, with the same errors, and logs "msg: yyyy-MM-dd" exactly when a date is present |
| `EdigeoRecords.AbsentDefaults` | cadastre-fr/src/org/openstreetmap/josm/plugins/fr/cadastre/edigeo/EdigeoFile.java:114-124 | with a declared length that is not positive, `safeGet` gives absent, `safeGetInt` gives 0 and `safeGetDate` gives absent, whatever the values |
| `EdigeoRecords.TypedAccessorsDecodeSafeGet` | cadastre-fr/src/org/openstreetmap/josm/plugins/fr/cadastre/edigeo/EdigeoFile.java:114-124 | the integer and date accessors decode exactly the value `safeGet` returns; they fail on a missing value exactly when `safeGet` does; a present value their parser rejects is an `InvalidNumber` or `InvalidDate` error on that record |
| `EdigeoRecords.IntFieldRoundTrip` | cadastre-fr/src/org/openstreetmap/josm/plugins/fr/cadastre/edigeo/EdigeoFile.java:118-120 | an integer field written in decimal reads back as that integer |
| `EdigeoRecords.DateFieldRoundTrip` | cadastre-fr/src/org/openstreetmap/josm/plugins/fr/cadastre/edigeo/EdigeoFile.java:122-124 | a date field written as `yyyyMMdd` reads back as that date |
| `EdigeoReader.BlockStep` | cadastre-fr/src/org/openstreetmap/josm/plugins/fr/cadastre/edigeo/EdigeoFile.java:43-49 | processing a record never changes a block's type, and a rejected record is never one the block kind consumes itself |
| `EdigeoReader.BodyStep` | cadastre-fr/src/org/openstreetmap/josm/plugins/fr/cadastre/edigeo/EdigeoFile.java:101-112 | a body record changes only the current block; a record other than `RTY` needs a current block and keeps its type; `RTY` leaves no block or a new one of the type it names with no identifier; every error names the record |
| `EdigeoReader.StepRecord` | cadastre-fr/src/org/openstreetmap/josm/plugins/fr/cadastre/edigeo/EdigeoFile.java:65-93 | one record never moves a phase backwards and keeps the phases in order; every error names the record |
| `EdigeoReader.Step` | cadastre-fr/src/org/openstreetmap/josm/plugins/fr/cadastre/edigeo/EdigeoFile.java:60-63 | an empty line changes nothing; a line fails as malformed exactly when it is not empty and the lexer rejects it; any other error names the record lexed from the line; a step never moves a phase backwards and keeps the phases in order |
| `EdigeoReader.Run` | cadastre-fr/src/org/openstreetmap/josm/plugins/fr/cadastre/edigeo/EdigeoFile.java:59-96 | a whole read never moves a phase backwards (a charset, once set, is never replaced) and keeps the phases in order: no charset before `BOM`, and no `EOM` and no block before the charset |
| `EdigeoReader.RunAppend` | cadastre-fr/src/org/openstreetmap/josm/plugins/fr/cadastre/edigeo/EdigeoFile.java:59-96 | reading `a + b` is reading `a`, then reading `b` from the state `a` left, and an error in `a` ends the read |
| `EdigeoReader.ErrorStopsReading` | cadastre-fr/src/org/openstreetmap/josm/plugins/fr/cadastre/edigeo/EdigeoFile.java:59-96 | once a line fails, the lines after it change nothing |
| `EdigeoReader.EndOfInputIsNotAnError` | cadastre-fr/src/org/openstreetmap/josm/plugins/fr/cadastre/edigeo/EdigeoFile.java:59-96 | every prefix of a file that reads without error also reads without error, and an empty input reads without error |
| `EdigeoReader.BlankLinesIgnored` | cadastre-fr/src/org/openstreetmap/josm/plugins/fr/cadastre/edigeo/EdigeoFile.java:60-62 | reading a file gives the same result as reading only its non-empty lines |
| `EdigeoReader.FirstNonBlankDecides` | cadastre-fr/src/org/openstreetmap/josm/plugins/fr/cadastre/edigeo/EdigeoFile.java:60-63 | a read is the step on the first non-empty line, then the read of the remaining non-empty lines |
| `EdigeoReader.FirstRecordMustBeBom` | cadastre-fr/src/org/openstreetmap/josm/plugins/fr/cadastre/edigeo/EdigeoFile.java:65-73 | a read fails with "Unexpected first record" on record `r` if and only if `r` is the first non-empty record and is not `BOM` |
| `EdigeoReader.NoFirstRecordErrorAfterBom` | cadastre-fr/src/org/openstreetmap/josm/plugins/fr/cadastre/edigeo/EdigeoFile.java:65-68 | once `BOM` is found, the first-record error can no longer occur |
| `EdigeoReader.BomOnlySetsBomFound` | cadastre-fr/src/org/openstreetmap/josm/plugins/fr/cadastre/edigeo/EdigeoFile.java:65-72 | a `BOM` first record sets `bomFound` and changes nothing else |
| `EdigeoReader.CharsetMustFollowBom` | cadastre-fr/src/org/openstreetmap/josm/plugins/fr/cadastre/edigeo/EdigeoFile.java:75-83 | while no charset is set, the next non-empty record must be `CSE` with a first value the resolver accepts; the charset comes from that value and nothing else changes |
| `EdigeoReader.NothingAfterEndOfFile` | cadastre-fr/src/org/openstreetmap/josm/plugins/fr/cadastre/edigeo/EdigeoFile.java:85-87 | after `EOM`, a read succeeds if and only if only empty lines follow, and then changes nothing; otherwise the first non-empty record fails with "Unexpected record after end of file" |
| `EdigeoReader.EomIsNotRouted` | cadastre-fr/src/org/openstreetmap/josm/plugins/fr/cadastre/edigeo/EdigeoFile.java:88-93 | in the body, `EOM` only sets `eomFound` and never reaches the current block |
| `EdigeoReader.RtyOpensBlock` | cadastre-fr/src/org/openstreetmap/josm/plugins/fr/cadastre/edigeo/EdigeoFile.java:101-105 | `RTY` replaces the current block with a new block of the type its first value names, with no identifier; when the factory returns null no block is current; when it throws the read fails on that record |
| `EdigeoReader.BodyRecordsGoToCurrentBlock` | cadastre-fr/src/org/openstreetmap/josm/plugins/fr/cadastre/edigeo/EdigeoFile.java:107-111 | any other body record fails as an orphan when there is no current block; otherwise it succeeds exactly when the block accepts it, and the block's new state becomes the current block |
| `EdigeoReader.BaseBlockAcceptsOnlyRid` | cadastre-fr/src/org/openstreetmap/josm/plugins/fr/cadastre/edigeo/EdigeoFile.java:43-49 | the base block accepts `RID` and nothing else; the identifier becomes the first value, or absent when the declared length is not positive |
| `EdigeoReader.LaterRidOverwrites` | cadastre-fr/src/org/openstreetmap/josm/plugins/fr/cadastre/edigeo/EdigeoFile.java:44-45 | after any accepted record, a later `RID` leaves the block exactly as that `RID` alone would |
| `EdigeoReader.BlockTypeIsFixed` | cadastre-fr/src/org/openstreetmap/josm/plugins/fr/cadastre/edigeo/EdigeoFile.java:28 | until the next `RTY`, the current block keeps its type code |
| `EdigeoReader.WellFormedBodyReads` | cadastre-fr/src/org/openstreetmap/josm/plugins/fr/cadastre/edigeo/EdigeoFile.java:101-111 | a body of `RTY`/`RID` pairs reads without error and leaves the last block as the current block, with its identifier |
| `EdigeoReader.WellFormedFileReads` | cadastre-fr/src/org/openstreetmap/josm/plugins/fr/cadastre/edigeo/EdigeoFile.java:57-112 | `BOM`, `CSE`, `RTY`/`RID` pairs and `EOM` read without error to the state past `EOM`, with the charset set and the last block current |
| `EdigeoReader.SmallestFileReads` | cadastre-fr/src/org/openstreetmap/josm/plugins/fr/cadastre/edigeo/EdigeoFile.java:57-112 | `BOM`, `CSE`, `RTY` "PNO", `RID` "A1", `EOM` gives one block of type "PNO" with identifier "A1" |
| `EdigeoFiles.Block.constructor` | cadastre-fr/src/org/openstreetmap/josm/plugins/fr/cadastre/edigeo/EdigeoFile.java:31-33 | a new block has the given type and no identifier |
| `EdigeoFiles.Block.ProcessRecord` | cadastre-fr/src/org/openstreetmap/josm/plugins/fr/cadastre/edigeo/EdigeoFile.java:43-49 | updates the identifier in place exactly as `BlockStep` says, and leaves the block unchanged on error |
| `EdigeoFiles.EdigeoFile.constructor` | cadastre-fr/src/org/openstreetmap/josm/plugins/fr/cadastre/edigeo/EdigeoFile.java:52-55 | a new reader has no `BOM`, no charset, no `EOM` and no current block |
| `EdigeoFiles.EdigeoFile.CreateBlock` | cadastre-fr/src/org/openstreetmap/josm/plugins/fr/cadastre/edigeo/EdigeoFile.java:99 | returns a fresh block of the kind the factory gives for the type code, null when the factory returns null, and reports failure exactly when the factory throws |
| `EdigeoFiles.EdigeoFile.ProcessRecord` | cadastre-fr/src/org/openstreetmap/josm/plugins/fr/cadastre/edigeo/EdigeoFile.java:101-112 | updates `currentBlock` or the current block exactly as `BodyStep` says; a new current block is always a fresh object |
| `EdigeoFiles.EdigeoFile.ReadLine` | cadastre-fr/src/org/openstreetmap/josm/plugins/fr/cadastre/edigeo/EdigeoFile.java:60-94 | one turn of the read loop updates the fields exactly as `Step` says, and changes nothing on error |
| `EdigeoFiles.EdigeoFile.Open` | cadastre-fr/src/org/openstreetmap/josm/plugins/fr/cadastre/edigeo/EdigeoFile.java:57-97 | the read loop fails exactly when `Run` fails, with the same error; otherwise it returns a fresh reader whose fields are the state `Run` gives |

## Left out

- Opening the file and splitting it into ISO-8859-1 lines is I/O. The input is
  the sequence of lines that `readLine` would return.
- The record lexer (`EdigeoRecord`) and the charset resolver
  (`EdigeoCharset.of`) are not part of this model. They are the parameters
  `Hooks.lex` and `Hooks.charsetOf`. The model treats any rejection by either
  as an error. A resolver that returns null instead of throwing is not
  modelled.
- The concrete block kinds that `createBlock` returns are not part of this
  model. The model keeps only the set of record names each kind consumes.
  It does not model the fields those records fill in, or the errors a kind
  raises itself while it processes a record. Every exception the factory
  throws is the one error `BlockCreationFailed`.
- Blocks that a concrete file kind keeps after `RTY` replaces them are not
  modelled. The model sees only `currentBlock`.
- `Logging.info` output is returned as a value by `SafeGetAndLog` and
  `SafeGetDateAndLog`. `Block.ProcessRecord` drops it. The `tr` translation
  of the label is not modelled; the label is the untranslated "Identifier".
- The Java `assert` statements on `BOM`, `CSE` and `EOM` are off by default
  at run time, so the model does not check them.
- `Objects.requireNonNull` on the block type cannot fail in the model,
  because model strings are never null.
- `EdigeoValues.ParseInt` accepts ASCII digits only. `Integer.parseInt` also
  accepts other Unicode decimal digits, through `Character.digit`.
- `EdigeoValues.ParseDate` accepts exactly eight ASCII digits. It does not
  model how java.time parses a longer or signed year field. The calendar
  rules are the ISO rules of the default smart resolver.
