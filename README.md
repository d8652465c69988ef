# Dungeon Siege toolkit core, modelled in Dafny

This project models the reading side of a toolkit for the data files of the
game Dungeon Siege:

- **Tank archives** (`.dsres`/`.dsm`). The model covers:
  - the archive header and its checks;
  - the directory and file sets, with their offset tables;
  - the path table built from the parent links;
  - extraction of a resource, either stored raw or split into compressed or
    stored chunks, with optional CRC-32 validation.
- **Images**:
  - the RAW format (`Rapi` magic, `8888` pixels, mip-mapped surfaces),
    including building a RAW file from a pixel buffer;
  - the TGA loader for uncompressed (type 2) and run-length (type 10)
    images.
- **Models**:
  - the ASP (Aspect) mesh importer: a loop over chunk ids with one handler
    per chunk;
  - the SNO (Siege Node) importer: a fixed header, then spots, doors,
    corners and surfaces.
- **Utilities**:
  - CRC-32, `clamp` and `isPowerOfTwo`;
  - the file-name extension helpers and `createPath`;
  - the command-line parser;
  - version words, `FileTime` and `FourCC`;
  - the wide-to-narrow string conversion and the exception message buffer.

How the model is built:

- **Pure definitions.** Every decoder is first stated as a pure function
  over a byte sequence. The function returns `Ok(Parsed(value, next))` or
  an error value for each way the original can throw. These functions
  carry the properties: round trips against an encoder, exact acceptance
  conditions, first-failure behaviour of the reading loops, and the
  first-key-wins behaviour of the path table.
- **Imperative classes.** The stateful parts are classes:
  - the tank stream (`TankFiles.TankFile`) and its reader
    (`TankFileReader.Reader`);
  - the importer cursors (`ModelReader.ByteCursor`,
    `AspImporting.AspImporter`, `SnoImporting.SnoImporter`);
  - the models (`AspModels.AspModel`, `SnoModels.SnoModel`) and
    `RawImages.RawImage`;
  - the parser (`CmdLineParsing.SimpleCmdLineParser`).

  Each of their methods is proved equal to the pure definition of what it
  reads.
- **Arrays.** The TGA loader fills and flips a two-dimensional array in
  place, as the original does.
- **Integers.** The original's 32-bit and 16-bit arithmetic is written out
  explicitly (`Bytes.Wrap32`, `Bytes.Wrap16`).
- **Outside the model.** File contents are passed in as a parameter:
  `Option<seq<Byte>>`, where `None` means the file cannot be opened. The
  decompressor and `createDirectory` are also parameters.

## Model

| member | source | states |
|---|---|---|
| Bytes.DecodeEncodeU16 | source/siege/tank_file.cpp:548-553 | a 16-bit word read little-endian from its encoding is the word itself |
| Bytes.DecodeEncodeU32 | source/siege/tank_file.cpp:555-560 | a 32-bit word read little-endian from its encoding is the word itself |
| UtilsCommon.Clamp | source/utils/common.hpp:86-89 | the result is `lo` below `lo`, `hi` above `hi`, otherwise `x`; it lies in [lo, hi] when lo <= hi |
| UtilsCommon.ClampIdempotent | source/utils/common.hpp:86-89 | clamping twice to the same bounds is clamping once |
| UtilsCommon.PowerOfTwoIff | source/utils/common.hpp:93-96 | `x > 0 && (x & (x-1)) == 0` holds exactly for the values with a single bit set, i.e. powers of two |
| UtilsCommon.PowerOfTwoByValue | source/utils/common.hpp:93-96 | the bit test agrees with the arithmetic definition "some 2^k" on 32-bit values |
| UtilsCommon.SingleBitIsPowerOfTwo | source/utils/common.hpp:93-96 | every 2^k below 2^32 passes the bit test |
| UtilsCommon.RemoveTrailingFloatZeros | source/utils/common.cpp:83-106 | a string containing '.' loses its trailing zeros and then a bare trailing dot; the result is a prefix of the input; a string without '.' is unchanged |
| UtilsCommon.ComputeCrc32 | source/utils/common.cpp:150-191 | the nibble-table loop computes the complement of the CRC register fed with every byte, starting from all ones |
| UtilsCommon.CrcRegisterAppend | source/utils/common.cpp:150-191 | feeding two buffers one after the other equals feeding their concatenation |
| UtilsCommon.CrcRegisterIsBitwise | source/utils/common.cpp:150-191 | the two 4-bit table lookups per byte agree with the bit-at-a-time reflected CRC-32 (polynomial 0xEDB88320) on every input |
| UtilsCommon.Crc32IsBitwise | source/utils/common.cpp:150-191 | the source's CRC equals the standard bitwise CRC-32 of the data |
| UtilsCommon.Crc32CheckValue | source/utils/common.cpp:150-191 | CRC-32 of "123456789" is 0xCBF43926, the standard check value |
| Filesys.GetPathSeparator | source/utils/filesys.cpp:40-43 | the separator is "/" |
| Filesys.FindLastOf | source/utils/filesys.cpp:49-57 | the index of the last occurrence of the character, or none when it does not occur |
| Filesys.RemoveExtensionShape | source/utils/filesys.cpp:49-57 | without a dot the name is unchanged; otherwise the stem stops right before the last dot and holds no text past it |
| Filesys.ExtensionShape | source/utils/filesys.cpp:63-76 | the extension is what follows the last dot, with the dot only when asked; no dot gives an empty extension |
| Filesys.StemPlusExtension | source/utils/filesys.cpp:49-76 | stem followed by the dotted extension gives back the name |
| Filesys.CText | source/utils/filesys.cpp:139 | what `c_str()` hands on: the characters before the first NUL, with no NUL in them |
| Filesys.Normalized | source/utils/filesys.cpp:145-152 | both separators are written back as '/', every other character kept |
| Filesys.PrefixesEndAtSeparators | source/utils/filesys.cpp:142-155 | each requested directory is the normalized text right before a separator, so the trailing file name is never created |
| Filesys.CreatePath | source/utils/filesys.cpp:132-158 | the requests are the normalized prefixes ending at each separator, in order; the walk stops at the first refused request and reports false, else true |
| Filesys.WalkStep | source/utils/filesys.cpp:142-155 | one iteration cuts a separator to NUL, requests the prefix before it and writes the separator back as '/', other characters untouched |
| Filesys.CopyToBuffer | source/utils/filesys.cpp:134-139 | a buffer of MaxTempStringLen cells holding the path's characters and zeros in every other cell |
| Filesys.BufferStep | source/utils/filesys.cpp:142-155 | a step of the walk changes at most the character at the cursor |
| Filesys.LongPathUnterminated | source/utils/filesys.cpp:134-139 | as written, a 2047-character path copied by `strncpy` with count 2047 into the uninitialized buffer has no NUL in the written cells |
| Filesys.LongPathTerminated | source/utils/filesys.cpp:134-139 | in the zero-filled buffer the same path is followed by a NUL |
| HelperTypes.FourCCEqualIsIdentity | source/siege/helper_types.cpp:24-34 | byte-wise `==` on FourCC is value equality and `!=` its negation |
| HelperTypes.FourCCEqualsStringIff | source/siege/helper_types.cpp:36-46 | a FourCC equals a C string exactly when the string's first four characters are its bytes and all are 7-bit; `!=` is the negation |
| HelperTypes.VersionWordFields | source/siege/helper_types.cpp:59-72 | the printed major, minor and build are bits 16-23, 8-15 and 0-7 of the word |
| HelperTypes.VersionWordTopByteClear | source/siege/helper_types.hpp:57-64 | a packed version word never uses its top byte |
| HelperTypes.VersionWordRoundTrip | source/siege/helper_types.hpp:57-64 | printing a packed word reads back the low byte of each packed number |
| HelperTypes.VersionWordInjective | source/siege/helper_types.hpp:57-64 | triples of byte-sized numbers pack to distinct words |
| HelperTypes.FileTimeHalves | source/siege/helper_types.cpp:134-137 | the 64-bit FILETIME is high * 2^32 + low and the halves come back from it |
| HelperTypes.PortableTimeIsExact | source/siege/helper_types.cpp:139-149 | the unsigned subtraction and signed cast give exactly ticks / 10^7 - 11644473600 seconds, negative for stamps before 1970 |
| SiegeCommon.WideStringToStdString | source/siege/common.cpp:24-63 | the result keeps the low byte of each wide character, stops at the first whose low byte is zero, and is at most MaxTempStringLen - 1 long |
| SiegeCommon.Strncpy | source/siege/common.cpp:122 | `strncpy`: the source's characters up to the count, then zero padding up to the count |
| SiegeCommon.LongMessageUnterminated | source/siege/common.cpp:115-131 | as written, a message of 1024 characters or more leaves the message buffer without a terminator |
| SiegeCommon.ShortMessageReadsBack | source/siege/common.cpp:115-131 | as written, a message shorter than the buffer is zero-padded and reads back whole |
| SiegeCommon.StoredMessageReadsBack | source/siege/common.cpp:115-131 | with the copy limited to 1023 characters, the buffer reads back as the message cut to 1023 characters |
| SiegeCommon.UntilNulOfTerminated | source/siege/common.cpp:138-141 | a buffer with its first zero at k holds the C string of its first k characters |
| SiegeCommon.Exception.constructor | source/siege/common.cpp:105-131 | the default constructor and a null pointer leave an empty message; a string is copied by `strncpy` with the whole buffer as count, cut at its first NUL; a message shorter than 1024 characters reads back whole, a longer one leaves no terminator |
| SiegeCommon.Exception.What | source/siege/common.cpp:138-141 | `what()` returns the stored C string, or nothing readable (None) exactly when the buffer holds no terminator |
| CmdLineParsing.ScanPlain | source/utils/simple_cmdline_parser.cpp:72-86 | characters other than '=' and '"' only extend the name or the value being read |
| CmdLineParsing.ScanSeparator | source/utils/simple_cmdline_parser.cpp:74-78 | '=' or '"' ends the name; later ones change nothing and are dropped |
| CmdLineParsing.ScanName | source/utils/simple_cmdline_parser.cpp:72-86 | text without separators is read entirely as the name |
| CmdLineParsing.ScanValue | source/utils/simple_cmdline_parser.cpp:72-86 | after the name and a separator, plain characters go to the value |
| CmdLineParsing.LongFlagAfterDashes | source/utils/simple_cmdline_parser.cpp:67-89 | a long flag is read from what follows its "--" |
| CmdLineParsing.LongFlagRoundTrip | source/utils/simple_cmdline_parser.cpp:67-89 | "--name=value" with separator-free name and value parses to exactly that name and value |
| CmdLineParsing.QuotedLongFlagRoundTrip | source/utils/simple_cmdline_parser.cpp:67-89 | "--name=\"value\"" parses to the same flag: the quotes are dropped |
| CmdLineParsing.ShortFlagsUpTo | source/utils/simple_cmdline_parser.cpp:92-109 | each character after the dash gives a one-letter flag when it is a letter, an error otherwise, in order |
| CmdLineParsing.ShortFlagsAreLetters | source/utils/simple_cmdline_parser.cpp:92-109 | every short flag is one ASCII letter with an empty value, and there is no error exactly when every character is a letter |
| CmdLineParsing.ArgParsed | source/utils/simple_cmdline_parser.cpp:64-115 | a long flag gives that flag and no error; an argument not starting with '-' gives only the malformed-flag error |
| CmdLineParsing.ArgsParsedNext | source/utils/simple_cmdline_parser.cpp:64-118 | argument i's flags and errors are appended after those of the arguments before it |
| CmdLineParsing.ArgsErrorFree | source/utils/simple_cmdline_parser.cpp:64-118 | a command line produces no error exactly when each of its arguments produces none |
| CmdLineParsing.ParseSucceeded | source/utils/simple_cmdline_parser.hpp:57-62 | the documented result: true exactly when there is an argument after the program name and every argument parses without error |
| CmdLineParsing.ParseResultAsWrittenInverted | source/utils/simple_cmdline_parser.cpp:50 | as written, "tool -x" reports failure and "tool x" success, the opposite of the documented result |
| CmdLineParsing.FlagsStringAppend | source/utils/simple_cmdline_parser.cpp:171-184 | printing two flag lists one after the other prints their concatenation |
| CmdLineParsing.SimpleCmdLineParser.constructor | source/utils/simple_cmdline_parser.cpp:26-29 | the default parser is empty; the parser built from a command line holds its arguments, its flags and its errors |
| CmdLineParsing.SimpleCmdLineParser.ReadLongFlag | source/utils/simple_cmdline_parser.cpp:67-89 | the loop over an argument's characters yields the flag the long-flag definition gives |
| CmdLineParsing.SimpleCmdLineParser.ProcessFlags | source/utils/simple_cmdline_parser.cpp:53-119 | flags and errors of all arguments are appended to those already held, in argument order |
| CmdLineParsing.SimpleCmdLineParser.ProcessArg | source/utils/simple_cmdline_parser.cpp:64-116 | one argument appends its flags and errors and nothing else |
| CmdLineParsing.SimpleCmdLineParser.ParseCmdLine | source/utils/simple_cmdline_parser.cpp:31-51 | nothing changes without arguments and false is returned; otherwise arguments and errors are replaced and flags appended, and the result is what processFlags returns, `hadErrors()`: true exactly when an argument was refused, the negation of the documented result |
| CmdLineParsing.SimpleCmdLineParser.GetArgCount | source/utils/simple_cmdline_parser.cpp:121-124 | the number of arguments held |
| CmdLineParsing.SimpleCmdLineParser.GetArg | source/utils/simple_cmdline_parser.cpp:126-130 | the argument at the index, which the source asserts is in range |
| CmdLineParsing.SimpleCmdLineParser.GetFlagAt | source/utils/simple_cmdline_parser.cpp:149-153 | the flag at the index, which the source asserts is in range |
| CmdLineParsing.SimpleCmdLineParser.GetErrorList | source/utils/simple_cmdline_parser.cpp:196-199 | the errors held |
| CmdLineParsing.SimpleCmdLineParser.GetFlagCount | source/utils/simple_cmdline_parser.cpp:132-135 | the number of flags held |
| CmdLineParsing.SimpleCmdLineParser.HasFlag | source/utils/simple_cmdline_parser.cpp:137-147 | true exactly when some flag has that name |
| CmdLineParsing.SimpleCmdLineParser.GetFlag | source/utils/simple_cmdline_parser.cpp:155-169 | the first flag with the name and true, or an empty flag and false when none has it |
| CmdLineParsing.SimpleCmdLineParser.GetFlagsString | source/utils/simple_cmdline_parser.cpp:171-184 | every flag printed in order, the name, then "=value" for a non-empty value |
| CmdLineParsing.SimpleCmdLineParser.ClearFlags | source/utils/simple_cmdline_parser.cpp:186-189 | the flags are emptied, arguments and errors kept |
| CmdLineParsing.SimpleCmdLineParser.HadErrors | source/utils/simple_cmdline_parser.cpp:191-194 | true exactly when an error is held |
| CmdLineParsing.SimpleCmdLineParser.ClearErrors | source/utils/simple_cmdline_parser.cpp:201-204 | the errors are emptied, arguments and flags kept |
| TankFormat.ExpectedVersionValue | source/siege/tank_file.hpp:143 | the expected header version is 0x10002, printing as 1.0.2 |
| TankFormat.PriorityToString | source/siege/tank_file.cpp:310-321 | the name of each of the five priorities; any other value is an error |
| TankFormat.PriorityFromString | source/siege/tank_file.cpp:323-331 | the priority a name denotes; any other string is an error |
| TankFormat.PriorityRoundTrip | source/siege/tank_file.cpp:310-331 | the two priority conversions are inverse on their domains, both ways |
| TankFormat.DataFormatToString | source/siege/tank_file.cpp:333-342 | "Raw", "Zlib" or "Lzo" for formats 0-2; any other value is an error |
| TankFormat.DataFormatFromString | source/siege/tank_file.cpp:344-350 | the format a name denotes; any other string is an error |
| TankFormat.DataFormatRoundTrip | source/siege/tank_file.cpp:333-350 | the two data-format conversions are inverse on their domains, both ways |
| TankFormat.CompressedIffNotRaw | source/siege/tank_file.hpp:79 | a format counts as compressed exactly when it is not Raw |
| TankFormat.NumChunks | source/siege/tank_file.cpp:109-129 | ceil(size / chunkSize) when both are non-zero, else 0: the chunks cover the size and the last one is not empty |
| TankFormat.CompressedSize | source/siege/tank_file.cpp:193-196 | a compressed entry's compressed size comes from its header, a raw entry's is its size |
| TankFormat.ChunkSize | source/siege/tank_file.cpp:198-201 | a compressed entry's chunk size comes from its header, a raw entry's is 0 |
| TankFormat.ChunkIndex | source/siege/tank_file.cpp:203-207 | the index i of the chunk holding byte offs: i * chunkSize <= offs < (i + 1) * chunkSize |
| TankFormat.InvalidFileIffHighBit | source/siege/tank_file.cpp:178-181 | an entry is flagged invalid exactly when its 16-bit flags are 0x8000 or more |
| TankFiles.AlignToDwordBounds | source/siege/tank_file.cpp:41-45 | below 0xFFFC the result is the next multiple of four above the size; from 0xFFFC the 16-bit sum wraps to below four |
| TankFiles.DwordAlignUp | source/thirdparty/gpg/TankStructure.h:286 | rounding up to a multiple of four, as the reference header's string sizes use |
| TankFiles.PaddedLengthAsWrittenAgrees | source/siege/tank_file.cpp:570-571 | the 16-bit padded length agrees with the untruncated one for every length below 0xFFFE |
| TankFiles.PaddedLengthWraps | source/siege/tank_file.cpp:570-578 | as written, lengths 0xFFFE and 0xFFFF wrap to a padded length of 2 and pass the overflow check; the untruncated length is rejected |
| TankFiles.PaddedLengthIsNStringSize | source/thirdparty/gpg/TankStructure.h:286 | a length word and its padded text take exactly NSTRING::GetSize(len) bytes |
| TankFiles.PaddedLengthOverflowIff | source/siege/tank_file.cpp:574-578 | the padded length reaches the 2048-byte buffer exactly from length 2046 on |
| TankFiles.PaddedLengthAsWrittenCases | source/siege/tank_file.cpp:41-45 | the 16-bit padded length is the untruncated one below 0xFFFE and 2 for 0xFFFE and 0xFFFF; with the length word it always fills whole dwords |
| TankFiles.FileTimeAt | source/siege/tank_file.cpp:614-619 | a FILETIME is read as two words, low then high, eight bytes in all |
| TankFiles.WideUntilNul | source/siege/tank_file.cpp:608-611 | the code units before the first zero, with no zero among them |
| TankFiles.NStringConsumesGetSize | source/siege/tank_file.cpp:562-586 | a string read moves exactly NSTRING::GetSize(len) bytes on for every length below 0xFFFE, and 4 bytes for the two lengths whose 16-bit padding wraps |
| TankFiles.NStringAcceptedIff | source/siege/tank_file.cpp:562-586 | a string read succeeds exactly when the length is below 2046, or is 0xFFFE or 0xFFFF (whose padding wraps to 2), and its padded bytes are present; lengths 2046 to 0xFFFD are reported as overflow |
| TankFiles.NStringTextLength | source/siege/tank_file.cpp:580-585 | the text stops at the first NUL, is no longer than the 16-bit padded length, and no longer than the length when the stored terminator is there |
| TankFiles.WNStringConsumption | source/siege/tank_file.cpp:588-612 | a wide read takes 4 bytes when empty and 2 + 2 * the 16-bit padded length otherwise, never WNSTRING::GetSize(len) for a non-empty string |
| TankFiles.HeaderAcceptedIff | source/siege/tank_file.cpp:446-520 | the header is accepted exactly when the file starts with 'DSig' 'Tank', the fixed part is present and the description can be read |
| TankFiles.TankFile.constructor | source/siege/tank_file.cpp:53-83 | a closed tank with a default header |
| TankFiles.TankFile.OpenForReading | source/siege/tank_file.cpp:356-382 | an unopenable file fails and stays closed; otherwise the header is read and validated, and the tank is open for reading exactly when that succeeds |
| TankFiles.TankFile.Close | source/siege/tank_file.cpp:384-396 | the tank is closed and its header reset |
| TankFiles.TankFile.SeekAbsoluteOffset | source/siege/tank_file.cpp:522-530 | the position moves to the offset; the seek fails only once an earlier read failed |
| TankFiles.TankFile.ReadBytes | source/siege/tank_file.cpp:532-546 | the next n bytes and a position n further; a short read fails and leaves the stream failed |
| TankFiles.TankFile.ReadU16 | source/siege/tank_file.cpp:548-553 | the little-endian word at the position, as U16At gives it |
| TankFiles.TankFile.ReadU32 | source/siege/tank_file.cpp:555-560 | the little-endian double word at the position, as U32At gives it |
| TankFiles.TankFile.ReadFileTime | source/siege/tank_file.cpp:614-619 | the FILETIME at the position |
| TankFiles.TankFile.ReadFourCC | source/siege/tank_file.cpp:635-640 | the four bytes at the position as a FourCC |
| TankFiles.TankFile.ReadNString | source/siege/tank_file.cpp:562-586 | the string NStringAt gives, with the padded length in 16-bit arithmetic, leaving the position after its padding |
| TankFiles.TankFile.ReadWNString | source/siege/tank_file.cpp:588-612 | the wide string WNStringAt gives, with the padded length in 16-bit arithmetic, leaving the position after its padding |
| TankFiles.TankFile.ReadHeaderBase | source/siege/tank_file.cpp:449-455 | the ids, version and offsets at bytes 0-28 |
| TankFiles.TankFile.ReadHeaderVersions | source/siege/tank_file.cpp:456-460 | versions, priority, flags and creator at bytes 28-64 |
| TankFiles.TankFile.ReadHeaderStamps | source/siege/tank_file.cpp:461-464 | GUID, checksums and build time at bytes 64-104 |
| TankFiles.TankFile.ReadHeaderExtra | source/siege/tank_file.cpp:456-464 | every field of bytes 28-104 |
| TankFiles.TankFile.ReadHeaderTexts | source/siege/tank_file.cpp:465-468 | the four fixed-size wide texts at bytes 104-784 |
| TankFiles.TankFile.ReadHeaderFixed | source/siege/tank_file.cpp:449-468 | every fixed-size field, bytes 0-784, as HeaderAt decodes them |
| TankFiles.TankFile.ReadAndValidateHeader | source/siege/tank_file.cpp:446-520 | the header equals HeaderAt of the file; a wrong product or tank id is rejected |
| TankIndex.ValueOf | source/siege/tank_file_reader.cpp:69 | a read's value without its end position, success and error preserved |
| TankIndex.Collect | source/siege/tank_file_reader.cpp:77-85 | a successful fold of n item reads holds n values |
| TankIndex.CollectValues | source/siege/tank_file_reader.cpp:77-85 | each value of a successful fold is the item read at its place, in order |
| TankIndex.CollectFirstFailure | source/siege/tank_file_reader.cpp:77-85 | the fold succeeds exactly when every item does, and otherwise fails with the error of the first failing item |
| TankIndex.CollectErrorPersists | source/siege/tank_file_reader.cpp:77-85 | once an item fails, reading more items fails the same way |
| TankIndex.CollectNext | source/siege/tank_file_reader.cpp:77-85 | one more item extends the fold or ends it with that item's error |
| TankIndex.OffsetAt | source/siege/tank_file_reader.cpp:79-83 | an offset is rejected when it is 0xFFFFFFFF or base + offset lies past the end of the file |
| TankIndex.OffsetsAccepted | source/siege/tank_file_reader.cpp:77-85 | every offset of an accepted table is read from its own four bytes and is usable |
| TankIndex.OffsetsCheckedIff | source/siege/tank_file_reader.cpp:77-85 | with the bytes present, a table is accepted exactly when every offset is usable |
| TankIndex.DirEntryHeadAt | source/siege/tank_file_reader.cpp:95-98 | parent offset, child count, file time and name read in that order |
| TankIndex.DirEntryAccepted | source/siege/tank_file_reader.cpp:95-133 | an accepted entry has a usable parent offset and child offsets, its stored count of children, and the name "/" when it is the unnamed root |
| TankIndex.RootEntryNamed | source/siege/tank_file_reader.cpp:107-111 | an entry stored with parent offset 0 and no name is named "/" |
| TankIndex.DirEntryResultAt | source/siege/tank_file_reader.cpp:90-93 | loop entry d is the entry at the 32-bit sum of the DirSet offset and offsets[d] |
| TankIndex.DirSetAt | source/siege/tank_file_reader.cpp:62-135 | the count, the checked offset table, then each entry at its offset; the set holds exactly count entries |
| TankIndex.ChunkHeaderAt | source/siege/tank_file_reader.cpp:222-229 | a chunk header is four words: uncompressed size, compressed size, extra bytes, offset |
| TankIndex.ChunkHeadersOutcome | source/siege/tank_file_reader.cpp:220-230 | reading the chunk headers fails exactly when the bytes run out |
| TankIndex.ChunkHeadersValues | source/siege/tank_file_reader.cpp:220-230 | header c is decoded from the c-th 16 bytes |
| TankIndex.ChunkHeadersRead | source/siege/tank_file_reader.cpp:220-230 | exactly count headers are read, in stored order, 16 bytes each |
| TankIndex.CompressedHeaderAt | source/siege/tank_file_reader.cpp:207-231 | compressed size, chunk size, then ceil(size / chunkSize) chunk headers |
| TankIndex.FileEntryAt | source/siege/tank_file_reader.cpp:173-231 | the fixed fields and name, the parent check against the FileSet base, then a compressed header exactly for compressed entries of non-zero size |
| TankIndex.FileEntryHeadAt | source/siege/tank_file_reader.cpp:173-180 | parent, size, data offset, CRC, time, format, flags and name in that order |
| TankIndex.FileEntryResultAt | source/siege/tank_file_reader.cpp:168-171 | loop entry f is the entry at the 32-bit sum of the FileSet offset and offsets[f] |
| TankIndex.FileSetAt | source/siege/tank_file_reader.cpp:141-232 | the count, the checked offset table, then each entry at its offset; the set holds exactly count entries |
| TankIndex.FindOffset | source/siege/tank_file_reader.cpp:252-261 | the first index holding the value, or none when no index holds it |
| TankIndex.DirPath | source/siege/tank_file_reader.cpp:245-265 | "" for a parent offset of 0, else the parent's path, "/" and the name; a missing parent is an orphan error |
| TankIndex.DirPathFuelMonotone | source/siege/tank_file_reader.cpp:245-265 | a path found within some depth bound is the same with a larger bound |
| TankIndex.DirKey | source/siege/tank_file_reader.cpp:300-306 | a directory's key is its path followed by "/" |
| TankIndex.RootKey | source/siege/tank_file_reader.cpp:247-250 | every directory with parent offset 0 is keyed "/" |
| TankIndex.ChildKey | source/siege/tank_file_reader.cpp:245-265 | a resolved directory's key is its parent's key, its name and "/" |
| TankIndex.FileKey | source/siege/tank_file_reader.cpp:317-339 | a file's key is its parent directory's path, "/" and its name, or "/" and the name at the root |
| TankIndex.FileKeyUnderParent | source/siege/tank_file_reader.cpp:317-339 | a file's key is its parent directory's key followed by its name |
| TankIndex.EmplacedDomain | source/siege/tank_file_reader.cpp:306 | emplacing keys in order keeps the old entries and adds exactly the new keys |
| TankIndex.EmplacedFirstIndex | source/siege/tank_file_reader.cpp:306 | a new key maps to the first position that holds it |
| TankIndex.EmplacedFirstWins | source/siege/tank_file_reader.cpp:306 | every key ends up in the table, old entries are kept, and a new key maps to its first position |
| TankIndex.DirKeyResultAt | source/siege/tank_file_reader.cpp:300-309 | result d of the key loop is directory d's key |
| TankIndex.DirTableFirstWins | source/siege/tank_file_reader.cpp:295-310 | every directory's key is in the table, each key maps to the first directory having it, and nothing else is there |
| TankIndex.FileKeyResultAt | source/siege/tank_file_reader.cpp:317-342 | result f of the key loop is file f's key |
| TankIndex.FileTableFirstWins | source/siege/tank_file_reader.cpp:312-343 | every file's key is in the table, directory entries keep their values, and a key a file adds maps to the first file having it |
| TankIndex.IndexAt | source/siege/tank_file_reader.cpp:38-60 | the DirSet and its paths, then the FileSet and its paths, as one result |
| TankIndex.IndexTableInRange | source/siege/tank_file_reader.cpp:38-60 | every key of the indexed table names an existing directory or file |
| TankIndex.ChunkShape | source/siege/tank_file_reader.cpp:453-508 | a compressed chunk yields the decompressor's output then its extra bytes as stored; a stored chunk yields exactly its uncompressed-size bytes |
| TankIndex.ChunkOutputBound | source/siege/tank_file_reader.cpp:453-508 | with a decompressor that respects its capacity, a chunk yields at most uncompressed size plus extra bytes |
| TankIndex.ChunksAtNext | source/siege/tank_file_reader.cpp:447-509 | one more chunk appends its output or ends the list with its error |
| TankIndex.ChunkFailureIsFinal | source/siege/tank_file_reader.cpp:447-509 | a failing chunk is the failure of the whole extraction |
| TankIndex.ChunksInOrder | source/siege/tank_file_reader.cpp:447-509 | the output of the first k chunks is a prefix of the output of the first n, and an early failure is the failure of all n |
| TankIndex.ChunksOutputBound | source/siege/tank_file_reader.cpp:447-509 | the whole output is at most the sum of the chunks' bounds |
| TankIndex.RawContent | source/siege/tank_file_reader.cpp:420-432 | a raw entry yields nothing when its size is 0, else exactly size bytes from dataOffset + offset |
| TankIndex.UnchunkedIsEmpty | source/siege/tank_file_reader.cpp:109-129 | a compressed entry with chunk size 0 has no chunks and extracts as empty |
| TankIndex.CrcValidation | source/siege/tank_file_reader.cpp:512-524 | without validation the content is returned as read; with it, non-empty content must match the entry's CRC-32, and empty content is never checked |
| TankFileReader.ReadOffsets | source/siege/tank_file_reader.cpp:77-85 | the loop reads exactly the offsets OffsetResults gives, failing at the first bad one |
| TankFileReader.ReadDirEntry | source/siege/tank_file_reader.cpp:95-133 | one directory entry read where the stream stands, as DirEntryAt gives it |
| TankFileReader.ReadChunkHeaders | source/siege/tank_file_reader.cpp:220-230 | the loop reads exactly the headers ChunkHeadersAt gives |
| TankFileReader.ReadCompressedHeader | source/siege/tank_file_reader.cpp:209-230 | the compressed header as CompressedHeaderAt gives it |
| TankFileReader.ReadFileEntry | source/siege/tank_file_reader.cpp:173-231 | one file entry read where the stream stands, as FileEntryAt gives it |
| TankFileReader.AppendDirPath | source/siege/tank_file_reader.cpp:245-265 | appends to the path exactly the directory path DirPath gives, or fails the same way |
| TankFileReader.Reader.constructor | source/siege/tank_file_reader.cpp:33-36 | a reader that has indexed nothing |
| TankFileReader.Reader.DirectoryCount | source/siege/tank_file.hpp:361 | 0 before indexing, else the DirSet count; every directory in the table is below it |
| TankFileReader.Reader.FileCount | source/siege/tank_file.hpp:362 | 0 before indexing, else the FileSet count; every file in the table is below it |
| TankFileReader.Reader.IndexFile | source/siege/tank_file_reader.cpp:38-60 | fails and changes nothing on a tank not open for reading; otherwise the outcome and the table are those IndexAt gives |
| TankFileReader.Reader.ReadDirSet | source/siege/tank_file_reader.cpp:62-139 | the DirSet read and its paths built are exactly DirSetAt and the directory key table |
| TankFileReader.Reader.ReadDirEntries | source/siege/tank_file_reader.cpp:88-135 | the entry loop yields exactly the fold of DirEntryResults |
| TankFileReader.Reader.SeekDirEntry | source/siege/tank_file_reader.cpp:90-133 | entry d is read at base + offsets[d] and extends or ends the loop |
| TankFileReader.Reader.BuildDirPaths | source/siege/tank_file_reader.cpp:295-310 | the table becomes the first-wins table of the directory keys |
| TankFileReader.Reader.EmplaceEntry | source/siege/tank_file_reader.cpp:306 | the entry is added unless its key is already present |
| TankFileReader.Reader.ReadFileSet | source/siege/tank_file_reader.cpp:141-236 | the FileSet read and its paths added are exactly FileSetAt and the file key table |
| TankFileReader.Reader.ReadFileEntries | source/siege/tank_file_reader.cpp:167-232 | the entry loop yields exactly the fold of FileEntryResults |
| TankFileReader.Reader.SeekFileEntry | source/siege/tank_file_reader.cpp:168-231 | entry f is read at base + offsets[f] and extends or ends the loop |
| TankFileReader.Reader.BuildFilePaths | source/siege/tank_file_reader.cpp:312-343 | the file keys are added to the directory table first-wins, or an orphan file fails |
| TankFileReader.Reader.FileKeyOf | source/siege/tank_file_reader.cpp:319-338 | file f's key is the key FileKey gives |
| TankFileReader.Reader.ExtractResourceToMemory | source/siege/tank_file_reader.cpp:377-528 | fails unless the tank is open for reading and the path names a file; the content is then exactly ExtractAt of the archive |
| TankFileReader.Reader.ReadContent | source/siege/tank_file_reader.cpp:415-510 | the stored bytes of an entry, exactly ContentAt |
| TankFileReader.Reader.ReadChunks | source/siege/tank_file_reader.cpp:447-509 | each chunk's output is appended in stored order, exactly ChunksAt |
| TankFileReader.Reader.ReadChunk | source/siege/tank_file_reader.cpp:449-508 | one chunk read, decompressed when compressed, exactly ChunkAt |
| TankFileReader.Reader.GetFileList | source/siege/tank_file_reader.cpp:578-593 | every file key of the table once and no directory key |
| TankFileReader.Reader.GetDirectoryList | source/siege/tank_file_reader.cpp:595-610 | every directory key of the table once and no file key |
| ModelReader.BytesAt | source/siege/asp_importer.cpp:102-116 | a read of n bytes succeeds exactly when the position is not at the end and n bytes remain, and moves on by n |
| ModelReader.U32At | source/siege/asp_importer.cpp:118-123 | four bytes decoded little-endian |
| ModelReader.FourCCAt | source/siege/asp_importer.cpp:194-205 | no id at the end of the data, without moving; otherwise the next four bytes |
| ModelReader.CStringAt | source/siege/sno_importer.cpp:133-148 | a string read up to and including its NUL, the NUL not kept; fails when the data ends first |
| ModelReader.CStringRoundTrip | source/siege/sno_importer.cpp:133-148 | a NUL-free string followed by its NUL reads back as itself and ends after the NUL |
| ModelReader.CStringUnterminated | source/siege/sno_importer.cpp:133-148 | a string that reaches the end of the data before a NUL is an error |
| ModelReader.ItemsNext | source/siege/sno_importer.cpp:243-281 | one more item extends a list read or ends it with the item's error |
| ModelReader.ItemsFailurePersists | source/siege/sno_importer.cpp:243-281 | a list that fails after k items fails the same way for every longer count |
| ModelReader.ItemsAreItems | source/siege/sno_importer.cpp:243-281 | item i of a list read is what the item reader gives where the first i items end |
| ModelReader.Resized | source/siege/asp_importer.cpp:236 | `resize`: the first n elements kept, padded with the default |
| ModelReader.ByteCursor.ReadBytes | source/siege/asp_importer.cpp:102-116 | copies n bytes and moves on by n, or fails without moving |
| ModelReader.ByteCursor.ReadU32 | source/siege/asp_importer.cpp:118-123 | the word U32At gives, moving on by 4 |
| ModelReader.ByteCursor.ReadF32 | source/siege/asp_importer.cpp:125-132 | the float's four bytes, moving on by 4 |
| ModelReader.ByteCursor.ReadTexCoord | source/siege/asp_importer.cpp:143-158 | two floats, moving on by 8 |
| ModelReader.ByteCursor.ReadVec3 | source/siege/asp_importer.cpp:160-175 | three floats, moving on by 12 |
| ModelReader.ByteCursor.ReadVec4 | source/siege/asp_importer.cpp:177-192 | four floats, moving on by 16 |
| ModelReader.ByteCursor.ReadColor | source/siege/asp_importer.cpp:134-141 | four bytes in file order, moving on by 4 |
| ModelReader.ByteCursor.ReadFourCC | source/siege/asp_importer.cpp:194-205 | false and no move at the end of the data, else the id and a move of 4 |
| ModelReader.ByteCursor.ReadU8 | source/siege/sno_importer.cpp:95-100 | one byte, moving on by 1 |
| ModelReader.ByteCursor.ReadU16 | source/siege/sno_importer.cpp:102-107 | a 16-bit little-endian word, moving on by 2 |
| ModelReader.ByteCursor.ReadString | source/siege/sno_importer.cpp:133-148 | the string CStringAt gives, ending after its NUL |
| AspImporting.VersionOfIsMajorMinor | source/siege/asp_importer.cpp:57-78 | versionOf is non-zero exactly on the eleven known words, and then is 10 * major + minor with major in the low byte and minor in the next |
| AspImporting.VersionAt | source/siege/asp_importer.cpp:676-683 | a chunk version is read and an unknown one is rejected |
| AspImporting.MeshOf | source/siege/asp_importer.cpp:353 | the current sub-mesh, or an error where the source would index out of range |
| AspImporting.NameAt | source/siege/asp_importer.cpp:239-252 | one name: the bytes before the next NUL or the end, and the position after the NUL run that follows |
| AspImporting.SplitNames | source/siege/asp_importer.cpp:236-272 | count names read one after another, each from where the previous ended |
| AspImporting.WithNames | source/siege/asp_importer.cpp:236-275 | texture names then bone names are appended to the resized lists, and the sub-meshes are resized |
| AspImporting.BmshSection | source/siege/asp_importer.cpp:207-306 | version, counts, the bogus-length check (1 MiB or more), the name text, then the names and resized lists |
| AspImporting.JoinNamesSplit | source/siege/asp_importer.cpp:236-272 | names joined with single NULs split back into the same names |
| AspImporting.NextNameRead | source/siege/asp_importer.cpp:239-252 | the k-th name of a joined table reads back and ends where the next starts |
| AspImporting.SplitJoinedNames | source/siege/asp_importer.cpp:236-272 | the names of a joined table read back one by one from wherever the table starts |
| AspImporting.NameTableRoundTrip | source/siege/asp_importer.cpp:207-275 | a table of texture names then bone names, each followed by one NUL, reads back as those names |
| AspImporting.FreshNames | source/siege/asp_importer.cpp:236-272 | on a model with no names yet, the names after BMSH are exactly the table's |
| AspImporting.BoneEntryAt | source/siege/asp_importer.cpp:319-324 | bone index, parent and flags; an index outside the bones is an error instead of an out-of-bounds write |
| AspImporting.BoneEntries | source/siege/asp_importer.cpp:317-329 | one entry per bone, each updating the bone it names |
| AspImporting.BoneEntriesFailurePersists | source/siege/asp_importer.cpp:317-329 | a failing entry fails every longer run of entries |
| AspImporting.BonhSection | source/siege/asp_importer.cpp:308-330 | version, then the bone entries |
| AspImporting.SubMeshIndexFromMinusOne | source/siege/asp_importer.cpp:340-344 | up to version 4.0 the stored index counts from -1: 0xFFFFFFFF selects sub-mesh 0 and every other word the next one |
| AspImporting.BsubSection | source/siege/asp_importer.cpp:332-363 | version, index, texture-count check, then the counts of the selected sub-mesh, or an error when it does not exist |
| AspImporting.BsubChecksTextureCount | source/siege/asp_importer.cpp:347-351 | BSUB fails when its texture count differs from the number of texture names |
| AspImporting.CornerAt | source/siege/asp_importer.cpp:424-443 | a BCRN corner takes 32 bytes: index, normal, colour, an unused word, texture coordinate |
| AspImporting.WCornerAt | source/siege/asp_importer.cpp:462-488 | a WCRN corner takes 56 bytes: position, weights, bone bytes, normal, colour, texture coordinate |
| AspImporting.BsmmSection | source/siege/asp_importer.cpp:365-384 | version, texture count, then that many material entries on the current sub-mesh |
| AspImporting.BvtxSection | source/siege/asp_importer.cpp:386-406 | version, a vertex-count check against BSUB, then the positions |
| AspImporting.ClampLetsCountThrough | source/siege/asp_importer.cpp:428-432 | as written, an index equal to the number of positions passes the clamp and still lies outside them |
| AspImporting.ClampIndex | source/siege/asp_importer.cpp:428-432 | the intended clamp: any index outside the positions becomes the last position, so a clamped index is always below the count |
| AspImporting.ClampsDifferOnlyAtCount | source/siege/asp_importer.cpp:428-432 | the clamp as written and the intended one disagree exactly on an index equal to the position count |
| AspImporting.ClampedCornersInRange | source/siege/asp_importer.cpp:422-443 | each corner is its stored corner with only the vertex index clamped as written, and with positions present the index is at most their count |
| AspImporting.BcrnCornersAtMostCount | source/siege/asp_importer.cpp:408-446 | BCRN fails on a corner count other than BSUB's, and otherwise every corner index is at most the position count: an index equal to the count passes the clamp |
| AspImporting.WcrnSection | source/siege/asp_importer.cpp:448-490 | version, a corner-count check against BSUB, then the weighted corners |
| AspImporting.CornerStartsAccumulate | source/siege/asp_importer.cpp:525-531 | the first start is 0 and each next start is the previous start plus span in 32 bits |
| AspImporting.CornerRanges | source/siege/asp_importer.cpp:515-556 | version 2.2 reads spans and sums them, later versions read pairs, earlier ones give start 0 and the corner count; v2.2 with no textures is an error |
| AspImporting.BtriSection | source/siege/asp_importer.cpp:502-567 | version, a face-count check against BSUB, the corner ranges, then three indices per face |
| AspImporting.VersionOnlySection | source/siege/asp_importer.cpp:492-607 | BVMP, BVWL, STCH, RPOS and BBOX only read and check a version |
| AspImporting.BendSection | source/siege/asp_importer.cpp:609-640 | without an INFO id the chunk ends; otherwise a count and that many NUL-terminated strings are read and dropped |
| AspImporting.ChunkSection | source/siege/asp_importer.cpp:654-670 | the handler chosen by the chunk id; an unknown id reads nothing more |
| AspImporting.ImportEndsAtTail | source/siege/asp_importer.cpp:642-674 | a finished import leaves fewer than four bytes unread |
| AspImporting.ImportStopsAtShortTail | source/siege/asp_importer.cpp:654 | the loop ends, changing nothing, when fewer than four bytes remain |
| AspImporting.UnknownChunkSkipped | source/siege/asp_importer.cpp:669 | an unknown chunk id consumes its four bytes and nothing else |
| AspImporting.AspImporter.constructor | source/siege/asp_importer.cpp:86-100 | an importer at position 0 over a non-empty file image, as the source asserts |
| AspImporting.AspImporter.ReadVersion | source/siege/asp_importer.cpp:676-683 | the version VersionAt gives |
| AspImporting.AspImporter.ScanName | source/siege/asp_importer.cpp:239-252 | the loop reads exactly the name NameAt gives |
| AspImporting.AspImporter.SplitTextureNames | source/siege/asp_importer.cpp:236-253 | the texture names appended exactly as SplitNames gives them |
| AspImporting.AspImporter.SplitBoneNames | source/siege/asp_importer.cpp:255-272 | the bone names appended exactly as SplitNames gives them |
| AspImporting.AspImporter.ReadBmsh | source/siege/asp_importer.cpp:207-306 | the state after BMSH is exactly BmshSection's |
| AspImporting.AspImporter.ReadBonh | source/siege/asp_importer.cpp:308-330 | the state after BONH is exactly BonhSection's |
| AspImporting.AspImporter.ReadBoneEntries | source/siege/asp_importer.cpp:317-329 | the entries loop is exactly BoneEntries |
| AspImporting.AspImporter.ReadBsub | source/siege/asp_importer.cpp:332-363 | the state after BSUB is exactly BsubSection's |
| AspImporting.AspImporter.ReadCorners | source/siege/asp_importer.cpp:421-443 | the corner loop reads each corner and clamps, as written, a vertex index above the position count |
| AspImporting.AspImporter.ComputeCornerStarts | source/siege/asp_importer.cpp:525-531 | the loop computes exactly the 32-bit prefix sums CornerStarts |
| AspImporting.AspImporter.ReadFaceRanges | source/siege/asp_importer.cpp:515-556 | the ranges exactly as CornerRanges gives them |
| AspImporting.AspImporter.ReadBsmm | source/siege/asp_importer.cpp:365-384 | the state after BSMM is exactly BsmmSection's |
| AspImporting.AspImporter.ReadBvtx | source/siege/asp_importer.cpp:386-406 | the state after BVTX is exactly BvtxSection's |
| AspImporting.AspImporter.ReadBcrn | source/siege/asp_importer.cpp:408-446 | the state after BCRN is exactly BcrnSection's |
| AspImporting.AspImporter.ReadWcrn | source/siege/asp_importer.cpp:448-490 | the state after WCRN is exactly WcrnSection's |
| AspImporting.AspImporter.ReadBtri | source/siege/asp_importer.cpp:502-567 | the state after BTRI is exactly BtriSection's |
| AspImporting.AspImporter.ReadBend | source/siege/asp_importer.cpp:609-640 | the state after BEND is exactly BendSection's |
| AspImporting.AspImporter.ReadChunk | source/siege/asp_importer.cpp:654-670 | one chunk handled exactly as ChunkSection says |
| AspImporting.AspImporter.ImportAspModel | source/siege/asp_importer.cpp:642-674 | the whole import's outcome and final state are exactly ImportFrom's |
| AspModels.AspModel.constructor | source/siege/asp_model.hpp:134 | an empty model, which is not valid |
| AspModels.AspModel.Dispose | source/siege/asp_model.cpp:83-89 | every list and the name are emptied; the model is not valid |
| AspModels.AspModel.InitFromMemory | source/siege/asp_model.cpp:71-81 | succeeds exactly when the import does, and then holds the import's result and the name; on failure the name is empty |
| AspModels.AspModel.InitFromFile | source/siege/asp_model.cpp:34-69 | no name and an unopenable file are errors; an empty file gives an empty model keeping the name; otherwise InitFromMemory |
| AspModels.UnknownChunksMakeEmptyModel | source/siege/asp_model.cpp:91-95 | a file made only of unknown chunk ids imports as an empty model, which is not valid |
| SnoImporting.DecodeEncodeWords | source/siege/sno_importer.cpp:150-152 | words encoded little-endian decode back to themselves |
| SnoImporting.HeaderRoundTrip | source/siege/sno_importer.cpp:150-152 | every header survives being written and read back |
| SnoImporting.CheckedHeaderAt | source/siege/sno_importer.cpp:150-185 | the 88-byte header, rejected for a magic other than "SNOD" and then for a version below 7 |
| SnoImporting.HeaderCheck | source/siege/sno_importer.cpp:173-184 | a written header passes exactly when it is "SNOD" of version 7 or later, and fails with the matching error otherwise |
| SnoImporting.CornerAt | source/siege/sno_importer.cpp:256-278 | a corner takes 36 bytes; the colour stored R, B, G, A is held as R, G, B, A |
| SnoImporting.SurfaceAt | source/siege/sno_importer.cpp:297-318 | texture name, start, span, corner count, then cornerCount / 3 triangles of three 16-bit indices |
| SnoImporting.CornerRoundTrip | source/siege/sno_importer.cpp:256-278 | every corner reads back from its encoding with the colour swizzle undone |
| SnoImporting.SnoImport | source/siege/sno_importer.cpp:323-334 | header, spots, doors, corners and surfaces in file order, each list as long as the header says |
| SnoImporting.SnoImporter.constructor | source/siege/sno_importer.cpp:37-50 | an importer at position 0 over a non-empty file image, as the source asserts |
| SnoImporting.SnoImporter.ReadHeader | source/siege/sno_importer.cpp:150-185 | the header is stored as read, then CheckedHeaderAt's outcome is returned |
| SnoImporting.SnoImporter.ReadXform | source/siege/sno_importer.cpp:68-93 | three rotation rows then the translation, as XformAt gives them |
| SnoImporting.SnoImporter.ReadCorner | source/siege/sno_importer.cpp:256-278 | one corner as CornerAt gives it |
| SnoImporting.SnoImporter.ReadSurface | source/siege/sno_importer.cpp:297-318 | one surface as SurfaceAt gives it |
| SnoImporting.SnoImporter.ReadSpots | source/siege/sno_importer.cpp:187-206 | exactly the header's number of spots |
| SnoImporting.SnoImporter.ReadDoors | source/siege/sno_importer.cpp:208-241 | exactly the header's number of doors, each with its hot-spots |
| SnoImporting.SnoImporter.ReadCorners | source/siege/sno_importer.cpp:243-282 | exactly the header's number of corners |
| SnoImporting.SnoImporter.ReadSurfaces | source/siege/sno_importer.cpp:284-321 | one surface per texture |
| SnoImporting.SnoImporter.ImportSnoModel | source/siege/sno_importer.cpp:323-334 | succeeds exactly when SnoImport does, with its parts; the header is set whenever it could be read |
| SnoModels.ImportedValidIff | source/siege/sno_model.cpp:94-99 | an imported node is valid exactly when its header names at least one texture |
| SnoModels.NullHeaderInvalid | source/siege/sno_model.cpp:83-99 | a disposed model is never valid |
| SnoModels.SnoModel.Dispose | source/siege/sno_model.cpp:83-92 | the header is zeroed and every list and the name emptied |
| SnoModels.SnoModel.InitFromMemory | source/siege/sno_model.cpp:71-81 | succeeds exactly when the import does, and then holds its parts and the name; valid exactly when the texture count is non-zero |
| SnoModels.SnoModel.InitFromFile | source/siege/sno_model.cpp:34-69 | no name and an unopenable file are errors; an empty file gives an empty model keeping the name; otherwise InitFromMemory |
| RawImages.CheckRawHeaderIff | source/siege/raw_image.cpp:163-191 | a RAW file is accepted exactly when it has 16 header bytes, magic 'ipaR', format '8888', no flags and non-zero dimensions, each failure with its own error |
| RawImages.HeaderRoundTrip | source/siege/raw_image.cpp:230-236 | a written header reads back with the same fields |
| RawImages.EncodedPixelAt | source/siege/raw_image.cpp:238-251 | pixel k of an encoded run is at bytes 4k to 4k + 3 |
| RawImages.SwizzleInvolution | source/siege/raw_image.cpp:238-246 | exchanging red and blue twice gives the pixel back |
| RawImages.MipSizeIsShift | source/siege/raw_image.cpp:87-111 | for a non-zero size, level i is max(1, size >> i) |
| RawImages.MipSizeNonIncreasing | source/siege/raw_image.cpp:87-111 | a later mip level is never larger than an earlier one |
| RawImages.SurfacePixelsBounds | source/siege/raw_image.cpp:113-116 | a surface of a non-empty image holds between 1 and width x height pixels |
| RawImages.SurfacesDisjoint | source/siege/raw_image.cpp:65-76 | surfaces follow one another: each ends before the next starts |
| RawImages.RawImage.constructor | source/siege/raw_image.cpp:25-30 | an empty image, which is not valid |
| RawImages.RawImage.MipLevelSize | source/siege/raw_image.cpp:87-98 | the halving loop computes MipSize |
| RawImages.RawImage.SurfaceWidth | source/siege/raw_image.cpp:87-98 | surface i's width is MipSize of the width at level i |
| RawImages.RawImage.SurfaceHeight | source/siege/raw_image.cpp:100-111 | surface i's height is MipSize of the height at level i |
| RawImages.RawImage.SurfacePixelCount | source/siege/raw_image.cpp:113-116 | the product of the surface's width and height |
| RawImages.RawImage.SurfacePixelsStart | source/siege/raw_image.cpp:65-76 | the number of pixels in the surfaces before it |
| RawImages.RawImage.GetPixelAt | source/siege/raw_image.cpp:50-63 | the four bytes at header + 4 * (start of surface + x + y * width) |
| RawImages.RawImage.Dispose | source/siege/raw_image.cpp:118-125 | dimensions and surface count zeroed, data and name emptied |
| RawImages.RawImage.InitFromMemory | source/siege/raw_image.cpp:163-208 | each header failure leaves the image unchanged; otherwise the image adopts the data, a surface count of 0 becomes 1, and non-power-of-two sizes are kept |
| RawImages.RawImage.InitFromPixelBuffer | source/siege/raw_image.cpp:210-251 | the data is a one-surface header followed by the pixels, red and blue exchanged when asked |
| RawImages.RawFileAccepted | source/siege/raw_image.cpp:163-251 | what InitFromPixelBuffer writes is accepted by InitFromMemory, with the same size and one surface, exactly when both dimensions are non-zero |
| RawImages.RawFilePixelAt | source/siege/raw_image.cpp:50-63 | pixel k of surface 0 reads back the pixel stored there |
| TgaImages.PixelAt | source/siege/raw_image.cpp:565-590 | a stored pixel is blue, green, red, then alpha, or 255 alpha for 24 bits |
| TgaImages.PacketAt | source/siege/raw_image.cpp:604-698 | the count is 1 + the low 7 bits; with the high bit one pixel is repeated, else that many pixels follow; cut short at the image's end |
| TgaImages.RlePixelsStep | source/siege/raw_image.cpp:599-702 | decoding a run-length stream is its first packet's pixels, then the rest's |
| TgaImages.DecodeTgaErrors | source/siege/raw_image.cpp:527-534 | type other than 2 or 10, a colour map, or a pixel size other than 24 or 32 are rejected, each with its own error |
| TgaImages.DecodeTgaSize | source/siege/raw_image.cpp:536-549 | a decoded image always has width x height pixels |
| TgaImages.DecodeTgaOpaque24 | source/siege/raw_image.cpp:567-575 | every pixel of a 24-bit image has alpha 255 |
| TgaImages.LiteralPixelsRoundTrip | source/siege/raw_image.cpp:577-586 | 32-bit pixels written blue, green, red, alpha read back as themselves |
| TgaImages.PacketRoundTrip | source/siege/raw_image.cpp:604-698 | one encoded packet decodes to its pixels and ends where its bytes end |
| TgaImages.PacketThenRest | source/siege/raw_image.cpp:599-702 | a packet followed by a decodable rest decodes to both, in order |
| TgaImages.LoadTga | source/siege/raw_image.cpp:463-720 | rejects exactly the headers DecodeTga rejects; otherwise a fresh height x width array whose rows hold the decoded pixels in file order |
| TgaImages.ReadUncompressed | source/siege/raw_image.cpp:557-593 | each row's pixels in turn, placed bottom row first |
| TgaImages.ReadRow | source/siege/raw_image.cpp:559-592 | one row read left to right into its image row, the rest of the image untouched |
| TgaImages.PlacePixel | source/siege/raw_image.cpp:636-649 | one pixel written; past the last column the next row up; past the top row decoding ends |
| TgaImages.PlacePacket | source/siege/raw_image.cpp:604-698 | one packet read and placed where decoding stands |
| TgaImages.ReadRunLength | source/siege/raw_image.cpp:594-703 | packets in turn until every pixel is placed, matching the run-length decoding |
| TgaImages.FlipVertically | source/siege/raw_image.cpp:705-717 | rows y and height - 1 - y are swapped for every y in the top half |

## Left out

- I/O, logging and warnings:
  - File I/O is not modelled. The file's bytes are a parameter, `None` when it cannot be opened. The size query and a short `read` on a file that opened are not modelled.
  - Logging, warnings and debug printing (`SiegeLog`, `SiegeWarn`, the header dumps) have no effect on the results and are left out. That includes the warnings about an unknown tank creator or header version, an invalid file flag, a zero RAW surface count and non-power-of-two RAW sizes.
- Decompression and file output:
  - `utils::compression` (Mini-Z) is a function parameter of the extraction. The model only assumes the decompressor reports an error code and some output. `ChunkOutputBound` and `ChunksOutputBound` also assume the output fits the capacity.
  - `extractResourceToFile`, its asynchronous form and `extractWholeTank` only write files. They are not modelled.
  - `writeSurfaceAsTgaImage`, `writeSurfaceAsPngImage`, `writeToFile` and the stream operators are image and text output. They are not modelled.
- Utility functions:
  - `format`, `vformat` and `formatMemoryUnit` are printf-style formatting and are not modelled.
  - `createDirectory`, `queryFileSize`, `tryOpen` and `getLastFileError` are file-system calls. `createDirectory` is a parameter of `CreatePath`.
  - The command-line tools (`asp2obj`, `raw2x`, `tga2raw`, `tankdump`) are front ends over the modelled code and are not modelled.
- Floats and opaque header fields:
  - Floats in the models are kept as their four raw bytes. They are never interpreted, so NaN checks and conversions are out of scope.
  - The tank header's product versions, GUID and system time are kept as raw words. Their printing is not modelled.
- `isWriteOnly` and `isReadWrite`: the model only opens tanks for reading, which is all the reader needs.
- `importFlags` is accepted and never used by the original, so the model drops it.
- TankIndex.DirPath: parent chains are followed for at most as many steps as there are directories. A longer chain can only be a cycle, for which the original recurses without end. The model reports such a cycle as an error instead.
- Failed reads:
  - After a failed read the tank stream is marked failed, with no finer state. Which bytes of a partly read buffer the original had already filled is not stated.
  - When an import fails, the model does not state what the lists hold beyond what the importer's own definitions give. `AspModels.AspModel.InitFromMemory` and `SnoModels.SnoModel.InitFromMemory` leave the lists as the importer left them.
- Checks the original leaves to assertions or undefined behaviour:
  - `AspImporting.AspImporter.constructor` and `SnoImporting.SnoImporter.constructor` require a non-empty file image, as the original asserts.
  - `CmdLineParsing.SimpleCmdLineParser.GetArg` and `GetFlagAt` require an index in range, as the original asserts.
  - `Filesys.CreatePath` requires a non-empty path shorter than 2048 characters, as the original asserts.
- Out-of-bounds writes in the ASP importer, each turned into an error:
  - BONH writes `boneInfos[boneIndex]` without checking the index. The model reports `BoneIndexOutOfRange` where that write would fall outside the bones.
  - BSUB and the per-mesh chunks index `subMeshes[current]` without checking. The model reports `SubMeshIndexOutOfRange` instead.
  - BTRI version 2.2 with no textures writes into an empty vector and then loops 2^32 - 1 times. The model reports `NoCornerSpans`.
- TgaImages.LoadTga: the original reads past the end of a short file without checking. The model reports `Truncated` there, so the contents the original would produce from memory past the buffer are not captured.
- SnoModels.SnoModel.constructor: the original's defaulted constructor leaves the header uninitialized. The model starts it zeroed.
- RawImages.RawImage.InitFromPixelBuffer: the original asserts width and height are at most 65535. The model requires the same and does not model the 16-bit truncation beyond it.
- TankFileReader.Reader.IndexFile: the original installs a DirSet or FileSet holding the stored count as soon as the count is read, and fills it entry by entry. After a failed index, `getDirectoryCount` and `getFileCount` therefore still report the counts. The model installs a set only once it is fully read, so on failure it states only the error, not the partly filled sets.
- TankIndex.ChunkAt: when a chunk's compressedSize + extraBytes exceeds 32 bits, the original resizes its buffer to the wrapped sum and passes the decompressor `size() - extraBytes`, which underflows, so it reads outside the buffer. The model reports `ChunkSizeOverflow` instead. TankFileReader.Reader.ReadChunk does the same.
- TankIndex.ContentAt: a compressed entry of size 0 has no compressed header, and the original dereferences the missing header. The model reports `MissingCompressedHeader` instead. TankFileReader.Reader.ReadContent does the same.
- Filesys.CreatePath: the original's buffer is uninitialized. `strncpy` zero-fills it up to cell 2046 for every shorter path, but a path of 2047 characters leaves cell 2047 unset, so the walk reads past the buffer. The model zero-fills the buffer in Filesys.CopyToBuffer and does not capture that read. Filesys.LongPathUnterminated states the difference.
- TgaImages.LoadTga: the original computes width * height in a signed `int`. Images of more than 2^31 - 1 pixels overflow it. The model computes the product exactly.

## Findings

| source | as written | input that shows it | evidently intended | confidence | as-written member | corrected member |
|---|---|---|---|---|---|---|
| source/siege/tank_file.cpp:570-578 | the padded string length is computed in 16 bits, so it wraps for lengths near 0xFFFF | a length word of 0xFFFE or 0xFFFF gives a padded length of 2, which passes the 2048-byte overflow check and reads a 2-byte string from a corrupt archive | the padded length computed without truncation, so such lengths are rejected as overflow | not executed | TankFiles.PaddedLengthWraps | TankFiles.PaddedLengthOverflowIff |
| source/utils/simple_cmdline_parser.cpp:50 | `parseCmdLine` returns `processFlags()`, which returns `hadErrors()` | `tool -x` returns false and `tool x` returns true | true when the arguments parsed without errors, as the declaration documents | not executed | CmdLineParsing.ParseResultAsWrittenInverted | CmdLineParsing.ParseSucceeded |
| source/siege/common.cpp:122 | `strncpy(errorMessage, error, sizeof(errorMessage))` copies up to 1024 characters into a 1024-byte buffer | a message of 1024 characters leaves no terminator, so `what()` reads past the buffer | copy at most 1023 characters so a terminator always follows | not executed | SiegeCommon.LongMessageUnterminated | SiegeCommon.StoredMessageReadsBack |
| source/utils/filesys.cpp:134-139 | `strncpy` with count 2047 into an uninitialized 2048-byte buffer | a path of 2047 characters (allowed by the length assertion) leaves the buffer unterminated, so the walk reads past it | a zero-filled buffer, so a terminator always follows the copied path | not executed | Filesys.LongPathUnterminated | Filesys.LongPathTerminated |
| source/siege/asp_importer.cpp:428-432 | the vertex index is clamped only when it is greater than the number of positions | a corner index equal to the number of positions passes and refers past the last position | clamp every index that is not below the number of positions | not executed | AspImporting.ClampLetsCountThrough | AspImporting.ClampIndex |
