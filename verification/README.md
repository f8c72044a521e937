# Morgue, verified

Morgue takes installers, game packages and native binaries apart and writes what it finds to a
directory tree. Most of it drives external tools; this project models the parts that are algorithms
of its own, and proves what they promise.

| Files | What they model |
|---|---|
| `Common`, `Chars`, `Bytes`, `Texts`, `Cursors` | Option values, character classes, little-endian integers, number and Unicode rendering, and the bounds-checked cursor with its count-driven lists |
| `Usmap`, `UsmapTheorems`, `UsmapParser`, `UsmapWire` | the `.usmap` mappings file: its layout, its meaning, the parser, that the parser accepts exactly the layouts, and the format byte by byte |
| `Odin`, `OdinTheorems`, `OdinDecoder`, `OdinTree`, `OdinPrint`, `OdinWire`, `OdinValues` | the Odin serialization format: layout of a forest, the opcode decoder with its type cache, the tree builder and the text printer over the same tokens, and every opcode from its bytes to its value |
| `NsisSignature` | finding the first header of an NSIS installer although one byte of its signature may have been changed |
| `NsisStrings`, `NsisWire`, `NsisPaths`, `FileTree`, `NsisWalk`, `NsisUnpack`, `RawRecords` | the NSIS unpacker: string table, path cleaning, the walk over the instructions, and the raw-record dump |
| `DecompiledLines`, `Splitter`, `BucketWriter`, `Rescan` | the decompiled-C index: record splitting, the rolling bucket files, and reading the records back |
| `CloneCanon`, `Dedupe`, `NameRes` | canonical bodies, duplicate groups under a budget, and names recovered from strings |
| `Channels`, `PipelineService` | the pause gate, the change notification of the tools service, and the pipeline service, alone and under every interleaving |
| `EngineRun` | one run of the engine: two passes, native batches, bounded unpacking, one result per file |
| `UnrealRoots` | choosing among nested Unreal roots and moving the containers of the dropped ones |

How the model is built. What the Go code does by changing things is a method or a class here: a
cursor that moves, a token list that grows, a file that is appended to. Each such member is proved
equal to a function of its inputs or of its old state, and the theorems are about these functions.
Neither binary format has an encoder in the repository; the layouts are written here from the format
comments, and each decoder is proved against the layout in both directions where the code allows it.
What layout and decoder have in common, widths, tags, opcodes and signs, is fixed apart from both: the
`Wire` modules say in plain numbers what each byte is taken for.
Concurrent protocols are state machines whose steps are the sections under the mutex; their theorems
are about every sequence of steps.

What turned out otherwise than the code's comments say, or only under a condition:

- The versioning flag in a `.usmap` header is four bytes wide, not one (`internal/recipe/usmap.go:262-271`).
- Bodies with equal streams need not be renamings of one another: a marker `<SYM>` in the stream may be
  copied from the body instead of written for a symbol (`CloneCanon.MarkerCollides`). They are if and only
  if the copied markers also stand at the same places (`CloneCanon.SameStreamExactly`), as they do when
  neither body spells the marker.
- A body line that ends in a carriage return and is a record header without it, or that starts like
  a separator, is body text to the splitter and something else to the reader: the round trip holds
  exactly when there is none (`Rescan.RoundTripIff`, `Rescan.StrayReturnLost`). These are lines as the splitter's
  line reader hands them on: it has dropped one carriage return already, unless the line was over-long, so in the
  decompiler's file such a line ends in two.
- A bucket that is returned to takes up its first file again whatever its size, and from there rolls onto
  its later files, full or not (`BucketFiles.ReturnToFullFile`). No write goes to a full file if and only
  if no return finds a bucket whose blocks have reached the cap (`BucketFiles.CapIff`).
- A function can be judged by strings that are not its own, or by only some that are. The splitter always
  writes an address, but drops the memory space before it, so one address can come up in two runs of rows,
  and the later run decides the name (`NameRes.TwoRuns`, `NameRes.TwoRunsExample`); rows without an address,
  which the reader allows, hand their strings on to the next function (`NameRes.StrayName`). Of rows that all
  have an address every function is judged by its own strings if and only if the rows of each address stand
  together (`NameRes.OwnIff`); with stray rows in between, equal strings can make up for one fault by another
  (`NameRes.BlanksCanRescue`).
- `Stop` opens the gate but leaves the paused flag up (`PipelineRuns.PausedOverOpenGateIff` says exactly when).
- The engine's sends look at no context (`internal/engine/emitter.go:34-39`). If the drainer panics and the
  engine then fills the queue, the run can never end and no `Stop` helps; in every other state it still can
  (`PipelineRuns.CanFinishIff`, `PipelineRuns.StuckForever`, `PipelineRuns.StuckIsReachable`).
- Unique functions are the distinct bodies if and only if no body past the budget comes up again
  (`Dedupe.UniqueIff`); at any budget, 8,000,000 by default (`internal/recipe/dedupe.go:52`), one body more
  than it allows can be counted twice (`Dedupe.PastBudgetOvercounts`).
- The compression type of an NSIS archive is read four bytes past the end of the 28-byte header, where the
  comment at `internal/recon/nsis.go:200-202` says it is read right behind it. What stands right behind is
  reported exactly when both places look alike (`NsisSignature.SubTypeAgreesIff`), and an ordinary LZMA or
  bzip2 stream standing there is reported as plain (`NsisSignature.DataBehindHeaderMissed`).

## Model

| member | source | states |
|---|---|---|
| Bytes.LEDecodesEncoding | internal/recipe/uasset.go:90-106 | writing a number in n little-endian bytes and reading it gives the number back |
| Bytes.LEEncodesDecoding | internal/recipe/uasset.go:90-106 | reading n bytes as a number and writing it gives the bytes back |
| Cursors.UintAtIff | internal/recipe/usmap.go:663-688 | an unsigned field reads as v exactly when v's bytes stand there, and never past the end |
| Cursors.IntAtIff | internal/recipe/uasset.go:90-97 | the same for a two's-complement field |
| Cursors.TakeAtIff | internal/recipe/uasset.go:75-80 | a run of bytes is read exactly when it is all there |
| Cursors.SignedRange | internal/recipe/uasset.go:90-97 | reinterpreting an unsigned field as signed stays in range and loses nothing |
| Bytes.LowByteFirst | internal/recipe/uasset.go:90-106 | a field of one, two, four or eight bytes in plain numbers, the low byte first |
| Bytes.TopBitIsSign | internal/odin/reader.go:27-48 | a signed field of each of these widths is negative exactly when its top bit is set |
| Cursors.FieldBytes | internal/recipe/usmap.go:663-688 | what each fixed-width read gives, from its bytes, and that it fails exactly where they are not all there |
| Cursors.RepeatReads | internal/recipe/usmap.go:394-401 | a count-driven loop over laid-out elements reads their values in order and stops at their end |
| Cursors.RepeatExplains | internal/recipe/usmap.go:394-401 | whatever such a loop accepts is the layout of as many legal elements |
| Cursors.CountedReads | internal/recipe/usmap.go:387-402 | a list within its cap, preceded by its length, is read back whatever follows it |
| Cursors.CountedExplains | internal/recipe/usmap.go:387-402 | an accepted counted list is the layout of a legal list within the cap |
| Cursors.ByteReader.Need | internal/recipe/uasset.go:75-80 | true exactly when so many bytes are left |
| Cursors.ByteReader.Skip | internal/recipe/uasset.go:116-122 | moves by n inside the buffer or refuses and does not move |
| Cursors.ByteReader.Uint | internal/recipe/uasset.go:99-106 | reads the field at the cursor and moves past it, or fails without moving |
| Cursors.ByteReader.Int32 | internal/recipe/uasset.go:90-97 | the signed counterpart |
| UsmapTheorems.RefReads | internal/recipe/usmap.go:405-413 | a legal name index is resolved to its name, -1 to none |
| UsmapTheorems.RefExplains | internal/recipe/usmap.go:405-413 | an accepted reference is an index in range or -1 |
| UsmapTheorems.TypeReads | internal/recipe/usmap.go:573-630 | a well-formed type within the nesting guard is read as its meaning, and reading stops at its end whatever follows |
| UsmapTheorems.TypeExplains | internal/recipe/usmap.go:573-630 | whatever is accepted as a type is the layout of a well-formed one within the guard |
| UsmapTheorems.TooDeepRejected | internal/recipe/usmap.go:573-577 | a type nested one level too deep is rejected though its whole layout is there |
| UsmapTheorems.NodesWithinBytes | internal/recipe/usmap.go:573-630 | a decoded type has no more nodes than bytes were consumed for it |
| UsmapTheorems.StringsRead | internal/recipe/usmap.go:634-658 | a name with a one- or two-byte length, by version, is read back |
| UsmapTheorems.StringsExplained | internal/recipe/usmap.go:634-658 | an accepted name is the layout of one of legal length for the version |
| UsmapTheorems.EnumReads | internal/recipe/usmap.go:424-475 | an enum with explicit or counted values, by version, is read as its meaning |
| UsmapTheorems.EnumExplains | internal/recipe/usmap.go:424-475 | an accepted enum is the layout of a legal one |
| UsmapTheorems.PropertyReads | internal/recipe/usmap.go:540-569 | a property (index, dimension, name, type) is read as its meaning |
| UsmapTheorems.PropertyExplains | internal/recipe/usmap.go:540-569 | an accepted property is the layout of a legal one |
| UsmapTheorems.StructReads | internal/recipe/usmap.go:496-537 | a struct and its serializable properties are read as their meaning |
| UsmapTheorems.StructExplains | internal/recipe/usmap.go:496-537 | an accepted struct is the layout of a legal one |
| UsmapTheorems.BodyReads | internal/recipe/usmap.go:384-493 | for every version the three tables are read as their meaning and the cursor stops at their end, whatever follows |
| UsmapTheorems.BodyExplains | internal/recipe/usmap.go:384-493 | every accepted body is the layout of well-formed tables |
| UsmapTheorems.VersioningReads | internal/recipe/usmap.go:318-337 | the versioning block, of any number of custom versions, is passed over exactly |
| UsmapTheorems.VersioningExplains | internal/recipe/usmap.go:318-337 | what is passed over as a versioning block is the layout of one |
| UsmapTheorems.FileReads | internal/recipe/usmap.go:241-312 | the image of every well-formed uncompressed file parses to its meaning |
| UsmapTheorems.FileExplains | internal/recipe/usmap.go:241-312 | every accepted uncompressed image is that of a well-formed file |
| UsmapTheorems.AcceptsExactlyTheLayouts | internal/recipe/usmap.go:241-312 | an uncompressed image is accepted with value m if and only if it is the layout of a well-formed file that means m |
| UsmapWire.NameBytes | internal/recipe/usmap.go:634-658 | in versions 0 and 1 a name is one length byte and so many bytes; in 2 to 4 its length is two bytes, the low one first |
| UsmapWire.RefBytes | internal/recipe/usmap.go:405-413 | four bytes of 255 are no name, any other index is looked up or refused |
| UsmapWire.TypeBytes | internal/recipe/usmap.go:573-630 | what is read for each type tag: 26 an inner type and a name, 9 a name, 24 two types, 8, 25 and 28 one type, nothing for the others |
| UsmapWire.EnumBytes | internal/recipe/usmap.go:424-452 | an enum's entries are counted in one byte up to version 2 and in two from 3 on |
| UsmapWire.EntryBytes | internal/recipe/usmap.go:454-472 | up to version 3 an entry's value is its place, in version 4 it is written in eight bytes |
| UsmapWire.LastNameStands | internal/recipe/usmap.go:471 | a value has exactly the name its last entry gives it |
| UsmapWire.PropertyBytes | internal/recipe/usmap.go:540-569 | two bytes of index, one of dimension, four of name, then the type |
| UsmapWire.StructBytes | internal/recipe/usmap.go:496-537 | two names, two bytes that are not used, a count in two bytes, the properties |
| UsmapWire.TableCounts | internal/recipe/usmap.go:387-486 | up to 5000000 names, 2000000 enums and 2000000 structs are read, one more is refused |
| UsmapWire.HeaderBytes | internal/recipe/usmap.go:241-312 | where in the image flag, versioning block, method, sizes and body stand, at every version |
| UsmapWire.BadHeader | internal/recipe/usmap.go:244-258 | any other first two bytes and any version above 4 are refused, each in its way |
| UsmapWire.Methods | internal/recipe/usmap.go:341-380 | method 0 is the body itself, 3 the codec's, each at the declared size; all others are refused |
| UsmapWire.ImagesRead | internal/recipe/usmap.go:241-493 | one image of each version, with a name table, an enum and a struct, and the tables read from it |
| UsmapWire.BlockedImageRead | internal/recipe/usmap.go:262-337 | the same behind a versioning block of any content |
| UsmapParser.ReadRef | internal/recipe/usmap.go:405-413 | the name at the cursor, or an error for an index out of range |
| UsmapParser.ParsePropertyType | internal/recipe/usmap.go:573-630 | the recursive reader over the shared cursor computes the type at its position, fails where there is none, and never moves the cursor back |
| UsmapParser.ParseProperty | internal/recipe/usmap.go:540-569 | likewise for a property |
| UsmapParser.ParseStruct | internal/recipe/usmap.go:496-537 | likewise for a struct, whose declared property count is not what bounds the loop |
| UsmapParser.ParseName | internal/recipe/usmap.go:634-658 | likewise for a name |
| UsmapParser.ParseEnum | internal/recipe/usmap.go:424-475 | likewise for an enum, later entries of one value replacing earlier ones |
| UsmapParser.ParseNames | internal/recipe/usmap.go:387-402 | the loop that fills the name table |
| UsmapParser.ParseEnums | internal/recipe/usmap.go:415-476 | the loop that fills the enum table |
| UsmapParser.ParseStructs | internal/recipe/usmap.go:476-493 | the loop that fills the struct table |
| UsmapParser.ParseBody | internal/recipe/usmap.go:384-493 | the three tables, each resolved against the name table |
| UsmapParser.SkipVersioningBlock | internal/recipe/usmap.go:318-337 | the cursor ends behind the block or the read fails |
| UsmapParser.ParseHeader | internal/recipe/usmap.go:241-303 | magic, version, flag and sizes are checked in this order, each with its own refusal |
| UsmapParser.ParseUsmapBytes | internal/recipe/usmap.go:241-312 | the whole parser: an uncompressed image is accepted with value m exactly when it is the layout of a well-formed file meaning m |
| Texts.DigitsRoundTrip | internal/recipe/nsis.go:1057-1075 | the decimal digits of a number read back as the number |
| Texts.ItoaInjective | internal/recipe/nsis.go:1057-1075 | different numbers are written differently |
| NsisStrings.VarNamesDiffer | internal/recipe/nsis.go:1057-1075 | different variables, numbered, built in or user-declared, have different names |
| Texts.UnitsDecodeEncoding | internal/odin/reader.go:67-88 | UTF-16 units survive being written as bytes |
| OdinTheorems.StrReads | internal/odin/reader.go:67-88 | a string with its flag byte and length, narrow or wide, is read back |
| OdinTheorems.PayloadReads | internal/odin/decoder.go:166-250 | every scalar payload is read as its value, decimals and GUIDs as the placeholder the decoder gives them |
| OdinTheorems.MarkReads | internal/odin/decoder.go:43-67 | a type marker is read as its type: a name on first use enters the cache, an id later comes from it |
| OdinTheorems.RefDecodes | internal/odin/decoder.go:145-165 | internal and external references of all kinds become their tokens |
| OdinTheorems.PrimDecodes | internal/odin/decoder.go:124-144 | a primitive array becomes one token with its raw bytes |
| OdinTheorems.ItemsDecode | internal/odin/decoder.go:90-268 | running over the layout of items adds exactly their tokens, restores depth and cache, and goes on with what follows |
| OdinTheorems.GroupDecodes | internal/odin/decoder.go:94-123 | a node or array adds its start, its items one level deeper, and its end |
| OdinTheorems.DecodeInvertsLayout | internal/odin/decoder.go:90-268 | decoding the layout of any forest gives its tokens, every type name restored and every depth its nesting |
| OdinWire.StringBytes | internal/odin/reader.go:67-88 | a string's flag, four bytes of length, and one or two bytes for each character |
| OdinWire.UnitsMean | internal/odin/reader.go:67-88 | what two-byte units stand for, surrogates in pairs and alone |
| OdinWire.IntegerOps | internal/odin/decoder.go:172-210 | opcodes 0x0F to 0x1E: which integers are signed, how many bytes each takes, and its value from them |
| OdinWire.OtherScalarOps | internal/odin/decoder.go:211-250 | opcodes 0x1F to 0x2C likewise |
| OdinWire.IntegersAreLegal | internal/odin/decoder.go:172-210 | every integer that fits its kind's width has a layout the theorems speak of |
| OdinWire.OthersAreLegal | internal/odin/decoder.go:211-250 | and so have every float, character and string up to the length bound |
| OdinWire.ReferenceOps | internal/odin/decoder.go:145-171 | the references: id, sixteen bytes in hex, or text |
| OdinWire.HexIsHex | internal/odin/decoder.go:80-88 | two lower-case digits for each byte, the high one first |
| OdinWire.PlainOps | internal/odin/decoder.go:251-267 | nulls, type marks out of place, the end, and unknown opcodes |
| OdinWire.MarkBytes | internal/odin/decoder.go:43-67 | the three type markers and what each does to the cache |
| OdinWire.NodeOps | internal/odin/decoder.go:94-123 | opcodes 0x01 to 0x07: tokens, depth and cursor |
| OdinWire.ArrayBytes | internal/odin/decoder.go:124-144 | opcode 0x08: count, width and bytes, or the refusal |
| OdinDecoder.ReadString | internal/odin/reader.go:67-88 | the string at the cursor, or failure, the cursor never moving back |
| OdinDecoder.Decoder.ReadType | internal/odin/decoder.go:43-67 | the type and the new cache at the cursor; tokens and depth untouched |
| OdinDecoder.Decoder.StartNode | internal/odin/decoder.go:94-113 | the four node opcodes |
| OdinDecoder.Decoder.StartArray | internal/odin/decoder.go:117-120 | the array opcode with its declared length |
| OdinDecoder.Decoder.ReadPrimArray | internal/odin/decoder.go:124-144 | the length check before the bytes are taken |
| OdinDecoder.Decoder.ReadScalar | internal/odin/decoder.go:166-250 | every scalar opcode at its width |
| OdinDecoder.Decoder.ReadRef | internal/odin/decoder.go:145-165 | the reference opcodes |
| OdinDecoder.Decoder.Operand | internal/odin/decoder.go:90-268 | one opcode: new tokens, depth, cache and cursor |
| OdinDecoder.Decoder.Run | internal/odin/decoder.go:90-268 | the loop over opcodes ends for every blob and leaves the tokens of its decoding |
| OdinDecoder.DecodeBlob | internal/odin/value.go:130-143 | a blob decodes to its tokens; for the layout of a forest these are the forest's |
| OdinTree.TreeBuilder.NextItem | internal/odin/tree.go:37-70 | on any token list, balanced or not, the call ends, leaves the type stack as it found it, computes the next item, and records each primitive array it decodes with the type in force |
| OdinTree.TreeBuilder.FillContainer | internal/odin/tree.go:75-95 | likewise for the fields of a container, unnamed ones collected apart |
| OdinTree.TreeBuilder.BuildNodeBody | internal/odin/tree.go:97-109 | likewise for a node under its own type |
| OdinTree.TreeBuilder.BuildArrayBody | internal/odin/tree.go:111-124 | likewise for an array under the enclosing type |
| OdinTree.FillReads | internal/odin/tree.go:75-95 | over a well-nested stretch a container gains exactly the stretch's entries |
| OdinTree.ListReads | internal/odin/tree.go:111-124 | an array over such a stretch gains exactly its values in order |
| OdinTree.OneReads | internal/odin/tree.go:37-70 | the first item of such a stretch is read as its entry and the cursor lands behind it |
| OdinTree.BuildReads | internal/odin/tree.go:22-27 | a well-nested token list builds the value its nesting describes |
| OdinTree.ForestIsWellNested | internal/odin/decoder.go:90-268 | the tokens of a legal forest are well nested |
| OdinValues.IntegerFields | internal/odin/tree.go:136-190 | a named integer of every kind is built into its number, from its bytes |
| OdinValues.FloatFields | internal/odin/tree.go:170-178 | a float into its bits |
| OdinValues.PlaceholderFields | internal/odin/tree.go:184-185 | a decimal or GUID into "?" |
| OdinValues.TruthField | internal/odin/tree.go:179-183 | a truth value is false for byte 0 only |
| OdinValues.StringField | internal/odin/tree.go:184-185 | a string into its text |
| OdinValues.CharField | internal/odin/tree.go:184-185 | a character into the text of its unit |
| OdinValues.NullField | internal/odin/tree.go:60-62 | a null into nothing |
| OdinValues.IdFields | internal/odin/tree.go:191-208 | a reference by id into {"$ref": id}, with "#" before an id inside the blob |
| OdinValues.GuidField | internal/odin/tree.go:191-208 | a reference by GUID into its hex text |
| OdinValues.TextRefField | internal/odin/tree.go:191-208 | a reference by text into that text |
| OdinValues.ContainsIff | internal/odin/tree.go:226-228 | whether a type's name contains another text |
| OdinValues.ElementValue | internal/odin/tree.go:231-250 | an array element at each width, by the enclosing type |
| OdinValues.ElementsInPlace | internal/odin/tree.go:225-250 | an array has an element for every full width, each at its place |
| OdinValues.ArrayValue | internal/odin/tree.go:221-252 | an array of bytes into their hex text, a wider one into its elements, under "$items" |
| OdinValues.NodeField | internal/odin/tree.go:75-109 | what a node's field of any name holds: the last item of that name, the unnamed items, the type, or nothing |
| OdinValues.ArrayElements | internal/odin/tree.go:111-124 | an array's elements are its items' values in order |
| OdinPrint.DecodePrimArray | internal/odin/print.go:156-199 | the elements of a primitive array, one by one at the declared width, with their label and count |
| OdinPrint.PrintTree | internal/odin/print.go:13-52 | the printer's single loop with its own type stack: what each line shows, at which indentation |
| OdinPrint.PrintReads | internal/odin/print.go:13-52 | printing a well-nested stretch gives its lines and leaves the printer's stack as it was |
| OdinPrint.TokenPrints | internal/odin/print.go:13-59 | what each kind of token prints, and at which indentation |
| OdinPrint.LabelShows | internal/odin/print.go:156-199 | the label of a primitive array by its enclosing type |
| OdinPrint.BytesPrinted | internal/odin/print.go:156-199 | an array of bytes is printed as their numbers |
| OdinPrint.ElementsAgree | internal/odin/tree.go:221-252 | at widths above one the printed elements are, one for one, those of the built list |
| OdinPrint.ElementCount | internal/odin/print.go:156-165 | there are as many elements as the printer says |
| OdinPrint.PrinterTypes | internal/odin/print.go:13-52 | every primitive array is printed under the type that encloses it |
| OdinTree.BuilderTypes | internal/odin/tree.go:37-133 | over the whole tree the builder decodes exactly the list's primitive arrays, in order, each under the type that encloses it |
| OdinPrint.SameTypes | internal/odin/print.go:13-52 | so the printer shows exactly the arrays the builder decodes, in the same order, each under the same type |
| OdinPrint.ForestPrints | internal/odin/print.go:13-52 | a decoded forest prints as its nesting |
| OdinPrint.DecodeBlobValue | internal/odin/value.go:130-143 | decoding and building the layout of a forest gives the forest's value |
| OdinPrint.ForestMeaning | internal/odin/tree.go:22-27 | the same, as a statement about the two functions |
| NsisSignature.HammingLE | internal/recon/nsis.go:158-169 | the number of differing bytes, or the full length for a short window |
| NsisSignature.HammingOneIff | internal/recon/nsis.go:156-169 | a distance of at most one means no two positions differ |
| NsisSignature.NearMeans | internal/recon/nsis.go:115-118 | a window is near exactly when no two of its bytes differ from the signature |
| NsisSignature.OneHalfIntact | internal/recon/nsis.go:115-118 | one changed byte leaves one half of the signature intact |
| NsisSignature.Add | internal/recon/nsis.go:122-133 | an offset is added once, if its window is near |
| NsisSignature.SignatureCandidates | internal/recon/nsis.go:119-154 | the two searches give the near windows with intact magic, then the others, each in order |
| NsisSignature.CandidatesExactly | internal/recon/nsis.go:119-154 | although only two halves are searched for, the result is exactly the offsets within one byte of the signature, none twice |
| NsisSignature.SaneFirstHeader | internal/recon/nsis.go:175-193 | the size checks |
| NsisSignature.HeaderIs | internal/recon/nsis.go:98-111 | a header at a place, from its bytes: a near signature and two size fields with these bounds |
| NsisSignature.WindowIs | internal/recon/nsis.go:87-96 | the part of a file that is searched: at most 96 MiB |
| NsisSignature.SubTypeAgreesIff | internal/recon/nsis.go:195-213 | the type reported at a hit is that of the bytes right behind its 28-byte header exactly when these and the bytes four further on agree on starting LZMA and on starting bzip2 |
| NsisSignature.DataBehindHeaderMissed | internal/recon/nsis.go:195-213 | an LZMA stream behind the header with a dictionary below 0x42000000 is reported plain, and so is a bzip2 stream whose first block begins as blocks do |
| NsisSignature.LzmaArchiveIsPlain | internal/recon/nsis.go:87-118 | a concrete file of 40 bytes that is found, holds an LZMA stream behind its header, and is reported plain |
| NsisSignature.ScanForFirstHeader | internal/recon/nsis.go:87-113 | finds nothing exactly when no near window has believable sizes around it; otherwise the first with intact magic, or failing that the first |
| NsisSignature.DetectNSIS | internal/recon/nsis.go:49-82 | a header is reported exactly when the overlay or the head of the file holds one, the overlay first |
| NsisSignature.TamperedHeaderIsSeen | internal/recon/nsis.go:24-26 | a header with one changed signature byte near the start of the overlay is found |
| NsisStrings.ResolveString | internal/recipe/nsis.go:1080-1156 | a string in either encoding, with every escape expanded, for any offset and table |
| NsisWire.ByteCodes | internal/recipe/nsis.go:1123-1150 | what the character or code at any place of a one-byte table contributes, from its bytes |
| NsisWire.UnitCodes | internal/recipe/nsis.go:1094-1122 | the same for a two-byte table |
| NsisWire.FolderIsShell | internal/recipe/nsis.go:1037-1046 | of the two ids in a shell code the user's names the folder if it has a name, else that of all users |
| NsisWire.VariableIsVar | internal/recipe/nsis.go:1057-1075 | the names of all variables, character by character |
| NsisWire.CsidlsOf | internal/recipe/nsis.go:986-1017 | which ids have which folder name; CsidlsOf2, CsidlsOf3 and CsidlsOf4 cover the rest of the table |
| NsisWire.Utf8Bits | internal/recipe/nsis.go:1094-1122 | a character written in UTF-8 has its bits, six in each byte after the first |
| NsisStrings.NextStringLen | internal/recipe/nsis.go:1160-1175 | the length of a string with its terminator |
| NsisStrings.DumpStrings | internal/recipe/nsis.go:916-950 | the strings of a table in order; for a table of symbolic strings, exactly the non-empty ones |
| NsisStrings.ParamSplits | internal/recipe/nsis.go:1080-1156 | a parameter below 2^14 survives being split into two seven-bit bytes |
| NsisStrings.SymResolves | internal/recipe/nsis.go:1080-1156 | a literal, an escaped literal or a reference contributes its text and no more |
| NsisStrings.StringResolves | internal/recipe/nsis.go:1080-1156 | a string resolves to the text of its symbols wherever it stands |
| NsisStrings.EncodingsAgree | internal/recipe/nsis.go:1080-1156 | the one-byte and the two-byte table of the same strings resolve to the same text |
| NsisStrings.StringLength | internal/recipe/nsis.go:1160-1175 | no byte of a symbol is taken for a terminator: the length is that of the encoding |
| NsisStrings.WalkVisitsStrings | internal/recipe/nsis.go:933-949 | walking a table visits its strings one after another and nothing else |
| NsisStrings.DumpsItsStrings | internal/recipe/nsis.go:916-950 | the dump of a table is its non-empty strings in order |
| NsisPaths.SanitizeRelLoop | internal/recipe/nsis.go:1217-1239 | cleaning a path gives only plain components: no separators, no `.` or `..`, nothing empty |
| NsisPaths.SanitizeKeepsTidy | internal/recipe/nsis.go:1217-1239 | a relative path of tidy components is kept as it is |
| NsisPaths.SeparatorsAlike | internal/recipe/nsis.go:1218 | backslashes separate as slashes do |
| NsisPaths.DriveDropped | internal/recipe/nsis.go:1219-1224 | a drive letter is dropped |
| NsisPaths.SlashDropped | internal/recipe/nsis.go:1224 | and so are leading slashes |
| NsisPaths.NoSegment | internal/recipe/nsis.go:1227-1230 | empty components, "." and ".." contribute nothing |
| NsisPaths.RootVariables | internal/recipe/nsis.go:1181-1193 | the variables of the install root vanish, plugins and temporary files have a directory of their own |
| NsisPaths.FolderVariable | internal/recipe/nsis.go:1194-1200 | a shell folder becomes a directory of its name |
| NsisPaths.OtherVariable | internal/recipe/nsis.go:1194-1215 | any other variable becomes a directory of its number or name |
| NsisPaths.StripKeeps | internal/recipe/nsis.go:1201-1212 | of which only dots, slashes and colons are taken out |
| NsisPaths.SafeJoinIff | internal/recipe/nsis.go:1243-1250 | the guard lets a path through exactly when, cleaned, it is at or below the base |
| NsisPaths.SafeJoinKeepsSanitized | internal/recipe/nsis.go:512-529 | a cleaned path is never rejected and, unless empty, lands strictly below the base |
| FileTree.MkdirAllContained | internal/recipe/nsis.go:585-593 | creating directories at or below the base changes nothing outside it |
| FileTree.MkdirAllCreates | internal/recipe/nsis.go:585-593 | what there was is kept, what is new is a directory on the way to the one asked for, and a failure changes nothing |
| FileTree.MkdirAllIff | internal/recipe/nsis.go:585-593 | it fails exactly if a file is in the way; otherwise the directory and all above it are there |
| FileTree.ClosedStays | internal/recipe/nsis.go:533-637 | writing, moving and removing leave every entry in a directory of the tree |
| FileTree.WriteContained | internal/recipe/nsis.go:533-556 | writing a file below the base changes nothing else |
| FileTree.RenameContained | internal/recipe/nsis.go:619-627 | moving within the base changes nothing outside it |
| FileTree.RenameKeepsFiles | internal/recipe/nsis.go:619-627 | moving a directory keeps every file below it, under its new place |
| FileTree.RemoveContained | internal/recipe/nsis.go:628-637 | removing below the base changes nothing outside it |
| NsisWalk.InsertKeepsOrder | internal/recipe/nsis.go:501-508 | a new variable name keeps the list longest first |
| NsisWalk.SetVarKeepsKeys | internal/recipe/nsis.go:501-508 | the name list always holds exactly the assigned variables, longest first |
| NsisWalk.StepKeepsInv | internal/recipe/nsis.go:584-738 | whatever one instruction and its strings, nothing outside the output directory nor the directory itself changes, and the counters stay consistent |
| NsisWalk.RunKeepsInv | internal/recipe/nsis.go:805-819 | the same after any program: Known + Unknown is the steps taken, Control <= Known, Files <= Wanted <= Known |
| NsisWalk.CountedIsWritten | internal/recipe/nsis.go:533-556 | an instruction counts a file exactly when it names one below the output directory and its record is written there; the file then holds the record's bytes |
| NsisWalk.ExtractedHoldsPayload | internal/recipe/nsis.go:500-637 | in any program a file counted by an instruction holds its record's bytes at the end, unless a later instruction writes it, or moves, removes or replaces it or a directory above it |
| NsisWalk.ExtractionBytes | internal/recipe/nsis.go:533-556 | which bytes: those behind the size at the record's place, inflated if the size has its top bit; counted exactly if the record is there and a file can be put there, and without a record nothing is written |
| NsisWalk.CountingOps | internal/recipe/nsis.go:584-738 | which opcodes are known, which are control flow, and which can count a file |
| NsisWalk.AssigningOps | internal/recipe/nsis.go:640 | opcode 25 assigns a variable, no other does |
| NsisWalk.TreeOps | internal/recipe/nsis.go:584-638 | what opcodes 11, 16, 21 and 23 do to the tree and to the current directory, and that no other but an extraction touches them |
| NsisWalk.RecordingOps | internal/recipe/nsis.go:642-690 | which opcodes are recorded, with which operands |
| NsisWalk.FirstReplaced | internal/recipe/nsis.go:490-500 | a variable is replaced where it first occurs, and then in what follows |
| NsisWalk.NoneReplaced | internal/recipe/nsis.go:490-500 | a text without it stays as it is |
| NsisWalk.PlainNameGoes | internal/recipe/nsis.go:512-532 | a plain relative name goes below the current directory of the walk |
| NsisWalk.RootedNameGoes | internal/recipe/nsis.go:512-532 | a name with a variable, slash or drive in front goes the same way from any directory |
| NsisUnpack.Walker.Text | internal/recipe/nsis.go:490-499 | a string parameter with the assigned variables filled in, longest name first |
| NsisUnpack.Walker.Assign | internal/recipe/nsis.go:501-508 | the new variables and name list |
| NsisUnpack.Walker.CreateDir | internal/recipe/nsis.go:585-593 | the tree and, if asked for, the current directory |
| NsisUnpack.Walker.Extract | internal/recipe/nsis.go:594-618 | the tree and the counters after one extraction |
| NsisUnpack.Walker.MoveFile | internal/recipe/nsis.go:619-627 | the tree after one rename |
| NsisUnpack.Walker.Delete | internal/recipe/nsis.go:628-637 | the tree after one deletion |
| NsisUnpack.Walker.Exec | internal/recipe/nsis.go:805-819 | one instruction, known or unknown |
| NsisUnpack.ExtractStructured | internal/recipe/nsis.go:743-820 | the walk over a header's entry table: contained, and accounted for |
| NsisUnpack.HeaderBytes | internal/recipe/nsis.go:743-815 | where in the header the entries, the strings and their ends are found, and where the data start |
| NsisUnpack.EntryBytes | internal/recipe/nsis.go:800-822 | an entry's opcode and six operands, four bytes each |
| NsisUnpack.NoHeader | internal/recipe/nsis.go:743-760 | without room for a header nothing is walked |
| NsisUnpack.RunContained | internal/recipe/nsis.go:743-820 | any program from a fresh start is contained and accounted for |
| RawRecords.ExtractRawRecords | internal/recipe/nsis.go:828-855 | always ends; the records are in bounds, disjoint and increasing, and the final cursor is start + 4 * skipped + the sum of (4 + size) |
| RawRecords.CleanArchive | internal/recipe/nsis.go:828-855 | on a clean run of records every one is recovered in order, up to the limit, and none is skipped |
| RawRecords.CleanBytes | internal/recipe/nsis.go:828-855 | and its bytes are the record's |
| DecompiledLines.HeaderHexIff | internal/recipe/csplit.go:106-111 | a line is a header with these digits exactly when the pattern matches it |
| DecompiledLines.SepIsNoHeader | internal/recipe/csplit.go:106-111 | a separator line is never taken for a header |
| DecompiledLines.ExtractFuncName | internal/recipe/csplit.go:666-713 | the name before the first parenthesis that a name attaches to; the trailing and leading trims never remove anything |
| DecompiledLines.NameIsSpan | internal/recipe/csplit.go:666-713 | it is the whole run of name characters, or nothing for a primitive type |
| DecompiledLines.NameCharIff | internal/recipe/csplit.go:692-702 | which characters a name is made of |
| DecompiledLines.PrimitiveIff | internal/recipe/csplit.go:703-711 | which type names are never taken for a function's |
| DecompiledLines.TotalIff | internal/recipe/csplit.go:428-441 | which lines are totals |
| DecompiledLines.LinesOfText | internal/recipe/dedupe.go:264-267 | reading a text line by line gives the lines it was written from |
| DecompiledLines.AnonIff | internal/recipe/csplit.go:114-115 | a name is anonymous exactly for one of five prefixes and an underscore |
| Chars.TrimIs | internal/recipe/csplit.go:402-426 | trimming takes the blanks off both ends and nothing else |
| BucketFiles.BucketIsMiddleDigits | internal/recipe/csplit.go:580-588 | the bucket of an address of up to sixteen hex digits is its fourth to sixth from the right, zeros standing in for missing ones |
| BucketFiles.UnreadableAddress | internal/recipe/csplit.go:580-588 | what is no number of 64 bits goes to the first bucket |
| BucketFiles.FilesAreGathered | internal/recipe/csplit.go:592-661 | for any sequence of writes every file ends as what it held and then, in order, the blocks whose write returned its path |
| BucketFiles.FilesAreTargets | internal/recipe/csplit.go:592-646 | and there is a file exactly for every path returned |
| BucketFiles.CapIff | internal/recipe/csplit.go:592-614 | no block is added to a file at the soft cap if and only if no block returns to a bucket whose earlier blocks together have reached it |
| BucketFiles.CapHolds | internal/recipe/csplit.go:592-614 | in particular when every bucket is visited in one run |
| BucketFiles.ReturnToFullFile | internal/recipe/csplit.go:592-614 | a return to a bucket of two full files that adds to its first and, still within the bucket, to its second |
| BucketFiles.BucketWriter.Write | internal/recipe/csplit.go:592-614 | the whole new state of the files, buffered text included, and the path returned |
| BucketFiles.BucketWriter.OpenFile | internal/recipe/csplit.go:616-646 | a file is opened for appending and its present size counts towards the cap |
| BucketFiles.BucketWriter.CloseOpen | internal/recipe/csplit.go:648-661 | after closing everything written is on disk |
| Splitter.RecordsAreSpans | internal/recipe/csplit.go:428-441 | the records are exactly the headers of the input, each with every line up to the next header or total |
| Splitter.OwnedOnce | internal/recipe/csplit.go:428-441 | a line belongs to at most one record, and to one exactly when a header stands before it with no end in between |
| Splitter.SignatureIs | internal/recipe/csplit.go:402-412 | a record's signature is the first line below its header with something in it |
| Splitter.KeepIs | internal/recipe/csplit.go:413-426 | all lines are held until their text has reached 64 MB, and then a note instead |
| Splitter.SizeIsText | internal/recipe/csplit.go:384-426 | the size entered is that of the record's whole text |
| Splitter.Described | internal/recipe/csplit.go:306-381 | what the separator line and the catalog entry of a record say |
| Splitter.Splitter.Flush | internal/recipe/csplit.go:306-381 | the open record is written and entered in the catalog, and every count follows |
| Splitter.Splitter.StartRecord | internal/recipe/csplit.go:383-400 | a header closes the open record and opens one with itself as first line |
| Splitter.Splitter.AppendLine | internal/recipe/csplit.go:402-426 | a line is counted, perhaps becomes the signature, and is kept below the memory cap |
| Splitter.Splitter.OnLine | internal/recipe/csplit.go:428-441 | one line, whichever of these it is |
| Splitter.SplitDecompiledC | internal/recipe/csplit.go:443-478 | catalog and files are those of the records, counts and byte totals are their sums, and no record at all is an error for a non-empty input |
| Rescan.ScanSplitRecords | internal/recipe/dedupe.go:244-292 | the addresses and bodies of a split file in order |
| Rescan.CleanIff | internal/recipe/dedupe.go:268-284 | the body lines the reader loses are exactly the separator-like ones and those that are headers but for trailing carriage returns |
| Rescan.StrayReturnLost | internal/recipe/dedupe.go:268-276 | a header with a carriage return left at its end is such a line |
| Rescan.SeparatorLikeLost | internal/recipe/dedupe.go:277-284 | a comment that starts like a separator is another |
| Rescan.RoundTripIff | internal/recipe/dedupe.go:244-292 | a file of records reads back as each of them once, in order, address and body, if and only if all body lines are clean |
| Rescan.SplitRoundTripIff | internal/recipe/csplit.go:306-448 | the same for every file of a whole split, whose records are those the catalog files there |
| Rescan.WholeBody | internal/recipe/csplit.go:402-426 | without the memory cap the body is every line below the header |
| CloneCanon.HashBody | internal/recipe/dedupe.go:326-349 | the streaming scan writes the canonical form |
| CloneCanon.CanonIsReplacement | internal/recipe/dedupe.go:317-381 | what is written is the replacement of the one leftmost, greedy, word-anchored choice of matches |
| CloneCanon.ScanIsReplacement | internal/recipe/dedupe.go:326-381 | any leftmost greedy choice renders to what the scan writes |
| CloneCanon.MatchesUnique | internal/recipe/dedupe.go:356-381 | there is only one such choice |
| CloneCanon.FivePrefixes | internal/recipe/dedupe.go:356-376 | a three-letter word, an underscore and hex digits are a symbol for exactly five words |
| CloneCanon.SymbolsDoNotMatter | internal/recipe/dedupe.go:317-349 | replacing the address symbols of a body by any others, of any length, leaves its stream unchanged |
| CloneCanon.SameStreamExactly | internal/recipe/dedupe.go:317-349 | any two bodies have the same stream, with the markers copied from them at the same places, if and only if one is the other with its symbols renamed |
| CloneCanon.SameStreamIff | internal/recipe/dedupe.go:317-349 | for bodies that do not spell the marker the stream alone decides it |
| CloneCanon.MarkerCollides | internal/recipe/dedupe.go:317-349 | two bodies of different shape with one stream, one of them spelling the marker |
| Dedupe.Accumulator.Add | internal/recipe/dedupe.go:121-156 | after each record the groups are those of the first distinct keys within the budget, each with its count, first member and first 64 later ones |
| Dedupe.GroupShows | internal/recipe/dedupe.go:121-156 | a group shows the first record of its key, how many there are, the next 64 in order, and whether there are more |
| Dedupe.MembersAre | internal/recipe/dedupe.go:121-156 | its members are the records of its key |
| Dedupe.DedupeFunctionBodies | internal/recipe/dedupe.go:113-210 | duplicates is the sum of (count - 1), unique the rest; the report lists the groups of two or more, one for each such key, largest first |
| Dedupe.UniqueMeans | internal/recipe/dedupe.go:161-169 | unique functions are the groups and every record left without one |
| Dedupe.UniqueExceeds | internal/recipe/dedupe.go:161-169 | they exceed the distinct bodies by the repetitions of those past the budget |
| Dedupe.UniqueIff | internal/recipe/dedupe.go:161-169 | they are the distinct bodies if and only if none of those past the budget comes up again |
| Dedupe.WithinBudget | internal/recipe/dedupe.go:161-169 | in particular while the budget is not exceeded |
| Dedupe.PastBudgetOvercounts | internal/recipe/dedupe.go:145-151 | at every budget: as many distinct bodies as it allows, then a new one twice, are reported as one too many |
| Dedupe.Insert | internal/recipe/dedupe.go:204-210 | the group is put in at one place, all others keep theirs, and the report stays in order, larger groups first and then by address |
| Dedupe.NotAfterIff | internal/recipe/dedupe.go:204-210 | addresses are compared as texts |
| NameRes.ResolveNameFromStrings | internal/recipe/nameres.go:30-47 | a name exactly when it is the only distinct qualified identifier among the strings |
| NameRes.ChainsAreQualified | internal/recipe/nameres.go:14-24 | two words or more joined by "::" are a qualified identifier |
| NameRes.QualifiedIsChain | internal/recipe/nameres.go:14-24 | and nothing else is |
| NameRes.Renamer.Flush | internal/recipe/nameres.go:166-182 | the end of a group: a name is given only to an anonymous function with a free sole candidate; without an address nothing is cleared |
| NameRes.BuildRenameMap | internal/recipe/nameres.go:137-213 | the pass over the rows decides exactly the groups the rows fall into |
| NameRes.SoundAll | internal/recipe/nameres.go:137-213 | every name given is new, is given to one address only, and was the sole candidate of a group of an anonymous function there; a group goes without only if its name was taken |
| NameRes.GroupedMeansOwn | internal/recipe/nameres.go:164-212 | when the rows of an address stand together and none before it lacks an address, every group is judged by exactly its own strings |
| NameRes.OwnIff | internal/recipe/nameres.go:164-212 | of rows that have an address, or lack it only at the end, every group is judged by exactly its own strings if and only if the rows of each address stand together |
| NameRes.OwnMeansGrouped | internal/recipe/nameres.go:164-212 | with rows that lack it in between, grouping is still necessary where the strings all differ |
| NameRes.BlanksCanRescue | internal/recipe/nameres.go:164-212 | where they do not, rows that are not grouped can be judged rightly by coincidence |
| NameRes.NamedByOwnStrings | internal/recipe/nameres.go:137-213 | over grouped rows a name given was the only qualified identifier among all that function's strings |
| NameRes.TwoRuns | internal/recipe/nameres.go:164-212 | an address that comes up in two runs of rows is judged once for each, and gets the later run's name though its strings have two candidates |
| NameRes.TwoRunsExample | internal/recipe/nameres.go:164-212 | three concrete rows of that kind |
| NameRes.StrayName | internal/recipe/nameres.go:166-170 | a function is given a name that only a row without an address mentions |
| NameRes.NamedIff | internal/recipe/nameres.go:137-213 | which name an address gets is told by the groups alone: that of its last group that is the first to offer a new sole candidate |
| NameRes.CollectRealNames | internal/recipe/nameres.go:108-131 | the names of the table that are not anonymous |
| NameRes.RealNamesAre | internal/recipe/nameres.go:108-131 | a name of the table is real exactly if it is not empty and not anonymous |
| NameRes.ApplyRenamesToSymbols | internal/recipe/nameres.go:217-266 | every parsed line with its new name if its address has one |
| NameRes.RealNamesKeptIff | internal/recipe/nameres.go:108-266 | all real names of the table are unchanged if and only if no group of the rows claims a name for the address of one |
| NameRes.AgreementKeepsRealNames | internal/recipe/nameres.go:108-266 | that is so when the string rows name functions as the symbol table does |
| NameRes.GivenNamesAreFresh | internal/recipe/nameres.go:108-266 | after the rewrite a given name stands at its own address only, unless an anonymous symbol spelled it |
| PauseGates.PauseGate.constructor | internal/engine/types.go:62-66 | a new gate is open |
| PauseGates.PauseGate.Pause | internal/engine/types.go:69-80 | an open gate gets a fresh channel, a paused one keeps its own; every replaced channel is closed |
| PauseGates.PauseGate.Resume | internal/engine/types.go:83-94 | the channel is closed unless it already is: never twice |
| PauseGates.PauseGate.IsPaused | internal/engine/types.go:97-107 | whether the current channel is open |
| PauseGates.PauseGate.Captured | internal/engine/types.go:110-120 | the channel a waiter takes is the one installed at that moment |
| PauseGates.GateTurns | internal/engine/types.go:62-107 | pausing leaves the gate paused and resuming leaves it open, by exactly one channel each |
| PauseGates.GateStaysTidy | internal/engine/types.go:56-120 | in every interleaving every replaced channel is closed and none was closed twice |
| PauseGates.BlockedIff | internal/engine/types.go:110-120 | a waiter is blocked exactly when the gate was paused at its capture and nobody has resumed it since |
| PauseGates.ResumeFrees | internal/engine/types.go:83-120 | whoever waited before a resume can proceed from then on |
| ToolChanges.ToolsService.BroadcastChange | internal/services/tools_service.go:64-69 | the old channel is closed, once, and a fresh one installed |
| ToolChanges.ToolsService.UpdateOp | internal/services/tools_service.go:72-77 | the operation is entered and one generation ended |
| ToolChanges.ToolsService.RemoveOp | internal/services/tools_service.go:80-85 | the operation is gone and one generation ended |
| ToolChanges.ToolsService.Captured | internal/services/tools_service.go:109-120 | the channel a waiter takes is the one installed at that moment |
| ToolChanges.EditsAre | internal/services/tools_service.go:64-85 | an edit changes one tool's entry only, a broadcast closes the last channel and adds one |
| ToolChanges.ServiceStaysTidy | internal/services/tools_service.go:64-85 | in every interleaving the current channel is open, every other closed, none twice |
| ToolChanges.WokenIff | internal/services/tools_service.go:109-120 | a waiter's channel is open exactly while no broadcast was made since its capture |
| ToolChanges.NothingMissed | internal/services/tools_service.go:72-120 | while a waiter is blocked, every edit since its capture is by a writer still to broadcast; with none outstanding the operations are those it started from |
| ToolChanges.LateWaiterIsWoken | internal/services/tools_service.go:72-120 | a waiter arriving between an edit and its broadcast is woken by that broadcast |
| PipelineServices.PipelineService.Begin | internal/services/pipeline_service.go:44-55 | only a caller that finds the service idle claims it |
| PipelineServices.PipelineService.DrainEvent | internal/services/pipeline_service.go:92-107 | one event in the status: an empty target and missing progress leave theirs |
| PipelineServices.PipelineService.ResetStatus | internal/services/pipeline_service.go:186-192 | everything back to zero |
| PipelineServices.PipelineService.FinishStatus | internal/services/pipeline_service.go:199-220 | the terminal status, with gate and cancel function dropped |
| PipelineServices.PipelineService.Stop | internal/services/pipeline_service.go:135-147 | the gate is opened and the cancel function used up |
| PipelineServices.PipelineService.Pause | internal/services/pipeline_service.go:150-162 | gate and flag, if a run is on |
| PipelineServices.PipelineService.Resume | internal/services/pipeline_service.go:165-177 | gate and flag, if the gate is paused |
| PipelineRuns.InvAlways | internal/services/pipeline_service.go:44-220 | the invariant of all that follows holds in every state of every interleaving |
| PipelineRuns.OneRunAtATime | internal/services/pipeline_service.go:44-132 | at most one run is active, and the service is running exactly while there is one |
| PipelineRuns.IdleIsQuiet | internal/services/pipeline_service.go:44-220 | when it is not running no drainer is live, it is not paused, gate and cancel function are gone, and the phase is empty, "done" or "error" |
| PipelineRuns.TerminalStays | internal/services/pipeline_service.go:78-82 | nothing overwrites the terminal status before the next run |
| PipelineRuns.FinishTellsAll | internal/services/pipeline_service.go:199-220 | the terminal status is folded from all events the engine sent, in order, unless the drainer panicked, and shows the last target, counts and step |
| PipelineRuns.StatusShows | internal/services/pipeline_service.go:87-107 | while a run is on, in every interleaving, the status shows phase and counts of the last event written, the last target and the last step |
| PipelineRuns.PauseTakes | internal/services/pipeline_service.go:150-177 | Pause shuts the active run's gate, Resume opens it, and each shows in the paused flag and nowhere else |
| PipelineRuns.FoldShows | internal/services/pipeline_service.go:92-107 | the phase and counts of the last event, the last non-empty target, the last progress |
| PipelineRuns.CancelledIff | internal/services/pipeline_service.go:135-147 | a run is cancelled exactly when somebody called Stop after it began |
| PipelineRuns.StopReaches | internal/services/pipeline_service.go:135-147 | Stop cancels the active run and opens the gate it waits at |
| PipelineRuns.PausedOverOpenGateIff | internal/services/pipeline_service.go:135-162 | the paused flag is up over an open gate exactly when a Stop found it up and nobody has paused since |
| PipelineRuns.CanMoveIff | internal/services/pipeline_service.go:78-132 | an active run or its drainer can take a step exactly unless the drainer has panicked, the queue is full and the engine is at a send |
| PipelineRuns.CanFinishIff | internal/services/pipeline_service.go:78-147 | exactly then, too, some steps still bring the run to its end; from the excepted state none do, Stop, Pause and Resume included |
| PipelineRuns.StuckForever | internal/services/pipeline_service.go:44-147 | a run that is stuck keeps the service running in every state that follows |
| PipelineRuns.StuckIsReachable | internal/services/pipeline_service.go:78-117 | it can come to that |
| EngineRun.Engine.Run | internal/engine/pipeline.go:114-124 | on every way out the outermost trace ends with the one terminal event, nested runs send none and are at most three deep, and a run that succeeds has the results and totals of its files |
| EngineRun.Engine.RunBody | internal/engine/pipeline.go:126-367 | the same without the terminal event |
| EngineRun.Engine.Analyse | internal/engine/pipeline.go:148-218 | what the first pass settles and what becomes a task |
| EngineRun.Engine.Execute | internal/engine/pipeline.go:253-311 | the results of direct tasks, and the native files set aside |
| EngineRun.Engine.ExecuteNatives | internal/engine/pipeline.go:313-355 | the results of native files; with several of them all strings are run before the decompiler for any |
| EngineRun.Engine.MaybeRecurseUnpack | internal/engine/pipeline.go:31-69 | a nested run, whatever comes of it, adds only events below the depth bound |
| EngineRun.OneResultPerFile | internal/engine/pipeline.go:114-367 | skipped, failed, batched or executed, every scanned file has exactly one result |
| EngineRun.OutcomeTable | internal/engine/pipeline.go:148-355 | what a file's result is, by what the lists, classification, runtime, tools, recipe and decompiler say of it |
| EngineRun.BatchedIff | internal/engine/pipeline.go:253-355 | native files run in batches exactly if two of them get that far |
| EngineRun.BuildSummary | internal/engine/pipeline.go:930-976 | total = success + failed + skipped, each the number of such results |
| UnrealRoots.HasBuildsSegment | internal/scanner/grouper.go:300-307 | whether a component is "Builds", whatever its case |
| UnrealRoots.IsAncestorRoot | internal/scanner/grouper.go:311-323 | whether one path is strictly above another, case aside |
| UnrealRoots.DedupeUnrealRoots | internal/scanner/grouper.go:232-277 | the kept roots in their order |
| UnrealRoots.KeptAreMinimal | internal/scanner/grouper.go:232-277 | they are exactly the minimal ones the Builds rule leaves: none above another, some if there were any, and above every dropped one a kept one that is unique but for case |
| UnrealRoots.BuildsRule | internal/scanner/grouper.go:232-262 | where a root is not under a Builds directory no kept one is; those that are not are dropped for one another only |
| UnrealRoots.Rehome | internal/scanner/grouper.go:183-199 | each kept root ends with its own containers and then those of the dropped roots whose home it is, in order; in all every dropped root below a kept one is counted once |
| UnrealRoots.OnlyBuildsAreLost | internal/scanner/grouper.go:183-199 | the containers of a root are lost only if it is under a Builds directory and no kept root is above it |
| UnrealRoots.HomeUnique | internal/scanner/grouper.go:186-199 | which kept root takes them does not depend on the order of the roots, case aside |
| UnrealRoots.HomeIsLongest | internal/scanner/grouper.go:186-196 | it is the first of those with the longest path |

## Left out

- Process launching, downloads, HTTP handlers, the desktop bindings, configuration files: effects and foreign calls.
- Decompression codecs, the PE parser, JSON and CSV reading and FNV hashing: given functions, or the model starts behind them. Records reach `Dedupe` with their hash, so two bodies with one hash are one group.
- Compressed `.usmap` bodies: the codec is a parameter; the theorems about layouts are for uncompressed images.
- The text of a property type (`UsmapPropertyType.String`) and the label formatting beside it.
- Float values: payloads are kept as raw bits, and neither the printer's number formatting nor `clean32` is modelled. Printed lines are records of what they show.
- Odin decimals, scalar GUIDs and unnamed internal references: reduced by the decoder, and so in the layout's meaning too.
- The guess whether a string table is UTF-16: passed in as an input.
- Windows volumes, long paths and Unicode case folding: paths are component lists, and letter case is that of ASCII.
- Failures of the file system while unpacking other than those of the target path itself, and of the bucket and index files.
- The text of the metadata lines of an NSIS walk: each is counted, not spelled.
- The order sort.Slice gives to variable names of equal length: the model keeps the order of assignment.
- Lines longer than the scanner's buffer; the model starts from the lines. Input and output errors of the split, its symbol table, class list and cross-reference files.
- The file names of split files: a file is known by its bucket and index. The name the reader guesses for a record it reads back, and the order in which it visits the files.
- Signature lines are trimmed of Unicode blanks as characters; the program works on their bytes.
- What a recipe does when executed, and the progress and log events it sends: an execution is one event with a given outcome.
- Retries and severities while tools are installed, and the aggregated tool list: whether a file's tools are there is given.
- What the engine does between its sends: in `PipelineRuns` it may return whenever it is not at a send, also when it waits at the pause gate.
- The per-kind and per-recipe counts of the summary, and whether it could be written.
- Finding the Unreal root of a container, and picking the representative file of a group.
- NameRes.OwnIff: rows that lack an address before others that have one are left to GroupedMeansOwn and OwnMeansGrouped; the splitter writes none.
- OdinPrint.DecodePrimArray: a record of elements, label and count; the spelling of floats and the joined text are not modelled, because the number formatting is a library's.
- OdinPrint.PrintTree: a line is a record of what it shows; shortened type names, the dot for a missing name and the spelling of values are not modelled.
- NsisStrings.DumpStrings: starts from the string table and its encoding; finding the table in the header and guessing the encoding are not modelled.
- UnrealRoots.HasBuildsSegment: letter case is that of ASCII, where the program also folds letters such as U+017F.
- UnrealRoots.IsAncestorRoot: likewise.
