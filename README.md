# OpenMath objects, their encodings and their readers and writers, in Dafny

This project models the core of the `openmath` Rust crate and proves
properties of that model. The crate represents OpenMath objects, writes
them with a human-readable `Display` form and in the OpenMath XML
encoding, and reads them back from XML. The model covers:

- **Base64** (`base64.rs`). The encoder, and the decoder whose chunks are
  flattened and collected by the OMB reader. The three iterators are
  classes, each specified by a function:
  - `Base64.Chunked` by `Base64.Chunks`;
  - `Base64.Encoder` by `Base64.Encode` and `Base64.EncodeString`;
  - `Base64.Decoder` by `Base64.DecodeNext` and `Base64.DecodeAll`.

  `Base64.DecodeFlat` is the decoder as written, `decode_base64().flat()`.
  `Base64.DecodeCorrected` is the one the reader uses (see Findings).
- **Integers** (`int.rs`). `Int` is either a machine-sized `i128` or a
  big decimal string. The model has parsing (`Int::new`, `TryFrom<&str>`),
  the conversions from and to the primitive integer types, and the
  sign and size queries.
- **The object kinds and expressions** (`lib.rs`, `de/mod.rs`).
  - `OMKind` has its discriminants and names.
  - `OMExpr` is the borrowed object in `lib.rs`, and its `as_openmath`
    view gives the calls a serializer receives.
  - `OM` is the owned object that `from_openmath` is handed.
  - The float text checks come from `de/xml.rs`.
- **The serializer call tree** (`ser/mod.rs`).
  - What `as_openmath` asks the serializer to write, with the current
    CD base and namespace.
  - `with_cdbase`, as written and corrected.
- **The `Display` writer** (`ser/mod.rs`). `DisplaySerializer`, modelled as
  a class over a `Formatter` whose output string the methods extend.
  Functions say what each one writes.
- **The XML writer** (`ser/xml.rs`). `XmlDisplayer`, written the same way,
  and `DisplayEscaper`, the character-data escaper, with the entity
  decoding it is inverted by.
- **The XML reader** (`de/xml.rs`).
  - The `quick_xml` reader is replaced by the sequence of events it yields.
  - `ReaderSpec` states what every reading function of the source returns,
    and in which state it leaves the reader, as functions of that
    sequence.
  - The `XmlReader.Reader` class runs the same steps in place, and each of
    its methods is proved to agree with the matching function.
  - `ReaderProps` proves the reader's rules about those functions: element
    shapes, error kinds and offsets, whitespace, CD bases and attributions.
  - `ReaderExamples` reads the `2 + 2` document of `de/mod.rs` and
    evaluates it with the `SimplifiedInt` deserializer of that example.
- **Examples** (`ser/mod.rs` tests). The `Display` tests of the crate are
  proved as lemmas in `DisplayExamples`, and the pretty XML tests in
  `XmlExamples`. The tests of leaves (integers, floats, strings, bytes,
  variables, symbols) are proved directly on the tests' values. The `Point`
  and `Lambda` tests are proved from layout lemmas that hold for all values
  of their shape.

`from_openmath` is generic in the crate. The reader here builds the tree
it reads: each node keeps the `OM` value handed to `from_openmath` and the
CD base in effect. The one concrete deserializer modelled is
`SimplifiedInt`, and it is applied to such a tree.

## Model

| member | source | states |
|---|---|---|
| Base64.Table | openmath/src/base64.rs:141-146 | every 6-bit value maps to an ASCII symbol that is not the padding `=` |
| Base64.TableInverse | openmath/src/base64.rs:148-156 | the inverse table sends each symbol back to its own 6-bit index |
| Base64.InverseTableSound | openmath/src/base64.rs:148-156 | an accepted byte is the symbol at the index returned; 255 exactly for bytes that are no symbol |
| Base64.BuildInverseTable | openmath/src/base64.rs:148-156 | the loop that fills a 256-entry array with 255 and writes each symbol's index yields the inverse table at every byte |
| Base64.ChunkBytes | openmath/src/base64.rs:179-183 | a chunk holds one to three bytes |
| Base64.ChunksPartition | openmath/src/base64.rs:158-171 | the chunks of an input concatenate back to it, there are ceil(n/3) of them and all but the last hold three bytes |
| Base64.EncodeChunk | openmath/src/base64.rs:185-212 | every chunk encodes to exactly four symbols |
| Base64.EncodeChunksAscii | openmath/src/base64.rs:33-40 | the encoding is pure ASCII, so converting its bytes to characters is lossless |
| Base64.Chars | openmath/src/base64.rs:33-36 | byte-to-char conversion keeps the length and maps each byte to the character of the same code |
| Base64.CharsAppend | openmath/src/base64.rs:33-40 | the character view of two byte runs is the concatenation of their views |
| Base64.EncodeChunksLength | openmath/src/base64.rs:185-212 | n chunks encode to 4n symbols |
| Base64.EncodeLength | openmath/src/base64.rs:185-212 | the encoding of n bytes is 4 * ceil(n/3) symbols long |
| Base64.EncodeChunkShape | openmath/src/base64.rs:192-211 | a chunk's quad is symbols followed by one `=` per missing byte |
| Base64.OneShape | openmath/src/base64.rs:193-198 | a one-byte chunk encodes to two symbols and two `=` |
| Base64.TwoShape | openmath/src/base64.rs:199-204 | a two-byte chunk encodes to three symbols and one `=` |
| Base64.ThreeShape | openmath/src/base64.rs:205-210 | a three-byte chunk encodes to four symbols |
| Base64.EncodeChunksShape | openmath/src/base64.rs:185-212 | when only the last chunk may be short, the encoding is symbols followed by that chunk's padding |
| Base64.EncodePadding | openmath/src/base64.rs:185-212 | the encoding of n bytes is symbols followed by exactly 0, 2 or 1 `=` for n mod 3 = 0, 1, 2 |
| Base64.LastChunkKind | openmath/src/base64.rs:158-171 | the last chunk holds three, two or one bytes exactly when n mod 3 is 0, 2 or 1 |
| Base64.Sextet | openmath/src/base64.rs:242-256 | a successful `get!` step yields a 6-bit value |
| Base64.DecodeNext | openmath/src/base64.rs:233-265 | one decoder step yields an item exactly when input remains, and consumes between one and four bytes of it |
| Base64.DecodeNextOk | openmath/src/base64.rs:233-265 | a step on four or more bytes succeeds exactly when they form a well-formed quad, and then consumes exactly four |
| Base64.DecodeNextShort | openmath/src/base64.rs:235-241 | fewer than four symbols left give `IllegalLength` after consuming them all |
| Base64.DecodeNextPadThenSymbol | openmath/src/base64.rs:243-245 | a symbol after `=` in a quad gives `NonsensicalPadding` right after that symbol |
| Base64.DecodeNextIllegalChar | openmath/src/base64.rs:250-253 | a byte that is neither symbol nor `=` is reported as `IllegalChar` with its own value |
| Base64.Collect | openmath/src/base64.rs:87-89 | collecting byte results succeeds exactly when all are Ok, keeping every byte; otherwise it returns the first error |
| Base64.SextetOfSymbol | openmath/src/base64.rs:242-256 | a symbol decodes to its index outside padding and to `NonsensicalPadding` inside it |
| Base64.DecodeNextOf | openmath/src/base64.rs:258-264 | four accepted sextets give the top three bytes of the word they assemble |
| Base64.DecodeSymbols | openmath/src/base64.rs:258-264 | a quad of four symbols decodes to the word of their indices |
| Base64.DecodeSymbolsPadOne | openmath/src/base64.rs:246-249 | a quad of three symbols and `=` decodes with the last sextet zero |
| Base64.DecodeSymbolsPadTwo | openmath/src/base64.rs:246-249 | a quad of two symbols and `==` decodes with the last two sextets zero |
| Base64.DecodeQuadOne | openmath/src/base64.rs:193-198 | the quad of a one-byte chunk decodes to that byte followed by two zeros |
| Base64.DecodeQuadTwo | openmath/src/base64.rs:199-204 | the quad of a two-byte chunk decodes to those bytes followed by a zero |
| Base64.DecodeQuadThree | openmath/src/base64.rs:205-210 | the quad of a three-byte chunk decodes to those three bytes |
| Base64.DecodeEncodedChunk | openmath/src/base64.rs:185-265 | every chunk's quad decodes in one step to the chunk padded with zeros, consuming exactly four bytes |
| Base64.DecodeEncodedChunks | openmath/src/base64.rs:185-265 | decoding the encoding of a chunk list yields one successful triple per chunk, in order |
| Base64.FilterAppend | openmath/src/base64.rs:221-223 | the zero filter distributes over concatenation |
| Base64.OkBytesAppend | openmath/src/base64.rs:87-89 | the successful results of two byte runs are those of each, concatenated |
| Base64.FilterThree | openmath/src/base64.rs:215-223 | filtering three results keeps each one that is not `Ok(0)`, in order |
| Base64.FilterChunk | openmath/src/base64.rs:215-223 | a decoded chunk without zero bytes passes `fltn` and `flter` unchanged |
| Base64.FlatOfChunks | openmath/src/base64.rs:87-89 | without zero bytes `flat` yields every byte of the decoded chunks |
| Base64.CollectOkBytes | openmath/src/base64.rs:87-89 | collecting only successful results gives those bytes back |
| Base64.RoundTripWithoutZeros | openmath/src/base64.rs:87-89 | the decoder as written inverts the encoder on inputs with no zero byte |
| Base64.ZeroByteIsLost | openmath/src/base64.rs:215-223 | as written, the byte 0 encodes to `AA==` and decodes to nothing |
| Base64.DataLength | openmath/src/base64.rs:246-249 | a quad carries at most three data bytes |
| Base64.EncodedChunkDataLength | openmath/src/base64.rs:185-212 | a chunk's quad has as many data bytes as the chunk, and they are its bytes |
| Base64.DecodeCorrectedChunks | openmath/src/base64.rs:185-265 | the corrected decoder returns the concatenated bytes of any chunk list's encoding |
| Base64.RoundTrip | openmath/src/base64.rs:87-89 | the corrected decoder inverts the encoder on every byte sequence |
| Base64.ZeroByteIsKept | openmath/src/base64.rs:215-223 | `AA==` is no bytes as written and the zero byte after the correction |
| Base64.CorrectedAgreesWithoutZeros | openmath/src/base64.rs:87-89 | on inputs with no zero byte, the corrected decoder agrees with the one as written |
| Base64.Chunked.constructor | openmath/src/base64.rs:51-55 | a new chunker has all of its input still to yield |
| Base64.Chunked.Next | openmath/src/base64.rs:161-171 | `None` on empty input; otherwise one chunk that is a prefix of the rest, and the remaining chunks are the rest's chunks |
| Base64.Encoder.constructor | openmath/src/base64.rs:51-55 | a new encoder wraps a chunker over all of its input |
| Base64.Encoder.Next | openmath/src/base64.rs:190-212 | `None` exactly at the end; otherwise four symbols that start the encoding of what remained |
| Base64.Encoder.IntoString | openmath/src/base64.rs:37-40 | draining the encoder gives the base64 string of all remaining input |
| Base64.Decoder.constructor | openmath/src/base64.rs:109-113 | a new decoder has all of its input still to read |
| Base64.Decoder.Next | openmath/src/base64.rs:233-265 | `None` on exhausted input; otherwise the item of one decoding step, advancing by the bytes that step consumes |
| Ints.DigitValue | openmath/src/int.rs:205 | a decimal digit has a value below ten |
| Ints.DigitChar | openmath/src/int.rs:205 | each value below ten has a digit character that reads back to it |
| Ints.StripSign | openmath/src/int.rs:194-201 | at most one leading `+` or `-` is removed, and only when present |
| Ints.ParseI128 | openmath/src/int.rs:191-193 | `i128` parsing succeeds exactly on an optional sign followed by one or more digits whose value fits `i128`, and yields that value |
| Ints.New | openmath/src/int.rs:189-233 | construction from text succeeds exactly on non-empty text that is all digits after at most one sign; the result denotes the text's value |
| Ints.FromI128 | openmath/src/int.rs:174-187 | a machine integer is always stored on the stack, with its value |
| Ints.VisitStrAgreesWithNew | openmath/src/int.rs:111-159 | the serde visitor accepts exactly what construction accepts, agrees on stack values, keeps a leading `+` on heap text, and fails with "empty string" or "invalid integer string" |
| Ints.IsI128 | openmath/src/int.rs:254-259 | `is_i128` is Some exactly for a stack value, and gives that value |
| Ints.IsBig | openmath/src/int.rs:279-284 | `is_big` is Some exactly for a heap value, and gives its text |
| Ints.IntoOwned | openmath/src/int.rs:392-398 | `into_owned` keeps the variant and the value |
| Ints.NatToString | openmath/src/int.rs:39-46 | the decimal rendering of a natural number is non-empty and all digits |
| Ints.NatToStringValue | openmath/src/int.rs:39-46 | the decimal rendering of n reads back as n |
| Ints.ParseDisplayedI128 | openmath/src/int.rs:39-46 | parsing the display of any `i128` gives it back |
| Ints.NewDisplayRoundTrip | openmath/src/int.rs:39-46 | displaying an `Int` built from text and building again gives the same `Int` (except the empty heap text a lone `+` makes) |
| Ints.NewInRange | openmath/src/int.rs:190-192 | text whose value fits `i128` becomes that stack value |
| Ints.NewOutOfRange | openmath/src/int.rs:193-207 | text of digits whose value does not fit stays text, with a leading `+` dropped and a `-` kept |
| Ints.NewOfLargeDecimal | openmath/src/int.rs:451-461 | the decimal text of any value above `i128::MAX` stays heap text |
| Ints.NewOfI128 | openmath/src/int.rs:435-449 | the decimal text of any `i128` becomes that stack value |
| Ints.NatToStringOfDecimal | openmath/src/int.rs:39-46 | decimal digits without a superfluous leading zero are the display of their own value |
| Ints.DisplayNewCanonical | openmath/src/int.rs:190-209 | `Int::new` of such digits displays them back, kept as an `i128` whenever there are at most 38 digits |
| Ints.DecimalBelowPow10 | openmath/src/int.rs:190-192 | n digits denote less than 10^n, which bounds what fits `i128` |
| Ints.NewRejects | openmath/src/int.rs:485-491 | the listed malformed texts are all rejected |
| Ints.NewAccepts | openmath/src/int.rs:493-499 | the listed well-formed texts are accepted with their values |
| Ints.LonePlus | openmath/src/int.rs:194-207 | a lone `+` is accepted as empty heap text, which does not parse again |
| Ints.LoneMinus | openmath/src/int.rs:194-207 | a lone `-` is accepted as the heap text `-`, which `is_negative` calls negative and `is_zero` not zero, though its value is 0 |
| Ints.HeapOnlyOutOfRange | openmath/src/int.rs:190-207 | a heap value arises only for text that does not fit `i128` |
| Ints.ZeroVariants | openmath/src/int.rs:475-483 | `0`, `+0` and `-0` all become the stack zero, which is neither positive nor negative |
| Ints.SignsMatchValue | openmath/src/int.rs:347-390 | for every value built from text with at least one digit, `is_zero`, `is_positive` and `is_negative` agree with the sign of its value |
| Ints.CommonPrefix | openmath/src/int.rs:52-58 | the first difference of two strings: both agree before it and differ at it |
| Ints.TextLessAt | openmath/src/int.rs:52-58 | the string order is decided at the first difference, a proper prefix first |
| Ints.TextLessIrreflexive | openmath/src/int.rs:52-58 | no string is below itself |
| Ints.TextLessTotal | openmath/src/int.rs:52-58 | of two different strings one is below the other |
| Ints.CommonPrefixSymmetric | openmath/src/int.rs:52-58 | the first difference does not depend on the order of the two strings |
| Ints.TextLessTransitive | openmath/src/int.rs:52-58 | the string order is transitive |
| Ints.LessIsStrictTotalOrder | openmath/src/int.rs:52-58 | the derived order on `Int` is irreflexive, total and transitive |
| Ints.OrderIsNotNumeric | openmath/src/int.rs:516-525 | every stack value sits below every heap value, even a heap value below `i128::MIN` |
| Ints.Zeros | openmath/src/int.rs:451-461 | n zero digits |
| Ints.OneZerosValue | openmath/src/int.rs:451-461 | one followed by n zeros reads as 10^n |
| Kinds.OMKind.Discriminant | openmath/src/lib.rs:60-168 | every kind has a discriminant below twelve |
| Kinds.FromDiscriminant | openmath/src/lib.rs:36-43 | a discriminant names a kind exactly when it is below twelve, and that kind has it |
| Kinds.FromName | openmath/src/de/xml.rs:358-434 | a recognised element name is the name of the kind it yields |
| Kinds.KindEncodings | openmath/src/lib.rs:44-57 | discriminants and names are distinct, and every kind is found again from its discriminant and from its name |
| Floats.Find | openmath/src/de/xml.rs:557-560 | the first position of either character, with neither character before it |
| Floats.LowerAll | openmath/src/de/xml.rs:557-560 | lower-casing keeps the length |
| Floats.ParseF64 | openmath/src/de/xml.rs:557-560 | float parsing succeeds exactly on float syntax, and the float keeps the text it was read from |
| Floats.ParseF64Decimals | openmath/src/de/xml.rs:557-560 | the decimal forms used in the writer tests parse |
| Floats.ParseF64Exponent | openmath/src/de/xml.rs:557-560 | a signed mantissa with an exponent parses |
| Floats.ParseF64NaN | openmath/src/de/xml.rs:557-560 | `NaN` parses as a special value |
| Floats.ParseF64Rejects | openmath/src/de/xml.rs:557-561 | text with two points, a lone point or no text at all does not parse |
| Floats.PointNumber | openmath/src/de/xml.rs:557-560 | digits, a point and digits parse as themselves |
| Floats.NegativeExponentNumber | openmath/src/de/xml.rs:557-560 | minus, digits, a point, digits, `e` and digits parse as themselves |
| Expr.MaybeForeign.OmOrForeign | openmath/src/lib.rs:349-363 | an object goes left unchanged; foreign content goes right as its encoding and value |
| Expr.OMExpr.Kind | openmath/src/lib.rs:180-286 | each variant's discriminant is the kind of the same name; no expression is an OMATTR, OMFOREIGN or OMR |
| Expr.AttrSymbol | openmath/src/lib.rs:318-325 | an attribution presents its own cdbase, cd and name as its symbol |
| Expr.AsOpenMath | openmath/src/lib.rs:365-421 | every node without attributions makes exactly one serializer call, of its own kind, with no cdbase of its own |
| Expr.AsCompound | openmath/src/lib.rs:400-418 | OMA, OME and OMBIND make the call of their own kind |
| Expr.AsOpenMathAll | openmath/src/lib.rs:400-404 | the arguments of an OMA are serialized one by one, in stored order |
| Expr.AsArg | openmath/src/lib.rs:349-363 | an OME argument or attribution value keeps its side of `om_or_foreign`, and foreign content its encoding and value |
| Expr.AsArgs | openmath/src/lib.rs:405-416 | OME arguments are passed one by one, in stored order |
| Expr.AsAttr | openmath/src/lib.rs:314-329 | an attribution presents its symbol and its value unchanged |
| Expr.AsAttrs | openmath/src/lib.rs:293-297 | a bound variable's attributions are passed one by one, in stored order |
| Expr.AsBindVar | openmath/src/lib.rs:293-302 | a bound variable presents its own name and attributions |
| Expr.AsBindVars | openmath/src/lib.rs:417-421 | OMBIND variables are passed one by one, in stored order |
| Expr.AsOpenMathInjective | openmath/src/lib.rs:365-421 | serialization forgets nothing: the call tree of a serializable expression gives it back |
| Expr.CompoundInjective | openmath/src/lib.rs:400-418 | the calls of OMA, OME and OMBIND give the node back |
| Expr.OmbindInjective | openmath/src/lib.rs:417-421 | the call of an OMBIND gives back binder, variables and body |
| Expr.AllInjective | openmath/src/lib.rs:400-404 | the calls of a list of arguments give the list back |
| Expr.ArgInjective | openmath/src/lib.rs:349-363 | an OME argument is given back from what it presents |
| Expr.ArgsInjective | openmath/src/lib.rs:405-416 | a list of OME arguments is given back from what it presents |
| Expr.AttrsInjective | openmath/src/lib.rs:314-329 | a list of attributions is given back from what it presents |
| Expr.BindVarsInjective | openmath/src/lib.rs:293-302 | a list of bound variables is given back from what it presents |
| Expr.PlainBindersNoAttribution | openmath/src/lib.rs:365-421 | an expression whose bound variables carry no attributions makes no attribution call |
| Expr.CompoundNoAttribution | openmath/src/lib.rs:400-418 | the same for OMA, OME and OMBIND nodes |
| SerTree.Uri.Cdbase | openmath/src/ser/mod.rs:722-732 | a URI presents its own base exactly when it has one that differs from the base in effect |
| SerTree.Ns.CurrentCdbase | openmath/src/ser/mod.rs:935-938 | the base in effect is the announced one if any, otherwise the current one |
| SerTree.WithBaseAsWritten | openmath/src/ser/mod.rs:940-953 | as written, `with_cdbase` announces the new base unless it equals the current one, even when another base is announced |
| SerTree.WithBase | openmath/src/ser/mod.rs:940-953 | corrected: afterwards the requested base is in effect, the current base is untouched, and nothing changes when it already was in effect |
| SerTree.WithBaseAgreesWhenNothingPending | openmath/src/ser/mod.rs:940-953 | with nothing announced the two rules agree |
| SerTree.WithBaseAsWrittenKeepsStaleBase | openmath/src/ser/mod.rs:940-953 | as written, asking for the OpenMath base while `http://example.org` is announced leaves `http://example.org` in effect |
| SerTree.Consume | openmath/src/ser/mod.rs:994-1001 | a compound element makes the announced base current and announces nothing |
| SerTree.AsOmsNsBase | openmath/src/ser/mod.rs:667-679 | a symbol is written in its own base when it has one and in the base in effect otherwise, and the context changes only for a different base |
| SerTree.AsOmsAsWrittenWrongBase | openmath/src/ser/mod.rs:667-679 | with the as-written `with_cdbase` an OpenMath-base symbol written under an announced `http://example.org` comes out in the wrong base |
| Om.OM.Tag | openmath/src/de/mod.rs:297-405 | every variant has a tag below nine |
| Om.OM.Kind | openmath/src/de/mod.rs:406-418 | `kind` reads back the variant's own kind, with the tag as discriminant; never OMATTR, OMFOREIGN or OMR |
| Om.OM.WithAttrs | openmath/src/de/mod.rs:297-405 | replacing the attributions keeps the kind |
| Om.IntFrom | openmath/src/de/mod.rs:420-433 | `Int` converts exactly an OMI, to its integer, and refuses anything else with "Not an integer" |
| Om.F64From | openmath/src/de/mod.rs:451-464 | `f64` converts exactly an OMF, to its float, and refuses anything else with "Not a float" |
| Om.StringFrom | openmath/src/de/mod.rs:466-494 | strings convert exactly an OMSTR, to its text, and refuse anything else with "Not an OMSTR" |
| Om.BytesFrom | openmath/src/de/mod.rs:496-523 | byte vectors convert exactly an OMB, to its bytes, and refuse anything else with "Not an OMB" |
| Om.MachineIntFrom | openmath/src/de/mod.rs:525-558 | a machine integer converts exactly from an OMI holding a stack value in the type's range; otherwise "Not an OMI" or the type's own message |
| Om.MachineIntOfParsed | openmath/src/de/mod.rs:525-558 | for an integer read from text with digits, the conversion succeeds exactly when its value is in range |
| Om.LoneSignIsNoMachineInt | openmath/src/de/mod.rs:525-558 | the empty heap integer of a lone `+` is refused although its value 0 fits |
| Om.PrimitivesIgnoreAttrs | openmath/src/de/mod.rs:420-558 | the primitive conversions look at the node's content only, not its attributions |
| Om.SizeTypesAre64Bit | openmath/src/de/mod.rs:525-558 | `isize` and `usize` have the ranges of `i64` and `u64` |
| DisplayWriter.VarPiecesAsWritten | openmath/src/ser/mod.rs:1079-1094 | one piece per bound variable, each as the loop as written produces it for its position |
| DisplayWriter.LoneAttributedVarAsWritten | openmath/src/ser/mod.rs:1079-1094 | as written, a lone attributed variable comes out with a leading `, `, where the corrected join has none |
| DisplayWriter.AttributedVarAfterPlainAsWritten | openmath/src/ser/mod.rs:1079-1094 | as written, an attributed variable after a plain one comes out with no separator, where the corrected join has `, ` |
| DisplayWriter.VarsAsWrittenAgreesWithoutAttributes | openmath/src/ser/mod.rs:1079-1094 | without attributed variables the loop as written and the corrected join agree |
| DisplayWriter.SymbolNamesItsBase | openmath/src/ser/mod.rs:985-992 | a symbol is written as `OMS(cd#name)` when its base is the current one, and as `OMS(base/cd#name)` with its own or the announced base otherwise |
| DisplayWriter.OmaConsumesBase | openmath/src/ser/mod.rs:994-1016 | an announced base is written once as `OMA@base`, and head and arguments are written with it current and nothing announced |
| DisplayWriter.OmattrConsumesBase | openmath/src/ser/mod.rs:1035-1062 | the same for `OMATTR@base` with the attributed object and the pairs |
| DisplayWriter.OmbindConsumesBase | openmath/src/ser/mod.rs:1064-1100 | the same for `OMBIND@base` with binder, variables and body |
| DisplayWriter.EmptyOmaIsItsHead | openmath/src/ser/mod.rs:1008-1010 | an OMA without arguments is written as its head alone |
| DisplayWriter.OmbListsTheBytes | openmath/src/ser/mod.rs:967-979 | the body of `OMB(...)` split at `,` gives one decimal number per byte, equal to that byte |
| DisplayWriter.PlainVarsAreNames | openmath/src/ser/mod.rs:1064-1100 | variables without attributions are written as their names separated by `, `, and no variables as `[]` |
| DisplayWriter.DisplaySerializer.constructor | openmath/src/ser/mod.rs:888-892 | a serializer over a formatter in a given namespace context |
| DisplayWriter.DisplaySerializer.WithCdbase | openmath/src/ser/mod.rs:940-953 | `with_cdbase` leaves the context the corrected rule gives |
| DisplayWriter.DisplaySerializer.Write | openmath/src/ser/mod.rs:954-1100 | every serializer call appends exactly the notation of that call in the context before it |
| DisplayWriter.DisplaySerializer.Rec | openmath/src/ser/mod.rs:894-917 | a nested value is appended in the context `rec` hands it |
| DisplayWriter.DisplaySerializer.Foreign | openmath/src/ser/mod.rs:918-926 | an object argument is appended through `rec`; foreign content as `OMF(encoding:enc,value)` or `OMF(value)` |
| DisplayWriter.DisplaySerializer.Oms | openmath/src/ser/mod.rs:985-992 | appends `OMS(cd#name)`, with `base/` before the cd when a base is announced |
| DisplayWriter.DisplaySerializer.AsOms | openmath/src/ser/mod.rs:667-679 | announces the URI's base when it differs from the one in effect, then appends the symbol |
| DisplayWriter.DisplaySerializer.Omv | openmath/src/ser/mod.rs:981-983 | appends `OMV(name)` |
| DisplayWriter.DisplaySerializer.Omb | openmath/src/ser/mod.rs:967-979 | appends `OMB(` and the bytes in decimal separated by `,`, then `)` |
| DisplayWriter.DisplaySerializer.TakeNext | openmath/src/ser/mod.rs:995-1001 | returns the `@base` marker of the announced base and makes that base current |
| DisplayWriter.DisplaySerializer.Oma | openmath/src/ser/mod.rs:994-1016 | appends the head alone without arguments, otherwise `OMA(head,arg,...)`, and consumes the announced base |
| DisplayWriter.DisplaySerializer.Args | openmath/src/ser/mod.rs:1012-1015 | appends every argument after a `,` |
| DisplayWriter.DisplaySerializer.Arg | openmath/src/ser/mod.rs:1012-1015 | appends one argument after its `,` |
| DisplayWriter.DisplaySerializer.Ome | openmath/src/ser/mod.rs:1018-1033 | appends the error symbol, with `base/` when announced, and the arguments separated by `,`, without consuming the base |
| DisplayWriter.DisplaySerializer.Eargs | openmath/src/ser/mod.rs:1022-1031 | appends the first argument, then `,` before each other |
| DisplayWriter.DisplaySerializer.Separated | openmath/src/ser/mod.rs:1026-1029 | appends one more argument after its separator |
| DisplayWriter.DisplaySerializer.Attr | openmath/src/ser/mod.rs:1054-1059 | appends one pair as `symbol = value` |
| DisplayWriter.DisplaySerializer.AttrPairs | openmath/src/ser/mod.rs:1048-1060 | appends the pairs separated by `, ` |
| DisplayWriter.DisplaySerializer.Pair | openmath/src/ser/mod.rs:1050-1059 | appends one more pair after its separator |
| DisplayWriter.DisplaySerializer.Omattr | openmath/src/ser/mod.rs:1035-1062 | appends `OMATTR(object,[pairs])` and consumes the announced base |
| DisplayWriter.DisplaySerializer.OmattrOmv | openmath/src/ser/mod.rs:1085-1090 | appends the OMATTR around `OMV(name)` that an attributed bound variable is written as |
| DisplayWriter.DisplaySerializer.Ombind | openmath/src/ser/mod.rs:1064-1100 | appends `OMBIND(binder,[vars],body)` and consumes the announced base |
| DisplayWriter.DisplaySerializer.AttributedVar | openmath/src/ser/mod.rs:1081-1091 | appends an attributed variable as an OMATTR with nothing announced |
| DisplayWriter.DisplaySerializer.Vars | openmath/src/ser/mod.rs:1076-1094 | appends the variables separated by `, ` (the corrected separator) |
| DisplayWriter.DisplaySerializer.Var | openmath/src/ser/mod.rs:1077-1093 | appends one more variable after its separator |
| DisplayWriter.FormatDisplay | openmath/src/ser/mod.rs:853-863 | `OMDisplay` writes the notation of the value with its own base announced over the OpenMath base |
| DisplayWriter.FormatObject | openmath/src/ser/mod.rs:648-652 | `OMObject` writes `OMOBJ(` around the value's notation |
| DisplayExamples.DisplayOmi | openmath/src/ser/mod.rs:1166-1168 | the integer 42 displays as `OMI(42)` |
| DisplayExamples.BigDigitsNew | openmath/src/ser/mod.rs:1170-1172 | `Int::new` of the test's thirty digits succeeds with a stack `i128` whose display is those digits |
| DisplayExamples.DisplayBigOmi | openmath/src/ser/mod.rs:1170-1174 | the `Int::new` value of the thirty digits, a stack `i128`, displays as `OMI(123456789012345678901234567890)` |
| DisplayExamples.DisplayOmstr | openmath/src/ser/mod.rs:1204-1208 | the string `42` displays as `OMSTR("42")` |
| DisplayExamples.DisplayOmb | openmath/src/ser/mod.rs:1216-1220 | bytes 1 to 5 display as `OMB(1,2,3,4,5)` |
| DisplayExamples.DisplayOmv | openmath/src/ser/mod.rs:1228-1232 | `Omv("variable")` displays as `OMV(variable)` |
| DisplayExamples.DisplayOms | openmath/src/ser/mod.rs:1240-1251 | a symbol with base `http://test.org` displays as `OMS(http://test.org/test#symbol)` |
| DisplayExamples.DisplayPoint | openmath/src/ser/mod.rs:1269-1276 | the `Point` value displays as `OMA(OMS(http://example.org/geometry1#point),OMF(13.1),OMF(17.4))` |
| DisplayExamples.DisplayLambda | openmath/src/ser/mod.rs:1287-1299 | the two-variable `Lambda` displays as `OMBIND@http://openmath.org(OMS(fns1#lambda),[x, y],OMSTR("x + y"))` |
| DisplayExamples.DisplayEmptyLambda | openmath/src/ser/mod.rs:1315-1327 | the `Lambda` without variables displays with `[]` |
| Fmt.Formatter.constructor | openmath/src/ser/mod.rs:853-863 | a fresh formatter has nothing written |
| Fmt.Formatter.WriteStr | openmath/src/ser/mod.rs:967-979 | `write_str` appends exactly its text |
| XmlWriter.Spaces | openmath/src/ser/xml.rs:92-94 | the indentation of depth d is 2d spaces |
| XmlWriter.Indented | openmath/src/ser/xml.rs:84-96 | `indent` keeps pretty-printing on or off |
| XmlWriter.Deeper | openmath/src/ser/xml.rs:270-272 | going one level deeper keeps pretty-printing on or off |
| XmlWriter.ShallowerInner | openmath/src/ser/xml.rs:279-282 | one level up from the children's state is the state after the element's own `indent`, and `indent` is idempotent |
| XmlWriter.OmbvarShape | openmath/src/ser/xml.rs:310-331 | the OMBVAR element is `indent`, `<OMBVAR`, the written variables, then `/>` or the closing tag |
| XmlWriter.VarsWrittenStep | openmath/src/ser/xml.rs:316-322 | one turn of the variable loop writes `>` before the first variable only |
| XmlWriter.AttributeTextAppend | openmath/src/ser/xml.rs:43-56 | the text of an attribute list is the texts of its parts, in order |
| XmlWriter.ObjOpenTagIsStartTag | openmath/src/ser/xml.rs:43-57 | the corrected OMOBJ tag is the start tag of its attribute list: version, then xmlns when asked, then cdbase when the value has one |
| XmlWriter.NamespacePlain | openmath/src/ser/xml.rs:46 | the XML namespace contains nothing the escaper changes |
| XmlWriter.ObjOpenTagAgreesWithoutBase | openmath/src/ser/xml.rs:43-57 | without a base the tag as written and the corrected tag agree |
| XmlWriter.ObjOpenTagAsWrittenRunsTogether | openmath/src/ser/xml.rs:49-53 | as written, the quote closing the previous attribute is followed directly by `cdbase="`, with no white space between attributes |
| XmlWriter.XmlDisplayer.constructor | openmath/src/ser/xml.rs:77-82 | a serializer over a formatter with an indentation state and a namespace context |
| XmlWriter.XmlDisplayer.WriteIndent | openmath/src/ser/xml.rs:84-96 | `indent` writes a line break unless nothing was written yet, then two spaces per level, and marks the level as written |
| XmlWriter.XmlDisplayer.Clone | openmath/src/ser/xml.rs:97-105 | a clone has the same state and writes to the same formatter |
| XmlWriter.XmlDisplayer.WithCdbase | openmath/src/ser/xml.rs:119-133 | `with_cd_base` leaves the context the corrected rule gives and keeps the indentation |
| XmlWriter.XmlDisplayer.Write | openmath/src/ser/xml.rs:134-341 | every serializer call appends exactly the XML of that call for the state before it |
| XmlWriter.XmlDisplayer.Omi | openmath/src/ser/xml.rs:134-138 | appends `indent` and `<OMI>value</OMI>` |
| XmlWriter.XmlDisplayer.Omf | openmath/src/ser/xml.rs:139-143 | appends `indent` and `<OMF dec="text"/>` |
| XmlWriter.XmlDisplayer.Omstr | openmath/src/ser/xml.rs:160-166 | appends `indent` and the escaped text in an OMSTR element |
| XmlWriter.XmlDisplayer.Omv | openmath/src/ser/xml.rs:167-173 | appends `indent` and `<OMV name="..."/>` with the name escaped |
| XmlWriter.XmlDisplayer.Omb | openmath/src/ser/xml.rs:144-159 | appends `indent` and the base64 text of the bytes in an OMB element |
| XmlWriter.XmlDisplayer.WriteQuads | openmath/src/ser/xml.rs:151-156 | the quad loop appends the base64 string of everything the encoder still holds |
| XmlWriter.XmlDisplayer.Oms | openmath/src/ser/xml.rs:174-192 | appends `indent` and `<OMS`, the announced base, cd and name as escaped attributes |
| XmlWriter.XmlDisplayer.OmsBase | openmath/src/ser/xml.rs:181-185 | appends `cdbase="..." ` exactly when a base is announced |
| XmlWriter.XmlDisplayer.AsOms | openmath/src/ser/mod.rs:667-679 | announces the URI's base when it differs from the one in effect, then appends the OMS |
| XmlWriter.XmlDisplayer.Open | openmath/src/ser/xml.rs:261-272 | appends `indent` and the opening tag with the announced base, which becomes current, and goes one level deeper |
| XmlWriter.XmlDisplayer.Close | openmath/src/ser/xml.rs:279-284 | goes one level up, then appends `indent` and the closing tag |
| XmlWriter.XmlDisplayer.Child | openmath/src/ser/xml.rs:274-277 | a nested value is appended by a clone of this serializer |
| XmlWriter.XmlDisplayer.Oma | openmath/src/ser/xml.rs:253-285 | appends the OMA element with head and arguments one level deeper |
| XmlWriter.XmlDisplayer.Args | openmath/src/ser/xml.rs:275-277 | appends every argument, each by a clone |
| XmlWriter.XmlDisplayer.Ome | openmath/src/ser/xml.rs:193-252 | appends the OME element with its symbol and arguments one level deeper |
| XmlWriter.XmlDisplayer.Eargs | openmath/src/ser/xml.rs:220-245 | appends every OME argument in order |
| XmlWriter.XmlDisplayer.Earg | openmath/src/ser/xml.rs:221-244 | appends one OME argument: an object by a clone, or an OMFOREIGN element |
| XmlWriter.XmlDisplayer.Foreign | openmath/src/ser/xml.rs:223-243 | appends an OMFOREIGN element with the encoding when there is one; when pretty the value sits on its own line after two spaces |
| XmlWriter.XmlDisplayer.Ombind | openmath/src/ser/xml.rs:286-341 | appends the OMBIND element with binder, OMBVAR element and body one level deeper |
| XmlWriter.XmlDisplayer.Ombvar | openmath/src/ser/xml.rs:310-331 | appends the OMBVAR element, `<OMBVAR/>` when there are no variables |
| XmlWriter.XmlDisplayer.Symbol | openmath/src/ser/xml.rs:219 | the error symbol of an OME is appended by a clone |
| XmlWriter.XmlDisplayer.Var | openmath/src/ser/xml.rs:321 | a bound variable is appended as an OMV by a clone |
| XmlWriter.XmlDisplayer.BoundVars | openmath/src/ser/xml.rs:312-322 | the variable loop writes `>` before the first variable and reports whether there were none |
| XmlWriter.FormatXml | openmath/src/ser/xml.rs:24-34 | `XmlDisplay` writes the XML of the value with its own base announced over the OpenMath base, from depth 0 when pretty |
| XmlWriter.FormatXmlObject | openmath/src/ser/xml.rs:41-75 | `XmlObjDisplay` writes the OMOBJ element (with the space before `cdbase`) around the value written at depth 1 |
| XmlExamples.PrettyOmi | openmath/src/ser/mod.rs:1178-1181 | `42` written pretty is `<OMI>42</OMI>` |
| XmlExamples.PrettyBigOmi | openmath/src/ser/mod.rs:1183-1188 | the `Int::new` value of the thirty digits, a stack `i128`, written pretty is `<OMI>123456789012345678901234567890</OMI>` |
| XmlExamples.OmiShape | openmath/src/ser/xml.rs:134-137 | any integer at the top level is its display inside `<OMI>` |
| XmlExamples.PrettyOmf | openmath/src/ser/mod.rs:1197-1202 | a float written pretty is `<OMF dec="…"/>` around its decimal text, with no layout |
| XmlExamples.PrettyOmstr | openmath/src/ser/mod.rs:1210-1214 | `"42"` written pretty is `<OMSTR>42</OMSTR>` |
| XmlExamples.FooBarEncoded | openmath/src/ser/mod.rs:1222-1226 | the base64 text of the bytes of `foo bar` is `Zm9vIGJhcg==` |
| XmlExamples.PrettyOmb | openmath/src/ser/mod.rs:1222-1226 | the bytes of `foo bar` written pretty are `<OMB>Zm9vIGJhcg==</OMB>` |
| XmlExamples.LeafHasNoLayout | openmath/src/ser/xml.rs:84-97 | at the top level a leaf is written the same pretty or not: the first `indent` writes nothing |
| XmlExamples.PrettyOmv | openmath/src/ser/mod.rs:1234-1238 | `Omv("variable")` written pretty is `<OMV name="variable"/>` |
| XmlExamples.TopSymbol | openmath/src/ser/xml.rs:174-191 | a top-level symbol in a base other than OpenMath's names that base in a `cdbase` attribute before `cd` and `name` |
| XmlExamples.PrettyOms | openmath/src/ser/mod.rs:1253-1268 | `http://test.org` `test#symbol` written pretty is `<OMS cdbase="http://test.org" cd="test" name="symbol"/>` |
| XmlExamples.OmaOfTwoFloats | openmath/src/ser/xml.rs:253-284 | an OMA of a symbol in its own base over two floats puts the head and each float on a line of its own, two spaces in, and closes on a new line |
| XmlExamples.PrettyPoint | openmath/src/ser/mod.rs:1278-1285 | `Point { x: 13.1, y: 17.4 }` written pretty is the four-line OMA of the test |
| XmlExamples.OmbindOfString | openmath/src/ser/xml.rs:286-344 | a binding that announces its base writes it on the OMBIND tag and not on the binder symbol, then OMBVAR, then the body, each child two spaces in |
| XmlExamples.OmbvarOfTwo | openmath/src/ser/xml.rs:310-333 | two variables are written between `<OMBVAR>` and `</OMBVAR>`, each on a line of its own four spaces in |
| XmlExamples.OmbvarOfNone | openmath/src/ser/xml.rs:310-333 | no variables give the empty element `<OMBVAR/>` on a line of its own |
| XmlExamples.PrettyLambdaOf | openmath/src/ser/mod.rs:1129-1148 | the `Lambda` value written pretty is the OMBIND carrying `cdbase="http://openmath.org"`, then `fns1#lambda` without a base, its OMBVAR, and its body as OMSTR |
| XmlExamples.PrettyLambda | openmath/src/ser/mod.rs:1301-1314 | `Lambda { vars: ["x", "y"], body: "x + y" }` written pretty is the eight-line OMBIND of the test |
| XmlExamples.PrettyEmptyLambda | openmath/src/ser/mod.rs:1329-1342 | `Lambda { vars: [], body: "true" }` written pretty is the five-line OMBIND of the test, with `<OMBVAR/>` |
| XmlEscape.UnescapeEscape | openmath/src/ser/xml.rs:344-371 | decoding the predefined XML entities gives back every escaped text |
| XmlEscape.EscapeIsCharData | openmath/src/ser/xml.rs:344-371 | escaped text has no `<`, and every `&` in it starts `&amp;` or `&lt;` |
| XmlEscape.EscapePlain | openmath/src/ser/xml.rs:344-371 | text without `&` and `<` is written unchanged |
| XmlEscape.ReplaceIsJoinSplit | openmath/src/ser/xml.rs:354-360 | the inner loop, joining the pieces between `<`s with `&lt;`, replaces every `<` |
| XmlEscape.EscapeIsNestedSplit | openmath/src/ser/xml.rs:346-363 | the two nested split loops together escape exactly `&` and `<` |
| XmlEscape.EscapeLtAll | openmath/src/ser/xml.rs:348-361 | one escaped piece per piece between `&`s |
| XmlEscape.WriteEscaped | openmath/src/ser/xml.rs:346-363 | `write_str` appends the escaped text |
| XmlEscape.WriteLtPieces | openmath/src/ser/xml.rs:353-360 | the inner loop appends its piece with every `<` as `&lt;` |
| XmlEscape.WriteEscapedChar | openmath/src/ser/xml.rs:364-370 | `write_char` appends the escape of its one character |
| Text.Split | openmath/src/ser/xml.rs:348 | splitting at a character gives at least one piece, none of which contains the character |
| Text.SplitJoin | openmath/src/ser/xml.rs:348-361 | splitting at the separator undoes joining with it |
| Text.JoinSplit | openmath/src/ser/xml.rs:348-361 | joining the split pieces with the same character gives the text back |
| XmlEvents.GetAttr | openmath/src/de/xml.rs:116-143 | the lookup finds an attribute exactly when one has the key, and returns the value of the first such attribute |
| XmlEvents.LocalName | openmath/src/de/xml.rs:240 | a name without a namespace prefix is its own local name |
| XmlEvents.Utf8Char | openmath/src/de/xml.rs:520 | an ASCII character is the one byte of its code |
| XmlEvents.NextEvent | openmath/src/de/xml.rs:903-913 | `next` records the index it reads in `position`, yields the next event (an error for malformed input) and moves one on; past the end it yields `Eof` and stays |
| XmlEvents.Prepend | openmath/src/de/xml.rs:891-901 | text put in front of the content of a successful read |
| XmlEvents.PrependTwice | openmath/src/de/xml.rs:891-901 | prepending twice is prepending the concatenation |
| XmlEvents.UntilEnd | openmath/src/de/xml.rs:891-901 | `read_to_end` on success ends past its start and within the events |
| XmlEvents.UntilEndStops | openmath/src/de/xml.rs:891-901 | the content stops at the first end tag of that name, and consists of the text before it |
| ReaderSpec.Closed | openmath/src/de/xml.rs:503-505 | the closing check succeeds exactly when the next event is an end tag, and keeps the value |
| ReaderSpec.TextOf | openmath/src/de/xml.rs:495-497 | a text element's text succeeds exactly when the next event is text, and is its raw text |
| ReaderSpec.Omi | openmath/src/de/xml.rs:490-509 | a successful OMI read is an OMI node with the given attributions, read in the given base |
| ReaderSpec.Omb | openmath/src/de/xml.rs:511-534 | a successful OMB read is an OMB node with the given attributions, read in the given base |
| ReaderSpec.Omstr | openmath/src/de/xml.rs:564-575 | a successful OMSTR read is an OMSTR node with the given attributions, read in the given base |
| ReaderSpec.Foreign | openmath/src/de/xml.rs:261-277 | corrected: an OMFOREIGN succeeds exactly when its end tag is found, with the start tag's encoding and everything up to that tag |
| ReaderSpec.ForeignAsWritten | openmath/src/de/xml.rs:261-277 | as written, one more event after the OMFOREIGN end tag is read and must be an end tag |
| ReaderSpec.AsBreak | openmath/src/de/xml.rs:367-373 | a successful read becomes `Break` of its value; an error stays the same error |
| ReaderSpec.AsBreakOm | openmath/src/de/xml.rs:241-249 | the same, with the object wrapped as an object argument |
| ReaderSpec.HandleNext | openmath/src/de/xml.rs:358-445 | `handle_next` stays within the events, never goes back, and consumes at least one event when it succeeds |
| ReaderSpec.NextOmForeign | openmath/src/de/xml.rs:233-356 | `next_omforeign` does the same |
| ReaderSpec.StartElement | openmath/src/de/xml.rs:383-435 | the start-tag dispatch does the same |
| ReaderSpec.Oma | openmath/src/de/xml.rs:628-654 | a successful OMA read is an OMA node with the given attributions, in the given base |
| ReaderSpec.OmaArgs | openmath/src/de/xml.rs:636-643 | the argument loop of `oma` never goes back |
| ReaderSpec.Ome | openmath/src/de/xml.rs:656-704 | a successful OME read is an OME node with the given attributions, in the given base |
| ReaderSpec.OmeArgs | openmath/src/de/xml.rs:685-692 | the argument loop of `ome` never goes back |
| ReaderSpec.OmattrHead | openmath/src/de/xml.rs:754-772 | the OMATP part of an OMATTR never goes back |
| ReaderSpec.OmattrPairs | openmath/src/de/xml.rs:706-752 | the pair loop never goes back |
| ReaderSpec.Omattr | openmath/src/de/xml.rs:780-792 | reading an OMATTR never goes back |
| ReaderSpec.OmattrOrVar | openmath/src/de/xml.rs:794-826 | one OMBVAR entry never goes back |
| ReaderSpec.OmbindVars | openmath/src/de/xml.rs:845-849 | the variable loop never goes back |
| ReaderSpec.Ombind | openmath/src/de/xml.rs:828-877 | a successful OMBIND read is an OMBIND node with the given attributions, in the given base |
| ReaderSpec.OmbindVariables | openmath/src/de/xml.rs:836-849 | after the head, a successful read keeps that head as the binder |
| ReaderSpec.OmbindBody | openmath/src/de/xml.rs:851-876 | after the variables, a successful read keeps head and variables |
| ReaderSpec.Read | openmath/src/de/xml.rs:475-488 | `read` never goes back and consumes at least one event when it succeeds |
| ReaderSpec.ReadObj | openmath/src/de/xml.rs:447-473 | `read_obj` never goes back and consumes at least one event when it succeeds |
| XmlEvents.Omf | openmath/src/de/xml.rs:536-562 | a successful OMF read is an OMF node with the given attributions and base; with neither a `hex` nor a `dec` attribute it is `ExpectedAttribute("dec")` |
| XmlEvents.Omv | openmath/src/de/xml.rs:576-586 | OMV succeeds exactly when it has a `name` attribute, and is the variable of that name; otherwise `ExpectedAttribute("name")` |
| XmlEvents.Oms | openmath/src/de/xml.rs:589-626 | OMS succeeds exactly when it has `name` and `cd`; the symbol's base is its own `cdbase` attribute or else the enclosing base; a missing `name` is reported before a missing `cd` |
| XmlEvents.SymbolAttrs | openmath/src/de/xml.rs:665-680 | the symbol of an OME or of an attribution key needs `name` and `cd` and keeps its `cdbase` as given, with the same error order |
| XmlEvents.EmptyElement | openmath/src/de/xml.rs:366-382 | a self-closing OMI, OMB, OMSTR, OMA, OMBIND, OME or OMATTR is `NonEmptyExpectedFor` it; an unknown name is `UnexpectedTag`, both at the offset before the tag |
| XmlReader.Reader.constructor | openmath/src/de/xml.rs:922-929 | a new reader is at the first event with offset 0 |
| XmlReader.Reader.Next | openmath/src/de/xml.rs:903-913 | one `next` call changes the reader's state exactly as `XmlEvents.NextEvent` says, and yields its event |
| XmlReader.Reader.Close | openmath/src/de/xml.rs:503-505 | the closing-tag check agrees with `ReaderSpec.Closed` in result and new state |
| XmlReader.Reader.ExpectText | openmath/src/de/xml.rs:495-497 | reading the text agrees with `ReaderSpec.TextOf` |
| XmlReader.Reader.Omi | openmath/src/de/xml.rs:490-509 | `omi` agrees with `ReaderSpec.Omi` |
| XmlReader.Reader.Omb | openmath/src/de/xml.rs:511-534 | `omb` agrees with `ReaderSpec.Omb` |
| XmlReader.Reader.Omstr | openmath/src/de/xml.rs:564-575 | `omstr` agrees with `ReaderSpec.Omstr` |
| XmlReader.Reader.Foreign | openmath/src/de/xml.rs:261-277 | the OMFOREIGN branch agrees with the corrected `ReaderSpec.Foreign` |
| XmlReader.Reader.HandleNext | openmath/src/de/xml.rs:358-445 | `handle_next` agrees with `ReaderSpec.HandleNext` |
| XmlReader.Reader.NextOmForeign | openmath/src/de/xml.rs:233-356 | `next_omforeign` agrees with `ReaderSpec.NextOmForeign` |
| XmlReader.Reader.StartElement | openmath/src/de/xml.rs:383-435 | the start-tag arms agree with `ReaderSpec.StartElement` |
| XmlReader.Reader.Oma | openmath/src/de/xml.rs:628-654 | `oma`, with its argument loop, agrees with `ReaderSpec.Oma` |
| XmlReader.Reader.Ome | openmath/src/de/xml.rs:656-704 | `ome`, with its argument loop, agrees with `ReaderSpec.Ome` |
| XmlReader.Reader.OmattrPairs | openmath/src/de/xml.rs:706-752 | the pair loop agrees with `ReaderSpec.OmattrPairs` |
| XmlReader.Reader.OmattrHead | openmath/src/de/xml.rs:754-778 | the OMATP part of `omattr_i` agrees with `ReaderSpec.OmattrHead` |
| XmlReader.Reader.Omattr | openmath/src/de/xml.rs:780-792 | `omattr` agrees with `ReaderSpec.Omattr` |
| XmlReader.Reader.OmattrOrVar | openmath/src/de/xml.rs:794-826 | `omattr_or_var` agrees with `ReaderSpec.OmattrOrVar` |
| XmlReader.Reader.OmbindVars | openmath/src/de/xml.rs:845-849 | the `while let` loop over OMBVAR agrees with `ReaderSpec.OmbindVars` |
| XmlReader.Reader.Ombind | openmath/src/de/xml.rs:828-877 | `ombind` agrees with `ReaderSpec.Ombind` |
| XmlReader.Reader.Read | openmath/src/de/xml.rs:475-488 | `read`, with its loop, agrees with `ReaderSpec.Read` |
| XmlReader.Reader.ReadObj | openmath/src/de/xml.rs:447-473 | `read_obj`, with its loop, agrees with `ReaderSpec.ReadObj` |
| XmlReader.ReadObject | openmath/src/de/mod.rs:275-281 | `OMObject::from_openmath_xml` on a fresh reader is `ReaderSpec.FromXmlObject` |
| XmlReader.ReadBare | openmath/src/de/mod.rs:211-217 | `from_openmath_xml` on a fresh reader is `ReaderSpec.FromXml` |
| ReaderProps.EmptyElementShapes | openmath/src/de/xml.rs:366-382 | a self-closing content element is `NonEmptyExpectedFor` at the offset before it; OMF, OMV and OMS are read from their attributes; unknown names are `UnexpectedTag`; one event is consumed |
| ReaderProps.StartElementShapes | openmath/src/de/xml.rs:383-435 | OMS, OMF and OMV with a start tag are `EmptyExpectedFor`; unknown names are `UnexpectedTag` |
| ReaderProps.HandleNextStops | openmath/src/de/xml.rs:436-444 | end of input is `NoObject`, an end tag `Continue(true)`, other events and non-blank text `Continue(false)`, a quick_xml error `Xml` |
| ReaderProps.HandleNextSkipsWhitespace | openmath/src/de/xml.rs:436-439 | any run of whitespace-only text before an element is skipped |
| ReaderProps.NextOmForeignSkipsWhitespace | openmath/src/de/xml.rs:348-351 | the same for `next_omforeign` |
| ReaderProps.FixedReadsSeeText | openmath/src/de/xml.rs:660-680 | OME's symbol, OMATP, OMBVAR and the closing-tag checks do not skip text: text there is `UnexpectedTag` |
| ReaderProps.StartElementBase | openmath/src/de/xml.rs:396-424 | OMA, OMBIND and OME use their own `cdbase` attribute, or else the enclosing base; text elements keep the enclosing base |
| ReaderProps.OmattrPairsExtend | openmath/src/de/xml.rs:706-752 | `omattr_pairs` only appends to the attributions it was given |
| ReaderProps.OmattrHeadExtends | openmath/src/de/xml.rs:754-778 | so does the OMATP part of `omattr_i` |
| ReaderProps.HandleNextKeepsAttrs | openmath/src/de/xml.rs:358-445 | the attributions given to `handle_next` come first on the object it reads |
| ReaderProps.StartElementKeepsAttrs | openmath/src/de/xml.rs:383-435 | every element except OMATTR carries exactly the attributions given; OMATTR extends them |
| ReaderProps.MissingAttributeValue | openmath/src/de/xml.rs:729-734 | a key with no value before the end of OMATP is `AttributeValue` at the key's offset |
| ReaderProps.OmaWithoutHead | openmath/src/de/xml.rs:634-636 | an OMA that ends before its head is `NonEmptyExpectedFor("OMA Applicant")` |
| ReaderProps.OmaArgsExtend | openmath/src/de/xml.rs:638-644 | the argument loop keeps the arguments read so far, in order, in front |
| ReaderProps.OmbindNeedsVariables | openmath/src/de/xml.rs:839-853 | after the head anything but OMBVAR is `UnexpectedTag`; an empty OMBVAR binds nothing |
| ReaderProps.OmiLeaf | openmath/src/de/xml.rs:497-508 | `x` or `-x` first is `Hex`, text that is no integer is `InvalidInteger`, otherwise the parsed integer |
| ReaderProps.OmiNeedsEnd | openmath/src/de/xml.rs:503-505 | an integer not followed by an end tag is `UnexpectedTag` at the event after it |
| ReaderProps.OmfLeaf | openmath/src/de/xml.rs:536-562 | a `hex` attribute first is `Hex`; no `hex` or `dec` attribute is `ExpectedAttribute("dec")` |
| ReaderProps.OmbLeaf | openmath/src/de/xml.rs:520-521 | a base64 decoding failure is reported as the `Base64` error |
| ReaderProps.Utf8OfAscii | openmath/src/de/xml.rs:520 | the UTF-8 of ASCII text is its characters' codes |
| ReaderProps.EncodingDecodes | openmath/src/ser/xml.rs:144-159 | the base64 text written for an OMB decodes to the same bytes |
| ReaderProps.OmbReadsText | openmath/src/de/xml.rs:511-534 | an OMB whose text decodes to some bytes reads as exactly those bytes, consuming text and end tag |
| ReaderProps.OmbReadsEncoding | openmath/src/de/xml.rs:511-534 | an OMB holding the written encoding of some bytes reads back as those bytes |
| ReaderProps.ReadObjRules | openmath/src/de/xml.rs:447-473 | at the top level, end of input is `NoObject`; non-blank text, end tags and self-closing elements are `UnexpectedTag`; `OMOBJ` hands its `cdbase` (or the default) to `read`; anything else is skipped |
| ReaderProps.ReadFirstObject | openmath/src/de/xml.rs:475-488 | `read` returns the first object `handle_next` produces, skipping `Continue`, and passes errors on |
| ReaderExamples.ReadsOmi | openmath/src/de/xml.rs:383-386 | `<OMI>t</OMI>` reads as the integer of `t` in three events |
| ReaderExamples.ReadsOms | openmath/src/de/xml.rs:373 | `<OMS cd=".." name=".."/>` reads as that symbol in the enclosing base |
| ReaderExamples.Two | openmath/src/int.rs:309 | the text "2" is the machine-sized integer 2 |
| ReaderExamples.WsIsWhitespace | openmath/src/de/mod.rs:163-171 | the line breaks and indentation of the example are whitespace |
| ReaderExamples.SkipWs | openmath/src/de/xml.rs:436-439 | that whitespace is skipped |
| ReaderExamples.PlusSecondArg | openmath/src/de/xml.rs:638-644 | the argument loop of the example reads the second `2` and stops at `</OMA>` |
| ReaderExamples.PlusArgs | openmath/src/de/xml.rs:638-644 | the argument loop reads both `2`s |
| ReaderExamples.PlusOma | openmath/src/de/xml.rs:628-654 | the example's OMA reads as `plus` applied to two `2`s |
| ReaderExamples.ReadPlusOf | openmath/src/de/mod.rs:163-171 | any event sequence of the example's shape reads as that tree |
| ReaderExamples.ReadPlus | openmath/src/de/mod.rs:163-171 | the example document reads as `plus` applied to `2` and `2`, in the OMA's base |
| ReaderExamples.Simplify | openmath/src/de/mod.rs:76-141 | a kept-back operator is `arith1` `plus` or `times` in the default base; an OMI converts exactly when it fits an `i128`, to its value; a value comes only from an OMI or an OMA |
| ReaderExamples.SimplifyArgs | openmath/src/de/mod.rs:108-136 | the arguments are converted in order, one result per argument; an error is the error of some argument |
| ReaderExamples.SimplifiedInt | openmath/src/de/mod.rs:66-74 | the final conversion succeeds exactly when the tree simplifies to a value, and is that value |
| ReaderExamples.PlusTreeIsFour | openmath/src/de/mod.rs:163-171 | `plus(2, 2)` simplifies to 4 |
| ReaderExamples.PlusIsFour | openmath/src/de/mod.rs:163-171 | the example document reads and simplifies to 4 |
| ReaderExamples.PlusNeedsCdBase | openmath/src/de/mod.rs:93-106 | the same symbol in another base is "Not an arithmetic expression" |
| ReaderExamples.ForeignContent | openmath/src/de/xml.rs:261-277 | `<OMFOREIGN>x</OMFOREIGN>` is foreign `x` with no encoding, stopping right after its end tag |
| ReaderExamples.ForeignSiblingRefused | openmath/src/de/xml.rs:269-271 | as written, a sibling after an OMFOREIGN is refused with `UnexpectedTag`; the corrected reading leaves it to be read next |
| ReaderExamples.ForeignEatsParentEnd | openmath/src/de/xml.rs:269-271 | as written, an OMFOREIGN that is the last argument consumes its parent's end tag |
| ReaderExamples.SimplifyNode | openmath/src/de/mod.rs:86-139 | once its attributions have converted, an OMI converts exactly when it is a stack value; an OMBIND, OME or other leaf is an error, after the errors of its binder, variables, body or arguments |
| ReaderExamples.ForeignOrError | openmath/src/de/xml.rs:233-277 | an object argument fails exactly when its conversion fails, with that error; foreign content is not converted |
| ReaderExamples.AttrsError | openmath/src/de/xml.rs:706-752 | no error exactly when every attribution value converts; otherwise the error of one of them, the first in order |
| ReaderExamples.VarsError | openmath/src/de/xml.rs:828-860 | no error exactly when the attributions of every bound variable from the j-th on convert |
| ReaderExamples.EargsError | openmath/src/de/xml.rs:656-698 | no error exactly when every error argument from the j-th on converts or is foreign |
| ReaderExamples.AttributionConvertedFirst | openmath/src/de/xml.rs:706-752 | `2` attributed with 2^127 fails with "Invalid int value", because the attribution value is converted first |
| ReaderExamples.BinderConvertedFirst | openmath/src/de/xml.rs:828-865 | an OMBIND whose binder is 2^127 fails with "Invalid int value" before the OMBIND itself is refused |
| XmlWriter.Xml | openmath/src/ser/xml.rs:134-341 | the XML each serializer call writes for an indentation state and a namespace state; its properties are stated by XmlWriter.XmlDisplayer.Write and the XmlExamples lemmas |
| XmlWriter.XmlDisplay | openmath/src/ser/xml.rs:24-34 | `XmlDisplay`: the value written from the top-level state, its own base announced over the OpenMath base; stated by XmlWriter.FormatXml and the XmlExamples lemmas |
| XmlWriter.XmlObjDisplay | openmath/src/ser/xml.rs:41-75 | `XmlObjDisplay`: the OMOBJ element around the value; stated by XmlWriter.FormatXmlObject |
| XmlWriter.ObjOpenTag | openmath/src/ser/xml.rs:43-57 | the OMOBJ start tag with a space before `cdbase`; stated by XmlWriter.ObjOpenTagIsStartTag |
| XmlWriter.ObjOpenTagAsWritten | openmath/src/ser/xml.rs:43-57 | the OMOBJ start tag as the source writes it; stated by XmlWriter.ObjOpenTagAsWrittenRunsTogether and XmlWriter.ObjOpenTagAgreesWithoutBase |
| DisplayWriter.Show | openmath/src/ser/mod.rs:954-1100 | the notation each serializer call writes in a namespace state; stated by DisplayWriter.DisplaySerializer.Write and the DisplayExamples lemmas |
| DisplayWriter.ShowVars | openmath/src/ser/mod.rs:1076-1094 | bound variables separated by `, `; stated by DisplayWriter.DisplaySerializer.Vars |
| DisplayWriter.Display | openmath/src/ser/mod.rs:853-863 | `OMDisplay`: the notation from the top-level state; stated by DisplayWriter.FormatDisplay and the DisplayExamples lemmas |
| DisplayWriter.ObjectDisplay | openmath/src/ser/mod.rs:648-652 | `OMOBJ(` around the notation; stated by DisplayWriter.FormatObject |
| DisplayWriter.VarsAsWritten | openmath/src/ser/mod.rs:1079-1094 | the variable loop as the source writes it; stated by DisplayWriter.VarsAsWrittenAgreesWithoutAttributes and DisplayWriter.LoneAttributedVarAsWritten |
| SerTree.AsOmsNs | openmath/src/ser/mod.rs:667-679 | the namespace state `as_oms` writes a symbol in; stated by SerTree.AsOmsNsBase |
| Base64.Encode | openmath/src/base64.rs:185-212 | the symbols the encoder yields; stated by Base64.EncodeLength, Base64.EncodePadding and Base64.RoundTrip |
| Base64.EncodeString | openmath/src/base64.rs:32-41 | `into_string`: the symbols as characters; stated by Base64.Encoder.IntoString and XmlExamples.FooBarEncoded |
| Base64.Fltn | openmath/src/base64.rs:215-220 | `fltn`: a decoded item as three byte results; stated by Base64.FilterChunk |
| Base64.Flter | openmath/src/base64.rs:221-223 | `flter`: every result but `Ok(0)` is kept; stated by Base64.FilterChunk and Base64.ZeroByteIsLost |
| Base64.Flat | openmath/src/base64.rs:85-89 | `flat`: the decoded items flattened and filtered; stated by Base64.FlatOfChunks |
| Base64.DecodeFlat | openmath/src/base64.rs:85-89 | `decode_base64().flat()` collected; stated by Base64.RoundTripWithoutZeros and Base64.ZeroByteIsLost |
| Base64.DecodeCorrected | openmath/src/base64.rs:225-265 | the decoder keeping every byte the data stands for; stated by Base64.RoundTrip and Base64.DecodeCorrectedChunks |
| Ints.IsZero | openmath/src/int.rs:347-349 | `is_zero`; stated by Ints.SignsMatchValue, Ints.ZeroVariants and Ints.SignOfDisplay |
| Ints.IsPositive | openmath/src/int.rs:364-369 | `is_positive`; stated by Ints.SignsMatchValue |
| Ints.IsNegative | openmath/src/int.rs:384-389 | `is_negative`; stated by Ints.SignsMatchValue and Ints.SignOfDisplay |
| Ints.SignOfDisplay | openmath/src/int.rs:39-46 | an `Int` is negative exactly when its display starts with `-`, and a stack value is zero exactly when it displays as `0` |
| Ints.Display | openmath/src/int.rs:39-46 | `Display for Int`; stated by Ints.ParseDisplayedI128 and Ints.NewDisplayRoundTrip |
| Ints.Less | openmath/src/int.rs:36-58 | the derived order; stated by Ints.LessIsStrictTotalOrder and Ints.OrderIsNotNumeric |
| Ints.VisitStr | openmath/src/int.rs:111-159 | serde's `visit_str`; stated by Ints.VisitStrAgreesWithNew |
| Kinds.OMKind.AsStr | openmath/src/lib.rs:44-51 | every kind's name starts with `OM` and is at least three characters long; with Kinds.KindEncodings, the names are distinct |
| XmlEscape.Escape | openmath/src/ser/xml.rs:344-371 | `DisplayEscaper`; stated by XmlEscape.UnescapeEscape and XmlEscape.EscapeIsCharData |
| ReaderSpec.FromXml | openmath/src/de/mod.rs:211-217 | `from_openmath_xml` of a bare object; stated by XmlReader.ReadBare and ReaderExamples.PlusIsFour |
| ReaderSpec.FromXmlObject | openmath/src/de/mod.rs:275-281 | `OMObject::from_openmath_xml`; stated by XmlReader.ReadObject |
| XmlEvents.Raw | openmath/src/de/xml.rs:885-897 | a normal form of the markup of one event, standing for the bytes `read_to_end` returns |
| XmlEvents.Whitespace | openmath/src/de/xml.rs:436-440 | `is_ascii_whitespace` on every character; stated by ReaderProps.HandleNextStops and ReaderProps.ReadObjRules |

## Left out

- The `quick_xml` tokeniser is not modelled. The reader starts from the event sequence it produces. The offsets in `now()` and in errors are event indices, not byte offsets. The `Xml` error records the index of the malformed event.
- Foreign content (`read_to_end`) comes back as a normal form of the markup between the tags (`XmlEvents.Raw`), not as the exact byte slice of the input.
- The `FromString` and buffered `Reader` back ends of `Readable` are modelled as one. Buffer reuse (`clear`) has no counterpart.
- UTF-8 decoding errors (`std::str::Utf8Error`, `tryfrombytes`) are not produced: texts are Dafny strings. `XmlEvents.Utf8` gives the bytes of a text for the base64 decoder.
- `XmlReadError::Conversion`, `NotFullyConvertible` and `RequiresAllocating` are never produced, because the reader builds trees and has no failing `from_openmath`. `Empty` is not produced either.
- Floats: the model checks the text of OMF `dec` and `hex` attributes. It does not compute an `f64` value, and it does not model `f32` or binary floating point.
- Ints: `isize` and `usize` are taken to be 64 bits wide.
- Expr.AsOpenMath: attributed objects other than variables reach a `todo!()` in the source. The `Supported` precondition excludes them.
- XmlWriter: `XmlDisplayer` has no `omattr` in the source. Its functions require objects without attributions (`NoAttribution`).
- DisplayWriter: errors returned by `fmt::Write` are not modelled. Writing to the formatter always succeeds.
- XmlWriter: children are written without their own `cdbase`, as the source's `XmlDisplayer` does.
- ReaderExamples.Simplify: the `i128` overflow of `+` and `*` in `SimplifiedInt` is not modelled: the model adds and multiplies unbounded integers where the source would panic or wrap. Errors are the source's `&'static str` messages, as strings.
- ReaderSpec.Omb, XmlReader.Reader.Omb, ReaderProps.OmbReadsText, ReaderProps.OmbReadsEncoding, ReaderProps.EncodingDecodes: decode with the corrected `Base64.DecodeCorrected` (see Findings), not with `decode_base64().flat()` of de/xml.rs:520, whose filter drops every decoded zero byte. On `<OMB>AA==</OMB>` the source reads the bytes `[]` and the model reads `[0]` (`Base64.ZeroByteIsKept`). The round trip the three `ReaderProps` lemmas state fails in the source whenever a byte is 0. `ReaderSpec.StartElement`, `ReaderSpec.HandleNext`, `ReaderSpec.Read`, `ReaderSpec.ReadObj`, `ReaderSpec.FromXml`, `ReaderSpec.FromXmlObject` and the reader methods that call these inherit this. The decoder as written is `Base64.DecodeFlat`.
- The `serde` serialisation and deserialisation paths (`OMFromSerde`, JSON) are not part of this model.
- A lone `+` sign in an integer text gives the big integer with an empty digit string, as `Int::new` does in the source. This is modelled as written.
- SerTree.AsOmsNs, SerTree.AsOmsNsBase: follow the corrected `with_cdbase` (`SerTree.WithBase`, see Findings), not the comparison with `current_ns` of ser/mod.rs:944-951. They differ on a symbol whose own base is the OpenMath base inside a value that announces `http://example.org`: the source leaves `http://example.org` in effect for the symbol, the model switches to the OpenMath base.
- DisplayWriter.SymbolNamesItsBase, DisplayWriter.DisplaySerializer.WithCdbase, DisplayWriter.DisplaySerializer.AsOms, DisplayWriter.DisplaySerializer.Write, DisplayWriter.Show, DisplayWriter.Display, DisplayWriter.ObjectDisplay, DisplayWriter.FormatDisplay, DisplayWriter.FormatObject: inherit the corrected base rule. On the input above the source writes `OMS(http://example.org/arith1#plus)` and the model `OMS(http://www.openmath.org/cd/arith1#plus)`.
- DisplayWriter.DisplaySerializer.Ombind, DisplayWriter.DisplaySerializer.Vars, DisplayWriter.ShowVars: write the corrected separator. On an OMBIND with one attributed variable the source writes `, ` before it and the model does not. The loop as written is `DisplayWriter.VarsAsWritten`.
- XmlWriter.XmlDisplayer.WithCdbase, XmlWriter.XmlDisplayer.AsOms, XmlWriter.XmlDisplayer.Write, XmlWriter.Xml, XmlWriter.XmlDisplay, XmlWriter.FormatXml: inherit the corrected `with_cd_base` of ser/xml.rs:119-133. On the input above the source writes `cdbase="http://example.org"` on the OMS and the model `cdbase="http://www.openmath.org/cd"`.
- XmlWriter.XmlObjDisplay, XmlWriter.FormatXmlObject: write a space before the OMOBJ `cdbase` attribute. For an object with a base the source writes `version="2.0"cdbase="…"`. The tag as written is `XmlWriter.ObjOpenTagAsWritten`.
- ReaderSpec.NextOmForeign, ReaderSpec.Foreign, XmlReader.Reader.Foreign, XmlReader.Reader.NextOmForeign: end the foreign object at its own end tag, without the extra event de/xml.rs:269-271 reads after it. `<OME><OMS cd="a" name="b"/><OMFOREIGN>x</OMFOREIGN><OMI>1</OMI></OME>` is refused by the source at `<OMI>` and read by the model as an error with two arguments. `ReaderSpec.Ome`, `ReaderSpec.OmattrPairs`, `ReaderSpec.Read`, `ReaderSpec.ReadObj` and the reader methods that call these inherit this. The reading as written is `ReaderSpec.ForeignAsWritten`.
- Ints.SignsMatchValue: holds only for text with at least one digit. `Int::new` also accepts a lone `-` as the heap text `-`, which `is_negative` calls negative although the value it denotes is 0 (`Ints.LoneMinus`), and a lone `+` as empty heap text (`Ints.LonePlus`).
- Ints.IsPositive, Ints.IsNegative: require heap text to be non-empty. int.rs:367 and int.rs:387 index the first byte of the text, which panics on the empty heap text a lone `+` makes (`Ints.LonePlus`). The panic is not modelled.
- Floats: the `f32` test (ser/mod.rs:1197-1202) is modelled by `XmlExamples.PrettyOmf` on the decimal text `3.14159`. The widening of `f32` to `f64` and its printed digits are not modelled.

## Findings

| source | as written | input that shows it | evidently intended | confidence | as-written member | corrected member |
|---|---|---|---|---|---|---|
| openmath/src/base64.rs:215-223 | a decoded chunk whose bytes are zero is treated as padding and dropped; the OMB reader (de/xml.rs:520) inherits this | the byte sequence `[0]` encodes to `AA==`, which decodes to no bytes | decoding inverts encoding for every byte sequence | not executed | Base64.ZeroByteIsLost | Base64.RoundTrip |
| openmath/src/ser/mod.rs:1079-1094 | the `, ` separator between bound variables is written under the inverted condition | `ombind` with one attributed variable writes `, ` before it | variables separated by `, `, nothing before the first | not executed | DisplayWriter.LoneAttributedVarAsWritten | DisplayWriter.DisplaySerializer.Vars |
| openmath/src/ser/mod.rs:940-953 | `with_cdbase` compares the requested base only with the current namespace's base, not with the base in effect | asking for the OpenMath base while `http://example.org` is announced keeps `http://example.org` in effect | after the call, the requested base is in effect | not executed | SerTree.WithBaseAsWrittenKeepsStaleBase | SerTree.WithBase |
| openmath/src/ser/xml.rs:49-53 | the OMOBJ `cdbase` attribute is written with no space before it | an object with a CD base gives `version="2.0"cdbase="..."` | attributes separated by a space | not executed | XmlWriter.ObjOpenTagAsWrittenRunsTogether | XmlWriter.ObjOpenTagIsStartTag |
| openmath/src/de/xml.rs:269-271 | after `read_to_end` has consumed `</OMFOREIGN>`, one more event is read and must be an end tag | `<OME>…<OMFOREIGN>x</OMFOREIGN><OMI>1</OMI></OME>` is refused at `<OMI>`; a last foreign argument consumes the parent's end tag | the foreign object ends at its own end tag | not executed | ReaderExamples.ForeignSiblingRefused | ReaderSpec.Foreign |
