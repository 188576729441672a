# ClickHouse native protocol: verified model

A Dafny model of the server side of the ClickHouse native protocol: the incremental packet reader and the wire codec, the
columns behind a block and the names of their types, splitting, joining and iterating of columns, the string arena, the decimal
arithmetic, and the insert session. `dafny verify dfyconfig.toml` checks everything.

How it is laid out:

- **Specification functions** say what each reader gives at a position of a byte string, as a value with the position after it, a wish
  for more bytes, or an error (`Basics.Dec`), what each writer emits, and what `at` shows (`Columns`, `Views`). The theorems are
  about these.
- **The code as it runs** is next to them: the string arena and its arrays (`Pool`), readers over a cursor and over inflated
  frames, with short reads (`Readers`, `Loading`, `Parsing`), the growing buffer of a connection (`Connecting`), the encoder
  (`Encoding`), the chunk and column iterators (`Chunking`, `Iterators`), the adapters of a cast (`CastBlocks`), the row builder
  (`RowBuilding`), and the session between its awaits (`SessionTask`). Every such method is proved to do what its
  specification function says.
- **What clients write** is spelled out apart from all of this, in literal codes, revisions, widths and names: whole conversations
  (`Clients`, `SessionAnswers`), the bytes of columns, blocks and frames (`WireForms`), type names (`NameForms`, `EnumForms`), code
  points (`Characters`). The laws there say what the specification functions compute.
- **Two relations on bytes** carry the codec: `Settled` (a result is final, and another string shares the bytes it rests on) and
  `Holds` (a string stands at a position). Every reader gives a settled result again on any string that shares those bytes; that one
  lemma shape covers both that more bytes change nothing and that a packet is recognised as soon as its last byte is there.

Panics of the Rust code, with overflow checks on, are results (`Panic(cause)`), not preconditions. Where a law does not
hold on all inputs, the exact condition is part of the theorem:

- A type name reads back as its type exactly for *printable* types: no nullable directly inside a nullable, enums with at least one
  item whose names hold neither quote nor backslash, decimals with scale <= precision <= 18 (`TypeNameRoundTrip.Printable`).
  Columns and blocks load back exactly under the same condition. `Unprintable` has a type of each kind.
- A saved slice loads as its rows exactly when its first row can stand first: an array column keeps no start of its own, so every
  array before the slice must be empty, unless a null hides the row (`ColumnRoundTrip.StartsClean`). `SecondArray` is a slice that
  loads as another row.
- A loaded column can be used exactly when its array offsets never fall and its fixed strings have room, at every depth. Loading checks
  neither: `FallingOffsets`, `NoWidth`.
- The iterators take every null flag but 0 as null, `at` only the flag 1. They agree on a row exactly when the flags that
  decide it are 0 or 1 (`FlagOfTwo`).
- `send_client_data` writes one packet code and then every chunk of a block. What is read back is one packet exactly for
  blocks of at most 1 048 576 rows (`OneRowTooMany`).
- A block written compressed loads when its frame is within the size readers accept, and is refused otherwise (`FrameTooBig`).
- The end-of-stream of an insert is written only after its consumer has everything, in every interleaving, exactly when no insert
  ends after an insert query came while another insert was open: such a query leaves a permit behind that belongs to the
  superseded insert (`InsertTwice`).
- A text pushed onto a fixed-string column adds a row exactly when it is empty, because the buffer is resized to the length that the
  padding alone would need. A null on nullable fixed strings adds a flag and no row (`NullFixed`).
- Rows make a rectangular block exactly when they give the same distinct keys, and a further row keeps it so exactly when its keys are
  the names of the columns. While a block has one row, an unknown key still makes a new column (`LateKey`).
- Rows pushed on an empty block are its rows exactly when no column starts with rows of its own: address columns are made with as many
  rows as the block has capacity, and a key of such a type breaks the block when that is not 0 (`AddressKey`, `NullableAddress`).
- `eq` of decimals is transitive exactly as far as scales differ by at most 18: beyond, it panics (`TwentyApart`).
- A cast block can be written exactly when every decimal cell rescales: scales at most 18 apart, and within 64 bits at a larger scale.
- A decimal cast to another scale and width comes back exactly when the rescaled number fits the target's word (`TooWide`).

## Model

| member | source | states |
|---|---|---|
| Varint.PutUvarint | src/binary/uvarint.rs:3-14 | writes exactly the LEB128 bytes (DWARF 5, section 7.6) into the front of the buffer and leaves the rest as it was |
| Varint.Leb128Shortest | src/binary/uvarint.rs:3-14 | every 64-bit number takes one to ten bytes, and no string that reads as it is shorter |
| Varint.UvarintRoundTrip | src/binary/read_ex.rs:78-97 | reading written bytes, wherever they stand and whatever follows, gives the number and consumes exactly them |
| Varint.UvarintPrefix | src/binary/read_ex.rs:78-97 | every proper prefix of written bytes asks for more |
| Varint.UvarintLocal | src/binary/read_ex.rs:78-97 | a final result stays the same on every string that shares the bytes it rests on |
| Varint.UvarintSpelled | src/binary/read_ex.rs:78-97 | what any bytes read as: the number their groups of seven bits spell, an overflow exactly when a tenth byte is above 1, a shift panic exactly from eleven bytes on |
| Varint.UvarintOpen | src/binary/read_ex.rs:78-97 | bytes without an end are waited for, up to ten of them, and panic from eleven on |
| WireForms.SmallNumbers | src/binary/uvarint.rs:3-14 | the one byte of a number below 128, the two of one below 16384 |
| Readers.Reader.ReadUvarint | src/binary/read_ex.rs:78-97 | the loop over single bytes gives exactly what the specification says of the stream: value, overflow, shift panic, or missing bytes |
| Readers.Reader.ReadBytes | src/binary/read_ex.rs:26-43 | short reads are repeated until the range is full; it succeeds exactly when the stream has the bytes, and writes nothing outside the range |
| Readers.Reader.Take | src/binary/read_ex.rs:52-55 | the same into a new vector: the next bytes of the stream or a wish for more |
| Readers.Reader.ReadWord | src/binary/read_ex.rs:45-50 | the next bytes of the stream as a little-endian word |
| Readers.Reader.ReadString | src/binary/read_ex.rs:52-57 | a length, that many bytes, and the UTF-8 check |
| Readers.Reader.ReadStrIntoBuffer | src/binary/read_ex.rs:99-104 | appends the read bytes to the arena as a new string, keeps the arena valid and its other strings unchanged |
| Readers.Reader.Fill | src/types/block/compressed.rs:40-47 | the next frame continues the inflated stream; at its end the reader stops with the error of the last frame |
| Readers.Reader.Read | src/types/block/compressed.rs:50-60 | gives the next bytes of the inflated stream across frame borders, nothing only at its end |
| Readers.Cursor.Read | src/connection.rs:117-118 | copies as many bytes as there are and fit, and moves on by them |
| Readers.Cursor.DecompressBuffer | src/types/block/compressed.rs:62-110 | checks method, size, hash and inflation of one frame and consumes exactly that frame |
| Decoders.StrRoundTrip | src/binary/encoder.rs:30-38 | an encoded string reads back, consuming exactly its bytes |
| Decoders.StrChecked | src/binary/read_ex.rs:52-57 | an encoded byte string reads back exactly when it is UTF-8, and is refused for that otherwise |
| Characters.Utf8IsEncoded | src/binary/read_ex.rs:52-57 | a byte string passes the UTF-8 test if and only if it is the encoding of Unicode scalar values (section 3 of RFC 3629) |
| Encoding.Encoder.Uvarint | src/binary/encoder.rs:24-28 | appends the LEB128 bytes by way of the ten-byte scratch |
| Encoding.Encoder.ByteString | src/binary/encoder.rs:35-38 | appends length and bytes |
| Encoding.Encoder.WriteBytes | src/binary/encoder.rs:47-49 | appends the bytes |
| Encoding.Encoder.WriteWord | src/binary/encoder.rs:40-45 | appends the little-endian bytes of a word |
| Encoding.Marshal | src/types/marshal.rs:5-60 | fills the scratch with the little-endian bytes of a word |
| Basics.LittleEndianRoundTrip | src/types/unmarshal.rs:1-60 | unmarshalling what was marshalled gives the word |
| Pool.StringPool.Allocate | src/types/column/string_pool.rs:63-70 | gives zeroed room at the end of the last chunk for a new string, opens at most one chunk, calls itself at most once, and keeps every earlier string |
| Pool.StringPool.TryAllocate | src/types/column/string_pool.rs:80-97 | the new pointer starts where the used part of the last chunk ended |
| Pool.StringPool.Reserve | src/types/column/string_pool.rs:99-104 | opens a chunk of 80 bytes per expected string or of the request, whichever is larger |
| Pool.StringPool.Get | src/types/column/string_pool.rs:107-124 | gives the bytes written to the allocation of that number |
| Pool.StringPool.FreeSpace | src/types/column/string_pool.rs:72-78 | the unused rest of the last chunk |
| Pool.StringPool.Push | src/types/column/string.rs:183-187 | appends one string and keeps the others |
| Pool.StringPool.Fill | src/types/column/string_pool.rs:46-47 | writing the string allocated last changes no other string and keeps the invariant: distinct chunks, strings inside them, none overlapping |
| Pool.FromStrings | src/types/column/string_pool.rs:40-51 | a pool built from a vector holds exactly its strings, in order |
| Pool.StringIter.Next | src/types/column/string_pool.rs:26-38 | yields the strings in order and then nothing |
| Pool.StringPool.SpaceBound | src/types/column/string_pool.rs:63-104 | all chunks but the last together take at most twice the summed length of the strings |
| TypeNameRoundTrip.NameRoundTrip | src/types/column/factory.rs:58-105 | `load_data` on a printed name makes a column of that type if and only if the type is printable |
| TypeNameRoundTrip.Unprintable | src/types/column/factory.rs:58-105 | the names of a nullable of a nullable, of a decimal of nineteen digits and of an enum with a quote in a name do not read back |
| TypeNameRoundTrip.PrintInjective | src/types/mod.rs:250-292 | two printable types with one name are the same |
| NameForms.IntegersNamed | src/types/mod.rs:250-292 | the eight integer names, letter by letter, printed for these types and read as them |
| NameForms.OthersNamed | src/types/mod.rs:250-292 | the names of floats, dates, addresses and UUID, likewise |
| NameForms.PrintedForms | src/types/mod.rs:250-292 | the spelling of fixed strings, nullables, arrays and decimals around what they hold |
| NameForms.PrintedEnum | src/types/mod.rs:250-292 | the spelling of enums: quotes, equals signs, commas |
| NameForms.SmallAliases | src/types/column/factory.rs:64-80 | TinyInt and SmallInt |
| NameForms.IntAliases | src/types/column/factory.rs:64-80 | Int, Integer and BigInt |
| NameForms.FloatAliases | src/types/column/factory.rs:64-80 | Float, Double and Timestamp |
| NameForms.StringAliases | src/types/column/factory.rs:75-75 | the eleven names of strings |
| NameForms.CaseDoesNotMatter | src/types/column/factory.rs:40-54 | names that differ in the case of letters only are names of one type |
| NameForms.WideDecimals | src/types/column/factory.rs:227-304 | `Decimal32(s)` has nine digits and `Decimal64(s)` eighteen, for every scale of a byte |
| NameForms.NumbersParsed | src/types/column/factory.rs:192-202 | numbers in names: digits up to the largest value of the type, a plus sign before them, nothing else |
| WireForms.UnknownName | src/types/column/factory.rs:99-102 | a name with parameters whose first letter is that of no such type is refused as it stands |
| WireForms.BareHead | src/types/column/factory.rs:192-225 | a name that ends with its head makes the parser slice out of bounds |
| Characters.TrimIsBare | src/types/column/factory.rs:272-284 | trimming takes exactly the white space, by code point, off both ends |
| Characters.BoundaryIsUtf8 | src/types/column/factory.rs:192-225 | a place in a string can be sliced at exactly when what stands before it is UTF-8 |
| TypeNameRoundTrip.DecimalPrinted | src/types/column/factory.rs:227-304 | a printed decimal name parses to its precision, scale and width exactly when scale <= precision <= 18 |
| TypeNameRoundTrip.EnumPrinted | src/types/column/factory.rs:311-372 | a printed enum name parses to its items exactly when they are not empty and their names hold neither quote nor backslash |
| EnumForms.LooseEnumReads | src/types/column/factory.rs:311-372 | with any white space before the name, before the parenthesis and around every part of every item, and with escaped quotes and backslashes in the names, an enum name parses to its items; values of an `Enum8` wrap to a signed byte |
| Factory.DecimalOfName | src/types/column/factory.rs:227-304 | the byte scan with its mutable indexes and options computes the specified parse of a decimal name, for every input |
| Factory.ScanDecimal | src/types/column/factory.rs:240-264 | finds the parameters between the parentheses and the width the head names, or refuses |
| Factory.SplitParams | src/types/column/factory.rs:272-284 | the loop over comma-separated cells: precision, scale, refused from the third on |
| Columns.LoadLocal | src/types/column/factory.rs:58-105 | loading a column of any nested type gives a settled result again |
| Columns.LoadedColumn | src/types/column/factory.rs:58-105 | a loaded column has the type its name stands for, and as many rows as asked for whenever its length can be taken at all |
| Columns.LoadedSound | src/types/column/factory.rs:58-105 | a loaded column keeps what rows, iterators and saving rest on if and only if its array offsets never fall and its fixed strings have room, at every depth; loading checks neither |
| Loading.LoadStrings | src/types/column/string.rs:40-48 | the loop through the arena gives exactly the strings of the stream |
| Loading.LoadFixed | src/types/column/fixed_string.rs:38-48 | reading row by row gives the whole buffer or asks for more |
| Loading.LoadWords | src/types/column/numeric.rs:161-168 | the list's memory, filled from the stream, is its numbers |
| Loading.LoadLeafColumn | src/types/column/factory.rs:65-98 | columns without an inner column, by the kind of the name |
| Loading.LoadData | src/types/column/factory.rs:58-105 | the recursive loader over a reader gives exactly what the specification says, nested types included |
| Encoding.SaveStrings | src/types/column/string.rs:172-177 | appends the strings of the range, each with its length |
| Encoding.SaveOffsets | src/types/column/array.rs:50-56 | appends the offsets of the range as they are and gives the last |
| Encoding.SaveColumn | src/types/column/array.rs:50-59 | appends exactly the specified bytes of a range of rows, for columns nested in any way |
| Encoding.SaveView | src/types/column/chunk.rs:28-34 | a slice writes the shifted range, cut at its own end, through slices of slices |
| ColumnRoundTrip.SaveLoad | src/types/column/nullable.rs:23-47 | any saved range of rows loads, followed by anything, as the column of those stored words and flags, and exactly the saved bytes are consumed |
| ColumnRoundTrip.ColumnRoundTrip | src/types/column/array.rs:23-59 | a column saved whole loads as itself if and only if its type is printable |
| ColumnRoundTrip.SliceLaw | src/types/column/array.rs:50-59 | a saved slice loads as the rows of the slice if and only if its first row can stand first |
| ColumnRoundTrip.SecondArray | src/types/column/array.rs:50-59 | the second of the arrays [7] and [8], saved as a slice, loads as [7, 8] |
| ColumnRoundTrip.FallingOffsets | src/types/column/array.rs:23-41 | offsets 2 and 1 load as they are, into a column of no use |
| ColumnRoundTrip.NoWidth | src/types/column/fixed_string.rs:38-48 | fixed strings of width 0 load for any number of rows and have none |
| WireForms.NumbersOnWire | src/types/column/numeric.rs:233-237 | a row of a numeric column takes 1, 2, 4, 8 or 16 bytes by its type, lowest byte first, and a column is sound exactly when its words fit them |
| WireForms.NumbersLoaded | src/types/column/numeric.rs:161-168 | loading takes exactly so many bytes a row, or waits for them |
| WireForms.DecimalsOnWire | src/types/column/decimal.rs:149-190 | four bytes up to nine digits, eight up to eighteen, read as signed numbers |
| WireForms.DecimalsLoaded | src/types/column/decimal.rs:48-70 | loading takes exactly so many bytes a row, or waits for them |
| WireForms.EnumsOnWire | src/types/column/enums.rs:258-280 | one byte for an `Enum8`, two for an `Enum16`, read as signed numbers |
| WireForms.EnumsLoaded | src/types/column/enums.rs:238-251 | loading takes exactly so many bytes a row, or waits for them |
| WireForms.NullsOnWire | src/types/column/nullable.rs:43-47 | a byte of 1 for a null and 0 for a value, all of them before the values |
| WireForms.ArraysOnWire | src/types/column/array.rs:50-59 | the ends of the arrays as words of eight bytes, then the elements |
| WireForms.ElementsShown | src/types/column/array.rs:84-99 | a row shows the elements between the ends |
| WireForms.TextsOnWire | src/types/column/fixed_string.rs:56-64 | strings with their lengths; fixed strings one after the other, row by row |
| Views.SlicesCollapse | src/types/column/chunk.rs:28-50 | slices of slices are one slice of the stored column, for `save` and for `at` |
| Blocks.RawLoadLocal | src/types/block/mod.rs:173-187 | loading a block gives a settled result again |
| Blocks.LoadedBlock | src/types/block/mod.rs:173-218 | whatever the bytes, loading never meets columns of different sizes, and a loaded block is rectangular |
| Blocks.AppendPanics | src/types/block/mod.rs:205-213 | the panics of appending a column: a width of 0, flags that are not as many as rows, rows that are not those of the block |
| Blocks.LoadedUsable | src/types/block/mod.rs:173-187 | the same of every column of a loaded block |
| Loading.LoadRaw | src/types/block/mod.rs:173-187 | the loop that appends column after column gives the specified block |
| Loading.ReadOneColumn | src/types/column/mod.rs:195-206 | name, type name and rows of one column |
| Blocks.RawLoad | src/types/block/mod.rs:173-187 | a loaded block consumes at least one byte and stays inside the bytes there are |
| Loading.ReadBlockInfo | src/types/block/block_info.rs:28-37 | reads the five fields in order |
| Loading.LoadBlock | src/types/block/mod.rs:163-171 | plain or through a decompressing reader over the same cursor, the block and the consumed bytes are those of the specification |
| Encoding.SaveInfo | src/types/block/block_info.rs:39-45 | writes the tags 1, 2 and 0 with the flag and the bucket between them |
| Encoding.SaveNamed | src/types/column/mod.rs:223-228 | appends name, printed type and all rows of a column |
| Encoding.WriteBlock | src/types/block/mod.rs:357-365 | appends info, counts and every column with name, type name and rows |
| WireForms.BlockOnWire | src/types/block/mod.rs:357-365 | the 29 bytes of a block with the one column `abc`, `UInt32`, 7 and 258 |
| BlockRoundTrip.BlockLoads | src/types/block/mod.rs:173-187 | a written block of stored or sliced columns loads, followed by anything, as the saved rows under the same names and types, and exactly its bytes are consumed |
| BlockRoundTrip.BlockRoundTrip | src/types/block/mod.rs:357-365 | a written block of stored columns comes back with the same names, types and contents if and only if all types are printable |
| BlockRoundTrip.PrintUtf8 | src/types/column/mod.rs:223-228 | printed type names are UTF-8, so they pass the check on loading |
| Compressed.CompressedLoadLocal | src/types/block/compressed.rs:40-60 | loading through inflated frames gives a settled result again |
| CompressedRoundTrip.WriteBlockCompressed | src/types/block/mod.rs:327-356 | writes hash, method, sizes and packed data of the plain bytes |
| WireForms.FrameOnWire | src/types/block/mod.rs:327-356 | the bytes of a frame: two words of hash over all that follows, 0x82, the packed size and nine, the plain size, the packed data |
| Compressed.FrameDecided | src/types/block/compressed.rs:62-110 | what becomes of any frame, in the order of the checks: refused for method or size, waited for, refused for the hash of exactly the bytes after it, a panic for a size below 9, refused when it does not unpack, or taken with its data |
| Compressed.FirstFrame | src/types/block/compressed.rs:40-47 | a refused first frame refuses the block with its error |
| CompressedRoundTrip.FrameLoads | src/types/block/compressed.rs:62-110 | a written frame inflates to its data, or is refused for its size |
| CompressedRoundTrip.CompressedRoundTrip | src/types/block/mod.rs:327-356 | a block written compressed loads like the plain one and exactly its frame is consumed when the frame is within the accepted size; a larger one is refused |
| CompressedRoundTrip.AnyFrames | src/types/block/compressed.rs:40-60 | the bytes of a block, cut into any number of frames, load as the block, and exactly these frames are consumed |
| Compressed.EmptyFrame | src/types/block/compressed.rs:50-60 | an empty frame reads as the end of the data: the block is waited for |
| CompressedRoundTrip.FrameTooBig | src/types/block/compressed.rs:62-110 | a block without columns, packed by a codec into more than a gigabyte, is refused |
| Protocol.ReadHelloLocal | src/protocols/protocol_hello.rs:27-54 | the hello gives a settled result again |
| Protocol.ReadQueryLocal | src/protocols/protocol_query.rs:105-153 | the query, its client info and its settings loop give a settled result again |
| Clients.HelloReads | src/protocols/protocol_hello.rs:27-54 | the bytes a client writes for a hello, followed by anything, are read as it, field by field, and exactly they are consumed; without a user they are refused |
| Clients.InfoReads | src/protocols/protocol_query.rs:39-92 | the same of client info: none, TCP with its fields by revision, HTTP, or any other interface |
| Clients.SettingsRead | src/protocols/protocol_query.rs:127-142 | known settings, each with its number, up to the empty name |
| Clients.StrangeSetting | src/protocols/protocol_query.rs:127-142 | any other name is refused, after any known ones |
| Clients.QueryReads | src/protocols/protocol_query.rs:105-153 | the bytes of a query, followed by anything, are read as it: id, stage, compression and text, the client info that was sent or else that of the hello, and TCP as the interface in any case |
| Parsing.ParseHello | src/protocols/protocol_hello.rs:27-54 | field by field, and refused without a user |
| Parsing.ParseInterface | src/protocols/protocol_query.rs:54-72 | the fields of a TCP or HTTP client |
| Parsing.ParseClientInfo | src/protocols/protocol_query.rs:39-92 | the fields assigned step by step, by interface and revision |
| Parsing.SkipSettings | src/protocols/protocol_query.rs:127-142 | the loop over settings ends at the empty name, at an unknown name, or for lack of bytes, as specified |
| Parsing.ParseQuery | src/protocols/protocol_query.rs:105-153 | the query with client info filled from the hello where it has none |
| Parsing.ParseData | src/binary/parser.rs:65-69 | the table name, then a plain or compressed block |
| Parsing.ParsePacket | src/binary/parser.rs:32-69 | the dispatch on the packet code over one cursor gives exactly the specified packet, error or wish for more |
| Protocol.ReadPacketLocal | src/binary/parser.rs:32-69 | a packet is settled by the bytes it consumed, an error by what had arrived |
| Protocol.ReadPacket | src/binary/parser.rs:32-49 | a packet consumes at least one byte and stays inside the buffer |
| Clients.ShortPackets | src/binary/parser.rs:37-49 | ping is 4, cancel is 3, a query before any hello is refused, and so is every code but six |
| Clients.BlockReads | src/binary/parser.rs:65-69 | the bytes of a data or scalar packet, plain or compressed as the connection expects, are read as its block |
| Protocol.PacketUsable | src/binary/parser.rs:65-69 | the same of every column of the block in a packet, plain or compressed |
| Protocol.PacketPrompt | src/connection.rs:112-151 | a packet is recognised as soon as its last byte has arrived and not before |
| Protocol.PacketErrors | src/binary/read_ex.rs:33-36 | missing bytes are never taken for an error of the stream |
| Connecting.Socket.ReadBuf | src/connection.rs:94-103 | gives the next piece, never empty, or nothing at the end |
| Connecting.Connection.TryPacket | src/connection.rs:112-151 | takes a whole packet off the buffer and remembers the compression of a query; without a whole packet the buffer stays |
| Connecting.Connection.ReadPacketLoop | src/connection.rs:81-106 | parse and read in turn until a packet, an error, a clean end, or an end within a packet |
| Connecting.Run | src/lib.rs:129-157 | the session loop delivers exactly the packets and the outcome of the specification for the pieces it is given |
| Delivery.ServeIsDeliver | src/connection.rs:81-106 | however the stream is cut into reads, the packets and the final outcome are those of the whole stream |
| Delivery.CutsDoNotMatter | src/connection.rs:81-106 | two ways of cutting one stream are served alike |
| Clients.ScriptDelivers | src/connection.rs:112-151 | whatever a client says in a sensible order, hellos, queries, blocks in the form of the last query, pings and cancels, is delivered message by message with a clean end |
| Clients.ScriptServed | src/lib.rs:129-157 | the same on a fresh connection, however the bytes are cut into reads |
| Clients.CutOff | src/connection.rs:94-103 | a stream cut off within a packet ends as a reset and delivers nothing of it |
| Clients.HelloQueryBlock | src/connection.rs:124-128 | a hello, a query, and a block sent by `send_client_data`, plain or compressed by what the query says |
| Chunking.BuildIndex | src/types/column/concat.rs:82-93 | computes the running sums of the sizes from 0 |
| Chunking.FindChunk | src/types/column/concat.rs:95-117 | the binary search that walks over empty parts terminates, stays in range, finds the part of a row below the last entry and gives 0 otherwise |
| Chunking.PartIsUnique | src/types/column/concat.rs:95-117 | a row falls in exactly one part |
| Chunking.CellOfView | src/types/column/concat.rs:62-66 | `at` through slices and joined parts, by the search, shows the specified cell |
| Chunking.CellOfColumn | src/types/column/array.rs:84-99 | `at` of a stored column, the elements of an array collected one by one |
| Chunking.JoinedRows | src/types/column/concat.rs:20-66 | joined column data shows the rows of its parts one after the other |
| Chunking.ChunkIterator.Next | src/types/block/chunk_iterator.rs:15-45 | yields the cuts of the block in order, a block without rows once, and then nothing; with a size of 0, chunks without rows for ever |
| Chunking.CutsExact | src/types/block/chunk_iterator.rs:15-45 | chunk k starts at row k * n and has n rows unless it is the last; there are m / n chunks rounded up, one for no rows |
| Chunking.ChunkSizes | src/types/block/chunk_iterator.rs:15-45 | the row counts of the chunks of a block |
| Chunking.ConcatData | src/types/column/concat.rs:20-42 | parts of one type are joined under their index, mixed types panic |
| Chunking.Concat | src/types/block/mod.rs:275-298 | joins blocks of equal column counts and types, and panics exactly for none, for unequal counts and for mixed types |
| Chunking.SplitJoin | src/types/block/mod.rs:275-298 | splitting a rectangular block into chunks of any positive size and joining them gives the same names, types and cells |
| Sending.ChunkLoads | src/types/block/chunk_iterator.rs:33-43 | a written chunk loads with the names, types and row count of the chunk; the rows are those of the block if and only if the chunk is empty or its first row can stand first |
| Sending.SendBlock | src/types/block/mod.rs:368-382 | writes one packet code, an empty table name and every chunk, plain or compressed |
| Clients.SmallBlockSent | src/types/block/mod.rs:368-374 | a block of at most 1 048 576 rows is sent as its code, one zero byte, and the block itself |
| Sending.SentBlockIsOnePacket | src/types/block/mod.rs:368-374 | a sent block, plain or compressed, reads back as its first chunk unless the frame of that is too big; the chunk is all that was sent if and only if the block has at most 1 048 576 rows |
| Sending.OneRowTooMany | src/types/block/mod.rs:368-374 | a block of 1 048 577 numbers: the packet read back ends before what was sent does |
| Iterators.ColumnIter.NextNullable | src/types/column/iter/mod.rs:519-531 | advances flags and inner iterator together and yields the entry of the row |
| Iterators.ColumnIter.NextArray | src/types/column/iter/mod.rs:557-580 | keeps the inner iterator at the previous offset and yields the array of the row |
| Iterators.ColumnIter.NextLeaf | src/types/column/iter/mod.rs:213-237 | yields the row straight from storage |
| Iterators.ColumnIter.Next | src/types/column/iter/mod.rs:514-592 | for every nesting, yields the entry of the row it stands at and moves on by one, or nothing at the end |
| Iterators.ColumnIter.Nth | src/types/column/iter/mod.rs:99-108 | skips n rows, by a jump or one by one, and yields the next |
| Iterators.ColumnIter.Collect | src/types/column/iter/mod.rs:514-592 | the whole iteration yields the entries of all remaining rows in order |
| Iterators.MakeIter | src/types/column/iter/mod.rs:837-905 | every level of the iterator gets the storage of the nested column of that level |
| Iterators.SelectNode | src/types/column/array.rs:108-116 | the level of a nested type selects exactly that nested column |
| Iterators.EntryIsCell | src/types/column/iter/mod.rs:519-531 | iterator and `at` show the same row if and only if its null flags are 0 or 1 |
| Iterators.IterationIsRows | src/types/column/iter/mod.rs:514-592 | iterating a column gives `at(0)` to `at(len - 1)` if and only if all its flags are 0 or 1 |
| Iterators.FlagOfTwo | src/types/column/iter/mod.rs:519-531 | a null flag of 2 hides from the iterator a value that `at` shows |
| Iterators.ComplexIterator.Next | src/types/column/iter/mod.rs:926-957 | yields the items of the parts in order, over any number of empty parts, terminates by (parts left, part open), and stays exhausted |
| Iterators.JoinedIteration | src/types/column/iter/mod.rs:921-958 | iterating joined columns gives the rows of the joined column if and only if all flags are 0 or 1 |
| Decimals.EqIsValue | src/types/decimal.rs:111-127 | when it answers, `eq` compares the numbers, across scales |
| Decimals.EqAnswers | src/types/decimal.rs:111-127 | it answers exactly when the scales differ by at most 18 and the number with fewer digits fits a word at the other's scale |
| Decimals.EqIsEquivalence | src/types/decimal.rs:111-127 | reflexive and symmetric; two decimals that equal a third equal each other if and only if their scales differ by at most 18 |
| Decimals.TwentyApart | src/types/decimal.rs:111-127 | zero with 0, 10 and 20 digits: neighbours are equal, the ends cannot be compared |
| Decimals.UpKeepsValue | src/types/decimal.rs:232-251 | scaling up keeps the number and is `eq` to it |
| Decimals.UpThenDown | src/types/decimal.rs:232-251 | up and down again is the identity |
| Decimals.DownTwice | src/types/decimal.rs:232-251 | two truncating steps down equal one, negative numbers included |
| Decimals.DownLosesLittle | src/types/decimal.rs:232-251 | a step down moves towards zero by less than one unit of the new scale |
| Casting.CastFits | src/types/column/mod.rs:244-380 | a cast with an adapter that is accepted has the wanted type, and the adapter can take every cell of the column |
| Casting.CastPairs | src/types/column/mod.rs:251-380 | the pairs of types there is an adapter for, and no others |
| Casting.ConvertedShown | src/types/column/decimal.rs:210-250 | one converted cell, told by bytes and numbers |
| Casting.ParseTexts | src/types/column/mod.rs:381-425 | the loop over texts gives the stored word of every address, or the panic of the first text that is not UTF-8 or no address |
| Casting.ParsedRow | src/types/column/mod.rs:381-425 | the parsed words make a column of addresses, word by word those of the texts |
| Casting.CastRow | src/types/column/fixed_string.rs:100-170 | row by row the written column shows the source cell in the form of the target: texts byte by byte, cut or filled with zeros, byte arrays likewise, numbers rescaled towards zero as far as the word keeps them, enum values, nulls kept |
| Casting.CastColumnWhen | src/types/column/decimal.rs:210-250 | an adapter can write its cells if and only if every decimal rescales: the scales at most 18 apart, and at a larger scale the number within 64 bits |
| Casting.DecimalComesBack | src/types/column/decimal.rs:210-250 | a cast decimal comes back as the rescaled number if and only if it fits the target's word |
| Casting.TooWide | src/types/column/decimal.rs:210-250 | 2147483648 cast to nine digits comes back negative |
| CastBlocks.CastBlock | src/types/block/mod.rs:302-324 | reversing and popping casts the columns in order; the first that cannot be cast decides; unequal counts are refused |
| CastBlocks.CastTo | src/types/column/mod.rs:244-425 | a column cast to a type: itself, the addresses parsed from its texts, or an adapter around it |
| CastBlocks.SaveCast | src/types/column/fixed_string.rs:147-170 | an adapter writes the specified bytes, or fails with the panic of its first rescaling that overflows |
| CastBlocks.CastBytesSave | src/types/column/fixed_string.rs:147-170 | those bytes are what `save` of the cast column gives, and they fail exactly where there is no such column |
| CastBlocks.SaveDecimals | src/types/column/decimal.rs:210-227 | the loop over rows writes the rescaled words of the target width |
| CastBlocks.SaveFixed | src/types/column/fixed_string.rs:100-123 | every text or byte array cut or zero-padded to the width |
| CastBlocks.SaveTexts | src/types/column/string.rs:213-218 | every byte array as a string with its length |
| CastBlocks.SaveEnums | src/types/column/enums.rs:96-104 | the values of the rows in the width of the target |
| CastBlocks.Separate | src/types/column/decimal.rs:258-270 | the null flags and the values of the rows, a blank for each null |
| CastBlocks.NullBytes | src/types/column/decimal.rs:258-270 | a null is written as a flag of 1 and a zero for every byte of its value |
| CastBlocks.ImagesMakeBlock | src/types/block/mod.rs:302-324 | a block that was cast can be written: the columns written for it make a sound block with printable types |
| CastBlocks.WriteCastColumn | src/types/column/mod.rs:223-228 | name, type name of the target, and the bytes of the cast column |
| CastBlocks.WriteCastBlock | src/types/block/mod.rs:357-365 | a cast block is written as the block of the columns written for it, byte by byte, or fails with the first panic |
| CastBlocks.CastWriteLoad | src/types/block/mod.rs:302-324 | a block of any columns, sliced and joined ones behind an adapter included, cast to a header, can be written if and only if every decimal cell rescales; written, it loads with the header's types in order, the same names and row count, every cell converted and every address parsed; a column that had the type keeps its rows if and only if the first can stand first |
| Pushing.PushCell | src/types/column/nullable.rs:54-73 | a value of a stable type, pushed on a column nested in any way, becomes its new last row, leaves the other rows, and adds its own array elements to those of the column |
| Pushing.Push | src/types/column/array.rs:65-82 | pushing the elements of an array one by one computes the specified column, or panics as specified |
| Pushing.PushTakes | src/types/column/nullable.rs:54-73 | a column takes a value if and only if it is of its kind at every level, and panics otherwise |
| Pushing.NullStores | src/types/column/nullable.rs:54-73 | a null is stored as its flag and zero, no text, or no elements |
| Pushing.NullNumberStores | src/types/column/nullable.rs:54-73 | the same of nullable decimals and enums |
| Pushing.NullFixed | src/types/column/fixed_string.rs:66-72 | a null pushed on nullable fixed strings adds its flag and no row, and the column has no length from then on |
| Pushing.PushRows | src/types/column/array.rs:65-82 | pushed elements become the last rows, in order |
| Pushing.FixedPushAddsRow | src/types/column/fixed_string.rs:66-72 | a text pushed on a fixed-string column adds a row if and only if it is empty |
| Pushing.FixedPushStores | src/types/column/fixed_string.rs:66-72 | byte by byte, what a text pushed on a fixed-string column leaves in its buffer |
| Pushing.NewColumnFills | src/types/column/factory.rs:107-160 | values of a stable type, pushed on the column made for it, are all its rows if and only if the column starts empty at the bottom: an address column starts with as many rows as its capacity |
| RowBuilding.BlockBuilder.PutParam | src/types/block/builder.rs:81-115 | pushes onto the first column of the name, makes a column while there is at most one row, refuses otherwise, and panics when the first column has no length |
| RowBuilding.KeyRefused | src/types/block/builder.rs:81-115 | a parameter is refused if and only if no column has its name and the first column has more than one row |
| RowBuilding.BlockBuilder.Push | src/types/block/builder.rs:55-79 | puts the parameters of a row in order up to the first failure |
| RowBuilding.BlockBuilder.Find | src/types/block/mod.rs:129-140 | the first column of the name |
| RowBuilding.RowShape | src/types/block/builder.rs:55-115 | what a row leaves: its values added to the columns it names, one-row columns for new keys; taken whenever all keys are names |
| RowBuilding.NextRow | src/types/block/builder.rs:81-115 | a further row is taken and keeps the block rectangular if and only if its keys are the names of the columns |
| RowBuilding.RowsFill | src/types/block/builder.rs:62-115 | rows with values of one stable type for each key make a rectangular block with columns of these types that shows in row i of column k the value row i gave for k, if and only if all rows give the same distinct keys, in any order, and no column starts with rows of its own |
| RowBuilding.RectangularKeys | src/types/block/builder.rs:62-115 | rows that give no key twice leave columns of one length, a row for each, if and only if they give the same keys |
| RowBuilding.AddressKey | src/types/column/ip.rs:265-271 | an address pushed as the first row of a block with a capacity of 1 is its second |
| RowBuilding.NullableAddress | src/types/column/nullable.rs:49-52 | after a nullable address in such a block a further key panics |
| RowBuilding.LateKey | src/types/block/builder.rs:81-115 | two rows with a different key each are both taken and leave two columns of one row |
| SessionTask.Session.ApplyPacket | src/cmd.rs:21-92 | one packet changes stage, sender, channels and answers as the step of the state machine does, up to the first await |
| SessionTask.Session.ExecuteQuery | examples/simple.rs:63-112 | an insert query replaces the sender by that of a new channel, any other query answers at once |
| SessionTask.Session.Reset | src/lib.rs:82-89 | the stage is back to the start and the sender is dropped |
| SessionTask.Session.TakePacket | src/lib.rs:135-155 | the next packet of the loop is applied |
| SessionTask.Session.PushBlock | src/cmd.rs:78-83 | a send goes on when the channel has room |
| SessionTask.Session.WakeUp | src/cmd.rs:67-75 | once woken, the session writes the end-of-stream and is back at the start |
| SessionTask.Session.EndLoop | src/lib.rs:141-153 | the end of the stream, its error or a panic drops the sender; the error is written, a panic is not |
| SessionTask.Session.GiveNotice | examples/simple.rs:78-90 | a consumer that has seen the end gives notice |
| SessionTask.Session.NotifyOne | examples/simple.rs:89-89 | wakes the session that waits, else leaves a permit, of which there is at most one |
| SessionTask.Session.ReceiveBlock | examples/simple.rs:78-88 | a consumer takes the oldest block of its channel |
| SessionTask.Advance | src/lib.rs:135-156 | whichever task moves, the state changes by that step of the state machine |
| Sessions.StepInv | src/cmd.rs:21-92 | every step keeps the invariant: stage, sender and account agree, every channel carries the blocks of its insert in order, answers are those of the account, who waits will be woken |
| SessionRuns.StepShrinks | examples/simple.rs:70-91 | every step of session or consumer uses up some of a measure, so every run ends |
| SessionRuns.EveryRunEndsAlike | src/lib.rs:129-157 | in every interleaving, a run that can go no further has ended the session, every consumer has received exactly the blocks of its insert, once each and in order, and the answers are those of the packets one after the other: nothing more after a clean end or a panic, one more, the error, after a reset or any other error |
| SessionAnswers.StrangeCode | src/lib.rs:141-153 | a session that is sent an unknown packet code ends with exactly the answer that says so |
| SessionAnswers.AnswersTallied | src/cmd.rs:21-92 | a pong for every ping, a reply for every hello, a sample for every insert, results for every other query in their order, and beside these only ends of stream |
| SessionAnswers.FirstAnswers | src/cmd.rs:21-92 | the answers to one packet of each kind |
| SessionAnswers.QueryInside | src/cmd.rs:48-60 | a query during an insert gets no end-of-stream, and the insert starts over |
| SessionAnswers.InsertWord | examples/simple.rs:63-66 | an insert is told by its first six letters, all large or all small |
| SessionAnswers.ChannelRoom | examples/simple.rs:70-71 | no channel ever holds more than four blocks, and a send waits exactly while there are four |
| SessionAnswers.InsertConversation | src/lib.rs:129-157 | hello, insert query, starting block, data, ending block: however the bytes are cut into reads and session and consumer interleaved, the consumer gets exactly these blocks in order and the client a reply, a sample and one end-of-stream |
| SessionRuns.NextStep | src/lib.rs:83-89 | no reachable state is stuck before all is over |
| SessionRuns.SendNeverFails | src/cmd.rs:79-82 | while a block is being sent its consumer is still there |
| SessionRuns.StageAndSender | src/cmd.rs:48-83 | the session is in an insert stage exactly while it holds a sender, and never in the stage of the end of stream |
| SessionOrder.EndsInOrder | src/cmd.rs:67-74 | in every interleaving an insert is consumed before its end-of-stream, if and only if no insert ends after an insert query came while another was open |
| SessionOrder.InsertTwice | src/cmd.rs:48-83 | two insert queries and two blocks without columns: some interleaving writes an end-of-stream early |
| SessionOrder.Balance | src/cmd.rs:48-60 | ends of stream and open inserts never exceed the queries, and match them exactly for clients that send no query during an open insert |
| SessionOrder.RunBalance | src/cmd.rs:48-83 | the same in every state of every run |
| SessionOrder.OneInsert | src/cmd.rs:61-83 | an insert with data before its starting block, between the two, and its ending block adds all these blocks, one sample and one end-of-stream to the account |

## Left out

- Sockets, tokio scheduling, write buffering and flushing; failed writes. A stream is the sequence of pieces that its reads give.
- Memory: allocations of any wanted size succeed, and numbers of rows, columns and bytes in memory stay below 2^64. `Vec::with_capacity` is not modelled.
- Release builds: arithmetic that overflows panics here, as it does with overflow checks on.
- Big-endian hosts: numeric columns are read and written as memory, which is taken to be little-endian.
- LZ4 and CityHash are parameters. `CompressedRoundTrip` and `Sending` ask of them that unpacking gives back what was packed and that sizes fit 32 bits. How many bytes a successful decompression wrote is not looked at, as in the source.
- Time zones, chrono conversions, `DateTime64` and its names (a name of that kind counts as unsupported here). Dates are kept as their stored words.
- Floats beyond their bits, `Decimal::of`, the printing of decimals, and conversions of `Value` and `ValueRef` to Rust types.
- Columns are values here. Sharing through `Arc` and the copy made before a push are not modelled: pushing on a clone of a nullable or array column panics in the source, because the clone shares its inner column.
- `Column` keeps a decimal's or an enum's words itself; the boxed integer column inside them is not an object of its own.
- One iterator class stands for the leaf iterators, the nullable and the array iterator, with the inner iterator as a field. Rust's types rule out iterating enums and asking for an iterator of another type; the model iterates every column at its own type. Pointers are positions.
- `level` is a `u8` in the source; types nested more than 255 deep are not considered.
- Columns.LoadLocal: names of `DateTime64` count as unsupported, because their time zones are those of a library that is not part of this model.
- Columns.LoadedColumn: without `DateTime64`, as `LoadLocal`.
- Loading.LoadLeafColumn: without the branch for `DateTime64`, as `LoadLocal`.
- Loading.LoadData: without the branch for `DateTime64`, as `LoadLocal`.
- Casting.ParseTexts: the parsers for addresses are those of the standard library and enter as parameters (`Addresses`).
- Pushing.PushCell: stated for stable types; fixed strings have their own exact law, and dates go through time zones.
- RowBuilding.RowsFill: stated for stable types, as `PushCell`.
- SessionTask.Session.ExecuteQuery: that of the example; what a select writes is one opaque answer, and it does not fail.
- The text of server errors, exception and hello responses, progress packets, `Options`, the debug printer and the row view of a block.
- Sessions.StepInv: cancelling does nothing, as in the source.
