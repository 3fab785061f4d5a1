# redis-lite in Dafny

redis-lite is a small Redis-like key-value server written twice, once in Go
and once in Rust. This project models the core both servers share:

- the RESP wire values and their encoder;
- the decoder that reads values back from bytes;
- the command handlers PING, GET, SET and DEL over the in-memory cache;
- the append-only log (AOF). Every command is written to it as a RESP
  value, and it is replayed into the cache when the server starts.

The two implementations differ in many details, so each one has its own
modules:

| file | module | models |
|---|---|---|
| `go_resp.dfy` | `GoResp` | `golang/resp/resp.go`: the record-shaped value, its constructors and `Marshal` |
| `go_reader.dfy` | `GoReader` | `golang/resp/reader.go`: `DecodeAt` is the specification of one read at a cursor; class `Resp` is the cursor itself, and its methods are proved to agree with `DecodeAt` |
| `go_store.dfy` | `GoStore` | `golang/store/handlers.go`: the handler registry and class `Store`, whose field is the cache of `golang/store/db.go` |
| `go_aof.dfy` | `GoAof` | `golang/persistence/aof.go`: class `Aof` over the file bytes; `Replay` is the specification of the restore loop |
| `rust_resp.dfy` | `RustResp` | `rust/redis-lite/src/resp/resp.rs`: the enum, `marshal`, and `read_resp` over a `Reader` class that stands for a `BufReader` |
| `rust_db.dfy` | `RustDb` | `rust/redis-lite/src/store/db.rs`: `handle_resp` and the four commands, with class `Db` holding the cache |
| `rust_aof.dfy` | `RustAof` | `rust/redis-lite/src/persistence/aof.rs`: class `Aof`, which has a file, a `BufWriter`-style buffer and a reader; `Replay` specifies `read` |
| `bytes.dfy`, `decimal.dfy`, `keyspace.dfy`, `optional.dfy` | shared | bytes, ASCII trimming and case mapping, decimal text (`strconv.Itoa`/`Atoi`, Rust `{}` and `parse::<usize>`), and key removal as both DEL loops do it |

Strings are byte sequences. Integers are unbounded. Where the width of an
integer matters, it is written out:

- Go's 64-bit `int` in `Atoi`;
- Rust's `i32` payload of `Integer`, with wrap-around in the DEL counter;
- `usize` in `parse`.

Runtime panics (a Go slice or `make` with a negative length, and Rust
`unwrap` on a failed parse) are explicit outcomes (`Panicked`, `Crashed`).

Source behaviours worth knowing, all modelled as written:

- Go PING reads the `Bulk` field of every argument (`golang/store/handlers.go:21-26`).
  An argument of another type adds its empty `Bulk` field to the joined
  reply; it is not refused the way Rust refuses a non-bulk PING argument
  (`rust/redis-lite/src/store/db.rs:9-11`).
- Go keys are the argument's bulk field with white space trimmed
  (`golang/store/handlers.go:34`, `49`, `70`), so ` k ` and `k` are the same key.
- A Go top-level Null (`_\r\n`) is decoded without consuming its CRLF
  (`golang/resp/reader.go:37-38`). Inside an array, the next item then
  fails as an unknown type.
- Rust encodes `Null` and `BulkString(None)` as the same bytes, `$-1\r\n`
  (`rust/redis-lite/src/resp/resp.rs:19`, `27`).

## Model

| member | source | states |
|---|---|---|
| GoResp.NewSimpleString | golang/resp/resp.go:23-25 | builds a value of type `+` whose only set field is the string |
| GoResp.NewBulkString | golang/resp/resp.go:27-29 | builds a value of type `$` whose only set field is the bulk bytes |
| GoResp.NewInteger | golang/resp/resp.go:31-33 | builds a value of type `:` whose only set field is the integer |
| GoResp.NewArray | golang/resp/resp.go:35-37 | builds a value of type `*` whose only set field is the item list |
| GoResp.NewNull | golang/resp/resp.go:39-41 | builds a value of type `_` with every payload field empty |
| GoResp.NewError | golang/resp/resp.go:43-45 | builds a value of type `-` whose only set field is the message |
| GoResp.ConstructorEncodings | golang/resp/resp.go:47-100 | each constructor's value encodes as its type byte, payload and CRLF; a bulk string carries its length line and an array carries its count line followed by its items' encodings |
| GoResp.MarshalFraming | golang/resp/resp.go:47-64 | every encoding of a known type starts with its type byte and ends in CRLF, at any nesting depth; a value of unknown type encodes as nothing |
| GoResp.MarshalEachFraming | golang/resp/resp.go:87-96 | the concatenated item encodings are empty or end in CRLF |
| Decimal.Digits | golang/resp/resp.go:74-76 | the decimal digits of a natural number are non-empty and all digits, with no leading zero |
| Decimal.DigitsValueAccepts | golang/resp/reader.go:67 | digit parsing succeeds exactly on non-empty strings of decimal digits |
| Decimal.DigitsValueOfDigits | golang/resp/resp.go:74-76 | parsing the digits of n gives n |
| Decimal.IntText | golang/resp/resp.go:74-76 | an integer's text is non-empty and holds no CR or LF |
| Decimal.Atoi | golang/resp/reader.go:67 | an accepted string denotes a 64-bit integer; it starts with a digit or a sign, and a negative value starts with a minus |
| Decimal.AtoiAccepts | golang/resp/reader.go:67 | an accepted string is an optional sign followed by one or more digits; such a string is accepted exactly when the signed value of its digits fits in 64 bits, and then denotes that value |
| Decimal.AtoiIntText | golang/resp/reader.go:65-72 | every 64-bit integer parses back from its text |
| Decimal.ParseUsize | rust/redis-lite/src/resp/resp.rs:55 | an accepted length is at most 2^64-1 and does not start with a minus |
| Decimal.ParseUsizeDigits | rust/redis-lite/src/resp/resp.rs:68 | every usize parses back from its digits |
| GoReader.LineEnd | golang/resp/reader.go:121-132 | the scan stops at the first CRLF from the cursor, or at the last byte when there is none, and passes no CRLF on the way |
| GoReader.ReadLineAt | golang/resp/reader.go:121-132 | the line is the bytes of the buffer from the cursor, and the cursor ends two bytes past the line |
| GoReader.ReadLineAtEnd | golang/resp/reader.go:121-132 | after a line the cursor sits right after a CRLF, or one to two bytes past the buffer exactly when there is no CRLF left |
| GoReader.ReadLineAtFramed | golang/resp/reader.go:121-132 | a line with no CRLF of its own, followed by CRLF, is read back whole |
| GoReader.SkipNewlines | golang/resp/reader.go:44-53 | the cursor moves forward to the first byte that is neither CR nor LF, or to the end |
| GoReader.SkipNewlinesSkips | golang/resp/reader.go:44-53 | every byte skipped is a CR or an LF |
| GoReader.DecodeAt | golang/resp/reader.go:21-42 | a read at a cursor inside the buffer moves the cursor forward |
| GoReader.DecodeAtCases | golang/resp/reader.go:21-42 | "empty buffer" happens exactly at or past the end; an unknown type happens exactly on a byte that is none of the six, and is reported at that byte; decoded values are always built by the constructors; the cursor ends at most two bytes past the buffer |
| GoReader.DecodeIntegerAtCases | golang/resp/reader.go:65-72 | an integer read fails exactly when its line is not a 64-bit decimal, and otherwise yields that number |
| GoReader.DecodeBulkAtCases | golang/resp/reader.go:74-96 | bulk read outcomes: a bad length fails; -1 gives Null; a body past the buffer fails out of bounds; otherwise exactly the announced bytes, with the cursor two bytes beyond them |
| GoReader.DecodeArrayAtCases | golang/resp/reader.go:98-119 | array read outcomes: a bad count fails; -1 gives Null; otherwise an array of exactly the announced count, or an error naming an item below the count |
| GoReader.DecodeItemsBound | golang/resp/reader.go:110-116 | the item loop leaves the cursor at most two bytes past the buffer |
| GoReader.DecodeItemsShape | golang/resp/reader.go:110-118 | the item loop yields all n items with the already-read ones first, or fails at an item index in range |
| GoReader.DecodeItemsFirstFailure | golang/resp/reader.go:110-114 | an item-loop error names the first failing item: the items before it parse, and reading the named item fails with the reported cause |
| GoReader.DecodeArrayFirstFailure | golang/resp/reader.go:98-119 | an array error names the first failing item, below the announced count; every item before it parses, and the named item fails with the reported cause |
| GoReader.DecodeMarshal | golang/resp/reader.go:21-42 | the encoding of a decodable value, wherever it sits in a buffer, reads back as that value and leaves the cursor right after it |
| GoReader.DecodeArrayMarshal | golang/resp/reader.go:98-119 | an encoded array reads back as the same array |
| GoReader.DecodeBulkFramed | golang/resp/reader.go:74-96 | an encoded bulk string reads back as the same bytes, even when they contain CRLF |
| GoReader.DecodeIntegerFramed | golang/resp/reader.go:65-72 | an encoded 64-bit integer reads back as the same integer |
| GoReader.DecodeLineFramed | golang/resp/reader.go:55-63 | an encoded simple string or error with no CRLF inside reads back as the same value |
| GoReader.MarshalRoundTrip | golang/resp/reader.go:21-42 | decoding the encoding of a decodable value gives the value back and consumes the whole encoding |
| GoReader.NullLeavesItsCRLF | golang/resp/reader.go:37-38 | a top-level Null decodes with the cursor stopped before its CRLF, which the HasNext skip then passes over |
| GoReader.NullThenItemFails | golang/resp/reader.go:110-114 | in an encoded array, the item after a Null fails as an unknown type at the Null's CR |
| GoReader.Resp.constructor | golang/resp/reader.go:14-19 | a new reader is over the given buffer, with the cursor at 0 |
| GoReader.Resp.Read | golang/resp/reader.go:21-42 | returns the outcome, and moves the cursor to where, the `DecodeAt` specification says |
| GoReader.Resp.HasNext | golang/resp/reader.go:44-53 | moves the cursor past CR and LF bytes; the result is true exactly when a byte remains |
| GoReader.Resp.ReadSimpleString | golang/resp/reader.go:55-58 | a simple string holding the line, with the cursor past it |
| GoReader.Resp.ReadError | golang/resp/reader.go:60-63 | an error value holding the line, with the cursor past it |
| GoReader.Resp.ReadInteger | golang/resp/reader.go:65-72 | agrees with the integer read specification |
| GoReader.Resp.ReadBulk | golang/resp/reader.go:74-96 | agrees with the bulk read specification, including the panic on a length below -1 |
| GoReader.Resp.ReadArray | golang/resp/reader.go:98-119 | agrees with the array read specification (loop invariant over the item loop) |
| GoReader.Resp.ReadLine | golang/resp/reader.go:121-132 | agrees with `ReadLineAt` (loop invariant over the scan) |
| GoReader.Resp.ReadByte | golang/resp/reader.go:134-138 | returns the byte at the cursor and advances the cursor by one |
| Bytes.TrimSpaceTrims | golang/store/handlers.go:34 | trimming removes a white-space prefix and a white-space suffix and keeps the bytes between them |
| Bytes.TrimSpaceBlank | rust/redis-lite/src/resp/resp.rs:44 | a line trims to nothing exactly when it is all white space; otherwise the trimmed line starts and ends with a non-space byte |
| Bytes.LowerAnyCase | rust/redis-lite/src/store/db.rs:68 | lower-casing gives a lower-case name exactly when the input spells that name with each letter in either case |
| GoStore.RegistryExact | golang/store/handlers.go:9-14 | the registry holds exactly PING, GET, SET and DEL, each mapped to its own handler |
| GoStore.RegistryCaseSensitive | golang/store/handlers.go:9-14 | lower-case names are not in the registry |
| GoStore.SplitJoin | golang/store/handlers.go:21-26 | splitting the space-joined parts on spaces gives the parts back when no part contains a space |
| GoStore.PingReply | golang/store/handlers.go:16-27 | the reply is always a well-formed value |
| GoStore.PingEchoes | golang/store/handlers.go:16-27 | no arguments gives PONG; one argument is echoed as a bulk string; several arguments are joined by spaces and split back into the arguments' bulk fields |
| GoStore.KeysOf | golang/store/handlers.go:69-70 | each argument's key is its trimmed bulk field, in order |
| GoStore.ArityErrors | golang/store/handlers.go:29-62 | a wrong argument count gives that command's arity error and leaves the cache unchanged; PING and GET never change the cache |
| GoStore.SetStores | golang/store/handlers.go:29-42 | SET answers OK, stores the whole second argument under the trimmed key and keeps every other entry |
| GoStore.GetFinds | golang/store/handlers.go:44-58 | GET answers the stored value, or Null when the trimmed key is absent |
| GoStore.DelRemoves | golang/store/handlers.go:60-77 | DEL removes exactly the trimmed keys it names, keeps the other entries, and answers the number of distinct named keys that were present |
| GoStore.DelRepeatedKey | golang/store/handlers.go:69-75 | a key named twice is removed once and counted once |
| GoStore.SetThenGet | golang/store/handlers.go:29-58 | after SET k v, GET k answers v, whatever white space surrounds either key |
| GoStore.DelThenGet | golang/store/handlers.go:44-77 | after DEL k, GET k answers Null |
| GoStore.Store.constructor | golang/store/db.go:10 | the cache starts empty |
| GoStore.Store.Set | golang/store/handlers.go:29-42 | the reply and the new cache are those of the SET specification |
| GoStore.Store.Get | golang/store/handlers.go:44-58 | the reply is that of the GET specification |
| GoStore.Store.Del | golang/store/handlers.go:60-77 | the reply and new cache are those of the DEL specification (loop invariant: the keys removed so far and their count) |
| GoStore.Store.Dispatch | golang/store/handlers.go:9-14 | calling a registered handler acts as that handler's specification |
| Keyspace.DeleteKeysKeeps | golang/store/handlers.go:68-75 | deleting the named keys one by one removes exactly those keys and keeps every other entry with its value |
| Keyspace.DeleteKeysCount | golang/store/handlers.go:68-75 | the count is the number of distinct named keys that were present |
| Keyspace.DeleteRepeated | rust/redis-lite/src/store/db.rs:50-56 | a key named twice is removed and counted once |
| GoAof.ReplayEncoded | golang/persistence/aof.go:66-99 | a buffer holding the encodings of decodable values replays exactly those values, in order, onto the cache |
| GoAof.ReplayStep | golang/persistence/aof.go:77-96 | a record that decodes is executed, and replay continues after it or stops with its error |
| GoAof.FirstRecord | golang/persistence/aof.go:77-78 | the first record of an encoded log is decoded where it sits, with no bytes skipped before it |
| GoAof.ReplayLog | golang/persistence/aof.go:66-99 | replaying the concatenated encodings from the start equals executing the values in order |
| GoAof.UnknownCommandAborts | golang/persistence/aof.go:90-93 | an unknown command name stops replay with an error; the earlier records stay applied and the later ones do not run |
| GoAof.ToUpperIdempotent | golang/persistence/aof.go:87 | upper-casing twice is the same as upper-casing once |
| GoAof.ReplayIgnoresCase | golang/persistence/aof.go:87-90 | a log record's command name is matched in any case: `set` runs the SET handler |
| GoAof.TruncatedDecode | golang/resp/reader.go:110-114 | a record missing its last item fails to decode, naming that item as an empty-buffer error |
| GoAof.TruncatedRecordAborts | golang/persistence/aof.go:78-81 | a log whose array record lost its last item stops replay with the parse error, and the record is not run |
| GoAof.Aof.constructor | golang/persistence/aof.go:24-32 | the log holds the file's contents |
| GoAof.Aof.Write | golang/persistence/aof.go:101-111 | appends the encoding of the value and leaves the earlier bytes unchanged |
| GoAof.Aof.Read | golang/persistence/aof.go:66-99 | the outcome and the new cache are those of the `Replay` specification from the start of the file (loop invariant over the HasNext loop) |
| RustResp.NullAmbiguous | rust/redis-lite/src/resp/resp.rs:19-27 | Null and the null bulk string are different values with the same encoding `$-1\r\n` |
| RustResp.MarshalFraming | rust/redis-lite/src/resp/resp.rs:13-29 | every encoding starts with its value's type byte and ends in CRLF |
| RustResp.MarshalEachFraming | rust/redis-lite/src/resp/resp.rs:20-26 | the concatenated element encodings are empty or end in CRLF |
| RustResp.LineEnd | rust/redis-lite/src/resp/resp.rs:37 | a line read stays within the data and takes at least one byte unless it starts at the end |
| RustResp.LineAtShape | rust/redis-lite/src/resp/resp.rs:37 | a line holds no LF except as its last byte, and only the last line of the data may lack one |
| RustResp.LineAtCRLF | rust/redis-lite/src/resp/resp.rs:37 | a CRLF-terminated line of text is read whole, terminator included |
| RustResp.FirstContentLine | rust/redis-lite/src/resp/resp.rs:35-47 | a line found is non-empty and lies within the data, after the position the search started at |
| RustResp.ReadRespAt | rust/redis-lite/src/resp/resp.rs:31-77 | a read stays within the data and advances on success |
| RustResp.ElementAt | rust/redis-lite/src/resp/resp.rs:59-73 | an element read stays within the data |
| RustResp.ReadElementsStep | rust/redis-lite/src/resp/resp.rs:58-74 | each pass of the element loop reads one bulk string and goes on with one fewer |
| RustResp.ReadRespArray | rust/redis-lite/src/resp/resp.rs:49-58 | after a count line announcing n, reading goes on with exactly n elements |
| RustResp.CommandRead | rust/redis-lite/src/resp/resp.rs:31-77 | a count line followed by encoded elements reads back as that command |
| RustResp.MarshalRoundTrip | rust/redis-lite/src/resp/resp.rs:13-77 | reading the encoding of a command (an array of bulk strings) gives the command back and consumes the whole encoding |
| RustResp.BlankLineSkipped | rust/redis-lite/src/resp/resp.rs:35-47 | white-space lines before a command are skipped |
| RustResp.OnlySpaceLeft | rust/redis-lite/src/resp/resp.rs:35-43 | with only white space left, the read reports end of file and consumes the rest |
| RustResp.Reader.constructor | rust/redis-lite/src/resp/resp.rs:31 | a reader over the given data at the given position |
| RustResp.Reader.ReadLine | rust/redis-lite/src/resp/resp.rs:37 | returns the bytes up to and including the next LF, or to the end of the data |
| RustResp.Reader.ReadExact | rust/redis-lite/src/resp/resp.rs:69-70 | returns exactly n bytes when they are there; otherwise reports end of file and consumes the rest |
| RustResp.ReadResp | rust/redis-lite/src/resp/resp.rs:31-77 | the outcome and the new reader position are those of the `ReadRespAt` specification |
| RustResp.ReadContentLine | rust/redis-lite/src/resp/resp.rs:35-47 | skips blank lines and returns the first line that is not blank, or nothing at the end of the data |
| RustResp.ReadArrayElements | rust/redis-lite/src/resp/resp.rs:56-76 | agrees with the specification of the element loop (loop invariant) |
| RustResp.ReadBulkString | rust/redis-lite/src/resp/resp.rs:59-73 | agrees with the one-element specification: a `$` line, then length + 2 bytes |
| RustDb.Wrap32 | rust/redis-lite/src/store/db.rs:53 | the i32 result is congruent to the count modulo 2^32, and equal to it when it fits |
| RustDb.Wrap32Step | rust/redis-lite/src/store/db.rs:53 | a wrapping increment of the wrapped count is the wrapped count plus one |
| RustDb.BulkKeysNamed | rust/redis-lite/src/store/db.rs:50-51 | the keys DEL uses are exactly the non-null bulk-string arguments |
| RustDb.NamesLower | rust/redis-lite/src/store/db.rs:74-79 | the four command names are lower-case letters |
| RustDb.AnyCaseDispatches | rust/redis-lite/src/store/db.rs:61-81 | a bulk-string name that spells a command in any mix of cases runs that command on the remaining elements |
| RustDb.HandleRejects | rust/redis-lite/src/store/db.rs:61-81 | a non-array, a missing or non-bulk name, or an unknown name gives its error and leaves the cache unchanged |
| RustDb.HandleKeeps | rust/redis-lite/src/store/db.rs:61-81 | only SET and DEL change the cache |
| RustDb.PingEchoes | rust/redis-lite/src/store/db.rs:5-14 | PING answers PONG without arguments, echoes a bulk-string first argument as a simple string, and answers the invalid-argument error for a first argument of any other kind |
| RustDb.GetFinds | rust/redis-lite/src/store/db.rs:16-27 | GET answers the stored value, or Null when the key is absent; with no arguments, or a first argument that is not a bulk string, it answers the missing-key error; extra arguments are ignored |
| RustDb.SetStores | rust/redis-lite/src/store/db.rs:29-44 | with fewer than two arguments or a non-bulk key, SET answers its error and changes nothing; otherwise it stores the second argument, answers OK and keeps the other entries |
| RustDb.DelRemoves | rust/redis-lite/src/store/db.rs:46-59 | DEL removes exactly the bulk-string keys named, keeps the other entries, and answers the distinct-present count wrapped to i32 |
| RustDb.DelNothing | rust/redis-lite/src/store/db.rs:46-59 | with no bulk-string argument, DEL answers 0 and changes nothing |
| RustDb.SetThenGet | rust/redis-lite/src/store/db.rs:16-44 | after SET k v, GET k answers v |
| RustDb.DelThenGet | rust/redis-lite/src/store/db.rs:16-59 | after DEL k, GET k answers Null |
| RustDb.Db.constructor | rust/redis-lite/src/store/db.rs:3 | the cache starts empty |
| RustDb.Db.Get | rust/redis-lite/src/store/db.rs:16-27 | the reply is that of the GET specification |
| RustDb.Db.Set | rust/redis-lite/src/store/db.rs:29-44 | the reply and the new cache are those of the SET specification |
| RustDb.Db.Del | rust/redis-lite/src/store/db.rs:46-59 | the reply and new cache are those of the DEL specification (loop invariant: the keys removed so far and the wrapped counter) |
| RustDb.Db.HandleResp | rust/redis-lite/src/store/db.rs:61-81 | the reply and new cache are those of the `HandleResult` specification |
| RustAof.ReplayStep | rust/redis-lite/src/persistence/aof.rs:30-38 | a command that reads is handled, and replay continues after it |
| RustAof.ReplayFramed | rust/redis-lite/src/persistence/aof.rs:30-38 | commands that read back one after the other are handled in order, and replay goes on where the last one ends |
| RustAof.ReplayAfterLogged | rust/redis-lite/src/persistence/aof.rs:28-41 | replaying encoded commands handles exactly them in order, then continues with what follows |
| RustAof.ReplayLogged | rust/redis-lite/src/persistence/aof.rs:28-41 | a log of encoded commands replays to the end and handles each of them in order |
| RustAof.UnknownCommandSkipped | rust/redis-lite/src/persistence/aof.rs:34 | a command with an unknown name leaves the cache as if it were not in the log |
| RustAof.CutTailDropped | rust/redis-lite/src/persistence/aof.rs:36 | a last record cut inside its final element's body or CRLF is dropped, and replay ends normally after the whole commands before it |
| RustAof.ShortTailInvalid | rust/redis-lite/src/resp/resp.rs:58-66 | a record that lost a whole element reads as invalid data |
| RustAof.ShortTailFails | rust/redis-lite/src/persistence/aof.rs:37 | a log ending in a record that lost a whole element ends replay with InvalidData, after the earlier commands were handled |
| RustAof.StrayLine | rust/redis-lite/src/resp/resp.rs:49-54 | a line starting with a byte that is neither white space nor `*` is refused as invalid data |
| RustAof.StrayRecordFails | rust/redis-lite/src/persistence/aof.rs:37 | junk after the logged commands ends replay with InvalidData, after the commands before it were handled |
| RustAof.Aof.constructor | rust/redis-lite/src/persistence/aof.rs:10-26 | the writer buffer starts empty, and the reader starts at the beginning of the file's contents |
| RustAof.Aof.Write | rust/redis-lite/src/persistence/aof.rs:43-48 | what is logged (file plus buffer) grows by exactly the value's encoding, and the buffer stays within its capacity; an encoding that fits stays in the buffer and leaves the file unchanged; a larger one first flushes the buffer to the file, and one of at least the capacity goes straight to the file |
| RustAof.Aof.WriteAll | rust/redis-lite/src/persistence/aof.rs:46 | bytes that fit stay in the buffer; otherwise the buffer is flushed first, and bytes as large as the capacity go straight to the file |
| RustAof.Aof.Sync | rust/redis-lite/src/persistence/aof.rs:50-54 | the file receives everything logged and the buffer empties |
| RustAof.Aof.Read | rust/redis-lite/src/persistence/aof.rs:28-41 | the outcome and the new cache are those of the `Replay` specification from the reader's position |

## Left out

- Networking, the servers' connection loops and the entry points (`golang/server/server.go`, `golang/cmd/redis-lite/main.go`, `rust/redis-lite/src/main.rs`) are not part of this model. Neither is the Go writer (`golang/resp/writer.go`).
- Locks and concurrency: the Go `sync.RWMutex` and `sync.Mutex`, the Rust `RwLock` and `Mutex`. Every operation is modelled as running alone.
- The Go background `sync` goroutine (`golang/persistence/aof.go:43-54`) and the sync period: `fsync` does not change the file's contents, so it has nothing to model on bytes.
- `Close` (`golang/persistence/aof.go:56-64`): it only releases the file.
- File I/O errors (open, read, write, flush and sync failures) are not modelled. The file is a byte sequence, the Go restore reads all of it, and the Rust reader sees the file as it was when the log was opened.
- GoAof.Replay: the unknown-command error carries the upper-cased name, but the source wraps a nil error there (`golang/persistence/aof.go:92`), so its message does not contain the name.
- The Rust `println!` of each replayed command, and the reply `handle_resp` returns during replay, which is discarded.
- Text encoding:
  - invalid UTF-8 in Rust: `read_line` returns InvalidData and `from_utf8_lossy` substitutes characters;
  - Unicode case mapping and white space: Go `ToUpper` and `TrimSpace`, Rust `to_lowercase` and `trim`.
  All of these are modelled over ASCII bytes only.
- Memory exhaustion: allocations for huge announced lengths, and the `str_len + 2` overflow for a length of `usize::MAX`, which would panic.
- RustDb.Db.Del: the counter wraps around as in a release build; the overflow panic of a debug build is not modelled.
- GoReader.DecodeBulkAt: `start + length` is taken unbounded, so Go `int` overflow on a length near 2^63 is not modelled.
- RustAof.Aof.WriteAll follows the documented behaviour of std's `BufWriter::write_all` with the default 8192-byte capacity. Partial writes by the underlying file are not modelled.
- The Rust `Aof::new` takes one path, and the arity mismatch at its call site in `main.rs` is outside this model.
- Lines 83-104 of `rust/redis-lite/src/store/db.rs` are a Python snippet kept in the file. They are not Rust code and are not modelled.
