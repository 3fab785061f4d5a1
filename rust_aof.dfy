/**
 * The Rust append-only log (rust/redis-lite/src/persistence/aof.rs). The
 * log file is a byte sequence with a buffered writer in front of it:
 * `Write` hands the encoding of a value to the buffer, `Sync` flushes the
 * buffer to the file, and `Read` replays the file through read_resp and
 * handle_resp, discarding the replies, until read_resp reports the end.
 */
module RustAof {
  import opened Bytes
  import opened Decimal
  import opened RustResp
  import opened RustDb
  import opened Optional

  /** The buffer size of a writer made with BufWriter::new: 8 KiB. */
  const CAPACITY: nat := 8192

  /** How replay ends: Ok(()), the read error it returns, or the panic of read_resp. */
  datatype Replayed = Finished | Failed(kind: ErrorKind) | Crashed

  /**
   * Specification of the replay loop from `pos`: a command read is handled
   * and its reply dropped; an unexpected end of file ends replay normally;
   * any other read error ends it with that error.
   */
  function Replay(data: seq<byte>, pos: nat, cache: Cache): (Replayed, Cache)
    requires pos <= |data|
    decreases |data| - pos
  {
    var (o, next) := ReadRespAt(data, pos);
    match o
    case Ok(command) => Replay(data, next, HandleResult(cache, command).1)
    case Err(kind) => if kind == UnexpectedEof then (Finished, cache) else (Failed(kind), cache)
    case Panicked => (Crashed, cache)
  }

  /** Handling commands one after the other: the reference for replaying a log. */
  function ApplyAll(cache: Cache, commands: seq<RespValue>): Cache
    decreases |commands|
  {
    if commands == [] then cache
    else ApplyAll(HandleResult(cache, commands[0]).1, commands[1..])
  }

  /** Every value is a command read_resp can return. */
  predicate AllCommands(commands: seq<RespValue>)
    decreases |commands|
  {
    commands != [] ==> IsCommand(commands[0]) && AllCommands(commands[1..])
  }

  /** A command read at `pos` is handled, and replay goes on after it. */
  lemma {:induction false} ReplayStep(data: seq<byte>, pos: nat, cache: Cache, command: RespValue, next: nat)
    requires pos <= |data| && ReadRespAt(data, pos) == (Ok(command), next)
    ensures next <= |data|
    ensures Replay(data, pos, cache) == Replay(data, next, HandleResult(cache, command).1)
  {
  }

  /** The encoding of a log of commands splits into the first command's count line, its elements and the rest. */
  lemma {:induction false} LoggedPieces(commands: seq<RespValue>, data: seq<byte>, pos: nat)
    requires AllCommands(commands) && commands != [] && At(data, pos, MarshalEach(commands))
    ensures var v := commands[0];
      var start := pos + |ArrayHeader(|v.items|)|;
      var next := start + |MarshalEach(v.items)|;
      && IsCommand(v) && AllCommands(commands[1..])
      && At(data, pos, ArrayHeader(|v.items|)) && At(data, start, MarshalEach(v.items))
      && next == pos + |Marshal(v)|
      && At(data, next, MarshalEach(commands[1..]))
      && |MarshalEach(commands)| == |Marshal(v)| + |MarshalEach(commands[1..])|
  {
    var v := commands[0];
    SplitAt(data, pos, Marshal(v), MarshalEach(commands[1..]));
    CommandSplit(v, data, pos);
  }

  /** The first command of an encoded log is read back where it sits. */
  lemma {:induction false} LoggedFirst(v: RespValue, data: seq<byte>, pos: nat, start: nat, next: nat)
    requires IsCommand(v) && At(data, pos, ArrayHeader(|v.items|)) && start == pos + |ArrayHeader(|v.items|)|
    requires At(data, start, MarshalEach(v.items)) && next == start + |MarshalEach(v.items)|
    ensures next <= |data|
    ensures ReadRespAt(data, pos) == (Ok(v), next)
  {
    CommandRead(v, data, pos, start, next);
  }

  /**
   * From `pos` on, read_resp returns the commands one after the other, and
   * the last of them ends at `stop`.
   */
  predicate Framed(data: seq<byte>, pos: nat, commands: seq<RespValue>, stop: nat)
    requires pos <= |data|
    decreases |commands|
  {
    if commands == [] then pos == stop
    else
      var (o, next) := ReadRespAt(data, pos);
      o == Ok(commands[0]) && Framed(data, next, commands[1..], stop)
  }

  /** Encoded commands are framed. */
  lemma {:induction false} MarshalFramed(commands: seq<RespValue>, data: seq<byte>, pos: nat, stop: nat)
    requires AllCommands(commands) && At(data, pos, MarshalEach(commands)) && stop == pos + |MarshalEach(commands)|
    ensures Framed(data, pos, commands, stop)
    decreases |commands|
  {
    if commands != [] {
      var v := commands[0];
      var start := pos + |ArrayHeader(|v.items|)|;
      var next := start + |MarshalEach(v.items)|;
      LoggedPieces(commands, data, pos);
      LoggedFirst(v, data, pos, start, next);
      MarshalFramed(commands[1..], data, next, stop);
    }
  }

  /** Framed commands are handled in order, and replay goes on after them. */
  lemma {:induction false} ReplayFramed(data: seq<byte>, pos: nat, commands: seq<RespValue>, stop: nat, cache: Cache)
    requires pos <= |data| && Framed(data, pos, commands, stop)
    ensures stop <= |data|
    ensures Replay(data, pos, cache) == Replay(data, stop, ApplyAll(cache, commands))
    decreases |commands|
  {
    if commands != [] {
      var (o, next) := ReadRespAt(data, pos);
      ReplayStep(data, pos, cache, commands[0], next);
      ReplayFramed(data, next, commands[1..], stop, HandleResult(cache, commands[0]).1);
    }
  }

  /** A log of encoded commands, whatever follows it, is framed up to its end. */
  lemma {:induction false} LogFramed(commands: seq<RespValue>, tail: seq<byte>)
    requires AllCommands(commands)
    ensures Framed(MarshalEach(commands) + tail, 0, commands, |MarshalEach(commands)|)
  {
    var log := MarshalEach(commands);
    SplitAt(log + tail, 0, log, tail);
    MarshalFramed(commands, log + tail, 0, |log|);
  }

  /**
   * Replaying a log of encoded commands handles exactly those commands in
   * order, then goes on with whatever follows them.
   */
  lemma {:induction false} ReplayAfterLogged(commands: seq<RespValue>, tail: seq<byte>, cache: Cache)
    requires AllCommands(commands)
    ensures var log := MarshalEach(commands);
      Replay(log + tail, 0, cache) == Replay(log + tail, |log|, ApplyAll(cache, commands))
  {
    LogFramed(commands, tail);
    ReplayFramed(MarshalEach(commands) + tail, 0, commands, |MarshalEach(commands)|, cache);
  }

  /** A log holding the encodings of commands replays to the end and handles each of them, in order. */
  lemma {:induction false} ReplayLogged(commands: seq<RespValue>, cache: Cache)
    requires AllCommands(commands)
    ensures Replay(MarshalEach(commands), 0, cache) == (Finished, ApplyAll(cache, commands))
  {
    var log := MarshalEach(commands);
    assert log + [] == log;
    ReplayAfterLogged(commands, [], cache);
    assert log[|log|..] == [];
    OnlySpaceLeft(log, |log|);
  }

  /**
   * Replay handles commands with names it does not know like any other
   * command: handle_resp answers an error that is dropped, and the log
   * replays as if the command were not there.
   */
  lemma {:induction false} UnknownCommandSkipped(before: seq<RespValue>, bad: RespValue, after: seq<RespValue>, cache: Cache)
    requires bad.Array? && bad.items != [] && IsBulk(bad.items[0])
    requires forall c: Command :: !SpelledAnyCase(bad.items[0].bulk.value, Name(c))
    ensures ApplyAll(cache, before + [bad] + after) == ApplyAll(cache, before + after)
    decreases |before|
  {
    if before == [] {
      assert before + [bad] + after == [bad] + after;
      assert ([bad] + after)[1..] == after;
      assert before + after == after;
      HandleRejects(cache, bad);
    } else {
      assert (before + [bad] + after)[0] == before[0];
      assert (before + [bad] + after)[1..] == before[1..] + [bad] + after;
      assert (before + after)[0] == before[0];
      assert (before + after)[1..] == before[1..] + after;
      UnknownCommandSkipped(before[1..], bad, after, HandleResult(cache, before[0]).1);
    }
  }

  /** Every prefix of a list of readable elements is readable. */
  lemma {:induction false} AllReadablePrefix(items: seq<RespValue>, k: nat)
    requires AllReadable(items) && k <= |items|
    ensures AllReadable(items[..k])
    decreases k
  {
    if k > 0 {
      assert items[..k][0] == items[0];
      assert items[..k][1..] == items[1..][..k - 1];
      AllReadablePrefix(items[1..], k - 1);
    }
  }

  /** The encodings of a list with one more value at the end. */
  lemma {:induction false} MarshalEachSnoc(items: seq<RespValue>, x: RespValue)
    ensures MarshalEach(items + [x]) == MarshalEach(items) + Marshal(x)
    decreases |items|
  {
    if items == [] {
      assert items + [x] == [x];
      assert [x][1..] == [];
    } else {
      assert (items + [x])[0] == items[0];
      assert (items + [x])[1..] == items[1..] + [x];
      MarshalEachSnoc(items[1..], x);
    }
  }

  /**
   * Chained elements followed by an element that stops reading: the
   * element loop ends with that element's outcome.
   */
  lemma {:induction false} ReadElementsThenStop(data: seq<byte>, cur: nat, rest: seq<RespValue>, stop: nat,
                                                done: seq<RespValue>, o: Outcome, e: nat)
    requires cur <= |data| && Chained(data, cur, rest, stop) && stop <= |data|
    requires ElementAt(data, stop) == (Stop(o), e)
    ensures ReadElements(data, cur, |rest| + 1, done) == (o, e)
    decreases |rest|
  {
    if rest != [] {
      var (x, next) := ElementAt(data, cur);
      ReadElementsThenStop(data, next, rest[1..], stop, done + [rest[0]], o, e);
    }
  }

  /** A length line whose body, with its CRLF, runs past the end of the data stops with an unexpected end of file. */
  lemma {:induction false} BodyCut(data: seq<byte>, cur: nat, s: seq<byte>)
    requires |s| <= USIZE_MAX && At(data, cur, BulkHeader(s))
    requires cur + |BulkHeader(s)| + |s| + 2 > |data|
    ensures ElementAt(data, cur) == (Stop(Err(UnexpectedEof)), |data|)
  {
    LengthLine(data, cur, BULK, |s|);
  }

  /** Where the data ends, an element is missing: reading one stops with invalid data. */
  lemma {:induction false} ElementMissing(data: seq<byte>)
    ensures ElementAt(data, |data|) == (Stop(Err(InvalidData)), |data|)
  {
    assert LineAt(data, |data|).0 == [];
  }

  /** Encoded elements followed by one that stops reading: the element loop ends with its outcome. */
  lemma {:induction false} ElementsStop(items: seq<RespValue>, data: seq<byte>, start: nat, stop: nat, o: Outcome)
    requires AllReadable(items) && At(data, start, MarshalEach(items)) && stop == start + |MarshalEach(items)|
    requires ElementAt(data, stop) == (Stop(o), |data|)
    ensures ReadElements(data, start, |items| + 1, []) == (o, |data|)
  {
    MarshalChained(data, start, items, stop);
    ReadElementsThenStop(data, start, items, stop, [], o, |data|);
  }

  /**
   * A record whose count line counts one element more than the whole
   * elements after it, where the next element stops reading, is read with
   * that element's outcome.
   */
  lemma {:induction false} RecordStops(items: seq<RespValue>, data: seq<byte>, pos: nat, start: nat, stop: nat, o: Outcome)
    requires AllReadable(items) && |items| < USIZE_MAX
    requires At(data, pos, ArrayHeader(|items| + 1)) && start == pos + |ArrayHeader(|items| + 1)|
    requires At(data, start, MarshalEach(items)) && stop == start + |MarshalEach(items)|
    requires ElementAt(data, stop) == (Stop(o), |data|)
    ensures ReadRespAt(data, pos) == (o, |data|)
  {
    CommandHeader(|items| + 1, data, pos, start);
    ElementsStop(items, data, start, stop, o);
  }

  /**
   * The bytes of a command record cut inside its last element: the count
   * line, the whole elements `front`, the last element's length line for
   * body `s`, then `t`, part of the body and its CRLF.
   */
  function CutRecord(front: seq<RespValue>, s: seq<byte>, t: seq<byte>): seq<byte> {
    ArrayHeader(|front| + 1) + MarshalEach(front) + BulkHeader(s) + t
  }

  /** The encoding of a command ending with body `s`: everything up to that body, then the body and its CRLF. */
  lemma {:induction false} CommandEnds(v: RespValue, s: seq<byte>)
    requires v.Array? && v.items != [] && v.items[|v.items| - 1] == BulkString(Some(s))
    ensures var n := |v.items|;
      Marshal(v) == ArrayHeader(n) + MarshalEach(v.items[..n - 1]) + BulkHeader(s) + (s + CRLF)
  {
    var n := |v.items|;
    var front := v.items[..n - 1];
    assert v.items == front + [v.items[n - 1]];
    MarshalEachSnoc(front, v.items[n - 1]);
  }

  /** A prefix reaching past `a` keeps `a` whole. */
  lemma {:induction false} PrefixPast(a: seq<byte>, b: seq<byte>, k: nat)
    requires |a| <= k <= |a| + |b|
    ensures (a + b)[..k] == a + b[..k - |a|]
  {
  }

  /**
   * The first `keep` bytes of the encoding of a command, cut inside its
   * last element's body or final CRLF, are a CutRecord.
   */
  lemma {:induction false} PrefixIsCut(v: RespValue, s: seq<byte>, keep: nat)
    requires v.Array? && v.items != [] && v.items[|v.items| - 1] == BulkString(Some(s))
    requires |Marshal(v)| - |s| - 2 <= keep < |Marshal(v)|
    ensures Marshal(v)[..keep] == CutRecord(v.items[..|v.items| - 1], s, (s + CRLF)[..keep - (|Marshal(v)| - |s| - 2)])
  {
    var n := |v.items|;
    var head := ArrayHeader(n) + MarshalEach(v.items[..n - 1]) + BulkHeader(s);
    CommandEnds(v, s);
    PrefixPast(head, s + CRLF, keep);
  }

  /** A cut record after a log, taken apart: its count line, its whole elements, and the last length line. */
  lemma {:induction false} CutPieces(log: seq<byte>, front: seq<RespValue>, s: seq<byte>, t: seq<byte>)
    ensures var data := log + CutRecord(front, s, t);
      var start := |log| + |ArrayHeader(|front| + 1)|;
      var stop := start + |MarshalEach(front)|;
      && At(data, |log|, ArrayHeader(|front| + 1)) && At(data, start, MarshalEach(front))
      && At(data, stop, BulkHeader(s)) && |data| == stop + |BulkHeader(s)| + |t|
  {
    var data := log + CutRecord(front, s, t);
    var head := ArrayHeader(|front| + 1) + MarshalEach(front);
    SplitAt(data, 0, log, CutRecord(front, s, t));
    SplitAt(data, |log|, head + BulkHeader(s), t);
    SplitAt(data, |log|, head, BulkHeader(s));
    SplitAt(data, |log|, ArrayHeader(|front| + 1), MarshalEach(front));
  }

  /** A record whose last length line announces more bytes than the data has left reads as an unexpected end of file. */
  lemma {:induction false} CutRecordEof(front: seq<RespValue>, s: seq<byte>, data: seq<byte>, pos: nat, start: nat, stop: nat)
    requires AllReadable(front) && |front| < USIZE_MAX && |s| <= USIZE_MAX
    requires At(data, pos, ArrayHeader(|front| + 1)) && start == pos + |ArrayHeader(|front| + 1)|
    requires At(data, start, MarshalEach(front)) && stop == start + |MarshalEach(front)|
    requires At(data, stop, BulkHeader(s)) && |data| < stop + |BulkHeader(s)| + |s| + 2
    ensures ReadRespAt(data, pos) == (Err(UnexpectedEof), |data|)
  {
    BodyCut(data, stop, s);
    RecordStops(front, data, pos, start, stop, Err(UnexpectedEof));
  }

  /** A cut record after a log is read as an unexpected end of file. */
  lemma {:induction false} CutTailEof(log: seq<byte>, front: seq<RespValue>, s: seq<byte>, t: seq<byte>)
    requires AllReadable(front) && |front| < USIZE_MAX && |s| <= USIZE_MAX && |t| < |s| + 2
    ensures ReadRespAt(log + CutRecord(front, s, t), |log|) == (Err(UnexpectedEof), |log + CutRecord(front, s, t)|)
  {
    var start := |log| + |ArrayHeader(|front| + 1)|;
    CutPieces(log, front, s, t);
    CutRecordEof(front, s, log + CutRecord(front, s, t), |log|, start, start + |MarshalEach(front)|);
  }

  /** The parts of a command that end with body `s`. */
  lemma {:induction false} CommandParts(v: RespValue, s: seq<byte>)
    requires IsCommand(v) && v.items != [] && v.items[|v.items| - 1] == BulkString(Some(s))
    ensures AllReadable(v.items[..|v.items| - 1]) && |v.items| - 1 < USIZE_MAX && |s| <= USIZE_MAX
  {
    AllReadablePrefix(v.items, |v.items| - 1);
    AllReadableAt(v.items, |v.items| - 1);
  }

  /** Every element of a readable list is readable. */
  lemma {:induction false} AllReadableAt(items: seq<RespValue>, k: nat)
    requires AllReadable(items) && k < |items|
    ensures Readable(items[k])
    decreases k
  {
    if k > 0 {
      assert items[1..][k - 1] == items[k];
      AllReadableAt(items[1..], k - 1);
    }
  }

  /**
   * A log whose last command record was cut inside its last element's
   * body or final CRLF, as an interrupted write leaves it, replays the
   * whole commands before it and ends normally: the cut record is dropped.
   */
  lemma {:induction false} CutTailDropped(commands: seq<RespValue>, v: RespValue, s: seq<byte>, keep: nat, cache: Cache)
    requires AllCommands(commands) && IsCommand(v) && v.items != [] && v.items[|v.items| - 1] == BulkString(Some(s))
    requires |Marshal(v)| - |s| - 2 <= keep < |Marshal(v)|
    ensures Replay(MarshalEach(commands) + Marshal(v)[..keep], 0, cache) == (Finished, ApplyAll(cache, commands))
  {
    var front := v.items[..|v.items| - 1];
    var t := (s + CRLF)[..keep - (|Marshal(v)| - |s| - 2)];
    PrefixIsCut(v, s, keep);
    CommandParts(v, s);
    var log := MarshalEach(commands);
    ReplayAfterLogged(commands, CutRecord(front, s, t), cache);
    CutTailEof(log, front, s, t);
  }

  /** The bytes of a command record that lost its last element while its count line still counts it. */
  function ShortRecord(v: RespValue): seq<byte>
    requires v.Array? && v.items != []
  {
    ArrayHeader(|v.items|) + MarshalEach(v.items[..|v.items| - 1])
  }

  /** A short record after a log, taken apart: its count line and its whole elements, which end the data. */
  lemma {:induction false} ShortPieces(log: seq<byte>, v: RespValue)
    requires v.Array? && v.items != []
    ensures var data := log + ShortRecord(v);
      var n := |v.items|;
      var start := |log| + |ArrayHeader(n)|;
      && At(data, |log|, ArrayHeader(n)) && At(data, start, MarshalEach(v.items[..n - 1]))
      && |data| == start + |MarshalEach(v.items[..n - 1])|
  {
    var n := |v.items|;
    var data := log + ShortRecord(v);
    SplitAt(data, 0, log, ShortRecord(v));
    SplitAt(data, |log|, ArrayHeader(n), MarshalEach(v.items[..n - 1]));
  }

  /** A short record after a log is read as invalid data. */
  lemma {:induction false} ShortTailInvalid(log: seq<byte>, v: RespValue)
    requires IsCommand(v) && v.items != []
    ensures ReadRespAt(log + ShortRecord(v), |log|) == (Err(InvalidData), |log + ShortRecord(v)|)
  {
    var n := |v.items|;
    var data := log + ShortRecord(v);
    AllReadablePrefix(v.items, n - 1);
    ShortPieces(log, v);
    ElementMissing(data);
    RecordStops(v.items[..n - 1], data, |log|, |log| + |ArrayHeader(n)|, |data|, Err(InvalidData));
  }

  /**
   * A log whose last command record lost a whole element, so that the
   * data ends where a length line is expected, ends replay with an
   * InvalidData error, after the commands before it were handled.
   */
  lemma {:induction false} ShortTailFails(commands: seq<RespValue>, v: RespValue, cache: Cache)
    requires AllCommands(commands) && IsCommand(v) && v.items != []
    ensures Replay(MarshalEach(commands) + ShortRecord(v), 0, cache) ==
      (Failed(InvalidData), ApplyAll(cache, commands))
  {
    ReplayAfterLogged(commands, ShortRecord(v), cache);
    ShortTailInvalid(MarshalEach(commands), v);
  }

  /** A line starting with a byte that is neither white space nor `*` is refused as invalid data. */
  lemma {:induction false} StrayLine(data: seq<byte>, pos: nat)
    requires pos < |data| && data[pos] != ARRAY && !IsSpace(data[pos])
    ensures ReadRespAt(data, pos).0 == Err(InvalidData)
  {
    var (line, q) := LineAt(data, pos);
    assert line[0] == data[pos];
    TrimSpaceBlank(line);
    ContentLineFirst(data, pos, line, q);
  }

  /**
   * A log whose next record starts with a byte that is neither white space
   * nor `*` ends replay with an InvalidData error, after the commands
   * before it were handled.
   */
  lemma {:induction false} StrayRecordFails(commands: seq<RespValue>, junk: seq<byte>, cache: Cache)
    requires AllCommands(commands) && junk != [] && junk[0] != ARRAY && !IsSpace(junk[0])
    ensures Replay(MarshalEach(commands) + junk, 0, cache) == (Failed(InvalidData), ApplyAll(cache, commands))
  {
    var log := MarshalEach(commands);
    ReplayAfterLogged(commands, junk, cache);
    assert (log + junk)[|log|] == junk[0];
    StrayLine(log + junk, |log|);
  }

  /** The log: the file, the writer's buffer in front of it, and the reader opened on it at start-up. */
  class Aof {
    var file: seq<byte>
    var buffer: seq<byte>
    const reader: Reader

    /** Aof::new: a writer with an empty buffer and a reader at the start of the file. */
    constructor (contents: seq<byte>)
      ensures file == contents && buffer == []
      ensures fresh(reader) && reader.data == contents && reader.pos == 0
    {
      file := contents;
      buffer := [];
      reader := new Reader(contents, 0);
    }

    /** The writer's buffer never holds more than its capacity. */
    predicate Valid()
      reads this
    {
      |buffer| <= CAPACITY
    }

    /** Everything written so far: what reached the file, then what is still buffered. */
    function Logged(): seq<byte>
      reads this
    {
      file + buffer
    }

    /** write: hands the encoding of `val` to the buffered writer. */
    method Write(val: RespValue)
      requires Valid()
      modifies this
      ensures Valid()
      ensures Logged() == old(Logged()) + Marshal(val)
      ensures var bytes, spare := Marshal(val), CAPACITY - |old(buffer)|;
        && (|bytes| < spare ==> file == old(file) && buffer == old(buffer) + bytes)
        && (|bytes| == spare < CAPACITY ==> file == old(file) && buffer == old(buffer) + bytes)
        && (spare < |bytes| < CAPACITY ==> file == old(file) + old(buffer) && buffer == bytes)
        && (spare <= |bytes| && |bytes| >= CAPACITY ==> file == old(file) + old(buffer) + bytes && buffer == [])
    {
      var bytes := Marshal(val);
      WriteAll(bytes);
    }

    /**
     * BufWriter::write_all: keeps the bytes when they fit in the spare
     * capacity; otherwise flushes what it holds first when they exceed it,
     * and sends bytes as large as the whole buffer straight to the file.
     */
    method WriteAll(bytes: seq<byte>)
      requires Valid()
      modifies this
      ensures Valid()
      ensures Logged() == old(Logged()) + bytes
      ensures var spare := CAPACITY - |old(buffer)|;
        && (|bytes| < spare ==> file == old(file) && buffer == old(buffer) + bytes)
        && (|bytes| == spare < CAPACITY ==> file == old(file) && buffer == old(buffer) + bytes)
        && (spare < |bytes| < CAPACITY ==> file == old(file) + old(buffer) && buffer == bytes)
        && (spare <= |bytes| && |bytes| >= CAPACITY ==> file == old(file) + old(buffer) + bytes && buffer == [])
    {
      if |bytes| < CAPACITY - |buffer| {
        buffer := buffer + bytes;
      } else {
        if |bytes| > CAPACITY - |buffer| {
          file := file + buffer;
          buffer := [];
        }
        if |bytes| >= CAPACITY {
          file := file + bytes;
        } else {
          buffer := buffer + bytes;
        }
      }
    }

    /** sync: flushes the buffer to the file. */
    method Sync()
      modifies this
      ensures file == old(Logged()) && buffer == []
      ensures Valid() && Logged() == old(Logged())
    {
      file := file + buffer;
      buffer := [];
    }

    /**
     * read: replays the log from where the reader stands onto `db`, one
     * command at a time, until read_resp reports the end of the file or
     * fails.
     */
    method Read(db: Db) returns (r: Replayed)
      requires reader.pos <= |reader.data|
      modifies reader, db
      ensures (r, db.cache) == Replay(reader.data, old(reader.pos), old(db.cache))
    {
      while true
        invariant reader.pos <= |reader.data|
        invariant Replay(reader.data, reader.pos, db.cache) == Replay(reader.data, old(reader.pos), old(db.cache))
        decreases |reader.data| - reader.pos
      {
        ghost var pos := reader.pos;
        var o := ReadResp(reader);
        match o
        case Ok(command) =>
          ReplayStep(reader.data, pos, db.cache, command, reader.pos);
          var _ := db.HandleResp(command);
        case Err(kind) =>
          if kind == UnexpectedEof {
            break;
          }
          return Failed(kind);
        case Panicked =>
          return Crashed;
      }
      r := Finished;
    }
  }
}
