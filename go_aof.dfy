/**
 * The Go append-only log (golang/persistence/aof.go). The log file is a
 * byte sequence: `Write` appends one encoded value, and `Read` decodes the
 * whole file from the start, value by value, and calls the registered
 * handler of every command record on the store's cache.
 */
module GoAof {
  import opened Bytes
  import opened Decimal
  import opened GoResp
  import opened GoReader
  import opened GoStore

  /** Why replay stops early. */
  datatype ReplayError = ParseError(cause: ReadError) | UnknownCommand(name: seq<byte>)

  /** How replay ends: it read the whole log, it stopped with an error, or the decoder panicked. */
  datatype Replayed = Completed | Aborted(error: ReplayError) | Crashed

  /** What one decoded record does: the cache after it, or the error that stops replay. */
  datatype Step = Continue(cache: Cache) | Stop(error: ReplayError)

  /**
   * One record of the log: records that are not non-empty arrays are
   * skipped, the first item's bulk field upper-cased names the handler, and
   * the remaining items are its arguments.
   */
  function Execute(cmd: RespValue, cache: Cache): Step {
    if cmd.typ != ARRAY || |cmd.items| == 0 then Continue(cache)
    else
      var name := ToUpper(cmd.items[0].bulk);
      if name in Handlers then Continue(Apply(cache, Handlers[name], cmd.items[1..]).1)
      else Stop(UnknownCommand(name))
  }

  /**
   * Specification of the replay loop from cursor `pos`: skip CR and LF
   * bytes, stop cleanly at the end, else decode one value and execute it.
   */
  function Replay(buf: seq<byte>, pos: nat, cache: Cache): (Replayed, Cache)
    decreases |buf| - pos
  {
    var p := SkipNewlines(buf, pos);
    if p >= |buf| then (Completed, cache)
    else
      var d := DecodeAt(buf, p);
      match d.outcome
      case Failed(e) => (Aborted(ParseError(e)), cache)
      case Panicked => (Crashed, cache)
      case Parsed(cmd) =>
        match Execute(cmd, cache)
        case Stop(e) => (Aborted(e), cache)
        case Continue(c) => Replay(buf, d.next, c)
  }

  /** Executing already decoded records in order: the reference for replaying a log. */
  function ReplayValues(vals: seq<RespValue>, cache: Cache): (Replayed, Cache)
    decreases |vals|
  {
    if vals == [] then (Completed, cache)
    else
      match Execute(vals[0], cache)
      case Stop(e) => (Aborted(e), cache)
      case Continue(c) => ReplayValues(vals[1..], c)
  }

  /**
   * A log made of the encodings of decodable values, written one after the
   * other, replays exactly those values in the order they were written.
   */
  lemma {:induction false} ReplayEncoded(vals: seq<RespValue>, buf: seq<byte>, pos: nat, cache: Cache)
    requires AllDecodable(vals) && At(buf, pos, MarshalEach(vals)) && pos + |MarshalEach(vals)| == |buf|
    ensures Replay(buf, pos, cache) == ReplayValues(vals, cache)
    decreases |vals|
  {
    if vals == [] {
      assert SkipNewlines(buf, pos) == pos;
    } else {
      var v := vals[0];
      var next := pos + |Marshal(v)|;
      FirstRecord(vals, buf, pos);
      ReplayStep(buf, pos, cache, v, next);
      var step := Execute(v, cache);
      if step.Continue? {
        ReplayEncoded(vals[1..], buf, next, step.cache);
      }
    }
  }

  /** Replay at a record that decodes: the record is executed and replay goes on after it. */
  lemma {:induction false} ReplayStep(buf: seq<byte>, pos: nat, cache: Cache, v: RespValue, next: nat)
    requires pos < |buf| && SkipNewlines(buf, pos) == pos && DecodeAt(buf, pos) == Decoded(Parsed(v), next)
    ensures Execute(v, cache).Stop? ==> Replay(buf, pos, cache) == (Aborted(Execute(v, cache).error), cache)
    ensures Execute(v, cache).Continue? ==> Replay(buf, pos, cache) == Replay(buf, next, Execute(v, cache).cache)
  {
  }

  /** The first of several encodings: how a decodable value's encoding splits off the front. */
  lemma {:induction false} EncodedSplit(vals: seq<RespValue>, buf: seq<byte>, pos: nat)
    requires AllDecodable(vals) && vals != [] && At(buf, pos, MarshalEach(vals))
    ensures Decodable(vals[0]) && AllDecodable(vals[1..])
    ensures At(buf, pos, Marshal(vals[0])) && At(buf, pos + |Marshal(vals[0])|, MarshalEach(vals[1..]))
    ensures |MarshalEach(vals)| == |Marshal(vals[0])| + |MarshalEach(vals[1..])|
  {
    AllDecodableSplit(vals);
    MarshalEachCons(vals);
    SplitAt(buf, pos, Marshal(vals[0]), MarshalEach(vals[1..]));
  }

  /** The first record of an encoded log is read back where it sits, with no bytes skipped before it. */
  lemma {:induction false} FirstRecord(vals: seq<RespValue>, buf: seq<byte>, pos: nat)
    requires AllDecodable(vals) && vals != [] && At(buf, pos, MarshalEach(vals)) && pos + |MarshalEach(vals)| == |buf|
    ensures pos < |buf| && SkipNewlines(buf, pos) == pos
    ensures DecodeAt(buf, pos) == Decoded(Parsed(vals[0]), pos + |Marshal(vals[0])|)
    ensures AllDecodable(vals[1..]) && At(buf, pos + |Marshal(vals[0])|, MarshalEach(vals[1..]))
    ensures pos + |Marshal(vals[0])| + |MarshalEach(vals[1..])| == |buf|
  {
    var v := vals[0];
    EncodedSplit(vals, buf, pos);
    MarshalFraming(v);
    assert buf[pos] == Marshal(v)[0] == v.typ;
    DecodeMarshal(v, buf, pos);
  }

  /** The whole-log form: replaying the concatenated encodings from the start. */
  lemma {:induction false} ReplayLog(vals: seq<RespValue>, cache: Cache)
    requires AllDecodable(vals)
    ensures Replay(MarshalEach(vals), 0, cache) == ReplayValues(vals, cache)
  {
    var log := MarshalEach(vals);
    assert log[0..|log|] == log;
    ReplayEncoded(vals, log, 0, cache);
  }

  /**
   * An unknown command name stops replay with an error naming it; the
   * records before it stay applied and the records after it are not run.
   */
  lemma {:induction false} UnknownCommandAborts(done: seq<RespValue>, bad: RespValue, rest: seq<RespValue>, cache: Cache)
    requires bad.typ == ARRAY && |bad.items| > 0 && ToUpper(bad.items[0].bulk) !in Handlers
    requires ReplayValues(done, cache).0 == Completed
    ensures ReplayValues(done + [bad] + rest, cache) ==
      (Aborted(UnknownCommand(ToUpper(bad.items[0].bulk))), ReplayValues(done, cache).1)
    decreases |done|
  {
    if done == [] {
      assert done + [bad] + rest == [bad] + rest;
      assert ([bad] + rest)[0] == bad;
    } else {
      assert (done + [bad] + rest)[0] == done[0];
      assert (done + [bad] + rest)[1..] == done[1..] + [bad] + rest;
      var c := Execute(done[0], cache).cache;
      UnknownCommandAborts(done[1..], bad, rest, c);
    }
  }

  /** Upper-casing twice is upper-casing once. */
  lemma {:induction false} ToUpperIdempotent(s: seq<byte>)
    ensures ToUpper(ToUpper(s)) == ToUpper(s)
  {
    var u := ToUpper(s);
    forall i | 0 <= i < |s|
      ensures ToUpper(u)[i] == u[i]
    {
      assert UpperByte(UpperByte(s[i])) == UpperByte(s[i]);
    }
  }

  /**
   * Command names in the log are matched without regard to case: a record
   * replays as the same record with its name upper-cased, so `set` runs the
   * SET handler.
   */
  lemma {:induction false} ReplayIgnoresCase(name: seq<byte>, args: seq<RespValue>, cache: Cache)
    ensures Execute(NewArray([NewBulkString(name)] + args), cache) ==
            Execute(NewArray([NewBulkString(ToUpper(name))] + args), cache)
    ensures ToUpper(Ascii("set")) == SET_NAME && ToUpper(Ascii("ping")) == PING_NAME
    ensures ToUpper(Ascii("get")) == GET_NAME && ToUpper(Ascii("del")) == DEL_NAME
  {
    ToUpperIdempotent(name);
    assert ([NewBulkString(name)] + args)[1..] == args;
    assert ([NewBulkString(ToUpper(name))] + args)[1..] == args;
  }

  /** The encoding of an array record whose header still counts its last element, with that element missing. */
  function Truncated(v: RespValue): seq<byte>
    requires v.typ == ARRAY && |v.items| > 0
  {
    [ARRAY] + IntText(|v.items|) + CRLF + MarshalEach(v.items[..|v.items| - 1])
  }

  /** The parts of a truncated record: its header, then the encodings of all elements but the last. */
  lemma {:induction false} TruncatedFrame(v: RespValue, buf: seq<byte>)
    requires Decodable(v) && v.typ == ARRAY && |v.items| > 0 && buf == Truncated(v)
    ensures var header := [ARRAY] + IntText(|v.items|) + CRLF;
      && |v.items| <= INT64_MAX
      && AllDecodable(v.items[..|v.items| - 1])
      && At(buf, 0, header)
      && At(buf, |header|, MarshalEach(v.items[..|v.items| - 1]))
      && |buf| == |header| + |MarshalEach(v.items[..|v.items| - 1])|
  {
    var header := [ARRAY] + IntText(|v.items|) + CRLF;
    var body := MarshalEach(v.items[..|v.items| - 1]);
    assert buf == header + body;
    assert buf[0..|header|] == header;
    assert buf[|header|..|header| + |body|] == body;
  }

  /** Reading a truncated record runs out of bytes at its last element. */
  lemma {:induction false} TruncatedDecode(v: RespValue, buf: seq<byte>)
    requires Decodable(v) && v.typ == ARRAY && |v.items| > 0 && buf == Truncated(v)
    ensures |buf| > 0 && buf[0] == ARRAY
    ensures DecodeAt(buf, 0) == Decoded(Failed(ArrayItem(|v.items| - 1, EmptyBuffer)), |buf|)
  {
    var n := |v.items|;
    var header := [ARRAY] + IntText(n) + CRLF;
    var front := v.items[..n - 1];
    TruncatedFrame(v, buf);
    DecodeHeaderFramed(buf, 0, ARRAY, n);
    DecodeAtArray(buf, 0, n, |header|);
    assert [] + front == front;
    DecodeItemsMarshal(front, buf, |header|, |buf|, [], front, 0, n - 1, n);
    assert DecodeAt(buf, |buf|) == Decoded(Failed(EmptyBuffer), |buf|);
  }

  /**
   * A log whose last command record lost its final element (the header
   * still counts it) stops replay with a decode error naming that element,
   * and the record is not run.
   */
  lemma {:induction false} TruncatedRecordAborts(v: RespValue, cache: Cache)
    requires Decodable(v) && v.typ == ARRAY && |v.items| > 0
    ensures Replay(Truncated(v), 0, cache) == (Aborted(ParseError(ArrayItem(|v.items| - 1, EmptyBuffer))), cache)
  {
    var buf := Truncated(v);
    TruncatedDecode(v, buf);
    assert SkipNewlines(buf, 0) == 0;
  }

  /** The log file, with the operations the server and the start-up restore use. */
  class Aof {
    var file: seq<byte>

    constructor (contents: seq<byte>)
      ensures file == contents
    {
      file := contents;
    }

    /** Appends the encoding of `val`, leaving the earlier bytes as they were. */
    method Write(val: RespValue)
      modifies this
      ensures file == old(file) + Marshal(val)
    {
      file := file + Marshal(val);
    }

    /** Replays the whole file onto `store`, as the restore at start-up does. */
    method Read(store: Store) returns (r: Replayed)
      modifies store
      ensures (r, store.cache) == Replay(file, 0, old(store.cache))
    {
      var parser := new Resp(file);
      ghost var pos: nat := 0;
      var more := parser.HasNext();
      while more
        invariant parser.buf == file && fresh(parser)
        invariant parser.curr == SkipNewlines(file, pos)
        invariant more <==> parser.curr < |file|
        invariant Replay(file, pos, store.cache) == Replay(file, 0, old(store.cache))
        decreases |file| - parser.curr
      {
        var o := parser.Read();
        match o
        case Failed(e) =>
          return Aborted(ParseError(e));
        case Panicked =>
          return Crashed;
        case Parsed(cmd) =>
          if cmd.typ == ARRAY && |cmd.items| > 0 {
            var name := ToUpper(cmd.items[0].bulk);
            if name !in Handlers {
              return Aborted(UnknownCommand(name));
            }
            var _ := store.Dispatch(Handlers[name], cmd.items[1..]);
          }
        pos := parser.curr;
        more := parser.HasNext();
      }
      return Completed;
    }
  }
}
