/**
 * The Rust implementation's RESP layer: the value enum, its encoder, and
 * read_resp, which reads one command (an array of bulk strings) from a
 * buffered byte stream line by line.
 */
module RustResp {
  import opened Bytes
  import opened Optional
  import opened Decimal

  /** Rust's i32, the payload of an Integer reply. */
  newtype i32 = x: int | -0x8000_0000 <= x < 0x8000_0000

  const STRING: byte := 43  // '+'
  const ERROR: byte := 45   // '-'
  const INTEGER: byte := 58 // ':'
  const BULK: byte := 36    // '$'
  const ARRAY: byte := 42   // '*'

  /** The encoding shared by a null bulk string and Null. */
  const NULL_BULK: seq<byte> := [BULK, MINUS, ZERO + 1, CR, LF]

  datatype RespValue =
    | SimpleString(str: seq<byte>)
    | Error(msg: seq<byte>)
    | Integer(num: i32)
    | BulkString(bulk: Option<seq<byte>>)
    | Array(items: seq<RespValue>)
    | Null

  /** The prefix byte every encoding of `v` starts with. */
  function TypeByte(v: RespValue): byte {
    match v
    case SimpleString(_) => STRING
    case Error(_) => ERROR
    case Integer(_) => INTEGER
    case BulkString(_) => BULK
    case Array(_) => ARRAY
    case Null => BULK
  }

  function Marshal(v: RespValue): seq<byte>
    decreases v, 1
  {
    match v
    case SimpleString(s) => [STRING] + s + CRLF
    case Error(m) => [ERROR] + m + CRLF
    case Integer(i) => [INTEGER] + IntText(i as int) + CRLF
    case BulkString(Some(s)) => BulkHeader(s) + s + CRLF
    case BulkString(None) => NULL_BULK
    case Array(items) => ArrayHeader(|items|) + MarshalEach(items)
    case Null => NULL_BULK
  }

  /** The length line in front of a bulk string's body. */
  function BulkHeader(s: seq<byte>): seq<byte> {
    [BULK] + IntText(|s|) + CRLF
  }

  /** The length line in front of an array's elements. */
  function ArrayHeader(n: nat): seq<byte> {
    [ARRAY] + IntText(n) + CRLF
  }

  /** The elements' encodings one after the other. */
  function MarshalEach(items: seq<RespValue>): seq<byte>
    decreases items, 0
  {
    if items == [] then [] else Marshal(items[0]) + MarshalEach(items[1..])
  }

  /** Null and the null bulk string are distinct values with one encoding. */
  lemma {:induction false} NullAmbiguous()
    ensures Null != BulkString(None)
    ensures Marshal(Null) == Marshal(BulkString(None)) == NULL_BULK
    ensures NULL_BULK == Ascii("$-1\r\n")
  {
  }

  /**
   * The concatenated element encodings are empty or end in CRLF: the Rust
   * encoder's counterpart of the same fact about the Go encoder.
   */
  lemma {:induction false} MarshalEachFraming(items: seq<RespValue>)
    ensures MarshalEach(items) == [] || EndsWithCRLF(MarshalEach(items))
    decreases items, 0
  {
    if items != [] {
      MarshalEachFraming(items[1..]);
      var head, tail := Marshal(items[0]), MarshalEach(items[1..]);
      if tail == [] {
        assert MarshalEach(items) == head;
        MarshalFraming(items[0]);
      } else {
        assert MarshalEach(items)[|MarshalEach(items)| - 2..] == tail[|tail| - 2..];
      }
    }
  }

  /** Every encoding starts with its value's type byte and ends with CRLF. */
  lemma {:induction false} MarshalFraming(v: RespValue)
    ensures |Marshal(v)| >= 3 && Marshal(v)[0] == TypeByte(v) && EndsWithCRLF(Marshal(v))
    decreases v, 1
  {
    if v.Array? {
      MarshalEachFraming(v.items);
      var header := ArrayHeader(|v.items|);
      var m := Marshal(v);
      if MarshalEach(v.items) == [] {
        assert m == header;
      } else {
        var tail := MarshalEach(v.items);
        assert m[|m| - 2..] == tail[|tail| - 2..];
      }
    }
  }

  // ---------------------------------------------------------------------
  // Reading
  // ---------------------------------------------------------------------

  /** The std::io::ErrorKind values read_resp reports. */
  datatype ErrorKind = UnexpectedEof | InvalidData

  /** What one read_resp call ends in; Panicked is an unwrap on a failed parse. */
  datatype Outcome = Ok(value: RespValue) | Err(kind: ErrorKind) | Panicked

  /** `line.starts_with(b)`. */
  predicate StartsWith(line: seq<byte>, b: byte) {
    line != [] && line[0] == b
  }

  /** Where BufRead::read_line stops: just past the first LF at or after `pos`, or the end. */
  function LineEnd(data: seq<byte>, pos: nat): (e: nat)
    requires pos <= |data|
    ensures pos <= e <= |data|
    ensures pos < |data| ==> pos < e
    decreases |data| - pos
  {
    if pos == |data| then pos
    else if data[pos] == LF then pos + 1
    else LineEnd(data, pos + 1)
  }

  /** The line read_line returns from `pos`, and the position after it. */
  function LineAt(data: seq<byte>, pos: nat): (seq<byte>, nat)
    requires pos <= |data|
  {
    (data[pos..LineEnd(data, pos)], LineEnd(data, pos))
  }

  /** A line holds no LF except as its last byte, and only the last line of the data may lack one. */
  lemma {:induction false} LineAtShape(data: seq<byte>, pos: nat)
    requires pos <= |data|
    ensures var e := LineEnd(data, pos);
      (forall k :: pos <= k < e - 1 ==> data[k] != LF) &&
      (e == |data| || data[e - 1] == LF)
    decreases |data| - pos
  {
    if pos < |data| && data[pos] != LF {
      LineAtShape(data, pos + 1);
    }
  }

  /** A line of text `t` (no LF in it) followed by LF is read whole. */
  lemma {:induction false} LineEndFramed(data: seq<byte>, pos: nat, t: seq<byte>)
    requires At(data, pos, t + [LF]) && LF !in t
    ensures LineEnd(data, pos) == pos + |t| + 1
    decreases |t|
  {
    assert data[pos] == (t + [LF])[0];
    if t != [] {
      assert t + [LF] == [t[0]] + (t[1..] + [LF]);
      SplitAt(data, pos, [t[0]], t[1..] + [LF]);
      LineEndFramed(data, pos + 1, t[1..]);
    }
  }

  /** A CRLF-terminated line of text is read whole, terminator included. */
  lemma {:induction false} LineAtCRLF(data: seq<byte>, pos: nat, t: seq<byte>)
    requires At(data, pos, t + CRLF) && LF !in t
    ensures LineAt(data, pos) == (t + CRLF, pos + |t| + 2)
  {
    assert t + CRLF == (t + [CR]) + [LF];
    LineEndFramed(data, pos, t + [CR]);
  }

  /**
   * The first line from `pos` on that is not blank after trimming, and the
   * position after it; None when the data ends first.
   */
  function FirstContentLine(data: seq<byte>, pos: nat): (r: Option<(seq<byte>, nat)>)
    requires pos <= |data|
    ensures r.Some? ==> r.value.0 != [] && pos < r.value.1 <= |data|
    decreases |data| - pos
  {
    var (line, next) := LineAt(data, pos);
    if line == [] then None
    else if TrimSpace(line) == [] then FirstContentLine(data, next)
    else Some((line, next))
  }

  /**
   * read_resp from `pos`: the outcome and where the stream is left. The
   * first non-blank line must be `*<count>`; a count that does not parse
   * as a usize is a panic.
   */
  function ReadRespAt(data: seq<byte>, pos: nat): (r: (Outcome, nat))
    requires pos <= |data|
    ensures r.1 <= |data|
    ensures r.0.Ok? ==> pos < r.1
  {
    match FirstContentLine(data, pos)
    case None => (Err(UnexpectedEof), |data|)
    case Some((line, q)) =>
      if !StartsWith(line, ARRAY) then (Err(InvalidData), q)
      else
        match ParseUsize(TrimSpace(line[1..]))
        case None => (Panicked, q)
        case Some(n) => ReadElements(data, q, n, [])
  }

  /** What reading one element ends in: the bytes kept, or how read_resp stops. */
  datatype ElementRead = Element(bytes: seq<byte>) | Stop(outcome: Outcome)

  /**
   * One element from `cur`: a `$<len>` line and then exactly len + 2
   * bytes, of which the first len are kept; the last two are not looked at.
   */
  function ElementAt(data: seq<byte>, cur: nat): (r: (ElementRead, nat))
    requires cur <= |data|
    ensures cur <= r.1 <= |data|
  {
    var (line, q) := LineAt(data, cur);
    if !StartsWith(line, BULK) then (Stop(Err(InvalidData)), q)
    else
      match ParseUsize(TrimSpace(line[1..]))
      case None => (Stop(Panicked), q)
      case Some(len) =>
        if q + len + 2 > |data| then (Stop(Err(UnexpectedEof)), |data|)
        else (Element(data[q..q + len]), q + len + 2)
  }

  /** The `k` elements still to read from `cur`, after the elements `acc` already read. */
  function ReadElements(data: seq<byte>, cur: nat, k: nat, acc: seq<RespValue>): (r: (Outcome, nat))
    requires cur <= |data|
    ensures cur <= r.1 <= |data|
    decreases k
  {
    if k == 0 then (Ok(Array(acc)), cur)
    else
      var (e, next) := ElementAt(data, cur);
      match e
      case Stop(o) => (o, next)
      case Element(s) => ReadElements(data, next, k - 1, acc + [BulkString(Some(s))])
  }

  /** One element read, as each pass of read_resp's element loop does. */
  lemma {:induction false} ReadElementsStep(data: seq<byte>, cur: nat, k: nat, acc: seq<RespValue>,
                                            s: seq<byte>, next: nat, acc': seq<RespValue>)
    requires cur <= |data| && k >= 1 && ElementAt(data, cur) == (Element(s), next)
    requires acc' == acc + [BulkString(Some(s))]
    ensures ReadElements(data, cur, k, acc) == ReadElements(data, next, k - 1, acc')
  {
  }

  /** The first non-blank line found, read_resp goes on to the elements its count announces. */
  lemma {:induction false} ReadRespArray(data: seq<byte>, pos: nat, line: seq<byte>, q: nat, n: nat)
    requires pos <= |data| && FirstContentLine(data, pos) == Some((line, q))
    requires StartsWith(line, ARRAY) && ParseUsize(TrimSpace(line[1..])) == Some(n)
    ensures ReadRespAt(data, pos) == ReadElements(data, q, n, [])
  {
  }

  /** A line that is not blank is the first content line. */
  lemma {:induction false} ContentLineFirst(data: seq<byte>, pos: nat, line: seq<byte>, q: nat)
    requires pos <= |data| && LineAt(data, pos) == (line, q) && TrimSpace(line) != []
    ensures FirstContentLine(data, pos) == Some((line, q))
  {
    assert line != [];
  }

  /** A BufReader over the bytes of a file: the bytes and the read position. */
  class Reader {
    const data: seq<byte>
    var pos: nat

    constructor (data: seq<byte>, pos: nat)
      requires pos <= |data|
      ensures this.data == data && this.pos == pos
    {
      this.data := data;
      this.pos := pos;
    }

    /** read_line: the bytes up to and including the next LF, or to the end; empty at the end. */
    method ReadLine() returns (line: seq<byte>)
      requires pos <= |data|
      modifies this
      ensures pos <= |data|
      ensures (line, pos) == LineAt(data, old(pos))
    {
      line := [];
      while pos < |data|
        invariant old(pos) <= pos <= |data|
        invariant line == data[old(pos)..pos]
        invariant LineEnd(data, pos) == LineEnd(data, old(pos))
        decreases |data| - pos
      {
        ghost var p := pos;
        var b := data[pos];
        assert data[old(pos)..p + 1] == data[old(pos)..p] + [b];
        line := line + [b];
        pos := pos + 1;
        if b == LF {
          assert LineEnd(data, p) == pos;
          return;
        }
      }
    }

    /** read_exact: exactly `n` bytes, or UnexpectedEof with the rest of the data consumed. */
    method ReadExact(n: nat) returns (r: Option<seq<byte>>)
      requires pos <= |data|
      modifies this
      ensures pos <= |data|
      ensures old(pos) + n <= |data| ==> r == Some(data[old(pos)..old(pos) + n]) && pos == old(pos) + n
      ensures old(pos) + n > |data| ==> r == None && pos == |data|
    {
      if pos + n <= |data| {
        r := Some(data[pos..pos + n]);
        pos := pos + n;
      } else {
        r := None;
        pos := |data|;
      }
    }
  }

  /** read_resp: reads one command from the reader. */
  method ReadResp(reader: Reader) returns (r: Outcome)
    requires reader.pos <= |reader.data|
    modifies reader
    ensures reader.pos <= |reader.data|
    ensures (r, reader.pos) == ReadRespAt(reader.data, old(reader.pos))
  {
    var line := ReadContentLine(reader);
    if line == [] {
      return Err(UnexpectedEof);
    }
    if !StartsWith(line, ARRAY) {
      return Err(InvalidData);
    }
    var count := ParseUsize(TrimSpace(line[1..]));
    if count.None? {
      return Panicked;
    }
    r := ReadArrayElements(reader, count.value);
  }

  /**
   * read_resp's first loop: lines are read until one is not blank after
   * trimming; an empty read (the end of the data) gives the empty line.
   */
  method ReadContentLine(reader: Reader) returns (line: seq<byte>)
    requires reader.pos <= |reader.data|
    modifies reader
    ensures reader.pos <= |reader.data|
    ensures line == [] ==> FirstContentLine(reader.data, old(reader.pos)) == None && reader.pos == |reader.data|
    ensures line != [] ==> FirstContentLine(reader.data, old(reader.pos)) == Some((line, reader.pos))
  {
    ghost var data := reader.data;
    line := [];
    var blank := true;
    while blank
      invariant reader.data == data && reader.pos <= |data|
      invariant blank ==> FirstContentLine(data, reader.pos) == FirstContentLine(data, old(reader.pos))
      invariant !blank ==> line != [] && FirstContentLine(data, old(reader.pos)) == Some((line, reader.pos))
      decreases |data| - reader.pos, blank
    {
      line := reader.ReadLine();
      if line == [] {
        return;
      }
      blank := TrimSpace(line) == [];
    }
  }

  /** read_resp's element loop: `n` bulk strings, each read in one pass. */
  method ReadArrayElements(reader: Reader, n: nat) returns (r: Outcome)
    requires reader.pos <= |reader.data|
    modifies reader
    ensures reader.pos <= |reader.data|
    ensures (r, reader.pos) == ReadElements(reader.data, old(reader.pos), n, [])
  {
    ghost var data := reader.data;
    ghost var start := reader.pos;
    var elements: seq<RespValue> := [];
    ghost var left := n;
    for i := 0 to n
      invariant reader.data == data && reader.pos <= |data| && left == n - i
      invariant ReadElements(data, reader.pos, left, elements) == ReadElements(data, start, n, [])
    {
      ghost var cur := reader.pos;
      var e := ReadBulkString(reader);
      if e.Stop? {
        return e.outcome;
      }
      var element := BulkString(Some(e.bytes));
      ReadElementsStep(data, cur, left, elements, e.bytes, reader.pos, elements + [element]);
      elements := elements + [element];
      left := left - 1;
    }
    return Ok(Array(elements));
  }

  /** One pass of read_resp's element loop: a `$<len>` line, then len + 2 bytes. */
  method ReadBulkString(reader: Reader) returns (r: ElementRead)
    requires reader.pos <= |reader.data|
    modifies reader
    ensures reader.pos <= |reader.data|
    ensures (r, reader.pos) == ElementAt(reader.data, old(reader.pos))
  {
    var line := reader.ReadLine();
    if !StartsWith(line, BULK) {
      return Stop(Err(InvalidData));
    }
    var size := ParseUsize(TrimSpace(line[1..]));
    if size.None? {
      return Stop(Panicked);
    }
    var len := size.value;
    ghost var q := reader.pos;
    var buf := reader.ReadExact(len + 2);
    if buf.None? {
      return Stop(Err(UnexpectedEof));
    }
    assert buf.value[..len] == reader.data[q..q + len];
    return Element(buf.value[..len]);
  }

  // ---------------------------------------------------------------------
  // What read_resp takes back
  // ---------------------------------------------------------------------

  /** A bulk string read_resp can read back: present, with a length a usize holds. */
  predicate Readable(x: RespValue) {
    x.BulkString? && x.bulk.Some? && |x.bulk.value| <= USIZE_MAX
  }

  /** A command as read_resp returns it: an array of readable bulk strings. */
  predicate IsCommand(v: RespValue) {
    v.Array? && |v.items| <= USIZE_MAX && AllReadable(v.items)
  }

  /** Every element is readable. */
  predicate AllReadable(items: seq<RespValue>)
    decreases |items|
  {
    items != [] ==> Readable(items[0]) && AllReadable(items[1..])
  }

  /** A decimal length line `<prefix><n>\r\n` parses back to n. */
  lemma {:induction false} LengthLine(data: seq<byte>, pos: nat, prefix: byte, n: nat)
    requires n <= USIZE_MAX && prefix != LF && !IsSpace(prefix)
    requires At(data, pos, [prefix] + IntText(n) + CRLF)
    ensures var (line, q) := LineAt(data, pos);
      line == [prefix] + IntText(n) + CRLF && q == pos + |line| &&
      StartsWith(line, prefix) && TrimSpace(line) != [] &&
      ParseUsize(TrimSpace(line[1..])) == Some(n)
  {
    var d := Digits(n);
    assert IntText(n) == d;
    assert [prefix] + d + CRLF == ([prefix] + d) + CRLF;
    LineAtCRLF(data, pos, [prefix] + d);
    var line := [prefix] + d + CRLF;
    assert line[1..] == d + CRLF;
    TrimSpaceCRLF(d);
    ParseUsizeDigits(n);
    TrimSpaceBlank(line);
    assert !IsSpace(line[0]);
  }

  /**
   * One element: a `$<len>` line, len bytes and any two more bytes are
   * read as that bulk string; the two trailing bytes need not be CRLF.
   */
  lemma {:induction false} ElementFramed(data: seq<byte>, cur: nat, s: seq<byte>, next: nat)
    requires |s| <= USIZE_MAX
    requires At(data, cur, BulkHeader(s) + s) && next == cur + |BulkHeader(s)| + |s| + 2 <= |data|
    ensures ElementAt(data, cur) == (Element(s), next)
  {
    SplitAt(data, cur, BulkHeader(s), s);
    LengthLine(data, cur, BULK, |s|);
    var q := cur + |BulkHeader(s)|;
    assert data[q..q + |s|] == s;
  }

  /** The encoding of a readable element followed by more encodings splits at the element. */
  lemma {:induction false} ElementSplit(data: seq<byte>, cur: nat, rest: seq<RespValue>)
    requires rest != [] && Readable(rest[0]) && At(data, cur, MarshalEach(rest))
    ensures var s := rest[0].bulk.value;
      At(data, cur, BulkHeader(s) + s) && cur + |BulkHeader(s)| + |s| + 2 == cur + |Marshal(rest[0])| &&
      At(data, cur + |Marshal(rest[0])|, MarshalEach(rest[1..]))
  {
    var s := rest[0].bulk.value;
    SplitAt(data, cur, Marshal(rest[0]), MarshalEach(rest[1..]));
    SplitAt(data, cur, BulkHeader(s) + s, CRLF);
  }

  /**
   * From `cur` on, the elements `rest` are read one after the other, and
   * the last of them ends at `stop`.
   */
  predicate Chained(data: seq<byte>, cur: nat, rest: seq<RespValue>, stop: nat)
    requires cur <= |data|
    decreases |rest|
  {
    if rest == [] then cur == stop
    else
      var (e, next) := ElementAt(data, cur);
      e.Element? && rest[0] == BulkString(Some(e.bytes)) && Chained(data, next, rest[1..], stop)
  }

  /** Encoded readable elements are chained. */
  lemma {:induction false} MarshalChained(data: seq<byte>, cur: nat, rest: seq<RespValue>, stop: nat)
    requires AllReadable(rest) && At(data, cur, MarshalEach(rest)) && stop == cur + |MarshalEach(rest)|
    ensures Chained(data, cur, rest, stop)
    decreases |rest|
  {
    if rest != [] {
      var s := rest[0].bulk.value;
      var next := cur + |Marshal(rest[0])|;
      ElementSplit(data, cur, rest);
      ElementFramed(data, cur, s, next);
      MarshalChained(data, next, rest[1..], stop);
    }
  }

  /** Chained elements are read back in order. */
  lemma {:induction false} ReadElementsChained(data: seq<byte>, cur: nat, rest: seq<RespValue>, stop: nat,
                                               done: seq<RespValue>)
    requires cur <= |data| && Chained(data, cur, rest, stop)
    ensures ReadElements(data, cur, |rest|, done) == (Ok(Array(done + rest)), stop)
    decreases |rest|
  {
    if rest == [] {
      assert done + rest == done;
    } else {
      var (e, next) := ElementAt(data, cur);
      ReadElementsChained(data, next, rest[1..], stop, done + [rest[0]]);
      assert done + [rest[0]] + rest[1..] == done + rest;
    }
  }

  /** A count line announcing n is read, and read_resp goes on with n elements after it. */
  lemma {:induction false} CommandHeader(n: nat, data: seq<byte>, pos: nat, start: nat)
    requires n <= USIZE_MAX && At(data, pos, ArrayHeader(n)) && start == pos + |ArrayHeader(n)|
    ensures ReadRespAt(data, pos) == ReadElements(data, start, n, [])
  {
    var header := ArrayHeader(n);
    LengthLine(data, pos, ARRAY, n);
    ContentLineFirst(data, pos, header, start);
    ReadRespArray(data, pos, header, start, n);
  }

  /** The encoded elements of a command are read back as that command. */
  lemma {:induction false} CommandElements(v: RespValue, data: seq<byte>, start: nat, stop: nat)
    requires IsCommand(v) && At(data, start, MarshalEach(v.items)) && stop == start + |MarshalEach(v.items)|
    ensures ReadElements(data, start, |v.items|, []) == (Ok(v), stop)
  {
    MarshalChained(data, start, v.items, stop);
    ReadElementsChained(data, start, v.items, stop, []);
    assert [] + v.items == v.items;
  }

  /** A count line followed by the encoded elements is read back as the command. */
  lemma {:induction false} CommandRead(v: RespValue, data: seq<byte>, pos: nat, start: nat, stop: nat)
    requires IsCommand(v) && At(data, pos, ArrayHeader(|v.items|)) && start == pos + |ArrayHeader(|v.items|)|
    requires At(data, start, MarshalEach(v.items)) && stop == start + |MarshalEach(v.items)|
    ensures ReadRespAt(data, pos) == (Ok(v), stop)
  {
    CommandHeader(|v.items|, data, pos, start);
    CommandElements(v, data, start, stop);
  }

  /** The encoding of a command is its count line followed by its encoded elements. */
  lemma {:induction false} CommandSplit(v: RespValue, data: seq<byte>, pos: nat)
    requires IsCommand(v) && At(data, pos, Marshal(v))
    ensures At(data, pos, ArrayHeader(|v.items|)) && At(data, pos + |ArrayHeader(|v.items|)|, MarshalEach(v.items))
    ensures |Marshal(v)| == |ArrayHeader(|v.items|)| + |MarshalEach(v.items)|
  {
    SplitAt(data, pos, ArrayHeader(|v.items|), MarshalEach(v.items));
  }

  /** Decoding the encoding of a command gives the command back. */
  lemma {:induction false} MarshalRoundTrip(v: RespValue)
    requires IsCommand(v)
    ensures ReadRespAt(Marshal(v), 0) == (Ok(v), |Marshal(v)|)
  {
    assert Marshal(v)[0..|Marshal(v)|] == Marshal(v);
    CommandSplit(v, Marshal(v), 0);
    CommandRead(v, Marshal(v), 0, |ArrayHeader(|v.items|)|, |Marshal(v)|);
  }

  /** Lines of white space before a command are skipped. */
  lemma {:induction false} BlankLineSkipped(data: seq<byte>, pos: nat, blank: seq<byte>)
    requires AllSpace(blank) && LF !in blank && At(data, pos, blank + [LF])
    ensures ReadRespAt(data, pos) == ReadRespAt(data, pos + |blank| + 1)
  {
    LineEndFramed(data, pos, blank);
    var line := blank + [LF];
    assert AllSpace(line);
    TrimSpaceBlank(line);
  }

  /** With only white space left, read_resp reports end of file. */
  lemma {:induction false} OnlySpaceLeft(data: seq<byte>, pos: nat)
    requires pos <= |data| && AllSpace(data[pos..])
    ensures FirstContentLine(data, pos) == None
    ensures ReadRespAt(data, pos) == (Err(UnexpectedEof), |data|)
    decreases |data| - pos
  {
    if pos < |data| {
      var e := LineEnd(data, pos);
      assert AllSpace(data[pos..e]) by {
        forall k | 0 <= k < e - pos
          ensures IsSpace(data[pos..e][k])
        {
          assert data[pos..e][k] == data[pos..][k];
        }
      }
      TrimSpaceBlank(data[pos..e]);
      assert AllSpace(data[e..]) by {
        forall k | 0 <= k < |data| - e
          ensures IsSpace(data[e..][k])
        {
          assert data[e..][k] == data[pos..][k + e - pos];
        }
      }
      OnlySpaceLeft(data, e);
    }
  }
}
