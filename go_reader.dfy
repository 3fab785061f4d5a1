/**
 * The Go decoder (golang/resp/reader.go): a cursor over a byte buffer that
 * reads one top-level value per call. `DecodeAt` is the specification of a
 * read from a given cursor position; the methods of `Resp` advance the
 * cursor in place and are proved to agree with it.
 */
module GoReader {
  import opened Bytes
  import opened Optional
  import opened Decimal
  import opened GoResp

  datatype ReadError =
    | EmptyBuffer
    | UnknownType(at: nat)
    | InvalidInteger
    | InvalidBulkLength
    | BulkOutOfBounds
    | InvalidArrayLength
    | ArrayItem(index: nat, cause: ReadError)

  /** A read yields a value, an error, or a Go runtime panic (a length below -1). */
  datatype Outcome = Parsed(value: RespValue) | Failed(error: ReadError) | Panicked

  /** What a read yields and where it leaves the cursor. */
  datatype Decoded = Decoded(outcome: Outcome, next: nat)

  /** `s` holds no CR immediately followed by LF. */
  predicate NoCRLF(s: seq<byte>) {
    forall i :: 0 <= i < |s| - 1 ==> !(s[i] == CR && s[i + 1] == LF)
  }

  /** A CR at `j` immediately followed by an LF. */
  predicate CRLFAt(buf: seq<byte>, j: int) {
    0 <= j && j + 1 < |buf| && buf[j] == CR && buf[j + 1] == LF
  }

  /**
   * Where readLine stops scanning from `i`: at the first CRLF, or at the
   * last byte of the buffer when there is none.
   */
  function LineEnd(buf: seq<byte>, i: nat): (e: nat)
    requires i <= |buf|
    ensures i <= e <= |buf|
    ensures e + 1 >= |buf| || CRLFAt(buf, e)
    ensures e == i || e < |buf|
    ensures forall j :: i <= j < e ==> !CRLFAt(buf, j)
    decreases |buf| - i
  {
    if i + 1 >= |buf| || CRLFAt(buf, i) then i
    else LineEnd(buf, i + 1)
  }

  /**
   * readLine from `start`: the bytes before the first CRLF and the cursor
   * two bytes past them. Without a CRLF the last byte of the buffer is not
   * part of the line and the cursor ends past the buffer.
   */
  function ReadLineAt(buf: seq<byte>, start: nat): (r: (seq<byte>, nat))
    requires start <= |buf|
    ensures start + |r.0| <= |buf| && r.0 == buf[start..start + |r.0|]
    ensures r.1 == start + |r.0| + 2
  {
    var e := LineEnd(buf, start);
    (buf[start..e], e + 2)
  }

  /**
   * A line read ends right after a CRLF, or, when there is no CRLF from
   * `start` on, one or two bytes past the end of the buffer.
   */
  lemma {:induction false} ReadLineAtEnd(buf: seq<byte>, start: nat)
    requires start <= |buf|
    ensures var r := ReadLineAt(buf, start);
      && r.1 <= |buf| + 2
      && (r.1 <= |buf| ==> CRLFAt(buf, r.1 - 2))
      && (r.1 > |buf| <==> forall j :: start <= j < |buf| ==> !CRLFAt(buf, j))
  {
  }

  /** A line followed by CRLF, with no CRLF of its own, is read back whole. */
  lemma {:induction false} ReadLineAtFramed(buf: seq<byte>, start: nat, line: seq<byte>)
    requires NoCRLF(line) && At(buf, start, line + CRLF)
    ensures ReadLineAt(buf, start) == (line, start + |line| + 2)
  {
    var stop := start + |line|;
    var framed := line + CRLF;
    forall j | start <= j < stop
      ensures !CRLFAt(buf, j)
    {
      assert buf[j] == framed[j - start];
      assert buf[j + 1] == framed[j + 1 - start];
    }
    assert buf[stop] == framed[|line|] && buf[stop + 1] == framed[|line| + 1];
    assert CRLFAt(buf, stop);
    assert buf[start..stop] == buf[start..start + |framed|][..|line|];
  }

  /** Where HasNext leaves the cursor: past every CR and LF byte at `i`. */
  function SkipNewlines(buf: seq<byte>, i: nat): (j: nat)
    ensures i <= j
    ensures i < j ==> j <= |buf|
    ensures j < |buf| ==> buf[j] != CR && buf[j] != LF
    decreases |buf| - i
  {
    if i < |buf| && (buf[i] == CR || buf[i] == LF) then SkipNewlines(buf, i + 1) else i
  }

  /** Every byte SkipNewlines passes over is a CR or an LF. */
  lemma {:induction false} SkipNewlinesSkips(buf: seq<byte>, i: nat)
    ensures forall k :: i <= k < SkipNewlines(buf, i) ==> buf[k] == CR || buf[k] == LF
    decreases |buf| - i
  {
    if i < |buf| && (buf[i] == CR || buf[i] == LF) {
      SkipNewlinesSkips(buf, i + 1);
      assert SkipNewlines(buf, i) == SkipNewlines(buf, i + 1);
    } else {
      assert SkipNewlines(buf, i) == i;
    }
  }

  /** Specification of Read with the cursor at `pos`. */
  function DecodeAt(buf: seq<byte>, pos: nat): (r: Decoded)
    ensures pos < |buf| ==> pos < r.next
    decreases |buf| - pos, 0
  {
    if pos >= |buf| then Decoded(Failed(EmptyBuffer), pos)
    else
      var t := buf[pos];
      if t == STRING then
        var (line, q) := ReadLineAt(buf, pos + 1);
        Decoded(Parsed(NewSimpleString(line)), q)
      else if t == ERROR then
        var (line, q) := ReadLineAt(buf, pos + 1);
        Decoded(Parsed(NewError(line)), q)
      else if t == INTEGER then DecodeIntegerAt(buf, pos + 1)
      else if t == BULK then DecodeBulkAt(buf, pos + 1)
      else if t == ARRAY then DecodeArrayAt(buf, pos + 1)
      else if t == NULL then Decoded(Parsed(NewNull()), pos + 1)
      else Decoded(Failed(UnknownType(pos)), pos + 1)
  }

  /** readInteger: the line must be a decimal 64-bit integer. */
  function DecodeIntegerAt(buf: seq<byte>, p: nat): (r: Decoded)
    requires p <= |buf|
    ensures p < r.next
  {
    var (line, q) := ReadLineAt(buf, p);
    match Atoi(line)
    case None => Decoded(Failed(InvalidInteger), q)
    case Some(n) => Decoded(Parsed(NewInteger(n)), q)
  }

  /**
   * readBulk: a declared length, then exactly that many bytes (CR and LF
   * allowed) and two more skipped unchecked; -1 is Null.
   */
  function DecodeBulkAt(buf: seq<byte>, p: nat): (r: Decoded)
    requires p <= |buf|
    ensures p < r.next
  {
    var (line, q) := ReadLineAt(buf, p);
    match Atoi(line)
    case None => Decoded(Failed(InvalidBulkLength), q)
    case Some(n) =>
      if n == -1 then Decoded(Parsed(NewNull()), q)
      else if q + n > |buf| then Decoded(Failed(BulkOutOfBounds), q)
      else if n < 0 then Decoded(Panicked, q)  // slicing buf[start:end] with end < start
      else Decoded(Parsed(NewBulkString(buf[q..q + n])), q + n + 2)
  }

  /** readArray: a declared count, then that many nested values; -1 is Null. */
  function DecodeArrayAt(buf: seq<byte>, p: nat): (r: Decoded)
    requires p <= |buf|
    ensures p < r.next
    decreases |buf| - p, 2
  {
    var (line, q) := ReadLineAt(buf, p);
    match Atoi(line)
    case None => Decoded(Failed(InvalidArrayLength), q)
    case Some(n) =>
      if n == -1 then Decoded(Parsed(NewNull()), q)
      else if n < 0 then Decoded(Panicked, q)  // make() with a negative capacity
      else DecodeItems(buf, q, 0, n, [])
  }

  /**
   * The loop of readArray from its i-th item, with the items read so far in
   * `acc`: the first failing item ends the array with an error naming it.
   */
  function DecodeItems(buf: seq<byte>, cur: nat, i: nat, n: nat, acc: seq<RespValue>): (r: Decoded)
    requires i <= n
    ensures cur <= r.next
    decreases |buf| - cur, 1, n - i
  {
    if i == n then Decoded(Parsed(NewArray(acc)), cur)
    else
      var d := DecodeAt(buf, cur);
      match d.outcome
      case Parsed(v) => DecodeItems(buf, d.next, i + 1, n, acc + [v])
      case Failed(e) => Decoded(Failed(ArrayItem(i, e)), d.next)
      case Panicked => Decoded(Panicked, d.next)
  }

  /**
   * What a read reports: EmptyBuffer exactly at or past the end, an
   * unknown type byte exactly when the byte at the cursor is none of the
   * six, values only as the constructors build them, and a cursor at most
   * two bytes past the buffer.
   */
  lemma {:induction false} DecodeAtCases(buf: seq<byte>, pos: nat)
    ensures var r := DecodeAt(buf, pos);
      && (pos >= |buf| ==> r == Decoded(Failed(EmptyBuffer), pos))
      && (r.outcome == Failed(EmptyBuffer) ==> pos >= |buf|)
      && (pos < |buf| ==> r.next <= |buf| + 2)
      && ((r.outcome.Failed? && r.outcome.error.UnknownType?) <==> pos < |buf| && !KnownType(buf[pos]))
      && (r.outcome.Failed? && r.outcome.error.UnknownType? ==> r == Decoded(Failed(UnknownType(pos)), pos + 1))
      && (r.outcome.Parsed? ==> Canonical(r.outcome.value))
    decreases |buf| - pos, 0
  {
    if pos < |buf| {
      var t := buf[pos];
      ReadLineAtEnd(buf, pos + 1);
      if t == INTEGER {
        assert DecodeAt(buf, pos) == DecodeIntegerAt(buf, pos + 1);
        DecodeIntegerAtCases(buf, pos + 1);
      } else if t == BULK {
        assert DecodeAt(buf, pos) == DecodeBulkAt(buf, pos + 1);
        DecodeBulkAtCases(buf, pos + 1);
      } else if t == ARRAY {
        assert DecodeAt(buf, pos) == DecodeArrayAt(buf, pos + 1);
        DecodeArrayAtCases(buf, pos + 1);
      }
    }
  }

  /** readInteger fails exactly when the line is not a 64-bit decimal, and otherwise yields its value. */
  lemma {:induction false} DecodeIntegerAtCases(buf: seq<byte>, p: nat)
    requires p <= |buf|
    ensures var r := DecodeIntegerAt(buf, p);
      var (line, q) := ReadLineAt(buf, p);
      && r.next == q && r.next <= |buf| + 2
      && (r.outcome == Failed(InvalidInteger) <==> Atoi(line).None?)
      && (r.outcome.Parsed? ==> r.outcome.value == NewInteger(Atoi(line).value))
      && (r.outcome.Parsed? || r.outcome == Failed(InvalidInteger))
  {
    ReadLineAtEnd(buf, p);
  }

  /**
   * readBulk's outcomes: a bad length line, Null for -1, a body running
   * past the buffer, or exactly the announced bytes with the cursor two
   * bytes beyond them.
   */
  lemma {:induction false} DecodeBulkAtCases(buf: seq<byte>, p: nat)
    requires p <= |buf|
    ensures var r := DecodeBulkAt(buf, p);
      var (line, q) := ReadLineAt(buf, p);
      && r.next <= |buf| + 2
      && (r.outcome == Failed(InvalidBulkLength) <==> Atoi(line).None?)
      && (r.outcome == Parsed(NewNull()) <==> Atoi(line) == Some(-1))
      && (r.outcome == Failed(BulkOutOfBounds) <==>
            Atoi(line).Some? && Atoi(line).value != -1 && q + Atoi(line).value > |buf|)
      && (r.outcome.Parsed? && r.outcome.value.typ == BULK ==>
            var b := r.outcome.value.bulk;
            Atoi(line) == Some(|b|) && q + |b| <= |buf| && b == buf[q..q + |b|] && r.next == q + |b| + 2)
      && (r.outcome.Parsed? ==> r.outcome.value.typ == BULK || r.outcome.value == NewNull())
      && (r.outcome.Failed? ==> r.outcome.error == InvalidBulkLength || r.outcome.error == BulkOutOfBounds)
  {
    ReadLineAtEnd(buf, p);
  }

  /**
   * readArray's outcomes: a bad count line, Null for -1, or the outcome of
   * the item loop over the announced count: an array of exactly that many
   * items, or an error naming an item below the count.
   */
  lemma {:induction false} DecodeArrayAtCases(buf: seq<byte>, p: nat)
    requires p <= |buf|
    ensures var r := DecodeArrayAt(buf, p);
      var (line, q) := ReadLineAt(buf, p);
      && r.next <= |buf| + 2
      && (r.outcome == Failed(InvalidArrayLength) <==> Atoi(line).None?)
      && (r.outcome == Parsed(NewNull()) <==> Atoi(line) == Some(-1))
      && (r.outcome.Parsed? && r.outcome.value.typ == ARRAY ==> Atoi(line) == Some(|r.outcome.value.items|))
      && (r.outcome.Parsed? ==> r.outcome.value == NewArray(r.outcome.value.items) || r.outcome.value == NewNull())
      && (r.outcome.Failed? && r.outcome.error.ArrayItem? ==> r.outcome.error.index < Atoi(line).value)
      && (r.outcome.Failed? ==> r.outcome.error == InvalidArrayLength || r.outcome.error.ArrayItem?)
    decreases |buf| - p, 2
  {
    ReadLineAtEnd(buf, p);
    var (line, q) := ReadLineAt(buf, p);
    if Atoi(line).Some? && Atoi(line).value >= 0 {
      DecodeItemsBound(buf, q, 0, Atoi(line).value, []);
      DecodeItemsShape(buf, q, 0, Atoi(line).value, []);
    }
  }

  /** The item loop leaves the cursor at most two bytes past the buffer. */
  lemma {:induction false} DecodeItemsBound(buf: seq<byte>, cur: nat, i: nat, n: nat, acc: seq<RespValue>)
    requires i <= n && cur <= |buf| + 2
    ensures DecodeItems(buf, cur, i, n, acc).next <= |buf| + 2
    decreases |buf| - cur, 1, n - i
  {
    if i < n {
      DecodeAtCases(buf, cur);
      var d := DecodeAt(buf, cur);
      if d.outcome.Parsed? {
        DecodeItemsBound(buf, d.next, i + 1, n, acc + [d.outcome.value]);
      }
    }
  }

  /**
   * The item loop ends with an array of all n items whose first ones are
   * `acc`, or with an error naming the item at which it stopped.
   */
  lemma {:induction false} DecodeItemsShape(buf: seq<byte>, cur: nat, i: nat, n: nat, acc: seq<RespValue>)
    requires i <= n
    ensures var r := DecodeItems(buf, cur, i, n, acc);
      && (r.outcome.Parsed? ==>
            && r.outcome.value == NewArray(r.outcome.value.items)
            && |r.outcome.value.items| == |acc| + n - i
            && r.outcome.value.items[..|acc|] == acc)
      && (r.outcome.Failed? ==> r.outcome.error.ArrayItem? && i <= r.outcome.error.index < n)
    decreases n - i
  {
    if i < n {
      var d := DecodeAt(buf, cur);
      if d.outcome.Parsed? {
        var acc' := acc + [d.outcome.value];
        DecodeItemsShape(buf, d.next, i + 1, n, acc');
        var r := DecodeItems(buf, d.next, i + 1, n, acc');
        if r.outcome.Parsed? {
          assert r.outcome.value.items[..|acc|] == acc'[..|acc|];
        }
      }
    }
  }

  /**
   * The item an array error names is the first that fails: the items
   * before it parse, and reading the named item fails with the error the
   * array reports.
   */
  lemma {:induction false} DecodeItemsFirstFailure(buf: seq<byte>, cur: nat, i: nat, n: nat, acc: seq<RespValue>)
    requires i <= n
    ensures var r := DecodeItems(buf, cur, i, n, acc);
      r.outcome.Failed? && r.outcome.error.ArrayItem? ==>
        && i <= r.outcome.error.index < n
        && var pre := DecodeItems(buf, cur, i, r.outcome.error.index, acc);
          && pre.outcome.Parsed?
          && DecodeAt(buf, pre.next).outcome == Failed(r.outcome.error.cause)
    decreases n - i
  {
    if i < n {
      var d := DecodeAt(buf, cur);
      if d.outcome.Parsed? {
        var acc' := acc + [d.outcome.value];
        DecodeItemsFirstFailure(buf, d.next, i + 1, n, acc');
        var r := DecodeItems(buf, cur, i, n, acc);
        if r.outcome.Failed? && r.outcome.error.ArrayItem? {
          var j := r.outcome.error.index;
          assert DecodeItems(buf, cur, i, j, acc) == DecodeItems(buf, d.next, i + 1, j, acc');
        }
      }
    }
  }

  /**
   * readArray's error names the first failing item: the count line is a
   * number above that index, every item before it parses, and the named
   * item fails with the reported cause.
   */
  lemma {:induction false} DecodeArrayFirstFailure(buf: seq<byte>, p: nat)
    requires p <= |buf|
    ensures var r := DecodeArrayAt(buf, p);
      var (line, q) := ReadLineAt(buf, p);
      r.outcome.Failed? && r.outcome.error.ArrayItem? ==>
        && Atoi(line).Some? && 0 <= r.outcome.error.index < Atoi(line).value
        && var pre := DecodeItems(buf, q, 0, r.outcome.error.index, []);
          && pre.outcome.Parsed?
          && DecodeAt(buf, pre.next).outcome == Failed(r.outcome.error.cause)
  {
    var (line, q) := ReadLineAt(buf, p);
    if Atoi(line).Some? && Atoi(line).value >= 0 {
      DecodeItemsFirstFailure(buf, q, 0, Atoi(line).value, []);
    }
  }

  /**
   * The values an encoding of which reads back as the same value: built by
   * the constructors, no Null anywhere (its CRLF is left unread), no CRLF
   * inside a simple string or error, integers and lengths within Go's int.
   */
  predicate Decodable(v: RespValue)
    decreases v
  {
    && Canonical(v)
    && v.typ != NULL
    && (v.typ == STRING || v.typ == ERROR ==> NoCRLF(v.str))
    && (v.typ == INTEGER ==> InInt64(v.integer))
    && |v.bulk| <= INT64_MAX
    && |v.items| <= INT64_MAX
    && forall k :: 0 <= k < |v.items| ==> Decodable(v.items[k])
  }

  predicate AllDecodable(items: seq<RespValue>) {
    forall k :: 0 <= k < |items| ==> Decodable(items[k])
  }

  /** Reading an encoding that sits at `pos` yields the value and stops right after it. */
  lemma {:induction false} DecodeMarshal(v: RespValue, buf: seq<byte>, pos: nat)
    requires Decodable(v) && At(buf, pos, Marshal(v))
    ensures DecodeAt(buf, pos) == Decoded(Parsed(v), pos + |Marshal(v)|)
    decreases v, 2
  {
    if v.typ == ARRAY {
      DecodeArrayMarshal(v, buf, pos);
    } else {
      DecodeScalarMarshal(v, buf, pos);
    }
  }

  lemma {:induction false} DecodeScalarMarshal(v: RespValue, buf: seq<byte>, pos: nat)
    requires Decodable(v) && v.typ != ARRAY && At(buf, pos, Marshal(v))
    ensures DecodeAt(buf, pos) == Decoded(Parsed(v), pos + |Marshal(v)|)
  {
    if v.typ == STRING || v.typ == ERROR {
      assert v == RespValue(v.typ, v.str, 0, [], []);
      DecodeLineFramed(buf, pos, v.typ, v.str);
    } else if v.typ == INTEGER {
      assert v == NewInteger(v.integer);
      DecodeIntegerFramed(buf, pos, v.integer);
    } else {
      assert v == NewBulkString(v.bulk);
      DecodeBulkFramed(buf, pos, v.bulk);
    }
  }

  lemma {:induction false} DecodeArrayMarshal(v: RespValue, buf: seq<byte>, pos: nat)
    requires Decodable(v) && v.typ == ARRAY && At(buf, pos, Marshal(v))
    ensures DecodeAt(buf, pos) == Decoded(Parsed(v), pos + |Marshal(v)|)
    decreases v, 1
  {
    ArrayFrame(v, buf, pos);
    var header := [ARRAY] + IntText(|v.items|) + CRLF;
    DecodeArrayPieces(v, buf, pos, pos + |header|, pos + |Marshal(v)|);
  }

  /** A count header announcing n followed by the encodings of n items is read as the array of them. */
  lemma {:induction false} DecodeArrayPieces(v: RespValue, buf: seq<byte>, pos: nat, start: nat, stop: nat)
    requires Decodable(v) && v.typ == ARRAY
    requires At(buf, pos, [ARRAY] + IntText(|v.items|) + CRLF) && start == pos + |[ARRAY] + IntText(|v.items|) + CRLF|
    requires At(buf, start, MarshalEach(v.items)) && stop == start + |MarshalEach(v.items)|
    ensures DecodeAt(buf, pos) == Decoded(Parsed(v), stop)
    decreases v, 0
  {
    CanonicalArray(v);
    var n := |v.items|;
    DecodeHeaderFramed(buf, pos, ARRAY, n);
    DecodeAtArray(buf, pos, n, start);
    assert [] + v.items == v.items;
    DecodeItemsMarshal(v.items, buf, start, stop, [], v.items, 0, n, n);
    assert DecodeItems(buf, stop, n, n, v.items) == Decoded(Parsed(NewArray(v.items)), stop);
  }

  /** An array encoding is its count header followed by the item encodings. */
  lemma {:induction false} ArrayFrame(v: RespValue, buf: seq<byte>, pos: nat)
    requires v.typ == ARRAY && At(buf, pos, Marshal(v))
    ensures var header := [ARRAY] + IntText(|v.items|) + CRLF;
      && pos < |buf|
      && At(buf, pos, header)
      && At(buf, pos + |header|, MarshalEach(v.items))
      && pos + |Marshal(v)| == pos + |header| + |MarshalEach(v.items)|
  {
    var header, body := [ARRAY] + IntText(|v.items|) + CRLF, MarshalEach(v.items);
    assert Marshal(v) == header + body;
    SplitAt(buf, pos, header, body);
  }

  /** DecodeAt on an array header announcing n >= 0 items goes on with the item loop. */
  lemma {:induction false} DecodeAtArray(buf: seq<byte>, pos: nat, n: nat, q: nat)
    requires pos < |buf| && buf[pos] == ARRAY
    requires ReadLineAt(buf, pos + 1) == (IntText(n), q) && Atoi(IntText(n)) == Some(n)
    ensures DecodeAt(buf, pos) == DecodeItems(buf, q, 0, n, [])
  {
    assert DecodeAt(buf, pos) == DecodeArrayAt(buf, pos + 1);
  }

  /** One step of the item loop after an item that parses. */
  lemma {:induction false} DecodeItemsStep(buf: seq<byte>, cur: nat, i: nat, n: nat, acc: seq<RespValue>, v: RespValue, next: nat,
                        j: nat, acc': seq<RespValue>)
    requires i < n && DecodeAt(buf, cur) == Decoded(Parsed(v), next)
    requires j == i + 1 <= n && acc' == acc + [v]
    ensures DecodeItems(buf, cur, i, n, acc) == DecodeItems(buf, next, j, n, acc')
  {
  }

  /** A frame `t line CRLF` at `pos`: the line is read back and the cursor ends after the frame. */
  lemma {:induction false} DecodeFrameLine(buf: seq<byte>, pos: nat, t: byte, line: seq<byte>)
    requires NoCRLF(line) && At(buf, pos, [t] + line + CRLF)
    ensures buf[pos] == t
    ensures ReadLineAt(buf, pos + 1) == (line, pos + |[t] + line + CRLF|)
  {
    assert [t] + line + CRLF == [t] + (line + CRLF);
    SplitAt(buf, pos, [t], line + CRLF);
    assert buf[pos] == buf[pos..pos + 1][0];
    ReadLineAtFramed(buf, pos + 1, line);
  }

  lemma {:induction false} DecodeLineFramed(buf: seq<byte>, pos: nat, t: byte, s: seq<byte>)
    requires t == STRING || t == ERROR
    requires NoCRLF(s) && At(buf, pos, [t] + s + CRLF)
    ensures DecodeAt(buf, pos) == Decoded(Parsed(RespValue(t, s, 0, [], [])), pos + |[t] + s + CRLF|)
  {
    DecodeFrameLine(buf, pos, t, s);
  }

  lemma {:induction false} DecodeIntegerFramed(buf: seq<byte>, pos: nat, i: int)
    requires InInt64(i) && At(buf, pos, MarshalInteger(i))
    ensures DecodeAt(buf, pos) == Decoded(Parsed(NewInteger(i)), pos + |MarshalInteger(i)|)
  {
    DecodeFrameLine(buf, pos, INTEGER, IntText(i));
    AtoiIntText(i);
  }

  /** A length header `t n CRLF` at `pos` is read back as n. */
  lemma {:induction false} DecodeHeaderFramed(buf: seq<byte>, pos: nat, t: byte, n: nat)
    requires n <= INT64_MAX && At(buf, pos, [t] + IntText(n) + CRLF)
    ensures buf[pos] == t
    ensures ReadLineAt(buf, pos + 1) == (IntText(n), pos + |[t] + IntText(n) + CRLF|)
    ensures Atoi(IntText(n)) == Some(n)
  {
    DecodeFrameLine(buf, pos, t, IntText(n));
    AtoiIntText(n);
  }

  lemma {:induction false} DecodeBulkFramed(buf: seq<byte>, pos: nat, b: seq<byte>)
    requires |b| <= INT64_MAX && At(buf, pos, MarshalBulk(b))
    ensures DecodeAt(buf, pos) == Decoded(Parsed(NewBulkString(b)), pos + |MarshalBulk(b)|)
  {
    var header := [BULK] + IntText(|b|) + CRLF;
    BulkFrame(buf, pos, b);
    DecodeBulkPieces(buf, pos, b, pos + |header|);
    DecodeAtIsBulk(buf, pos);
  }

  /** A bulk length header announcing |b| followed by the bytes of b and two more bytes is read as b. */
  lemma {:induction false} DecodeBulkPieces(buf: seq<byte>, pos: nat, b: seq<byte>, q: nat)
    requires |b| <= INT64_MAX && At(buf, pos, [BULK] + IntText(|b|) + CRLF)
    requires q == pos + |[BULK] + IntText(|b|) + CRLF| && At(buf, q, b) && q + |b| + 2 <= |buf|
    ensures pos < |buf| && buf[pos] == BULK
    ensures DecodeBulkAt(buf, pos + 1) == Decoded(Parsed(NewBulkString(b)), q + |b| + 2)
  {
    DecodeHeaderFramed(buf, pos, BULK, |b|);
    DecodeAtBulk(buf, pos + 1, IntText(|b|), q, b);
  }

  /** A bulk encoding is its length header followed by its bytes and CRLF. */
  lemma {:induction false} BulkFrame(buf: seq<byte>, pos: nat, b: seq<byte>)
    requires At(buf, pos, MarshalBulk(b))
    ensures var header := [BULK] + IntText(|b|) + CRLF;
      && pos < |buf|
      && At(buf, pos, header)
      && At(buf, pos + |header|, b)
      && pos + |MarshalBulk(b)| == pos + |header| + |b| + 2
  {
    var header, body := [BULK] + IntText(|b|) + CRLF, b + CRLF;
    assert MarshalBulk(b) == header + body;
    SplitAt(buf, pos, header, body);
    SplitAt(buf, pos + |header|, b, CRLF);
  }

  /** readBulk after a length line announcing |b| followed by the bytes of b. */
  lemma {:induction false} DecodeAtBulk(buf: seq<byte>, p: nat, line: seq<byte>, q: nat, b: seq<byte>)
    requires p <= |buf|
    requires ReadLineAt(buf, p) == (line, q) && Atoi(line) == Some(|b|) && At(buf, q, b)
    ensures DecodeBulkAt(buf, p) == Decoded(Parsed(NewBulkString(b)), q + |b| + 2)
  {
  }

  /** A `$` at the cursor makes the read a bulk-string read. */
  lemma {:induction false} DecodeAtIsBulk(buf: seq<byte>, pos: nat)
    requires pos < |buf| && buf[pos] == BULK
    ensures DecodeAt(buf, pos) == DecodeBulkAt(buf, pos + 1)
  {
  }

  /**
   * The encodings of `rest` at `cur`, after the items `done` of the array
   * `all`, read back in order up to `stop`.
   */
  lemma {:induction false} DecodeItemsMarshal(rest: seq<RespValue>, buf: seq<byte>, cur: nat, stop: nat,
                                              done: seq<RespValue>, all: seq<RespValue>, i: nat, m: nat, n: nat)
    requires done + rest == all && i == |done| && m == |all| && m <= n && AllDecodable(rest)
    requires At(buf, cur, MarshalEach(rest)) && stop == cur + |MarshalEach(rest)|
    ensures DecodeItems(buf, cur, i, n, done) == DecodeItems(buf, stop, m, n, all)
    decreases rest
  {
    if rest == [] {
      assert done == all && stop == cur && i == m;
    } else {
      ItemsMarshalSplit(rest, buf, cur, stop, done, all, i, m, n);
      var h := Marshal(rest[0]);
      var done' := done + [rest[0]];
      DecodeItemMarshal(rest[0], buf, cur, i, n, done, done');
      DecodeItemsMarshal(rest[1..], buf, cur + |h|, stop, done', all, i + 1, m, n);
    }
  }

  /** One item of an array: its encoding decodes to it and the item loop moves past it. */
  lemma {:induction false} DecodeItemMarshal(x: RespValue, buf: seq<byte>, cur: nat, i: nat, n: nat,
                                             done: seq<RespValue>, done': seq<RespValue>)
    requires Decodable(x) && At(buf, cur, Marshal(x))
    requires i < n && done' == done + [x]
    ensures DecodeItems(buf, cur, i, n, done) == DecodeItems(buf, cur + |Marshal(x)|, i + 1, n, done')
    decreases x, 3
  {
    DecodeMarshal(x, buf, cur);
    DecodeItemsStep(buf, cur, i, n, done, x, cur + |Marshal(x)|, i + 1, done');
  }

  /** The framing facts for one step of `DecodeItemsMarshal`: the first item's encoding, then the rest. */
  lemma {:induction false} ItemsMarshalSplit(rest: seq<RespValue>, buf: seq<byte>, cur: nat, stop: nat,
                                             done: seq<RespValue>, all: seq<RespValue>, i: nat, m: nat, n: nat)
    requires done + rest == all && i == |done| && m == |all| && m <= n && AllDecodable(rest) && rest != []
    requires At(buf, cur, MarshalEach(rest)) && stop == cur + |MarshalEach(rest)|
    ensures Decodable(rest[0]) && AllDecodable(rest[1..])
    ensures At(buf, cur, Marshal(rest[0]))
    ensures At(buf, cur + |Marshal(rest[0])|, MarshalEach(rest[1..]))
    ensures stop == (cur + |Marshal(rest[0])|) + |MarshalEach(rest[1..])|
    ensures (done + [rest[0]]) + rest[1..] == all && i + 1 == |done + [rest[0]]| && i < n
  {
    AllDecodableSplit(rest);
    MarshalEachCons(rest);
    ItemsCons(done, rest, all);
    SplitAt(buf, cur, Marshal(rest[0]), MarshalEach(rest[1..]));
  }

  lemma {:induction false} MarshalEachCons(rest: seq<RespValue>)
    requires rest != []
    ensures MarshalEach(rest) == Marshal(rest[0]) + MarshalEach(rest[1..])
    ensures |MarshalEach(rest)| == |Marshal(rest[0])| + |MarshalEach(rest[1..])|
  {
  }

  lemma {:induction false} ItemsCons(done: seq<RespValue>, rest: seq<RespValue>, all: seq<RespValue>)
    requires done + rest == all && rest != []
    ensures (done + [rest[0]]) + rest[1..] == all
    ensures |done + [rest[0]]| == |done| + 1 <= |all|
  {
    assert (done + [rest[0]]) + rest[1..] == done + rest;
  }

  /** A decodable array is one NewArray builds, over decodable items. */
  lemma {:induction false} CanonicalArray(v: RespValue)
    requires Decodable(v) && v.typ == ARRAY
    ensures v == NewArray(v.items) && AllDecodable(v.items)
  {
  }

  lemma {:induction false} AllDecodableSplit(rest: seq<RespValue>)
    requires AllDecodable(rest) && rest != []
    ensures Decodable(rest[0]) && AllDecodable(rest[1..])
  {
  }

  /** decode(encode(v)) == v, consuming the whole encoding. */
  lemma {:induction false} MarshalRoundTrip(v: RespValue)
    requires Decodable(v)
    ensures DecodeAt(Marshal(v), 0) == Decoded(Parsed(v), |Marshal(v)|)
  {
    var m := Marshal(v);
    assert m[0..|m|] == m;
    assert At(m, 0, m);
    DecodeMarshal(v, m, 0);
  }

  /** A top-level Null decodes, but the cursor stops before its CRLF, which HasNext then skips. */
  lemma {:induction false} NullLeavesItsCRLF(buf: seq<byte>, pos: nat)
    requires pos + 3 <= |buf| && buf[pos..pos + 3] == Marshal(NewNull())
    ensures DecodeAt(buf, pos) == Decoded(Parsed(NewNull()), pos + 1)
    ensures SkipNewlines(buf, pos + 1) == SkipNewlines(buf, pos + 3)
  {
    assert buf[pos] == Marshal(NewNull())[0] == NULL;
    assert buf[pos + 1] == Marshal(NewNull())[1] == CR;
    assert buf[pos + 2] == Marshal(NewNull())[2] == LF;
  }

  /** In an array, the element after a Null meets the Null's CRLF and fails as an unknown type. */
  lemma {:induction false} NullThenItemFails(x: RespValue)
    ensures DecodeAt(Marshal(NewArray([NewNull(), x])), 0).outcome == Failed(ArrayItem(1, UnknownType(5)))
  {
    var buf := Marshal(NewArray([NewNull(), x]));
    NullThenItemFrame(x);
    DecodeHeaderFramed(buf, 0, ARRAY, 2);
    DecodeAtArray(buf, 0, 2, 4);
    DecodeItemsStep(buf, 4, 0, 2, [], NewNull(), 5, 1, [NewNull()]);
  }

  /** The bytes of `*2 CRLF _ CRLF` followed by the encoding of x. */
  lemma {:induction false} NullThenItemFrame(x: RespValue)
    ensures var buf := Marshal(NewArray([NewNull(), x]));
      && At(buf, 0, [ARRAY] + IntText(2) + CRLF)
      && |[ARRAY] + IntText(2) + CRLF| == 4
      && 6 <= |buf| && buf[4] == NULL && buf[5] == CR
  {
    var items := [NewNull(), x];
    var v := NewArray(items);
    var buf := Marshal(v);
    assert buf[0..|buf|] == buf;
    ArrayFrame(v, buf, 0);
    assert IntText(2) == [ZERO + 2];
    MarshalEachCons(items);
    SplitAt(buf, 4, Marshal(NewNull()), MarshalEach(items[1..]));
    ConstructorEncodings([], 0, []);
    assert buf[4..7] == [NULL, CR, LF];
    assert buf[4] == buf[4..7][0] && buf[5] == buf[4..7][1];
  }

  /** Go's Resp: the buffer being parsed and the cursor into it. */
  class Resp {
    const buf: seq<byte>
    var curr: nat

    constructor (buf: seq<byte>)
      ensures this.buf == buf && curr == 0
    {
      this.buf := buf;
      curr := 0;
    }

    /** Reads the value at the cursor, or reports why it cannot. */
    method Read() returns (o: Outcome)
      modifies this
      ensures Decoded(o, curr) == DecodeAt(buf, old(curr))
      decreases |buf| - curr, 0
    {
      if curr >= |buf| {
        return Failed(EmptyBuffer);
      }
      var t := ReadByte();
      if t == STRING {
        var v := ReadSimpleString();
        o := Parsed(v);
      } else if t == ERROR {
        var v := ReadError();
        o := Parsed(v);
      } else if t == INTEGER {
        o := ReadInteger();
      } else if t == BULK {
        o := ReadBulk();
      } else if t == ARRAY {
        o := ReadArray();
      } else if t == NULL {
        o := Parsed(NewNull());
      } else {
        o := Failed(UnknownType(curr - 1));
      }
    }

    /** Moves the cursor over CR and LF bytes; true iff another byte remains. */
    method HasNext() returns (more: bool)
      modifies this
      ensures curr == SkipNewlines(buf, old(curr))
      ensures more <==> curr < |buf|
    {
      while curr < |buf|
        invariant old(curr) <= curr
        invariant SkipNewlines(buf, curr) == SkipNewlines(buf, old(curr))
        decreases |buf| - curr
      {
        if buf[curr] != CR && buf[curr] != LF {
          return true;
        }
        curr := curr + 1;
      }
      return false;
    }

    method ReadSimpleString() returns (v: RespValue)
      requires curr <= |buf|
      modifies this
      ensures Decoded(Parsed(v), curr) == Decoded(Parsed(NewSimpleString(ReadLineAt(buf, old(curr)).0)), ReadLineAt(buf, old(curr)).1)
    {
      var line := ReadLine();
      v := NewSimpleString(line);
    }

    method ReadError() returns (v: RespValue)
      requires curr <= |buf|
      modifies this
      ensures Decoded(Parsed(v), curr) == Decoded(Parsed(NewError(ReadLineAt(buf, old(curr)).0)), ReadLineAt(buf, old(curr)).1)
    {
      var line := ReadLine();
      v := NewError(line);
    }

    method ReadInteger() returns (o: Outcome)
      requires curr <= |buf|
      modifies this
      ensures Decoded(o, curr) == DecodeIntegerAt(buf, old(curr))
    {
      var line := ReadLine();
      var num := Atoi(line);
      if num.None? {
        return Failed(InvalidInteger);
      }
      o := Parsed(NewInteger(num.value));
    }

    method ReadBulk() returns (o: Outcome)
      requires curr <= |buf|
      modifies this
      ensures Decoded(o, curr) == DecodeBulkAt(buf, old(curr))
    {
      var lengthLine := ReadLine();
      var length := Atoi(lengthLine);
      if length.None? {
        return Failed(InvalidBulkLength);
      }
      if length.value == -1 {
        return Parsed(NewNull());
      }
      var start := curr;
      var end := start + length.value;
      if end > |buf| {
        return Failed(BulkOutOfBounds);
      }
      if end < start {
        return Panicked;
      }
      var bulk := buf[start..end];
      curr := end + 2;
      o := Parsed(NewBulkString(bulk));
    }

    method ReadArray() returns (o: Outcome)
      requires curr <= |buf|
      modifies this
      ensures Decoded(o, curr) == DecodeArrayAt(buf, old(curr))
      decreases |buf| - curr, 2
    {
      var lengthLine := ReadLine();
      var parsed := Atoi(lengthLine);
      if parsed.None? {
        return Failed(InvalidArrayLength);
      }
      var length := parsed.value;
      if length == -1 {
        return Parsed(NewNull());
      }
      if length < 0 {
        return Panicked;
      }
      ghost var start := curr;
      var values: seq<RespValue> := [];
      var i := 0;
      while i < length
        invariant 0 <= i <= length
        invariant start <= curr
        invariant DecodeItems(buf, curr, i, length, values) == DecodeItems(buf, start, 0, length, [])
      {
        ghost var before := curr;
        var val := Read();
        assert DecodeAt(buf, before) == Decoded(val, curr);
        if val.Failed? {
          return Failed(ArrayItem(i, val.error));
        }
        if val.Panicked? {
          return Panicked;
        }
        values := values + [val.value];
        i := i + 1;
      }
      o := Parsed(NewArray(values));
    }

    /** Returns the bytes up to the first CRLF and moves the cursor past it. */
    method ReadLine() returns (line: seq<byte>)
      requires curr <= |buf|
      modifies this
      ensures (line, curr) == ReadLineAt(buf, old(curr))
    {
      var start := curr;
      while !(curr + 1 >= |buf| || (buf[curr] == CR && buf[curr + 1] == LF))
        invariant start <= curr <= |buf|
        invariant LineEnd(buf, curr) == LineEnd(buf, start)
        decreases |buf| - curr
      {
        curr := curr + 1;
      }
      var end := curr;
      curr := curr + 2;
      line := buf[start..end];
    }

    method ReadByte() returns (b: byte)
      requires curr < |buf|
      modifies this
      ensures b == buf[old(curr)] && curr == old(curr) + 1
    {
      b := buf[curr];
      curr := curr + 1;
    }
  }
}
