/**
 * The Go implementation's wire values and encoder (golang/resp/resp.go).
 * A value is a record carrying a type byte and one field per payload; the
 * encoder switches on the type byte and ignores the other fields.
 */
module GoResp {
  import opened Bytes
  import opened Decimal

  const STRING: byte := 43   // '+'
  const ERROR: byte := 45    // '-'
  const INTEGER: byte := 58  // ':'
  const BULK: byte := 36     // '$'
  const ARRAY: byte := 42    // '*'
  const NULL: byte := 95     // '_'

  predicate KnownType(t: byte) {
    t == STRING || t == ERROR || t == INTEGER || t == BULK || t == ARRAY || t == NULL
  }

  /** Go's RespValue; `integer` is Go's 64-bit int. */
  datatype RespValue = RespValue(typ: byte, str: seq<byte>, integer: int, bulk: seq<byte>, items: seq<RespValue>)

  /** The value has a known type and every payload field but its own holds the zero value. */
  predicate Canonical(v: RespValue) {
    && KnownType(v.typ)
    && (v.typ != STRING && v.typ != ERROR ==> v.str == [])
    && (v.typ != INTEGER ==> v.integer == 0)
    && (v.typ != BULK ==> v.bulk == [])
    && (v.typ != ARRAY ==> v.items == [])
  }

  function NewSimpleString(s: seq<byte>): (v: RespValue)
    ensures Canonical(v) && v.typ == STRING && v.str == s
  {
    RespValue(STRING, s, 0, [], [])
  }

  function NewBulkString(b: seq<byte>): (v: RespValue)
    ensures Canonical(v) && v.typ == BULK && v.bulk == b
  {
    RespValue(BULK, [], 0, b, [])
  }

  function NewInteger(i: int): (v: RespValue)
    ensures Canonical(v) && v.typ == INTEGER && v.integer == i
  {
    RespValue(INTEGER, [], i, [], [])
  }

  function NewArray(arr: seq<RespValue>): (v: RespValue)
    ensures Canonical(v) && v.typ == ARRAY && v.items == arr
  {
    RespValue(ARRAY, [], 0, [], arr)
  }

  function NewNull(): (v: RespValue)
    ensures Canonical(v) && v.typ == NULL
  {
    RespValue(NULL, [], 0, [], [])
  }

  function NewError(msg: seq<byte>): (v: RespValue)
    ensures Canonical(v) && v.typ == ERROR && v.str == msg
  {
    RespValue(ERROR, msg, 0, [], [])
  }

  /** The encoding of a value; an unknown type byte encodes as nothing. */
  function Marshal(v: RespValue): seq<byte>
    decreases v, 2
  {
    if v.typ == STRING then MarshalSimpleString(v.str)
    else if v.typ == ERROR then MarshalError(v.str)
    else if v.typ == INTEGER then MarshalInteger(v.integer)
    else if v.typ == BULK then MarshalBulk(v.bulk)
    else if v.typ == ARRAY then MarshalArray(v.items)
    else if v.typ == NULL then MarshalNull()
    else []
  }

  function MarshalSimpleString(s: seq<byte>): seq<byte> {
    [STRING] + s + CRLF
  }

  function MarshalError(msg: seq<byte>): seq<byte> {
    [ERROR] + msg + CRLF
  }

  function MarshalInteger(i: int): seq<byte> {
    [INTEGER] + IntText(i) + CRLF
  }

  function MarshalBulk(b: seq<byte>): seq<byte> {
    [BULK] + IntText(|b|) + CRLF + b + CRLF
  }

  function MarshalArray(arr: seq<RespValue>): seq<byte>
    decreases arr, 1
  {
    [ARRAY] + IntText(|arr|) + CRLF + MarshalEach(arr)
  }

  /** The element encodings concatenated in order (the loop in marshalArray). */
  function MarshalEach(arr: seq<RespValue>): seq<byte>
    decreases arr, 0
  {
    if arr == [] then [] else Marshal(arr[0]) + MarshalEach(arr[1..])
  }

  function MarshalNull(): seq<byte> {
    [NULL] + CRLF
  }

  /** Each constructor's value encodes as its frame around its payload. */
  lemma {:induction false} ConstructorEncodings(s: seq<byte>, i: int, arr: seq<RespValue>)
    ensures Marshal(NewSimpleString(s)) == [STRING] + s + [CR, LF]
    ensures Marshal(NewError(s)) == [ERROR] + s + [CR, LF]
    ensures Marshal(NewInteger(i)) == [INTEGER] + IntText(i) + [CR, LF]
    ensures Marshal(NewBulkString(s)) == [BULK] + IntText(|s|) + [CR, LF] + s + [CR, LF]
    ensures Marshal(NewArray(arr)) == [ARRAY] + IntText(|arr|) + [CR, LF] + MarshalEach(arr)
    ensures Marshal(NewArray([])) == [ARRAY, ZERO, CR, LF]
    ensures Marshal(NewNull()) == [NULL, CR, LF]
  {
  }

  /** The concatenated element encodings are empty or end in CRLF. */
  lemma {:induction false} MarshalEachFraming(arr: seq<RespValue>)
    ensures MarshalEach(arr) == [] || EndsWithCRLF(MarshalEach(arr))
    decreases arr, 0
  {
    if arr != [] {
      MarshalEachFraming(arr[1..]);
      var head, tail := Marshal(arr[0]), MarshalEach(arr[1..]);
      if tail == [] {
        assert MarshalEach(arr) == head;
        MarshalFraming(arr[0]);
      } else {
        assert MarshalEach(arr)[|MarshalEach(arr)| - 2..] == tail[|tail| - 2..];
      }
    }
  }

  /**
   * Every encoding of a known type starts with its type byte and ends with
   * CRLF, whatever the nested values; an unknown type encodes as nothing.
   */
  lemma {:induction false} MarshalFraming(v: RespValue)
    ensures KnownType(v.typ) ==> |Marshal(v)| >= 3 && Marshal(v)[0] == v.typ && EndsWithCRLF(Marshal(v))
    ensures !KnownType(v.typ) ==> Marshal(v) == []
    decreases v, 1
  {
    if v.typ == ARRAY {
      MarshalEachFraming(v.items);
      var header := [ARRAY] + IntText(|v.items|) + CRLF;
      var m := Marshal(v);
      if MarshalEach(v.items) == [] {
        assert m == header;
      } else {
        var tail := MarshalEach(v.items);
        assert m[|m| - 2..] == tail[|tail| - 2..];
      }
    }
  }
}
