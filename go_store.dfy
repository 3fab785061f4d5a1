/**
 * The Go command engine (golang/store/handlers.go): a registry of four
 * handlers, PING, GET, SET and DEL, acting on the shared cache map of
 * golang/store/db.go. The cache is a field of the Store class; each
 * handler that touches it is a method specified by a function on the old
 * cache, which is what log replay folds over.
 */
module GoStore {
  import opened Bytes
  import opened Optional
  import opened GoResp
  import opened Keyspace

  type Cache = map<Key, RespValue>

  /** The handlers the registry can return. */
  datatype Handler = Ping | Get | Set | Del

  const PING_NAME: seq<byte> := Ascii("PING")
  const GET_NAME: seq<byte> := Ascii("GET")
  const SET_NAME: seq<byte> := Ascii("SET")
  const DEL_NAME: seq<byte> := Ascii("DEL")

  const PONG: seq<byte> := Ascii("PONG")
  const OK: seq<byte> := Ascii("OK")
  const SET_ARITY: seq<byte> := Ascii("ERR wrong number of arguments for 'SET'")
  const GET_ARITY: seq<byte> := Ascii("ERR wrong number of arguments for 'GET'")
  const DEL_ARITY: seq<byte> := Ascii("ERR wrong number of arguments for 'DEL'")

  /** The registry: command names, upper case only, to handlers. */
  const Handlers: map<seq<byte>, Handler> :=
    map[PING_NAME := Ping, GET_NAME := Get, SET_NAME := Set, DEL_NAME := Del]

  /** The name each handler is registered under. */
  function Name(h: Handler): seq<byte> {
    match h
    case Ping => PING_NAME
    case Get => GET_NAME
    case Set => SET_NAME
    case Del => DEL_NAME
  }

  /**
   * The registry holds exactly the four names: every handler is found
   * under its own name, and a name that is found is the name of what it
   * finds.
   */
  lemma {:induction false} RegistryExact(name: seq<byte>)
    ensures forall h :: Name(h) in Handlers && Handlers[Name(h)] == h
    ensures name in Handlers ==> Name(Handlers[name]) == name
    ensures name in Handlers <==> name == PING_NAME || name == GET_NAME || name == SET_NAME || name == DEL_NAME
  {
    assert PING_NAME[0] == 80 && GET_NAME[0] == 71 && SET_NAME[0] == 83 && DEL_NAME[0] == 68;
    assert |PING_NAME| == 4 && |GET_NAME| == 3 && |SET_NAME| == 3 && |DEL_NAME| == 3;
  }

  /** Names are matched byte for byte: the lower-case spelling is not registered. */
  lemma {:induction false} RegistryCaseSensitive()
    ensures Ascii("ping") !in Handlers && Ascii("get") !in Handlers
    ensures Ascii("set") !in Handlers && Ascii("del") !in Handlers
  {
    RegistryExact(Ascii("ping"));
    RegistryExact(Ascii("get"));
    RegistryExact(Ascii("set"));
    RegistryExact(Ascii("del"));
    assert Ascii("ping")[0] == 112 && Ascii("get")[0] == 103;
    assert Ascii("set")[0] == 115 && Ascii("del")[0] == 100;
    assert PING_NAME[0] == 80 && GET_NAME[0] == 71 && SET_NAME[0] == 83 && DEL_NAME[0] == 68;
  }

  /** The `Bulk` field of every argument, in order. */
  function Bulks(args: seq<RespValue>): (r: seq<seq<byte>>)
    ensures |r| == |args| && forall i :: 0 <= i < |args| ==> r[i] == args[i].bulk
  {
    seq(|args|, i requires 0 <= i < |args| => args[i].bulk)
  }

  /** Go's strings.Join with a single space as separator. */
  function Join(parts: seq<seq<byte>>): seq<byte>
  {
    if |parts| == 0 then []
    else if |parts| == 1 then parts[0]
    else parts[0] + [SPACE] + Join(parts[1..])
  }

  /** Splits at every single space: the reference inverse of Join, which the handlers do not call. */
  function Split(s: seq<byte>): (r: seq<seq<byte>>)
    ensures |r| >= 1
  {
    if s == [] then [[]]
    else
      var rest := Split(s[1..]);
      if s[0] == SPACE then [[]] + rest else [[s[0]] + rest[0]] + rest[1..]
  }

  /** A prefix without spaces joins the first field. */
  lemma {:induction false} SplitPrefix(a: seq<byte>, t: seq<byte>)
    requires SPACE !in a
    ensures Split(a + t) == [a + Split(t)[0]] + Split(t)[1..]
  {
    if a != [] {
      assert (a + t)[1..] == a[1..] + t;
      SplitPrefix(a[1..], t);
      assert [a[0]] + (a[1..] + Split(t)[0]) == a + Split(t)[0];
    } else {
      assert a + t == t;
      assert a + Split(t)[0] == Split(t)[0];
      assert Split(t) == [Split(t)[0]] + Split(t)[1..];
    }
  }

  /** Splitting what Join built gives back the parts, when no part holds a space. */
  lemma {:induction false} SplitJoin(parts: seq<seq<byte>>)
    requires parts != [] && forall i :: 0 <= i < |parts| ==> SPACE !in parts[i]
    ensures Split(Join(parts)) == parts
    decreases |parts|
  {
    if |parts| == 1 {
      SplitPrefix(parts[0], []);
      assert parts[0] + [] == parts[0];
    } else {
      var j := Join(parts[1..]);
      SplitJoin(parts[1..]);
      assert parts[0] + [SPACE] + j == parts[0] + ([SPACE] + j);
      SplitPrefix(parts[0], [SPACE] + j);
      assert ([SPACE] + j)[1..] == j;
      assert Split([SPACE] + j) == [[]] + Split(j);
      assert Split(Join(parts)) == [parts[0] + []] + Split(j);
      assert parts[0] + [] == parts[0];
      assert parts == [parts[0]] + parts[1..];
    }
  }

  /** The reply of ping: PONG without arguments, else the arguments' bulk fields joined by spaces. */
  function PingReply(args: seq<RespValue>): (r: RespValue)
    ensures Canonical(r)
  {
    if args == [] then NewSimpleString(PONG) else NewBulkString(Join(Bulks(args)))
  }

  /**
   * PING without arguments answers PONG; with arguments it answers a bulk
   * string that splits back into the arguments' bulk fields, and one
   * argument is echoed as it is.
   */
  lemma {:induction false} PingEchoes(args: seq<RespValue>)
    ensures args == [] ==> PingReply(args) == NewSimpleString(PONG)
    ensures |args| == 1 ==> PingReply(args) == NewBulkString(args[0].bulk)
    ensures args != [] && (forall i :: 0 <= i < |args| ==> SPACE !in args[i].bulk) ==>
      PingReply(args).typ == BULK && Split(PingReply(args).bulk) == Bulks(args)
  {
    if args != [] && (forall i :: 0 <= i < |args| ==> SPACE !in args[i].bulk) {
      SplitJoin(Bulks(args));
    }
  }

  /** The key an argument names: its bulk field with white space trimmed. */
  function KeyOf(arg: RespValue): Key {
    TrimSpace(arg.bulk)
  }

  function KeysOf(args: seq<RespValue>): (r: seq<Key>)
    ensures |r| == |args| && forall i :: 0 <= i < |args| ==> r[i] == KeyOf(args[i])
  {
    seq(|args|, i requires 0 <= i < |args| => KeyOf(args[i]))
  }

  /** set: the reply and the new cache. */
  function SetResult(cache: Cache, args: seq<RespValue>): (RespValue, Cache) {
    if |args| != 2 then (NewError(SET_ARITY), cache)
    else (NewSimpleString(OK), cache[KeyOf(args[0]) := args[1]])
  }

  /** get: the reply; the cache is only read. */
  function GetResult(cache: Cache, args: seq<RespValue>): RespValue {
    if |args| != 1 then NewError(GET_ARITY)
    else if KeyOf(args[0]) in cache then cache[KeyOf(args[0])]
    else NewNull()
  }

  /** del: the reply and the new cache. */
  function DelResult(cache: Cache, args: seq<RespValue>): (RespValue, Cache) {
    if |args| == 0 then (NewError(DEL_ARITY), cache)
    else
      var (c, n) := DeleteKeys(cache, KeysOf(args));
      (NewInteger(n), c)
  }

  /** Calling the handler `h` with `args` on `cache`. */
  function Apply(cache: Cache, h: Handler, args: seq<RespValue>): (RespValue, Cache) {
    match h
    case Ping => (PingReply(args), cache)
    case Get => (GetResult(cache, args), cache)
    case Set => SetResult(cache, args)
    case Del => DelResult(cache, args)
  }

  /**
   * A wrong argument count gives the handler's arity error and leaves the
   * cache as it was; PING and GET never change the cache.
   */
  lemma {:induction false} ArityErrors(cache: Cache, h: Handler, args: seq<RespValue>)
    ensures h == Set && |args| != 2 ==> Apply(cache, h, args) == (NewError(SET_ARITY), cache)
    ensures h == Get && |args| != 1 ==> Apply(cache, h, args) == (NewError(GET_ARITY), cache)
    ensures h == Del && |args| == 0 ==> Apply(cache, h, args) == (NewError(DEL_ARITY), cache)
    ensures h == Ping || h == Get ==> Apply(cache, h, args).1 == cache
  {
  }

  /**
   * SET with two arguments answers OK, stores the whole second argument
   * under the trimmed first, and keeps every other key with its value.
   */
  lemma {:induction false} SetStores(cache: Cache, args: seq<RespValue>)
    requires |args| == 2
    ensures var (r, c) := Apply(cache, Set, args);
      && r == NewSimpleString(OK)
      && KeyOf(args[0]) in c && c[KeyOf(args[0])] == args[1]
      && forall k :: k != KeyOf(args[0]) ==> (k in c <==> k in cache) && (k in c ==> c[k] == cache[k])
  {
  }

  /** GET with one argument answers the value stored under the trimmed key, or Null. */
  lemma {:induction false} GetFinds(cache: Cache, arg: RespValue)
    ensures KeyOf(arg) in cache ==> Apply(cache, Get, [arg]).0 == cache[KeyOf(arg)]
    ensures KeyOf(arg) !in cache ==> Apply(cache, Get, [arg]).0 == NewNull()
  {
  }

  /**
   * DEL with arguments removes exactly the trimmed keys that are present,
   * keeps the other entries, and answers how many distinct keys it removed.
   */
  lemma {:induction false} DelRemoves(cache: Cache, args: seq<RespValue>)
    requires |args| > 0
    ensures var (r, c) := Apply(cache, Del, args);
      && c.Keys == cache.Keys - KeySet(KeysOf(args))
      && (forall k :: k in c ==> c[k] == cache[k])
      && r == NewInteger(|cache.Keys * KeySet(KeysOf(args))|)
  {
    DeleteKeysKeeps(cache, KeysOf(args));
    DeleteKeysCount(cache, KeysOf(args));
  }

  /** A key listed twice in one DEL is removed, and counted, once. */
  lemma {:induction false} DelRepeatedKey(cache: Cache, arg: RespValue)
    requires KeyOf(arg) in cache
    ensures Apply(cache, Del, [arg, arg]) == (NewInteger(1), cache - {KeyOf(arg)})
  {
    assert KeysOf([arg, arg]) == [KeyOf(arg), KeyOf(arg)];
    DeleteRepeated(cache, KeyOf(arg));
  }

  /** SET k v then GET k answers v, whatever spacing surrounds either key. */
  lemma {:induction false} SetThenGet(cache: Cache, k: RespValue, v: RespValue, k': RespValue)
    requires KeyOf(k') == KeyOf(k)
    ensures GetResult(Apply(cache, Set, [k, v]).1, [k']) == v
  {
  }

  /** After DEL k, GET k answers Null. */
  lemma {:induction false} DelThenGet(cache: Cache, k: RespValue, k': RespValue)
    requires KeyOf(k') == KeyOf(k)
    ensures GetResult(Apply(cache, Del, [k]).1, [k']) == NewNull()
  {
    assert KeysOf([k]) == [KeyOf(k)];
    DeleteKeysKeeps(cache, [KeyOf(k)]);
    assert KeyOf(k) in KeySet([KeyOf(k)]);
  }

  /** The shared cache and the handlers that use it. */
  class Store {
    var cache: Cache

    constructor ()
      ensures cache == map[]
    {
      cache := map[];
    }

    /** set: stores under the trimmed key. */
    method Set(args: seq<RespValue>) returns (r: RespValue)
      modifies this
      ensures (r, cache) == SetResult(old(cache), args)
    {
      if |args| != 2 {
        return NewError(SET_ARITY);
      }
      var key := KeyOf(args[0]);
      var value := args[1];
      cache := cache[key := value];
      r := NewSimpleString(OK);
    }

    /** get: looks the trimmed key up. */
    method Get(args: seq<RespValue>) returns (r: RespValue)
      ensures r == GetResult(cache, args)
    {
      if |args| != 1 {
        return NewError(GET_ARITY);
      }
      var key := KeyOf(args[0]);
      if key in cache {
        return cache[key];
      }
      r := NewNull();
    }

    /** del: removes the trimmed keys one by one, counting those present. */
    method Del(args: seq<RespValue>) returns (r: RespValue)
      modifies this
      ensures (r, cache) == DelResult(old(cache), args)
    {
      if |args| == 0 {
        return NewError(DEL_ARITY);
      }
      ghost var keys := KeysOf(args);
      var deleted := 0;
      var i := 0;
      while i < |args|
        invariant 0 <= i <= |args|
        invariant (cache, deleted) == DeleteKeys(old(cache), keys[..i])
      {
        var key := KeyOf(args[i]);
        DeleteKeysStep(old(cache), keys, i);
        if key in cache {
          cache := cache - {key};
          deleted := deleted + 1;
        }
        i := i + 1;
      }
      assert keys[..|args|] == keys;
      r := NewInteger(deleted);
    }

    /** Calls the handler `h`, as the registry's function values are called. */
    method Dispatch(h: Handler, args: seq<RespValue>) returns (r: RespValue)
      modifies this
      ensures (r, cache) == Apply(old(cache), h, args)
    {
      match h
      case Ping => r := PingReply(args);
      case Get => r := Get(args);
      case Set => r := Set(args);
      case Del => r := Del(args);
    }
  }
}
