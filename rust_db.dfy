/**
 * The Rust command engine (rust/redis-lite/src/store/db.rs): handle_resp
 * lowers the command name and dispatches to ping, get, set or del, which
 * act on the process-wide cache map. The cache is the field of the Db
 * class; each function that touches it is a method specified by a
 * function on the old cache, which is what log replay folds over.
 */
module RustDb {
  import opened Bytes
  import opened Optional
  import opened RustResp
  import opened Keyspace

  type Cache = map<Key, RespValue>

  /** The four commands handle_resp knows. */
  datatype Command = Ping | Get | Set | Del

  const PING_NAME: seq<byte> := Ascii("ping")
  const GET_NAME: seq<byte> := Ascii("get")
  const SET_NAME: seq<byte> := Ascii("set")
  const DEL_NAME: seq<byte> := Ascii("del")

  const PONG: seq<byte> := Ascii("PONG")
  const OK: seq<byte> := Ascii("OK")
  const ONLY_ARRAYS: seq<byte> := Ascii("Only arrays accepted.")
  const BULK_EXPECTED: seq<byte> := Ascii("Bulk string command expected")
  const INVALID_COMMAND: seq<byte> := Ascii("Invalid command")
  const INVALID_PING: seq<byte> := Ascii("Invalid PING argument")
  const MISSING_KEY: seq<byte> := Ascii("Missing key for GET")
  const SET_ARITY: seq<byte> := Ascii("SET requires key and value")
  const INVALID_KEY: seq<byte> := Ascii("Invalid key for SET")

  /** The lower-case name each command is matched against. */
  function Name(c: Command): seq<byte> {
    match c
    case Ping => PING_NAME
    case Get => GET_NAME
    case Set => SET_NAME
    case Del => DEL_NAME
  }

  /** A bulk string with contents: the only argument shape the handlers read a key from. */
  predicate IsBulk(v: RespValue) {
    v.BulkString? && v.bulk.Some?
  }

  /** 2^32: the period of i32 wrap-around. */
  const TWO32: int := 0x1_0000_0000

  /**
   * An integer brought into i32 range the way a release build's wrapping
   * addition does: the one i32 congruent to `x` modulo 2^32.
   */
  function Wrap32(x: int): (r: i32)
    ensures (r as int - x) % TWO32 == 0
    ensures -0x8000_0000 <= x < 0x8000_0000 ==> r as int == x
  {
    var m := x % TWO32;
    if m < 0x8000_0000 then m as i32 else (m - TWO32) as i32
  }

  /** Two i32 values congruent modulo 2^32 are equal. */
  lemma {:induction false} Wrap32Unique(a: i32, b: i32)
    requires (a as int - b as int) % TWO32 == 0
    ensures a == b
  {
    var d := a as int - b as int;
    assert -TWO32 < d < TWO32;
    assert d == TWO32 * (d / TWO32);
  }

  /** Adding one and wrapping, step by step, ends where wrapping the total does. */
  lemma {:induction false} Wrap32Step(x: int)
    ensures Wrap32(Wrap32(x) as int + 1) == Wrap32(x + 1)
  {
    var a := Wrap32(x);
    var b := Wrap32(a as int + 1);
    var c := Wrap32(x + 1);
    assert (a as int - x) % TWO32 == 0;
    assert (b as int - (a as int + 1)) % TWO32 == 0;
    assert (c as int - (x + 1)) % TWO32 == 0;
    assert (b as int - c as int) == (b as int - (a as int + 1)) + (a as int - x) - (c as int - (x + 1));
    Wrap32Unique(b, c);
  }

  /** ping: PONG with no arguments, an echo of a bulk first argument, an error otherwise. */
  function PingReply(args: seq<RespValue>): RespValue {
    if args == [] then SimpleString(PONG)
    else if IsBulk(args[0]) then SimpleString(args[0].bulk.value)
    else Error(INVALID_PING)
  }

  /** get: the value under the first argument's key, Null when absent. */
  function GetResult(cache: Cache, args: seq<RespValue>): RespValue {
    if args == [] || !IsBulk(args[0]) then Error(MISSING_KEY)
    else if args[0].bulk.value in cache then cache[args[0].bulk.value]
    else Null
  }

  /** set: the reply and the new cache. */
  function SetResult(cache: Cache, args: seq<RespValue>): (RespValue, Cache) {
    if |args| < 2 then (Error(SET_ARITY), cache)
    else if !IsBulk(args[0]) then (Error(INVALID_KEY), cache)
    else (SimpleString(OK), cache[args[0].bulk.value := args[1]])
  }

  /** The keys of the bulk-string arguments, in order; any other argument is skipped. */
  function BulkKeys(args: seq<RespValue>): seq<Key>
    decreases |args|
  {
    if args == [] then []
    else
      var last := args[|args| - 1];
      BulkKeys(args[..|args| - 1]) + if IsBulk(last) then [last.bulk.value] else []
  }

  /** The keys BulkKeys collects are exactly those of the bulk-string arguments. */
  lemma {:induction false} BulkKeysNamed(args: seq<RespValue>)
    ensures KeySet(BulkKeys(args)) == set i | 0 <= i < |args| && IsBulk(args[i]) :: args[i].bulk.value
    decreases |args|
  {
    if args != [] {
      var init := args[..|args| - 1];
      var last := args[|args| - 1];
      BulkKeysNamed(init);
      var named := set i | 0 <= i < |args| && IsBulk(args[i]) :: args[i].bulk.value;
      var namedInit := set i | 0 <= i < |init| && IsBulk(init[i]) :: init[i].bulk.value;
      assert named == namedInit + if IsBulk(last) then {last.bulk.value} else {} by {
        forall k | k in named
          ensures k in namedInit + if IsBulk(last) then {last.bulk.value} else {}
        {
          var i :| 0 <= i < |args| && IsBulk(args[i]) && args[i].bulk.value == k;
          if i < |init| {
            assert init[i] == args[i];
          }
        }
        forall k | k in namedInit
          ensures k in named
        {
          var i :| 0 <= i < |init| && IsBulk(init[i]) && init[i].bulk.value == k;
          assert args[i] == init[i];
        }
      }
    }
  }

  /** The keys of a prefix grow by the next argument's key, if it has one. */
  lemma {:induction false} BulkKeysStep(args: seq<RespValue>, i: nat)
    requires i < |args|
    ensures BulkKeys(args[..i + 1]) == BulkKeys(args[..i]) + if IsBulk(args[i]) then [args[i].bulk.value] else []
  {
    assert args[..i + 1][..i] == args[..i];
  }

  /** del: removes the bulk-string keys, answering the wrapped count of those present. */
  function DelResult(cache: Cache, args: seq<RespValue>): (RespValue, Cache) {
    var (c, n) := DeleteKeys(cache, BulkKeys(args));
    (Integer(Wrap32(n)), c)
  }

  /** Running command `c` with `args` on `cache`. */
  function Run(cache: Cache, c: Command, args: seq<RespValue>): (RespValue, Cache) {
    match c
    case Ping => (PingReply(args), cache)
    case Get => (GetResult(cache, args), cache)
    case Set => SetResult(cache, args)
    case Del => DelResult(cache, args)
  }

  /** handle_resp: the reply and the new cache. */
  function HandleResult(cache: Cache, command: RespValue): (RespValue, Cache) {
    if !command.Array? then (Error(ONLY_ARRAYS), cache)
    else if command.items == [] || !IsBulk(command.items[0]) then (Error(BULK_EXPECTED), cache)
    else
      var cmd := ToLower(command.items[0].bulk.value);
      var args := command.items[1..];
      if cmd == PING_NAME then Run(cache, Ping, args)
      else if cmd == GET_NAME then Run(cache, Get, args)
      else if cmd == SET_NAME then Run(cache, Set, args)
      else if cmd == DEL_NAME then Run(cache, Del, args)
      else (Error(INVALID_COMMAND), cache)
  }

  lemma {:induction false} NamesLower(c: Command)
    ensures LowerLetters(Name(c))
  {
  }

  /**
   * The command name is matched in any case: a bulk string that spells a
   * command's name, each letter upper or lower case, runs that command on
   * the rest of the array.
   */
  lemma {:induction false} AnyCaseDispatches(cache: Cache, c: Command, s: seq<byte>, args: seq<RespValue>)
    requires SpelledAnyCase(s, Name(c))
    ensures HandleResult(cache, Array([BulkString(Some(s))] + args)) == Run(cache, c, args)
  {
    NamesLower(c);
    LowerAnyCase(s, Name(c));
    var command := Array([BulkString(Some(s))] + args);
    assert command.items[1..] == args;
    assert PING_NAME[1] == 105 && GET_NAME[0] == 103 && SET_NAME[0] == 115 && DEL_NAME[0] == 100;
  }

  /**
   * A command that is not an array, whose first element is not a bulk
   * string, or whose name spells none of the four commands in any case, is
   * answered with its error and leaves the cache alone.
   */
  lemma {:induction false} HandleRejects(cache: Cache, command: RespValue)
    ensures !command.Array? ==> HandleResult(cache, command) == (Error(ONLY_ARRAYS), cache)
    ensures command.Array? && (command.items == [] || !IsBulk(command.items[0])) ==>
      HandleResult(cache, command) == (Error(BULK_EXPECTED), cache)
    ensures command.Array? && command.items != [] && IsBulk(command.items[0]) ==>
      (forall c: Command :: !SpelledAnyCase(command.items[0].bulk.value, Name(c))) ==>
      HandleResult(cache, command) == (Error(INVALID_COMMAND), cache)
  {
    if command.Array? && command.items != [] && IsBulk(command.items[0]) {
      var s := command.items[0].bulk.value;
      NamesLower(Ping);
      NamesLower(Get);
      NamesLower(Set);
      NamesLower(Del);
      LowerAnyCase(s, PING_NAME);
      LowerAnyCase(s, GET_NAME);
      LowerAnyCase(s, SET_NAME);
      LowerAnyCase(s, DEL_NAME);
    }
  }

  /** Only SET and DEL change the cache; PING, GET and every error leave it as it was. */
  lemma {:induction false} HandleKeeps(cache: Cache, command: RespValue)
    requires !command.Array? || command.items == [] || !IsBulk(command.items[0]) ||
      (ToLower(command.items[0].bulk.value) != SET_NAME && ToLower(command.items[0].bulk.value) != DEL_NAME)
    ensures HandleResult(cache, command).1 == cache
  {
  }

  /**
   * PING answers PONG with no arguments, echoes a bulk-string first
   * argument, and answers an error for a first argument of any other kind.
   */
  lemma {:induction false} PingEchoes(s: seq<byte>, rest: seq<RespValue>, args: seq<RespValue>)
    ensures PingReply([]) == SimpleString(PONG)
    ensures PingReply([BulkString(Some(s))] + rest) == SimpleString(s)
    ensures args != [] && !IsBulk(args[0]) ==> PingReply(args) == Error(INVALID_PING)
  {
  }

  /**
   * GET answers the value stored under a bulk-string key, Null for a key
   * that is not there, and an error when there is no such key argument;
   * further arguments are ignored.
   */
  lemma {:induction false} GetFinds(cache: Cache, key: Key, rest: seq<RespValue>, args: seq<RespValue>)
    ensures key in cache ==> GetResult(cache, [BulkString(Some(key))] + rest) == cache[key]
    ensures key !in cache ==> GetResult(cache, [BulkString(Some(key))] + rest) == Null
    ensures GetResult(cache, []) == Error(MISSING_KEY)
    ensures args != [] && !IsBulk(args[0]) ==> GetResult(cache, args) == Error(MISSING_KEY)
  {
  }

  /**
   * SET stores its second argument, whatever its type, under a bulk-string
   * key, answers OK and keeps every other entry; with fewer than two
   * arguments or a key of another type it answers an error and changes
   * nothing.
   */
  lemma {:induction false} SetStores(cache: Cache, args: seq<RespValue>)
    ensures |args| < 2 ==> SetResult(cache, args) == (Error(SET_ARITY), cache)
    ensures |args| >= 2 && !IsBulk(args[0]) ==> SetResult(cache, args) == (Error(INVALID_KEY), cache)
    ensures |args| >= 2 && IsBulk(args[0]) ==>
      var (r, c) := SetResult(cache, args);
      && r == SimpleString(OK)
      && c.Keys == cache.Keys + {args[0].bulk.value}
      && c[args[0].bulk.value] == args[1]
      && forall k :: k in cache && k != args[0].bulk.value ==> c[k] == cache[k]
  {
  }

  /**
   * DEL removes exactly the present keys named by bulk-string arguments,
   * skips arguments of any other type, keeps every other entry, and answers
   * the number of distinct keys it removed, wrapped to i32.
   */
  lemma {:induction false} DelRemoves(cache: Cache, args: seq<RespValue>)
    ensures var (r, c) := DelResult(cache, args);
      var named := set i | 0 <= i < |args| && IsBulk(args[i]) :: args[i].bulk.value;
      && c.Keys == cache.Keys - named
      && (forall k :: k in c ==> c[k] == cache[k])
      && r == Integer(Wrap32(|cache.Keys * named|))
  {
    BulkKeysNamed(args);
    DeleteKeysKeeps(cache, BulkKeys(args));
    DeleteKeysCount(cache, BulkKeys(args));
  }

  /** DEL with no arguments, or with no bulk-string argument, answers 0 and changes nothing. */
  lemma {:induction false} DelNothing(cache: Cache, args: seq<RespValue>)
    requires forall i :: 0 <= i < |args| ==> !IsBulk(args[i])
    ensures DelResult(cache, args) == (Integer(0), cache)
  {
    BulkKeysNamed(args);
    assert KeySet(BulkKeys(args)) == {};
    DeleteKeysKeeps(cache, BulkKeys(args));
    DeleteKeysCount(cache, BulkKeys(args));
    assert cache.Keys * KeySet(BulkKeys(args)) == {};
    assert DelResult(cache, args).1.Keys == cache.Keys;
  }

  /** SET k v then GET k answers v. */
  lemma {:induction false} SetThenGet(cache: Cache, key: Key, v: RespValue)
    ensures GetResult(SetResult(cache, [BulkString(Some(key)), v]).1, [BulkString(Some(key))]) == v
  {
  }

  /** After DEL k, GET k answers Null. */
  lemma {:induction false} DelThenGet(cache: Cache, key: Key)
    ensures GetResult(DelResult(cache, [BulkString(Some(key))]).1, [BulkString(Some(key))]) == Null
  {
    var args := [BulkString(Some(key))];
    assert args[..0] == [];
    assert BulkKeys(args) == [key];
    DeleteKeysKeeps(cache, [key]);
    assert key in KeySet([key]);
  }

  /** The cache and the command functions that use it. */
  class Db {
    var cache: Cache

    constructor ()
      ensures cache == map[]
    {
      cache := map[];
    }

    /** get: looks the key up; reads the cache only. */
    method Get(args: seq<RespValue>) returns (r: RespValue)
      ensures r == GetResult(cache, args)
    {
      if args == [] || !IsBulk(args[0]) {
        return Error(MISSING_KEY);
      }
      var key := args[0].bulk.value;
      if key in cache {
        return cache[key];
      }
      r := Null;
    }

    /** set: inserts the second argument under the key. */
    method Set(args: seq<RespValue>) returns (r: RespValue)
      modifies this
      ensures (r, cache) == SetResult(old(cache), args)
    {
      if |args| < 2 {
        return Error(SET_ARITY);
      }
      if !IsBulk(args[0]) {
        return Error(INVALID_KEY);
      }
      var key := args[0].bulk.value;
      cache := cache[key := args[1]];
      r := SimpleString(OK);
    }

    /** del: removes the bulk-string keys one by one, counting with i32 wrap-around. */
    method Del(args: seq<RespValue>) returns (r: RespValue)
      modifies this
      ensures (r, cache) == DelResult(old(cache), args)
    {
      var deleted: i32 := 0;
      ghost var removed: nat := 0;
      for i := 0 to |args|
        invariant (cache, removed) == DeleteKeys(old(cache), BulkKeys(args[..i]))
        invariant deleted == Wrap32(removed)
      {
        BulkKeysStep(args, i);
        if IsBulk(args[i]) {
          var key := args[i].bulk.value;
          assert BulkKeys(args[..i + 1]) == BulkKeys(args[..i]) + [key];
          if key in cache {
            cache := cache - {key};
            Wrap32Step(removed);
            deleted := Wrap32(deleted as int + 1);
            removed := removed + 1;
          }
        } else {
          assert BulkKeys(args[..i + 1]) == BulkKeys(args[..i]);
        }
      }
      assert args[..|args|] == args;
      r := Integer(deleted);
    }

    /** handle_resp: checks the shape, lowers the name and dispatches. */
    method HandleResp(command: RespValue) returns (r: RespValue)
      modifies this
      ensures (r, cache) == HandleResult(old(cache), command)
    {
      if !command.Array? {
        return Error(ONLY_ARRAYS);
      }
      var arr := command.items;
      if arr == [] || !IsBulk(arr[0]) {
        return Error(BULK_EXPECTED);
      }
      var cmd := ToLower(arr[0].bulk.value);
      var args := arr[1..];
      if cmd == PING_NAME {
        r := PingReply(args);
      } else if cmd == GET_NAME {
        r := Get(args);
      } else if cmd == SET_NAME {
        r := Set(args);
      } else if cmd == DEL_NAME {
        r := Del(args);
      } else {
        r := Error(INVALID_COMMAND);
      }
    }
  }
}
