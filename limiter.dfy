/**
 The per-client attempt limiter. Both handlers share one process-wide record
 from client key to attempt count; every request adds one to its key's count
 before anything else happens, and a request whose new count exceeds the
 limit is refused. There is no reset, expiry or decrement.
 */
module Limiter {

  /** The number of attempts a client key may make. */
  const Limit: nat := 3

  /** `ipStore[key] || 0`: the stored count, a missing entry reading as zero. */
  function Count(usage: map<string, nat>, key: string): nat {
    if key in usage then usage[key] else 0
  }

  /** The record after one request under `key`. */
  function Bump(usage: map<string, nat>, key: string): (after: map<string, nat>)
    ensures Count(after, key) == Count(usage, key) + 1
    ensures forall k :: k != key ==> Count(after, k) == Count(usage, k)
    ensures after.Keys == usage.Keys + {key}
  {
    usage[key := Count(usage, key) + 1]
  }

  /** `ipStore[clientIP] > 3`, on the count after the increment. */
  predicate Refused(count: nat) {
    count > Limit
  }

  /** The shared usage record (`global.ipUsageMap`). */
  class UsageStore {
    var usage: map<string, nat>

    /** The record the first request creates: empty. */
    constructor ()
      ensures usage == map[]
    {
      usage := map[];
    }

    /**
     One request under `key`: the count goes up by exactly one (a missing
     entry counting as zero), no other key changes, and the request is allowed
     exactly when the new count is within the limit.
     */
    method Hit(key: string) returns (count: nat, allowed: bool)
      modifies this
      ensures usage == Bump(old(usage), key)
      ensures count == Count(usage, key) == Count(old(usage), key) + 1
      ensures allowed <==> !Refused(count)
    {
      count := Count(usage, key) + 1;
      usage := usage[key := count];
      allowed := !(count > Limit);
    }
  }

  /** The record after a sequence of requests, in order. */
  function Replay(usage: map<string, nat>, keys: seq<string>): map<string, nat>
    decreases |keys|
  {
    if keys == [] then usage else Replay(Bump(usage, keys[0]), keys[1..])
  }

  /** How many of the requests were made under `key`. */
  function Occurrences(keys: seq<string>, key: string): nat {
    if keys == [] then 0 else (if keys[0] == key then 1 else 0) + Occurrences(keys[1..], key)
  }

  /**
   After any sequence of requests a key's count is its old count plus the
   number of requests made under it, refused ones included; so counts never
   go down and other keys' requests never touch it.
   */
  lemma {:induction false} ReplayCounts(usage: map<string, nat>, keys: seq<string>, key: string)
    ensures Count(Replay(usage, keys), key) == Count(usage, key) + Occurrences(keys, key)
    ensures Count(Replay(usage, keys), key) >= Count(usage, key)
    decreases |keys|
  {
    if keys != [] {
      ReplayCounts(Bump(usage, keys[0]), keys[1..], key);
    }
  }

  /** The requests after `keys`: an allowed flag per request, computed as `Hit` does. */
  function Verdicts(usage: map<string, nat>, keys: seq<string>): (allowed: seq<bool>)
    ensures |allowed| == |keys|
    decreases |keys|
  {
    if keys == [] then []
    else
      var after := Bump(usage, keys[0]);
      [!Refused(Count(after, keys[0]))] + Verdicts(after, keys[1..])
  }

  function Repeat(key: string, n: nat): (keys: seq<string>)
    ensures |keys| == n
    ensures forall i :: 0 <= i < n ==> keys[i] == key
  {
    if n == 0 then [] else [key] + Repeat(key, n - 1)
  }

  /**
   A client key's `i`-th request (counting from one) on a key with `c` earlier
   attempts is allowed exactly when `c + i` is within the limit: from a fresh
   key, requests one to three pass and every later one is refused.
   */
  lemma {:induction false} RepeatedRequests(usage: map<string, nat>, key: string, n: nat, i: nat)
    requires i < n
    ensures Verdicts(usage, Repeat(key, n))[i] <==> Count(usage, key) + i + 1 <= Limit
    decreases n
  {
    var keys := Repeat(key, n);
    assert keys[0] == key && keys[1..] == Repeat(key, n - 1);
    if i > 0 {
      RepeatedRequests(Bump(usage, key), key, n - 1, i - 1);
    }
  }

  lemma FreshKeyLimit(key: string, n: nat, i: nat)
    requires i < n
    ensures Verdicts(map[], Repeat(key, n))[i] <==> i < Limit
  {
    RepeatedRequests(map[], key, n, i);
  }

  // ---------------------------------------------------------------------
  // The record as the source writes it: a plain JavaScript object literal.
  // Reading a key that has no own entry also finds the members every object
  // inherits from Object.prototype, so for those keys the stored value is a
  // function (or, once written back, a string ending in "1") instead of a count.
  // ---------------------------------------------------------------------

  /** The names an empty object literal answers with an inherited member. */
  const InheritedNames: set<string> := {
    "constructor", "__proto__", "hasOwnProperty", "isPrototypeOf", "propertyIsEnumerable",
    "toLocaleString", "toString", "valueOf", "__defineGetter__", "__defineSetter__",
    "__lookupGetter__", "__lookupSetter__"
  }

  /** What `ipStore[key]` yields: a number, or a non-numeric value (a function or a string). */
  datatype Slot = Number(n: nat) | NonNumeric

  function Read(record: map<string, Slot>, key: string): Slot {
    if key in record then record[key]
    else if key in InheritedNames then NonNumeric
    else Number(0)  // `undefined || 0`
  }

  /**
   `ipStore[key] = (ipStore[key] || 0) + 1; if (ipStore[key] > 3) …` on the
   object literal: `+ 1` on a function or string concatenates, assigning a
   string to `__proto__` is ignored, and `>` between a non-numeric string and
   3 is false. Returns the new record and whether the request is allowed.
   */
  function HitAsWritten(record: map<string, Slot>, key: string): (map<string, Slot>, bool) {
    var next := match Read(record, key)
      case Number(n) => Number(n + 1)
      case NonNumeric => NonNumeric;
    var after := if key == "__proto__" then record else record[key := next];
    var refused := match Read(after, key)
      case Number(n) => n > Limit
      case NonNumeric => false;
    (after, !refused)
  }

  /** The object literal holding exactly the counts of `usage`. */
  function AsRecord(usage: map<string, nat>): map<string, Slot> {
    map k | k in usage :: Number(usage[k])
  }

  /**
   For every key that is not an inherited member name the object literal
   behaves as the count record: same new counts, same verdict as `Hit`.
   */
  lemma AsWrittenAgreesOnOrdinaryKeys(usage: map<string, nat>, key: string)
    requires key !in InheritedNames
    ensures HitAsWritten(AsRecord(usage), key).0 == AsRecord(Bump(usage, key))
    ensures HitAsWritten(AsRecord(usage), key).1 <==> !Refused(Count(Bump(usage, key), key))
  {
    assert Read(AsRecord(usage), key) == Number(Count(usage, key));
  }

  /** Whether all of `n` consecutive requests under `key` pass the as-written limiter. */
  function AllAllowedAsWritten(record: map<string, Slot>, key: string, n: nat): bool
    decreases n
  {
    if n == 0 then true
    else
      var (after, allowed) := HitAsWritten(record, key);
      allowed && AllAllowedAsWritten(after, key, n - 1)
  }

  /**
   As written, a client whose key is an inherited member name (a forwarded
   header reading `constructor`, say) is never refused, however many requests
   it makes.
   */
  lemma {:induction false} InheritedKeyNeverRefusedAsWritten(record: map<string, Slot>, key: string, n: nat)
    requires key in InheritedNames
    requires key !in record || record[key] == NonNumeric
    ensures AllAllowedAsWritten(record, key, n)
    decreases n
  {
    if n > 0 {
      var (after, allowed) := HitAsWritten(record, key);
      assert key !in after || after[key] == NonNumeric;
      InheritedKeyNeverRefusedAsWritten(after, key, n - 1);
    }
  }

  /** The concrete case: the fourth request under `constructor` still passes as written. */
  lemma FourthConstructorRequestAllowedAsWritten()
    ensures AllAllowedAsWritten(map[], "constructor", 4)
  {
    InheritedKeyNeverRefusedAsWritten(map[], "constructor", 4);
  }

  /** With a record of own entries only, the fourth request under `constructor` is refused like any other key's. */
  lemma FourthConstructorRequestRefused()
    ensures !Verdicts(map[], Repeat("constructor", 4))[3]
  {
    FreshKeyLimit("constructor", 4, 3);
  }
}
