/** The shared store and the client in front of it (internal/core/cache/
    valkey_client.go): expiring entries, set-if-absent, compare-and-delete and
    the batched delete by pattern. A request can be lost before it is served, or
    its reply after. */
module ValkeyStore {
  import opened Domain
  import opened Text

  datatype Entry<+V> = Entry(value: V, expires: int)

  datatype Fault = NoFault | LostRequest | LostReply

  predicate IsApplied(fault: Fault) { fault != LostRequest }

  predicate Live<K, V>(data: map<K, Entry<V>>, key: K, now: int) {
    key in data && now <= data[key].expires
  }

  function Stored<K, V>(data: map<K, Entry<V>>, key: K, value: V, expires: int): map<K, Entry<V>> {
    data[key := Entry(value, expires)]
  }

  /** SET NX PX: only over a missing or expired key. */
  function StoredIfAbsent<K, V>(data: map<K, Entry<V>>, key: K, value: V, now: int, ttl: int): map<K, Entry<V>> {
    if Live(data, key, now) then data else Stored(data, key, value, now + ttl)
  }

  /** The unlock script: delete only a live entry that still holds `value`. */
  function DeletedIfEqual<K, V(==)>(data: map<K, Entry<V>>, key: K, value: V, now: int): map<K, Entry<V>> {
    if Live(data, key, now) && data[key].value == value then data - {key} else data
  }

  function Keys(scan: seq<string>): set<string> { set k | k in scan }

  lemma KeysOfAppend(scan: seq<string>, key: string)
    ensures Keys(scan + [key]) == Keys(scan) + {key}
  {
  }

  lemma KeysOfPrefix(scan: seq<string>, i: nat)
    requires i < |scan|
    ensures Keys(scan[..i + 1]) == Keys(scan[..i]) + {scan[i]} <= Keys(scan)
  {
    assert scan[..i + 1] == scan[..i] + [scan[i]];
    KeysOfAppend(scan[..i], scan[i]);
  }

  /** A request as it was made and answered, or something else its caller did in
      between that belongs in the same order. */
  datatype Served<V, X> =
    | GetServed(key: string, found: Result<Option<V>>)
    | SetServed(key: string, value: V, ttl: int)
    | SetNXServed(key: string, value: V, ttl: int, at: int, acquired: Result<bool>)
    | DeleteIfEqualServed(key: string, value: V)
    | Outside(event: X)

  class ValkeyCacheClient<V(==), X> {
    var data: map<string, Entry<V>>
    var now: int
    ghost var log: seq<Served<V, X>>

    constructor ()
      ensures data == map[] && now == 0 && log == []
    {
      data, now, log := map[], 0, [];
    }

    /** Puts on record what its caller did without the store. */
    ghost method Note(event: X)
      modifies this`log
      ensures log == old(log) + [Outside(event)]
    {
      log := log + [Outside(event)];
    }

    /** None is a miss; Err a failed command. */
    method Get(key: string, fault: Fault) returns (r: Result<Option<V>>)
      modifies this`log
      ensures r == if fault != NoFault then Err(Internal) else if Live(data, key, now) then Ok(Some(data[key].value))
              else Ok(None)
      ensures log == old(log) + [GetServed(key, r)]
    {
      if fault != NoFault {
        r := Err(Internal);
      } else if key in data && now <= data[key].expires {
        r := Ok(Some(data[key].value));
      } else {
        r := Ok(None);
      }
      log := log + [GetServed(key, r)];
    }

    method Set(key: string, value: V, ttl: int, fault: Fault) returns (ok: bool)
      modifies this`data, this`log
      ensures log == old(log) + [SetServed(key, value, ttl)]
      ensures ok == (fault == NoFault)
      ensures data == if IsApplied(fault) then Stored(old(data), key, value, now + ttl) else old(data)
    {
      if IsApplied(fault) {
        data := data[key := Entry(value, now + ttl)];
      }
      log := log + [SetServed(key, value, ttl)];
      ok := fault == NoFault;
    }

    method SetNX(key: string, value: V, ttl: int, fault: Fault) returns (acquired: Result<bool>)
      modifies this`data, this`log
      ensures log == old(log) + [SetNXServed(key, value, ttl, now, acquired)]
      ensures data == if IsApplied(fault) then StoredIfAbsent(old(data), key, value, now, ttl) else old(data)
      ensures acquired == if fault == NoFault then Ok(!Live(old(data), key, now)) else Err(Internal)
    {
      var absent := !(key in data && now <= data[key].expires);
      if IsApplied(fault) && absent {
        data := data[key := Entry(value, now + ttl)];
      }
      acquired := if fault == NoFault then Ok(absent) else Err(Internal);
      log := log + [SetNXServed(key, value, ttl, now, acquired)];
    }

    method Delete(key: string, fault: Fault) returns (ok: bool)
      modifies this`data
      ensures ok == (fault == NoFault)
      ensures data == if IsApplied(fault) then old(data) - {key} else old(data)
    {
      if IsApplied(fault) {
        data := data - {key};
      }
      ok := fault == NoFault;
    }

    method DeleteIfEqual(key: string, value: V, fault: Fault) returns (ok: bool)
      modifies this`data, this`log
      ensures log == old(log) + [DeleteIfEqualServed(key, value)]
      ensures ok == (fault == NoFault)
      ensures data == if IsApplied(fault) then DeletedIfEqual(old(data), key, value, now) else old(data)
    {
      if IsApplied(fault) && key in data && now <= data[key].expires {
        if data[key].value == value {
          data := data - {key};
        }
      }
      log := log + [DeleteIfEqualServed(key, value)];
      ok := fault == NoFault;
    }

    method Unlink(keys: seq<string>, fault: Fault) returns (ok: bool)
      modifies this`data
      ensures ok == (fault == NoFault)
      ensures data == if IsApplied(fault) then old(data) - Keys(keys) else old(data)
    {
      if IsApplied(fault) {
        data := data - Keys(keys);
      }
      ok := fault == NoFault;
    }

    /** `scan` is what the iterator yields, duplicates included; `scanOk` whether it
        ended without an error; `faults` what befalls each UNLINK in turn. Only
        yielded keys are ever deleted, and a run without an error deletes them all,
        across any number of full batches and a last partial one. */
    method DeleteByPattern(scan: seq<string>, scanOk: bool, faults: seq<Fault>)
        returns (ok: bool, ghost removed: set<string>)
      modifies this`data
      ensures data == old(data) - removed && removed <= Keys(scan)
      ensures ok ==> scanOk && removed == Keys(scan)
      ensures scanOk && (forall i | 0 <= i < |faults| :: faults[i] == NoFault) ==> ok
    {
      var scanCount := 100;
      var batch: seq<string> := [];
      var calls := 0;
      removed := {};
      for i := 0 to |scan|
        invariant |batch| < scanCount == 100
        invariant removed + Keys(batch) == Keys(scan[..i])
        invariant data == old(data) - removed
      {
        KeysOfPrefix(scan, i);
        KeysOfAppend(batch, scan[i]);
        batch := batch + [scan[i]];
        if |batch| >= scanCount {
          var fault := if calls < |faults| then faults[calls] else NoFault;
          calls := calls + 1;
          var unlinked := Unlink(batch, fault);
          if IsApplied(fault) { removed := removed + Keys(batch); }
          if !unlinked {
            return false, removed;
          }
          batch := [];
        }
      }
      assert scan[..|scan|] == scan;
      if !scanOk {
        return false, removed;
      }
      if |batch| > 0 {
        var fault := if calls < |faults| then faults[calls] else NoFault;
        var unlinked := Unlink(batch, fault);
        if IsApplied(fault) { removed := removed + Keys(batch); }
        if !unlinked {
          return false, removed;
        }
      }
      return true, removed;
    }
  }

  /** A scan that yields every key of the pattern that was there, and no other,
      leaves exactly the keys that do not match. */
  lemma CoveringScanLeavesTheRest<V>(data: map<string, Entry<V>>, scan: seq<string>, pattern: string)
    requires forall k | k in scan :: Glob(pattern, k)
    requires forall k | k in data && Glob(pattern, k) :: k in scan
    ensures data - Keys(scan) == map k | k in data && !Glob(pattern, k) :: data[k]
  {
  }

  // ------------------------------------------------------------ key spaces

  /** The three kinds of key a product cache uses. */
  datatype Key = DetailKey(id: nat) | LockKey(lockId: nat) | ListEntryKey(digest: string)

  function KeyText(k: Key): string {
    match k
    case DetailKey(id) => "product:" + Decimal(id)
    case LockKey(id) => "lock:product:" + Decimal(id)
    case ListEntryKey(digest) => "product:list:" + digest
  }

  const LIST_PATTERN := "product:list:*"

  lemma KeyPrefixes(k: Key)
    ensures "product:list:" <= KeyText(k) <==> k.ListEntryKey?
    ensures "lock:product:" <= KeyText(k) <==> k.LockKey?
    ensures "product:" <= KeyText(k) <==> !k.LockKey?
  {
    match k
    case DetailKey(id) =>
      var c := Decimal(id)[0];
      assert c in Decimal(id);
      assert KeyText(k)[8] == c && "product:list:"[8] == 'l';
    case LockKey(id) =>
      assert KeyText(k)[0] == 'l' && "product:"[0] == 'p' && "product:list:"[0] == 'p';
      assert KeyText(k)[..13] == "lock:product:";
    case ListEntryKey(digest) =>
      assert KeyText(k)[..13] == "product:list:" && "lock:product:"[0] == 'l' && KeyText(k)[0] == 'p';
      assert "product:list:"[..8] == "product:" && KeyText(k)[..8] == "product:";
  }

  /** Detail, lock and list keys never meet, whatever the ids and digests: one
      store is three independent key spaces. */
  lemma KeySpacesDisjoint(a: Key, b: Key)
    requires KeyText(a) == KeyText(b)
    ensures a == b
  {
    KeyPrefixes(a);
    KeyPrefixes(b);
    match a
    case DetailKey(id) =>
      assert KeyText(a)[8..] == Decimal(id) && KeyText(b)[8..] == Decimal(b.id);
      DecimalInjective(id, b.id);
    case LockKey(id) =>
      assert KeyText(a)[13..] == Decimal(id) && KeyText(b)[13..] == Decimal(b.lockId);
      DecimalInjective(id, b.lockId);
    case ListEntryKey(digest) =>
      assert KeyText(a)[13..] == digest && KeyText(b)[13..] == b.digest;
  }

  /** The list pattern matches the list keys and no other. */
  lemma ListPatternExact(k: Key)
    ensures Glob(LIST_PATTERN, KeyText(k)) <==> k.ListEntryKey?
  {
    KeyPrefixes(k);
    assert "product:list:" + "*" == LIST_PATTERN;
    PrefixPattern("product:list:", KeyText(k));
  }
}
