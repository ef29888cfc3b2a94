/**
 * Value model of a `customTable`: an unordered map from string keys to
 * lists of strings, with the semantics of `std::unordered_map::insert`
 * (never overwrites) and of `operator[]` (creates an empty entry on a miss).
 */
module TableModel {

  type Table = map<string, seq<string>>

  /** `insert(key, value)`: adds `key ↦ value` only when `key` is absent. */
  function Insert(m: Table, key: string, value: seq<string>): (r: Table)
    ensures r.Keys == m.Keys + {key}
    ensures key in m ==> r[key] == m[key]
    ensures key !in m ==> r[key] == value
    ensures forall k :: k in m && k != key ==> r[k] == m[k]
  {
    if key in m then m else m[key := value]
  }

  /** `find(name)`: whether `name` has an entry. */
  predicate Find(m: Table, name: string) {
    name in m
  }

  /**
   * `get(key)`: the list stored under `key`, and the table afterwards; on a
   * miss an empty list is stored first.
   */
  function Get(m: Table, key: string): (r: (seq<string>, Table))
    ensures r.1.Keys == m.Keys + {key}
    ensures key in r.1 && r.0 == r.1[key]
    ensures key in m ==> r.1 == m
    ensures key !in m ==> r.0 == []
    ensures forall k :: k in m ==> r.1[k] == m[k]
  {
    if key in m then (m[key], m) else ([], m[key := []])
  }

  /** After `get(key)`, `find(key)` holds. */
  lemma GetThenFind(m: Table, key: string)
    ensures Find(Get(m, key).1, key)
  {
  }

  /** A second `get` of the same key changes nothing and returns the same list. */
  lemma GetIdempotent(m: Table, key: string)
    ensures Get(Get(m, key).1, key) == Get(m, key)
  {
  }

  /** A second `insert` of a key never replaces the first one's value. */
  lemma InsertKeepsFirst(m: Table, key: string, v: seq<string>, w: seq<string>)
    ensures Insert(Insert(m, key, v), key, w) == Insert(m, key, v)
  {
  }

  /** `get` after `insert` returns the value that won: the old one if any, else the inserted one. */
  lemma GetAfterInsert(m: Table, key: string, v: seq<string>)
    ensures Get(Insert(m, key, v), key) == (if key in m then m[key] else v, Insert(m, key, v))
  {
  }

  /** An `insert` after a `get` of a missing key is ignored: the entry stays empty. */
  lemma InsertAfterGetMiss(m: Table, key: string, v: seq<string>)
    requires key !in m
    ensures Insert(Get(m, key).1, key, v)[key] == []
  {
  }

  /** `find` after `insert` holds, whatever was there before. */
  lemma InsertThenFind(m: Table, key: string, v: seq<string>)
    ensures Find(Insert(m, key, v), key)
  {
  }
}
