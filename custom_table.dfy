/**
 * `customTable` as an object whose map field changes in place. The mutex
 * only serialises calls and is not modelled. `get` hands back a pointer into
 * the map; here it hands back the list value.
 */
module ThreadClass {
  import T = TableModel

  class CustomTable {
    var theTable: map<string, seq<string>>

    /** A new table is empty. */
    constructor ()
      ensures theTable == map[]
    {
      theTable := map[];
    }

    /** `insert`: keeps an existing entry rather than overwriting it. */
    method Insert(key: string, value: seq<string>)
      modifies this
      ensures theTable == T.Insert(old(theTable), key, value)
    {
      if key !in theTable {
        theTable := theTable[key := value];
      }
    }

    /** `find`: a read-only membership query. */
    method Find(name: string) returns (found: bool)
      ensures found == T.Find(theTable, name)
    {
      found := name in theTable;
    }

    /** `get`: `operator[]`, which stores an empty list on a miss. */
    method Get(key: string) returns (list: seq<string>)
      modifies this
      ensures (list, theTable) == T.Get(old(theTable), key)
    {
      if key !in theTable {
        theTable := theTable[key := []];
      }
      list := theTable[key];
    }
  }
}
