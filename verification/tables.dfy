/** Small ordered tables written as Python dict displays: a sequence of
    (key, value) entries where a later entry for a key replaces an
    earlier one. */
module Tables {
  import opened Wrappers

  /** The keys a table defines. */
  function Keys<T>(table: seq<(string, T)>): set<string>
  {
    if |table| == 0 then {} else Keys(table[..|table| - 1]) + {table[|table| - 1].0}
  }

  /** The value the table gives `key` (its last entry for `key`), or
      `default` when it has none. */
  function Lookup<T>(table: seq<(string, T)>, key: string, default: T): T
  {
    if |table| == 0 then default
    else if table[|table| - 1].0 == key then table[|table| - 1].1
    else Lookup(table[..|table| - 1], key, default)
  }

  /** A table defines exactly the keys of its entries. */
  lemma {:induction false} KeysAre<T>(table: seq<(string, T)>)
    ensures forall k :: k in Keys(table) <==> exists i :: 0 <= i < |table| && table[i].0 == k
  {
    if |table| > 0 {
      var init := table[..|table| - 1];
      KeysAre(init);
      forall k | k in Keys(table) ensures exists i :: 0 <= i < |table| && table[i].0 == k {
        if k in Keys(init) {
          var i :| 0 <= i < |init| && init[i].0 == k;
          assert table[i] == init[i];
        } else {
          assert table[|table| - 1].0 == k;
        }
      }
      forall k | exists i :: 0 <= i < |table| && table[i].0 == k ensures k in Keys(table) {
        var i :| 0 <= i < |table| && table[i].0 == k;
        if i < |init| {
          assert init[i] == table[i];
        }
      }
    }
  }

  /** An entry whose key no later entry repeats is the value of its key. */
  lemma {:induction false} LookupAt<T>(table: seq<(string, T)>, i: nat, default: T)
    requires i < |table|
    requires forall j :: i < j < |table| ==> table[j].0 != table[i].0
    ensures Lookup(table, table[i].0, default) == table[i].1
    decreases |table|
  {
    if i < |table| - 1 {
      var init := table[..|table| - 1];
      assert init[i] == table[i];
      forall j | i < j < |init| ensures init[j].0 != init[i].0 {
        assert init[j] == table[j];
      }
      LookupAt(init, i, default);
    }
  }
}
