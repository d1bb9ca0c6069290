/** The inventory table of script.js: `getInventory` reads the inventory rows
    in order into an object keyed by normalised colour name, the total of chips
    owned that `recalc` sums over that object, and the lemmas that say what the
    table holds. */
module Inventory {
  import opened Coerce
  import opened Names

  /** One inventory row as the page holds it: the colour text, the parsed
      value and owned fields, and the denomination label. */
  datatype InvRow = InvRow(name: string, value: Option<real>, denom: Option<string>, owned: Option<real>)

  /** An entry of the table: `{ value, denom, owned }`. */
  datatype Item = Item(value: real, denom: string, owned: real)

  /** The stand-in `recalc` uses for a colour the table lacks. */
  const ZeroItem := Item(0.0, "", 0.0)

  /** A JavaScript object used as a dictionary: its keys in insertion order
      (the order `Object.values` follows) and its entries. */
  datatype Table = Table(keys: seq<string>, entries: map<string, Item>)

  /** Every key occurs once in the key order, and the key order lists exactly
      the keys of the entries. */
  ghost predicate Valid(t: Table) {
    && (forall i, j :: 0 <= i < j < |t.keys| ==> t.keys[i] != t.keys[j])
    && (forall k :: k in t.entries <==> k in t.keys)
  }

  /** The key `normalize` gives a row's name, never longer than the name. */
  function KeyOf(row: InvRow): (k: string)
    ensures |k| <= |row.name|
  {
    Normalize(Some(row.name))
  }

  /** The entry a row stores: non-numeric and zero amounts become 0, a missing
      denomination becomes "". */
  function ItemOf(row: InvRow): (it: Item)
    ensures it.value == 0.0 <==> (row.value.None? || row.value.value == 0.0)
    ensures it.owned == 0.0 <==> (row.owned.None? || row.owned.value == 0.0)
    ensures row.value.Some? && row.value.value != 0.0 ==> it.value == row.value.value
    ensures row.owned.Some? && row.owned.value != 0.0 ==> it.owned == row.owned.value
    ensures row.denom.None? ==> it.denom == ""
    ensures row.denom.Some? ==> it.denom == row.denom.value
  {
    Item(NumberOr(row.value, 0.0), StringOr(row.denom, ""), NumberOr(row.owned, 0.0))
  }

  /** `map[key] = item`: a new key goes to the end of the key order, an old
      key keeps its place and takes the new entry. */
  function Put(t: Table, key: string, it: Item): (r: Table)
    ensures key in t.entries ==> r.keys == t.keys
    ensures key !in t.entries ==> r.keys == t.keys + [key]
  {
    if key in t.entries then Table(t.keys, t.entries[key := it])
    else Table(t.keys + [key], t.entries[key := it])
  }

  /** After `Put`, the key holds the new entry. */
  lemma PutSame(t: Table, key: string, it: Item)
    ensures key in Put(t, key, it).entries && Put(t, key, it).entries[key] == it
  {
  }

  /** `Put` leaves every other key as it was. */
  lemma PutOther(t: Table, key: string, it: Item, k: string)
    requires k != key && k in t.entries
    ensures k in Put(t, key, it).entries && Put(t, key, it).entries[k] == t.entries[k]
  {
  }

  lemma PutValid(t: Table, key: string, it: Item)
    requires Valid(t)
    ensures Valid(Put(t, key, it))
  {
  }

  /** The table `getInventory` builds from the rows, one row after another. */
  function TableOf(rows: seq<InvRow>): (t: Table)
    ensures "" !in t.entries
    decreases |rows|
  {
    if rows == [] then Table([], map[])
    else
      var t := TableOf(rows[..|rows| - 1]);
      var key := KeyOf(rows[|rows| - 1]);
      if key == "" then t else Put(t, key, ItemOf(rows[|rows| - 1]))
  }

  /** The table keeps its key order and its entries in step. */
  lemma {:induction false} TableOfValid(rows: seq<InvRow>)
    ensures Valid(TableOf(rows))
    decreases |rows|
  {
    if rows != [] {
      var init := rows[..|rows| - 1];
      TableOfValid(init);
      var key := KeyOf(rows[|rows| - 1]);
      if key != "" {
        PutValid(TableOf(init), key, ItemOf(rows[|rows| - 1]));
      }
    }
  }

  /** `getInventory`: the loop over the rows, skipping blank names and letting a
      later row overwrite an earlier one. */
  method GetInventory(rows: seq<InvRow>) returns (t: Table)
    ensures t == TableOf(rows)
  {
    var keys: seq<string> := [];
    var entries: map<string, Item> := map[];
    for i := 0 to |rows|
      invariant Table(keys, entries) == TableOf(rows[..i])
    {
      assert rows[..i + 1][..i] == rows[..i];
      var key := Normalize(Some(rows[i].name));
      if key != "" {
        if key !in entries {
          keys := keys + [key];
        }
        entries := entries[key := ItemOf(rows[i])];
      }
    }
    assert rows[..|rows|] == rows;
    t := Table(keys, entries);
  }

  /** Every key in the table is the normalised name of some row. */
  lemma {:induction false} KeyHasRow(rows: seq<InvRow>, k: string) returns (i: nat)
    requires k in TableOf(rows).entries
    ensures i < |rows| && KeyOf(rows[i]) == k
    decreases |rows|
  {
    if rows == [] {
      assert false;
    }
    var init, last := rows[..|rows| - 1], rows[|rows| - 1];
    var key := KeyOf(last);
    if key != "" && key == k {
      i := |rows| - 1;
    } else {
      assert TableOf(rows).entries
          == if key == "" then TableOf(init).entries else TableOf(init).entries[key := ItemOf(last)];
      i := KeyHasRow(init, k);
      assert init[i] == rows[i];
    }
  }

  /** Every row whose normalised name is not blank has its key in the table. */
  lemma {:induction false} RowKeyPresent(rows: seq<InvRow>, i: nat)
    requires i < |rows| && KeyOf(rows[i]) != ""
    ensures KeyOf(rows[i]) in TableOf(rows).entries
    decreases |rows|
  {
    var init := rows[..|rows| - 1];
    var last := rows[|rows| - 1];
    var k := KeyOf(rows[i]);
    if i < |init| {
      assert init[i] == rows[i];
      RowKeyPresent(init, i);
      if KeyOf(last) != "" && KeyOf(last) != k {
        PutOther(TableOf(init), KeyOf(last), ItemOf(last), k);
      }
    }
    if KeyOf(last) == k {
      PutSame(TableOf(init), k, ItemOf(last));
    }
  }

  /** A key is in the table exactly when it is the non-blank normalised name of
      some row. */
  lemma KeyPresent(rows: seq<InvRow>, k: string)
    ensures k in TableOf(rows).entries <==> k != "" && exists i :: 0 <= i < |rows| && KeyOf(rows[i]) == k
  {
    if k in TableOf(rows).entries {
      var i := KeyHasRow(rows, k);
    }
    if k != "" && exists i :: 0 <= i < |rows| && KeyOf(rows[i]) == k {
      var i :| 0 <= i < |rows| && KeyOf(rows[i]) == k;
      RowKeyPresent(rows, i);
    }
  }

  /** Last write wins: the entry of a key is the item of the last row with
      that key. */
  lemma {:induction false} LastRowWins(rows: seq<InvRow>, i: nat)
    requires i < |rows| && KeyOf(rows[i]) != ""
    requires forall j :: i < j < |rows| ==> KeyOf(rows[j]) != KeyOf(rows[i])
    ensures KeyOf(rows[i]) in TableOf(rows).entries
    ensures TableOf(rows).entries[KeyOf(rows[i])] == ItemOf(rows[i])
    decreases |rows|
  {
    var init := rows[..|rows| - 1];
    var last := rows[|rows| - 1];
    var k := KeyOf(rows[i]);
    if i < |rows| - 1 {
      assert init[i] == rows[i];
      forall j | i < j < |init| ensures KeyOf(init[j]) != k {
        assert init[j] == rows[j];
      }
      LastRowWins(init, i);
      PutOther(TableOf(init), KeyOf(last), ItemOf(last), k);
    } else {
      PutSame(TableOf(init), k, ItemOf(last));
    }
  }

  /** The sum of `owned` over the entries, in key order. */
  function SumOwned(keys: seq<string>, entries: map<string, Item>): real
    decreases |keys|
  {
    if keys == [] then 0.0
    else
      var k := keys[|keys| - 1];
      SumOwned(keys[..|keys| - 1], entries) + (if k in entries then entries[k].owned else 0.0)
  }

  /** The chips owned, as `recalc` adds them up from `Object.values(inv)`. */
  function TotalOwned(t: Table): real {
    SumOwned(t.keys, t.entries)
  }

  /** Changing the entry of one key changes the sum by the difference, once. */
  lemma {:induction false} SumOwnedUpdate(keys: seq<string>, entries: map<string, Item>, k: string, it: Item)
    requires forall i, j :: 0 <= i < j < |keys| ==> keys[i] != keys[j]
    requires forall x :: x in keys ==> x in entries
    ensures SumOwned(keys, entries[k := it]) ==
            SumOwned(keys, entries) + (if k in keys then it.owned - entries[k].owned else 0.0)
    decreases |keys|
  {
    if keys != [] {
      var init := keys[..|keys| - 1];
      var last := keys[|keys| - 1];
      SumOwnedUpdate(init, entries, k, it);
      if k in init {
        var j :| 0 <= j < |init| && init[j] == k;
        assert keys[j] == k;
      }
    }
  }

  /** The effect of one more inventory row on the total owned: a blank name
      changes nothing, a new key adds its owned count, and a repeated key
      replaces the earlier count, so a duplicate is counted once. */
  lemma TotalOwnedAppend(rows: seq<InvRow>, r: InvRow)
    ensures var t := TableOf(rows);
            TotalOwned(TableOf(rows + [r])) ==
              if KeyOf(r) == "" then TotalOwned(t)
              else if KeyOf(r) in t.entries then TotalOwned(t) - t.entries[KeyOf(r)].owned + ItemOf(r).owned
              else TotalOwned(t) + ItemOf(r).owned
  {
    var t := TableOf(rows);
    assert (rows + [r])[..|rows|] == rows;
    var k := KeyOf(r);
    if k != "" {
      TableOfValid(rows);
      SumOwnedUpdate(t.keys, t.entries, k, ItemOf(r));
      if k !in t.entries {
        assert (t.keys + [k])[..|t.keys|] == t.keys;
      }
    }
  }
}
