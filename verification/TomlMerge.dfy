/** Saving a configuration into an existing file: the recursive merge of TOML tables
    (config/src/config.rs, `merge_config`). */
module TomlMerge {
  import opened Wrappers

  /** A TOML item. An inline table holds keys, but is a value to the merge. */
  datatype Item = Value(text: string) | Table(isInline: bool, entries: map<string, Item>)

  /** What the configuration types know: a plain field, or a structure of named fields. */
  datatype Schema = Leaf | Struct(fields: map<string, Schema>)

  /** A key path, outermost key first. */
  type Path = seq<string>

  predicate IsTable(i: Item) { i.Table? && !i.isInline }

  function SubTable(known: Option<Item>, key: string): (t: Option<Item>) {
    if known.Some? && known.value.Table? && key in known.value.entries && IsTable(known.value.entries[key])
    then Some(known.value.entries[key])
    else None
  }

  /** The keys the old configuration had and the new one has not. */
  function Dropped(wanted: Item, known: Option<Item>): set<string> {
    if known.Some? && known.value.Table? && wanted.Table? then known.value.entries.Keys - wanted.entries.Keys else {}
  }

  function Merge(current: Item, wanted: Item, known: Option<Item>): (merged: Item)
    requires IsTable(current) && IsTable(wanted)
    ensures IsTable(merged)
    decreases wanted
  {
    Table(false,
          map key | key in (current.entries.Keys - Dropped(wanted, known)) + wanted.entries.Keys ::
            if key !in wanted.entries then current.entries[key]
            else if key in current.entries && IsTable(current.entries[key]) && IsTable(wanted.entries[key])
            then Merge(current.entries[key], wanted.entries[key], SubTable(known, key))
            else wanted.entries[key])
  }

  /** The merged table, key by key. */
  lemma MergeAt(current: Item, wanted: Item, known: Option<Item>, key: string)
    requires IsTable(current) && IsTable(wanted)
    ensures var m := Merge(current, wanted, known).entries;
      && (key in m <==> key in wanted.entries || (key in current.entries && key !in Dropped(wanted, known)))
      && (key in m && key !in wanted.entries ==> m[key] == current.entries[key])
      && (key in wanted.entries ==> m[key] ==
                                    (if key in current.entries && IsTable(current.entries[key])
                                        && IsTable(wanted.entries[key])
                                     then Merge(current.entries[key], wanted.entries[key], SubTable(known, key))
                                     else wanted.entries[key]))
  {
  }

  // ---------- The merge as it is carried out ----------

  method RemoveKeys(table: map<string, Item>, keys: set<string>) returns (entries: map<string, Item>)
    ensures entries == table - keys
  {
    entries := table;
    var left := keys;
    while left != {}
      invariant left <= keys && entries == table - (keys - left)
      decreases |left|
    {
      var key :| key in left;
      entries := entries - {key};
      left := left - {key};
    }
  }

  method Update(current: Item, wanted: Item, known: Option<Item>) returns (merged: Item)
    requires IsTable(current) && IsTable(wanted)
    requires known.Some? ==> IsTable(known.value)
    ensures merged == Merge(current, wanted, known)
    decreases wanted, 1
  {
    hide Merge, SubTable;
    ghost var target := Merge(current, wanted, known).entries;
    var entries := current.entries;
    if known.Some? {
      entries := RemoveKeys(entries, known.value.entries.Keys - wanted.entries.Keys);
    }
    assert entries == current.entries - Dropped(wanted, known);
    ghost var start := entries;
    hide Dropped;
    var left := wanted.entries.Keys;
    while left != {}
      invariant left <= wanted.entries.Keys
      invariant forall key | key in left || key !in wanted.entries ::
        (key in entries <==> key in start) && (key in start ==> entries[key] == start[key])
      invariant forall key | key in wanted.entries && key !in left ::
                key in entries && key in target && entries[key] == target[key]
      decreases |left|
    {
      var key :| key in left;
      entries := UpdateKey(entries, current, wanted, known, key);
      left := left - {key};
    }
    forall key ensures (key in entries <==> key in target) && (key in target ==> entries[key] == target[key]) {
      MergeAt(current, wanted, known, key);
    }
    merged := Table(false, entries);
  }

  /** One key of the new configuration, put into the table that is being updated. */
  method UpdateKey(table: map<string, Item>, current: Item, wanted: Item, known: Option<Item>, key: string)
    returns (entries: map<string, Item>)
    requires IsTable(current) && IsTable(wanted) && key in wanted.entries
    requires key in table <==> key in current.entries && key !in Dropped(wanted, known)
    requires key in table ==> table[key] == current.entries[key]
    ensures key in Merge(current, wanted, known).entries
    ensures entries == table[key := Merge(current, wanted, known).entries[key]]
    decreases wanted, 0
  {
    hide Merge;
    MergeAt(current, wanted, known, key);
    if key in table && IsTable(table[key]) && IsTable(wanted.entries[key]) {
      var sub := Update(table[key], wanted.entries[key], SubTable(known, key));
      entries := table[key := sub];
    } else {
      entries := table[key := wanted.entries[key]];
    }
  }
}
