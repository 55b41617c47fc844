/**
 Overwrites of credential data. `setPlainData` resolves inheritance once, in place, with a memo of resolved
 types; `get` merges along the ancestors again at every read; `applyOverwrite` fills empty fields.
 */
module CredentialsOverwrites {
  import opened Wrappers
  import opened CredentialTypes

  /** A JSON value: null, a string, or anything else. */
  datatype Value = Null | Text(text: string) | Json(json: string)

  type Fields = map<string, Value>

  type Table = map<TypeName, Fields>

  /** The recognised types; a base type declares no `extends`. */
  type Declared = map<TypeName, Option<seq<TypeName>>>

  function Plain(types: Declared): Hierarchy {
    map t | t in types :: types[t].GetOr([])
  }

  ghost predicate Acyclic(types: Declared, rank: map<TypeName, nat>) { Ranked(Plain(types), rank) }

  function Entry(table: Table, t: TypeName): Option<Fields> {
    if t in table then Some(table[t]) else None
  }

  /** `Object.assign(fields, more)`, where an undefined `more` adds nothing. */
  function Assign(fields: Fields, more: Option<Fields>): Fields {
    if more.Some? then fields + more.value else fields
  }

  // ---------------------------------------------------------------- setPlainData, step by step

  /** `getOverwrites`: its result and the memo it leaves. */
  ghost function GetOverwrites(types: Declared, rank: map<TypeName, nat>, table: Table, resolved: seq<TypeName>,
                               t: TypeName)
    : (Option<Fields>, seq<TypeName>)
    requires Acyclic(types, rank)
    decreases Rank(rank, t), 1, 0
  {
    if t in resolved then (Entry(table, t), resolved)
    else if t !in types then (None, resolved)
    else if types[t].None? then (Entry(table, t), resolved + [t])
    else
      assert Below(rank, types[t].value, Rank(rank, t)) by { assert Plain(types)[t] == types[t].value; }
      var (inherited, resolved1) := Inherit(types, rank, table, resolved, types[t].value, map[], Rank(rank, t));
      (Some(Assign(inherited, Entry(table, t))), resolved1 + [t])
  }

  /** The loop over the parents: later parents win. */
  ghost function Inherit(types: Declared, rank: map<TypeName, nat>, table: Table, resolved: seq<TypeName>,
                         parents: seq<TypeName>, fields: Fields, r: nat): (Fields, seq<TypeName>)
    requires Acyclic(types, rank) && Below(rank, parents, r)
    decreases r, 0, |parents|
  {
    if parents == [] then (fields, resolved)
    else
      var (more, resolved1) := GetOverwrites(types, rank, table, resolved, parents[0]);
      Inherit(types, rank, table, resolved1, parents[1..], Assign(fields, more), r)
  }

  /** The loop of `setPlainData` over the keys still in `order`. */
  ghost function Store(types: Declared, rank: map<TypeName, nat>, table: Table, resolved: seq<TypeName>,
                       order: seq<TypeName>)
    : (Table, seq<TypeName>)
    requires Acyclic(types, rank)
    decreases |order|
  {
    if order == [] then (table, resolved)
    else
      var (overwrites, resolved1) := GetOverwrites(types, rank, table, resolved, order[0]);
      Store(types, rank, Stored(table, order[0], overwrites), resolved1, order[1..])
  }

  function Stored(table: Table, t: TypeName, overwrites: Option<Fields>): Table {
    if overwrites.Some? && |overwrites.value| > 0 then table[t := overwrites.value] else table
  }

  /** The table after `setPlainData(raw)`, when the keys of `raw` are visited in `order`. */
  ghost function SetPlainData(types: Declared, rank: map<TypeName, nat>, raw: Table, order: seq<TypeName>): Table
    requires Acyclic(types, rank)
  {
    Store(types, rank, raw, [], order).0
  }

  // ---------------------------------------------------------------- get and applyOverwrite

  function Reverse(s: seq<TypeName>): seq<TypeName> {
    if s == [] then [] else Reverse(s[1..]) + [s[0]]
  }

  /** `map`, `filter` and `reduce` of `get`: the entries of `list` assigned one over the other. */
  function Merge(table: Table, list: seq<TypeName>, fields: Fields): Fields
    decreases |list|
  {
    if list == [] then fields else Merge(table, list[1..], Assign(fields, Entry(table, list[0])))
  }

  ghost function Get(types: Declared, rank: map<TypeName, nat>, table: Table, name: TypeName): Fields
    requires Acyclic(types, rank)
  {
    Merge(table, Reverse([name] + Parents(Plain(types), rank, name)), map[])
  }

  function Field(fields: Fields, key: string): Option<Value> {
    if key in fields then Some(fields[key]) else None
  }

  /** Null, undefined or ''. */
  predicate IsEmpty(value: Option<Value>) {
    value.None? || value.value == Null || value.value == Text("")
  }

  /** `data` with the fields of `overwrites` put in where `data` is empty. */
  function Filled(data: Fields, overwrites: Fields): (filled: Fields)
  {
    data + map key | key in overwrites && IsEmpty(Field(data, key)) :: overwrites[key]
  }

  // ---------------------------------------------------------------- the value a read must give

  /** The field of the first type in `list` that defines `key`. */
  ghost function First(table: Table, list: seq<TypeName>, key: string): Option<Value>
    decreases |list|
  {
    if list == [] then None
    else if list[0] in table && key in table[list[0]] then Some(table[list[0]][key])
    else First(table, list[1..], key)
  }

  /** The field of the nearest type, `t` itself or an ancestor, that defines `key`. */
  ghost function Nearest(types: Declared, rank: map<TypeName, nat>, table: Table, t: TypeName,
                         key: string): Option<Value>
    requires Acyclic(types, rank)
  {
    First(table, [t] + Chain(Plain(types), rank, t), key)
  }

  lemma {:induction false} MergeAppend(table: Table, list: seq<TypeName>, last: TypeName, fields: Fields)
    ensures Merge(table, list + [last], fields) == Assign(Merge(table, list, fields), Entry(table, last))
    decreases |list|
  {
    if list == [] {
      assert [last][1..] == [];
      assert list + [last] == [last];
    } else {
      assert (list + [last])[1..] == list[1..] + [last];
      MergeAppend(table, list[1..], last, Assign(fields, Entry(table, list[0])));
    }
  }

  /** Merging the reversed list leaves the field of the first type that defines it. */
  lemma {:induction false} MergeReversed(table: Table, list: seq<TypeName>, key: string)
    ensures Field(Merge(table, Reverse(list), map[]), key) == First(table, list, key)
    decreases |list|
  {
    if list != [] {
      MergeReversed(table, list[1..], key);
      MergeAppend(table, Reverse(list[1..]), list[0], map[]);
    }
  }

  lemma {:induction false} FirstAppend(table: Table, a: seq<TypeName>, b: seq<TypeName>, key: string)
    ensures First(table, a + b, key) ==
      if First(table, a, key).Some? then First(table, a, key) else First(table, b, key)
    decreases |a|
  {
    if a == [] {
      assert a + b == b;
    } else {
      assert (a + b)[1..] == a[1..] + b;
      FirstAppend(table, a[1..], b, key);
    }
  }

  lemma {:induction false} FirstNone(table: Table, list: seq<TypeName>, key: string)
    ensures First(table, list, key).None? <==> forall t :: t in list && t in table ==> key !in table[t]
    decreases |list|
  {
    if list != [] { FirstNone(table, list[1..], key); }
  }

  /** On a single-parent hierarchy `get` gives the nearest definition in the table, for any table. */
  lemma GetIsNearest(types: Declared, rank: map<TypeName, nat>, table: Table, t: TypeName, key: string)
    requires Acyclic(types, rank) && SingleParent(Plain(types))
    ensures Field(Get(types, rank, table, t), key) == Nearest(types, rank, table, t, key)
  {
    var h := Plain(types);
    var c, ps := Chain(h, rank, t), Parents(h, rank, t);
    NearestFirst(h, rank, t);
    var repeats := ps[|c|..];
    assert [t] + ps == ([t] + c) + repeats;
    MergeReversed(table, [t] + ps, key);
    FirstAppend(table, [t] + c, repeats, key);
    FirstNone(table, [t] + c, key);
    FirstNone(table, repeats, key);
    assert forall a :: a in repeats ==> a in ps;
  }

  // ---------------------------------------------------------------- raw <= stored <= inherited

  /** `table` holds at least the raw fields and at most the inherited ones. */
  ghost predicate Sandwich(types: Declared, rank: map<TypeName, nat>, raw: Table, table: Table)
    requires Acyclic(types, rank)
  {
    && table.Keys == raw.Keys
    && forall t :: t in raw ==> Between(types, rank, raw, t, table[t])
  }

  ghost predicate Between(types: Declared, rank: map<TypeName, nat>, raw: Table, t: TypeName, fields: Fields)
    requires Acyclic(types, rank)
  {
    && (t in raw ==> raw[t].Keys <= fields.Keys)
    && forall key :: key in fields ==> Some(fields[key]) == Nearest(types, rank, raw, t, key)
  }

  lemma NearestAtParent(types: Declared, rank: map<TypeName, nat>, raw: Table, t: TypeName, p: TypeName, key: string)
    requires Acyclic(types, rank) && t in types && types[t] == Some([p]) && !(t in raw && key in raw[t])
    ensures Nearest(types, rank, raw, t, key) == Nearest(types, rank, raw, p, key)
  {
    var h := Plain(types);
    assert Extends(h, t) == [p];
    var c := [p] + Chain(h, rank, p);
    assert Chain(h, rank, t) == c && ([t] + c)[1..] == c;
  }

  /** What `getOverwrites` returns lies between the raw and the inherited fields, whatever the memo holds. */
  lemma {:induction false} GetOverwritesBetween(types: Declared, rank: map<TypeName, nat>, raw: Table, table: Table,
                                                resolved: seq<TypeName>, t: TypeName)
    requires Acyclic(types, rank) && SingleParent(Plain(types)) && Sandwich(types, rank, raw, table)
    ensures var o := GetOverwrites(types, rank, table, resolved, t).0;
      o.Some? ==> Between(types, rank, raw, t, o.value)
    decreases Rank(rank, t)
  {
    if t !in resolved && t in types && types[t].Some? {
      var parents := types[t].value;
      assert t in Plain(types) && Plain(types)[t] == parents && |parents| <= 1;
      assert Below(rank, parents, Rank(rank, t));
      if |parents| == 0 {
        assert parents == [];
        assert Inherit(types, rank, table, resolved, parents, map[], Rank(rank, t)).0 == map[];
      } else {
        var p := parents[0];
        assert parents == [p];
        assert parents[1..] == [];
        GetOverwritesBetween(types, rank, raw, table, resolved, p);
        var inherited := Assign(map[], GetOverwrites(types, rank, table, resolved, p).0);
        assert Inherit(types, rank, table, resolved, parents, map[], Rank(rank, t)).0 == inherited;
        forall key | key in inherited && !(t in table && key in table[t])
          ensures Some(inherited[key]) == Nearest(types, rank, raw, t, key)
        {
          NearestAtParent(types, rank, raw, t, p, key);
        }
      }
    }
  }

  lemma {:induction false} StoreSandwich(types: Declared, rank: map<TypeName, nat>, raw: Table, table: Table,
                                         resolved: seq<TypeName>, order: seq<TypeName>)
    requires Acyclic(types, rank) && SingleParent(Plain(types)) && Sandwich(types, rank, raw, table)
    requires forall i :: 0 <= i < |order| ==> order[i] in raw
    ensures Sandwich(types, rank, raw, Store(types, rank, table, resolved, order).0)
    decreases |order|
  {
    if order != [] {
      GetOverwritesBetween(types, rank, raw, table, resolved, order[0]);
      var (overwrites, resolved1) := GetOverwrites(types, rank, table, resolved, order[0]);
      StoreSandwich(types, rank, raw, Stored(table, order[0], overwrites), resolved1, order[1..]);
    }
  }

  lemma RawSandwich(types: Declared, rank: map<TypeName, nat>, raw: Table)
    requires Acyclic(types, rank)
    ensures Sandwich(types, rank, raw, raw)
  {
    forall t, key | t in raw && key in raw[t] ensures Some(raw[t][key]) == Nearest(types, rank, raw, t, key) {
      assert ([t] + Chain(Plain(types), rank, t))[0] == t;
    }
  }

  lemma {:induction false} SandwichNearest(types: Declared, rank: map<TypeName, nat>, raw: Table, table: Table,
                                           t: TypeName, key: string)
    requires Acyclic(types, rank) && SingleParent(Plain(types)) && Sandwich(types, rank, raw, table)
    ensures Nearest(types, rank, table, t, key) == Nearest(types, rank, raw, t, key)
    decreases Rank(rank, t)
  {
    var h := Plain(types);
    if t in table && key in table[t] {
      assert ([t] + Chain(h, rank, t))[0] == t;
    } else if Extends(h, t) == [] {
      assert [t] + Chain(h, rank, t) == [t];
      FirstNone(table, [t], key);
      FirstNone(raw, [t], key);
    } else {
      var p := Extends(h, t)[0];
      assert t in h && |h[t]| <= 1 && types[t].Some?;
      assert types[t].value == [p];
      SandwichNearest(types, rank, raw, table, p, key);
      NearestAtParent(types, rank, raw, t, p, key);
      NearestAtParent(types, rank, table, t, p, key);
    }
  }

  /**
   After `setPlainData(raw)`, on a single-parent hierarchy and for every key order, a read gives the field of
   the nearest type that defines it in `raw`: neither the incomplete memo nor rewriting the table while going
   through it shows.
   */
  lemma GetAfterSetPlainData(types: Declared, rank: map<TypeName, nat>, raw: Table, order: seq<TypeName>, t: TypeName,
                             key: string)
    requires Acyclic(types, rank) && SingleParent(Plain(types))
    requires forall i :: 0 <= i < |order| ==> order[i] in raw
    ensures Field(Get(types, rank, SetPlainData(types, rank, raw, order), t), key) == Nearest(types, rank, raw, t, key)
  {
    RawSandwich(types, rank, raw);
    StoreSandwich(types, rank, raw, raw, [], order);
    var table := SetPlainData(types, rank, raw, order);
    GetIsNearest(types, rank, table, t, key);
    SandwichNearest(types, rank, raw, table, t, key);
  }

  /** Saving the rewritten table and loading it again changes no result of `applyOverwrite`. */
  lemma ReloadIsStable(types: Declared, rank: map<TypeName, nat>, raw: Table, order: seq<TypeName>,
                       again: seq<TypeName>,
                       t: TypeName, data: Fields)
    requires Acyclic(types, rank) && SingleParent(Plain(types))
    requires forall i :: 0 <= i < |order| ==> order[i] in raw
    requires forall i :: 0 <= i < |again| ==> again[i] in raw
    ensures var saved := SetPlainData(types, rank, raw, order);
      var loaded := SetPlainData(types, rank, saved, again);
      Filled(data, Get(types, rank, loaded, t)) == Filled(data, Get(types, rank, saved, t))
  {
    RawSandwich(types, rank, raw);
    StoreSandwich(types, rank, raw, raw, [], order);
    var saved := SetPlainData(types, rank, raw, order);
    var loaded := SetPlainData(types, rank, saved, again);
    var a, b := Get(types, rank, saved, t), Get(types, rank, loaded, t);
    forall key ensures Field(a, key) == Field(b, key) {
      GetAfterSetPlainData(types, rank, saved, again, t, key);
      GetIsNearest(types, rank, saved, t, key);
    }
    SameFields(a, b);
  }

  lemma SameFields(a: Fields, b: Fields)
    requires forall key :: Field(a, key) == Field(b, key)
    ensures a == b
  {
    forall key ensures key in a <==> key in b { assert Field(a, key) == Field(b, key); }
    forall key | key in a ensures a[key] == b[key] { assert Field(a, key) == Field(b, key); }
  }

  /** `applyOverwrite` changes empty fields only, gives every one of them its overwrite, and is idempotent. */
  lemma FilledOnlyEmpty(data: Fields, overwrites: Fields, key: string)
    ensures var filled := Filled(data, overwrites);
      && Field(filled, key) ==
           (if key in overwrites && (key !in data || data[key] == Null || data[key] == Text("")) then
              Some(overwrites[key])
            else if key in data then Some(data[key]) else None)
      && Filled(filled, overwrites) == filled
  {
    var filled := Filled(data, overwrites);
    assert forall k :: k in overwrites && IsEmpty(Field(filled, k)) ==> k in filled && filled[k] == overwrites[k];
  }

  // ---------------------------------------------------------------- the object

  /** A field in the loop of `applyOverwrite`, with `keys` still to be visited. */
  ghost function FieldDuring(data: Fields, overwrites: Fields, keys: set<string>, key: string): Option<Value> {
    if key in overwrites && key !in keys && IsEmpty(Field(data, key)) then Some(overwrites[key]) else Field(data, key)
  }

  class CredentialsOverwrites {
    const types: Declared
    ghost const rank: map<TypeName, nat>
    var overwriteData: Table
    var resolvedTypes: seq<TypeName>

    constructor (types: Declared, ghost rank: map<TypeName, nat>)
      requires Acyclic(types, rank)
      ensures this.types == types && this.rank == rank
      ensures overwriteData == map[] && resolvedTypes == []
    {
      this.types, this.rank := types, rank;
      overwriteData, resolvedTypes := map[], [];
    }

    method GetOverwritesOf(t: TypeName) returns (overwrites: Option<Fields>)
      requires Acyclic(types, rank)
      modifies this`resolvedTypes
      ensures (overwrites, resolvedTypes) == GetOverwrites(types, rank, overwriteData, old(resolvedTypes), t)
      decreases Rank(rank, t)
    {
      if t in resolvedTypes { return Entry(overwriteData, t); }
      if t !in types { return None; }
      if types[t].None? {
        resolvedTypes := resolvedTypes + [t];
        return Entry(overwriteData, t);
      }
      var parents := types[t].value;
      assert Plain(types)[t] == parents;
      ghost var r := Rank(rank, t);
      var fields: Fields := map[];
      for i := 0 to |parents|
        invariant Below(rank, parents, r)
        invariant Inherit(types, rank, overwriteData, old(resolvedTypes), parents, map[], r)
               == Inherit(types, rank, overwriteData, resolvedTypes, parents[i..], fields, r)
      {
        var more := GetOverwritesOf(parents[i]);
        fields := Assign(fields, more);
        assert parents[i..][1..] == parents[i + 1..];
      }
      fields := Assign(fields, Entry(overwriteData, t));
      resolvedTypes := resolvedTypes + [t];
      overwrites := Some(fields);
    }

    /** `order` is the order in which the keys of `data` are visited. */
    method SetPlain(data: Table, order: seq<TypeName>)
      requires Acyclic(types, rank)
      modifies this
      ensures overwriteData == SetPlainData(types, rank, data, order)
    {
      resolvedTypes := [];
      overwriteData := data;
      for i := 0 to |order|
        invariant Store(types, rank, data, [], order) == Store(types, rank, overwriteData, resolvedTypes, order[i..])
      {
        var overwrites := GetOverwritesOf(order[i]);
        assert order[i..][1..] == order[i + 1..];
        if overwrites.Some? && |overwrites.value| > 0 {
          overwriteData := overwriteData[order[i] := overwrites.value];
        }
      }
    }

    method GetFor(name: TypeName) returns (fields: Fields)
      requires Acyclic(types, rank)
      ensures fields == Get(types, rank, overwriteData, name)
    {
      var parentTypes := GetParentTypes(Plain(types), rank, name);
      fields := Merge(overwriteData, Reverse([name] + parentTypes), map[]);
    }

    /** The keys of the overwrites are visited in no particular order. */
    method ApplyOverwrite(t: TypeName, data: Fields) returns (returnData: Fields)
      requires Acyclic(types, rank)
      ensures returnData == Filled(data, Get(types, rank, overwriteData, t))
    {
      var overwrites := GetFor(t);
      returnData := data;
      var keys := overwrites.Keys;
      while keys != {}
        invariant keys <= overwrites.Keys
        invariant forall key :: Field(returnData, key) == FieldDuring(data, overwrites, keys, key)
        decreases keys
      {
        var key :| key in keys;
        ghost var before, todo := returnData, keys;
        keys := keys - {key};
        if IsEmpty(Field(returnData, key)) {
          returnData := returnData[key := overwrites[key]];
        }
        forall k ensures Field(returnData, k) == FieldDuring(data, overwrites, keys, k) {
          assert Field(before, k) == FieldDuring(data, overwrites, todo, k);
        }
      }
      forall key ensures Field(returnData, key) == Field(Filled(data, overwrites), key) {
        FilledOnlyEmpty(data, overwrites, key);
      }
      SameFields(returnData, Filled(data, overwrites));
    }
  }
}
