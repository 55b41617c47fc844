/**
 Overwrites of credential types that extend several others, or types that are not recognised: on exactly which
 hierarchies `setPlainData` never changes what a read returns.
 */
module SeveralParents {
  import opened Wrappers
  import opened CredentialTypes
  import opened CredentialsOverwrites

  /** `setPlainData` shows in no read. */
  ghost predicate ReadsKept(types: Declared, rank: map<TypeName, nat>, raw: Table, order: seq<TypeName>)
    requires Acyclic(types, rank)
  {
    var table := SetPlainData(types, rank, raw, order);
    forall t, key :: Field(Get(types, rank, table, t), key) == Field(Get(types, rank, raw, t), key)
  }

  /** `order` visits every key of `raw` exactly once. */
  ghost predicate IsKeyOrder(raw: Table, order: seq<TypeName>) {
    (forall t :: t in order <==> t in raw) && Distinct(order)
  }

  /** So it is for all raw data and all orders of its keys. */
  ghost predicate AlwaysKept(types: Declared, rank: map<TypeName, nat>)
    requires Acyclic(types, rank)
  {
    forall raw: Table, order: seq<TypeName> :: IsKeyOrder(raw, order) ==> ReadsKept(types, rank, raw, order)
  }

  /** No type of the list is recognised. */
  predicate Unknown(types: Declared, list: seq<TypeName>) {
    forall i :: 0 <= i < |list| ==> list[i] !in types
  }

  /** The parents of a recognised type; an unrecognised type has none. */
  function ParentsOf(types: Declared, t: TypeName): seq<TypeName> {
    if t in types then types[t].GetOr([]) else []
  }

  /**
   A type with several parents inherits only from the first, if at all: the others are not recognised, and
   neither are the parents of the first.
   */
  predicate Tame(types: Declared, t: TypeName) {
    var parents := ParentsOf(types, t);
    |parents| >= 2 ==> Unknown(types, parents[1..]) && Unknown(types, ParentsOf(types, parents[0]))
  }

  ghost predicate AllTame(types: Declared) {
    forall t :: t in types ==> Tame(types, t)
  }

  // ---------------------------------------------------------------- reads

  /** The field that a read of `t` gives. */
  ghost function Read(types: Declared, rank: map<TypeName, nat>, table: Table, t: TypeName, key: string): Option<Value>
    requires Acyclic(types, rank)
  {
    First(table, [t] + Parents(Plain(types), rank, t), key)
  }

  lemma GetReads(types: Declared, rank: map<TypeName, nat>, table: Table, t: TypeName, key: string)
    requires Acyclic(types, rank)
    ensures Field(Get(types, rank, table, t), key) == Read(types, rank, table, t, key)
  {
    MergeReversed(table, [t] + Parents(Plain(types), rank, t), key);
  }

  predicate Defines(table: Table, t: TypeName, key: string) { t in table && key in table[t] }

  lemma ReadsOwn(types: Declared, rank: map<TypeName, nat>, table: Table, t: TypeName, key: string)
    requires Acyclic(types, rank)
    ensures Defines(table, t, key) ==> Read(types, rank, table, t, key) == Some(table[t][key])
    ensures !Defines(table, t, key) ==>
      Read(types, rank, table, t, key) == First(table, Parents(Plain(types), rank, t), key)
  {
    assert ([t] + Parents(Plain(types), rank, t))[1..] == Parents(Plain(types), rank, t);
  }

  /** A read of a type that does not define the field takes that of its first or second parent, if defined. */
  lemma ReadsParents(types: Declared, rank: map<TypeName, nat>, table: Table, t: TypeName, key: string)
    requires Acyclic(types, rank) && !Defines(table, t, key) && ParentsOf(types, t) != []
    ensures var parents := ParentsOf(types, t);
      && (Defines(table, parents[0], key) ==> Read(types, rank, table, t, key) == Some(table[parents[0]][key]))
      && (|parents| >= 2 && !Defines(table, parents[0], key) && Defines(table, parents[1], key) ==>
            Read(types, rank, table, t, key) == Some(table[parents[1]][key]))
  {
    var h, parents := Plain(types), ParentsOf(types, t);
    assert Extends(h, t) == parents;
    var list := Parents(h, rank, t);
    ParentsStart(h, rank, t);
    ReadsOwn(types, rank, table, t, key);
    assert list[0] == parents[0];
    if |parents| >= 2 { assert list[1..][0] == parents[1]; }
  }

  lemma {:induction false} FirstAgrees(a: Table, b: Table, list: seq<TypeName>, key: string)
    requires forall t :: t in list ==> Entry(a, t) == Entry(b, t)
    ensures First(a, list, key) == First(b, list, key)
    decreases |list|
  {
    if list != [] {
      assert Entry(a, list[0]) == Entry(b, list[0]);
      FirstAgrees(a, b, list[1..], key);
    }
  }

  /** What is on the list of the only parent is all there is, whatever else the flattened worklist repeats. */
  lemma OnlyParentCovers(h: Hierarchy, rank: map<TypeName, nat>, t: TypeName, p: TypeName)
    returns (repeats: seq<TypeName>)
    requires Ranked(h, rank) && Extends(h, t) == [p]
    ensures Parents(h, rank, t) == [p] + Parents(h, rank, p) + repeats
    ensures forall a :: a in repeats ==> a in Parents(h, rank, p)
  {
    var r := Rank(rank, t);
    assert Rank(rank, p) < r by { assert h[t][0] == p; }
    LevelsPop(h, rank, p, [], r);
    assert [p] + [] == [p] && [] + Parents(h, rank, p) == Parents(h, rank, p);
    var above := Levels(h, rank, Parents(h, rank, p), r);
    assert Parents(h, rank, p) <= above;
    repeats := above[|Parents(h, rank, p)|..];
    assert above == Parents(h, rank, p) + repeats;
    assert [p] + above == [p] + Parents(h, rank, p) + repeats;
    forall a | a in repeats ensures a in Parents(h, rank, p) {
      assert a in above;
      var q := LevelsAreAncestors(h, rank, Parents(h, rank, p), r, a);
      ParentsAreTheAncestors(h, rank, p, q);
      if a != q { AncestorTransitive(h, p, q, a); }
      ParentsAreTheAncestors(h, rank, p, a);
    }
  }

  /** A type with one parent reads what the parent reads, unless it defines the field itself. */
  lemma ReadAtParent(types: Declared, rank: map<TypeName, nat>, table: Table, t: TypeName, p: TypeName, key: string)
    requires Acyclic(types, rank) && ParentsOf(types, t) == [p] && !Defines(table, t, key)
    ensures Read(types, rank, table, t, key) == Read(types, rank, table, p, key)
  {
    var h := Plain(types);
    assert Extends(h, t) == [p];
    var repeats := OnlyParentCovers(h, rank, t, p);
    var list := [p] + Parents(h, rank, p);
    ReadsOwn(types, rank, table, t, key);
    FirstAppend(table, list, repeats, key);
    FirstNone(table, list, key);
    FirstNone(table, repeats, key);
    assert forall a :: a in repeats ==> a in list;
  }

  // ---------------------------------------------------------------- tame hierarchies keep every read

  /** What resolving `t` may give: at least the raw fields, each field as read, and nothing inherited from nobody. */
  ghost predicate Kept(types: Declared, rank: map<TypeName, nat>, raw: Table, t: TypeName, fields: Fields)
    requires Acyclic(types, rank)
  {
    && (t in raw ==> raw[t].Keys <= fields.Keys)
    && (forall key :: key in fields ==> Some(fields[key]) == Read(types, rank, raw, t, key))
    && (Unknown(types, ParentsOf(types, t)) ==> fields == if t in raw then raw[t] else map[])
  }

  ghost predicate KeptTable(types: Declared, rank: map<TypeName, nat>, raw: Table, table: Table)
    requires Acyclic(types, rank)
  {
    && table.Keys == raw.Keys
    && (forall t :: t in raw ==> Kept(types, rank, raw, t, table[t]))
    && (forall t :: t in raw && t !in types ==> table[t] == raw[t])
  }

  predicate AllKnown(types: Declared, resolved: seq<TypeName>) {
    forall t :: t in resolved ==> t in types
  }

  /** Unrecognised parents add nothing. */
  lemma {:induction false} InheritUnknown(types: Declared, rank: map<TypeName, nat>, table: Table,
                                          resolved: seq<TypeName>, parents: seq<TypeName>, fields: Fields, r: nat)
    requires Acyclic(types, rank) && Below(rank, parents, r) && Unknown(types, parents) && AllKnown(types, resolved)
    ensures Inherit(types, rank, table, resolved, parents, fields, r) == (fields, resolved)
    decreases |parents|
  {
    if parents != [] { InheritUnknown(types, rank, table, resolved, parents[1..], fields, r); }
  }

  /** Only recognised types are ever noted as resolved. */
  lemma {:induction false} ResolvesKnown(types: Declared, rank: map<TypeName, nat>, table: Table,
                                         resolved: seq<TypeName>, t: TypeName)
    requires Acyclic(types, rank) && AllKnown(types, resolved)
    ensures AllKnown(types, GetOverwrites(types, rank, table, resolved, t).1)
    decreases Rank(rank, t), 1, 0
  {
    if t !in resolved && t in types && types[t].Some? {
      assert Below(rank, types[t].value, Rank(rank, t)) by { assert Plain(types)[t] == types[t].value; }
      InheritsKnown(types, rank, table, resolved, types[t].value, map[], Rank(rank, t));
    }
  }

  lemma {:induction false} InheritsKnown(types: Declared, rank: map<TypeName, nat>, table: Table,
                                         resolved: seq<TypeName>, parents: seq<TypeName>, fields: Fields, r: nat)
    requires Acyclic(types, rank) && Below(rank, parents, r) && AllKnown(types, resolved)
    ensures AllKnown(types, Inherit(types, rank, table, resolved, parents, fields, r).1)
    decreases r, 0, |parents|
  {
    if parents != [] {
      ResolvesKnown(types, rank, table, resolved, parents[0]);
      var (more, resolved1) := GetOverwrites(types, rank, table, resolved, parents[0]);
      InheritsKnown(types, rank, table, resolved1, parents[1..], Assign(fields, more), r);
    }
  }

  /** A tame type inherits what its first parent gives and nothing else. */
  lemma InheritsFirstOnly(types: Declared, rank: map<TypeName, nat>, table: Table, resolved: seq<TypeName>,
                          parents: seq<TypeName>, r: nat)
    requires Acyclic(types, rank) && Below(rank, parents, r) && parents != [] && AllKnown(types, resolved)
    requires Unknown(types, parents[1..])
    ensures Inherit(types, rank, table, resolved, parents, map[], r).0
         == Assign(map[], GetOverwrites(types, rank, table, resolved, parents[0]).0)
  {
    var (more, resolved1) := GetOverwrites(types, rank, table, resolved, parents[0]);
    ResolvesKnown(types, rank, table, resolved, parents[0]);
    InheritUnknown(types, rank, table, resolved1, parents[1..], Assign(map[], more), r);
  }

  /** Resolving a type of a tame hierarchy gives fields as they are read from the raw data. */
  lemma {:induction false} ResolvesKept(types: Declared, rank: map<TypeName, nat>, raw: Table, table: Table,
                                        resolved: seq<TypeName>, t: TypeName)
    requires Acyclic(types, rank) && AllTame(types) && AllKnown(types, resolved)
    requires KeptTable(types, rank, raw, table)
    ensures var o := GetOverwrites(types, rank, table, resolved, t).0;
      (t !in types ==> o.None?) && (o.Some? ==> Kept(types, rank, raw, t, o.value))
    decreases Rank(rank, t)
  {
    if t !in resolved && t in types && types[t].Some? {
      var parents, r := types[t].value, Rank(rank, t);
      assert Plain(types)[t] == parents && Below(rank, parents, r) && ParentsOf(types, t) == parents;
      if parents == [] {
        assert Inherit(types, rank, table, resolved, parents, map[], r).0 == map[];
      } else {
        var p := parents[0];
        assert Tame(types, t);
        InheritsFirstOnly(types, rank, table, resolved, parents, r);
        ResolvesKept(types, rank, raw, table, resolved, p);
        InheritedKept(types, rank, raw, table, t, GetOverwrites(types, rank, table, resolved, p).0);
      }
    }
  }

  lemma InheritedKept(types: Declared, rank: map<TypeName, nat>, raw: Table, table: Table, t: TypeName,
                      inherited: Option<Fields>)
    requires Acyclic(types, rank) && Tame(types, t) && KeptTable(types, rank, raw, table)
    requires t in types && ParentsOf(types, t) != []
    requires var p := ParentsOf(types, t)[0];
      (p !in types ==> inherited.None?) && (inherited.Some? ==> Kept(types, rank, raw, p, inherited.value))
    ensures Kept(types, rank, raw, t, Assign(Assign(map[], inherited), Entry(table, t)))
  {
    var parents := ParentsOf(types, t);
    var p, fields := parents[0], Assign(map[], inherited);
    forall key | key in fields && !Defines(table, t, key)
      ensures Some(fields[key]) == Read(types, rank, raw, t, key)
    {
      assert !Defines(raw, t, key);
      if |parents| == 1 {
        assert parents == [p];
        ReadAtParent(types, rank, raw, t, p, key);
      } else {
        assert Defines(raw, p, key) && raw[p][key] == fields[key];
        ReadsParents(types, rank, raw, t, key);
      }
    }
  }

  lemma {:induction false} StoresKept(types: Declared, rank: map<TypeName, nat>, raw: Table, table: Table,
                                      resolved: seq<TypeName>, order: seq<TypeName>)
    requires Acyclic(types, rank) && AllTame(types) && AllKnown(types, resolved)
    requires KeptTable(types, rank, raw, table) && forall t :: t in order ==> t in raw
    ensures KeptTable(types, rank, raw, Store(types, rank, table, resolved, order).0)
    decreases |order|
  {
    if order != [] {
      ResolvesKept(types, rank, raw, table, resolved, order[0]);
      ResolvesKnown(types, rank, table, resolved, order[0]);
      var (overwrites, resolved1) := GetOverwrites(types, rank, table, resolved, order[0]);
      assert order[0] in raw;
      StoresKept(types, rank, raw, Stored(table, order[0], overwrites), resolved1, order[1..]);
    }
  }

  lemma RawKept(types: Declared, rank: map<TypeName, nat>, raw: Table)
    requires Acyclic(types, rank)
    ensures KeptTable(types, rank, raw, raw)
  {
    forall t, key | t in raw && key in raw[t] ensures Some(raw[t][key]) == Read(types, rank, raw, t, key) {
      ReadsOwn(types, rank, raw, t, key);
    }
  }

  /** All ancestors of a tame type with several parents have unrecognised parents only, or none. */
  lemma TameAncestors(types: Declared, rank: map<TypeName, nat>, t: TypeName, a: TypeName)
    requires Acyclic(types, rank) && Tame(types, t) && |ParentsOf(types, t)| >= 2
    requires a in Parents(Plain(types), rank, t)
    ensures Unknown(types, ParentsOf(types, a))
  {
    var h, parents := Plain(types), ParentsOf(types, t);
    ParentsAreTheAncestors(h, rank, t, a);
    var path :| path != [] && IsPath(h, t, path) && path[|path| - 1] == a;
    assert Extends(h, t) == parents && path[0] in parents;
    if path[0] != parents[0] {
      assert path[0] in parents[1..];
      assert path[0] !in types;
    }
    if |path| > 1 {
      var q := path[1];
      PathStep(types, t, path);
      assert path[0] == parents[0] && q in ParentsOf(types, parents[0]);
      assert q !in types;
      if |path| > 2 {
        PathStep(types, path[0], path[1..]);
        assert false;
      }
    }
  }

  lemma PathStep(types: Declared, t: TypeName, path: seq<TypeName>)
    requires |path| > 1 && IsPath(Plain(types), t, path)
    ensures IsPath(Plain(types), path[0], path[1..]) && path[1] in ParentsOf(types, path[0])
  {
    assert path[1..][0] in Extends(Plain(types), path[0]);
  }

  /** A table between the raw and the inherited fields gives every read of the raw data. */
  lemma {:induction false} KeptReads(types: Declared, rank: map<TypeName, nat>, raw: Table, table: Table,
                                     t: TypeName, key: string)
    requires Acyclic(types, rank) && AllTame(types) && KeptTable(types, rank, raw, table)
    ensures Read(types, rank, table, t, key) == Read(types, rank, raw, t, key)
    decreases Rank(rank, t)
  {
    var parents := ParentsOf(types, t);
    ReadsOwn(types, rank, table, t, key);
    ReadsOwn(types, rank, raw, t, key);
    assert Extends(Plain(types), t) == parents;
    if Defines(table, t, key) {
    } else if |parents| == 1 {
      assert parents == [parents[0]] && Plain(types)[t][0] == parents[0];
      ReadAtParent(types, rank, table, t, parents[0], key);
      ReadAtParent(types, rank, raw, t, parents[0], key);
      KeptReads(types, rank, raw, table, parents[0], key);
    } else {
      forall a | a in Parents(Plain(types), rank, t) ensures Entry(table, a) == Entry(raw, a) {
        if |parents| >= 2 { TameAncestors(types, rank, t, a); }
      }
      FirstAgrees(table, raw, Parents(Plain(types), rank, t), key);
    }
  }

  lemma TameKeeps(types: Declared, rank: map<TypeName, nat>, raw: Table, order: seq<TypeName>)
    requires Acyclic(types, rank) && AllTame(types) && forall t :: t in order ==> t in raw
    ensures ReadsKept(types, rank, raw, order)
  {
    RawKept(types, rank, raw);
    StoresKept(types, rank, raw, raw, [], order);
    var table := SetPlainData(types, rank, raw, order);
    forall t, key ensures Field(Get(types, rank, table, t), key) == Field(Get(types, rank, raw, t), key) {
      GetReads(types, rank, table, t, key);
      GetReads(types, rank, raw, t, key);
      KeptReads(types, rank, raw, table, t, key);
    }
  }

  // ---------------------------------------------------------------- others do not

  /** A field that a recognised type defines itself is in its overwrites, whatever the memo holds. */
  lemma OwnFieldWins(types: Declared, rank: map<TypeName, nat>, table: Table, resolved: seq<TypeName>,
                     t: TypeName, key: string)
    requires Acyclic(types, rank) && t in types && Defines(table, t, key)
    ensures var o := GetOverwrites(types, rank, table, resolved, t).0;
      o.Some? && Field(o.value, key) == Some(table[t][key])
  {
  }

  /** Of several parents the last recognised one wins. */
  lemma {:induction false} InheritsFromLast(types: Declared, rank: map<TypeName, nat>, table: Table,
                                            resolved: seq<TypeName>, parents: seq<TypeName>, j: nat, fields: Fields,
                                            r: nat, key: string)
    requires Acyclic(types, rank) && Below(rank, parents, r) && AllKnown(types, resolved)
    requires j < |parents| && parents[j] in types && Unknown(types, parents[j + 1..]) && Defines(table, parents[j], key)
    ensures Field(Inherit(types, rank, table, resolved, parents, fields, r).0, key) == Some(table[parents[j]][key])
    decreases |parents|
  {
    var (more, resolved1) := GetOverwrites(types, rank, table, resolved, parents[0]);
    ResolvesKnown(types, rank, table, resolved, parents[0]);
    if j == 0 {
      OwnFieldWins(types, rank, table, resolved, parents[0], key);
      InheritUnknown(types, rank, table, resolved1, parents[1..], Assign(fields, more), r);
    } else {
      assert parents[1..][j..] == parents[j + 1..];
      InheritsFromLast(types, rank, table, resolved1, parents[1..], j - 1, Assign(fields, more), r, key);
    }
  }

  function LastKnown(types: Declared, list: seq<TypeName>): (j: nat)
    requires !Unknown(types, list)
    ensures j < |list| && list[j] in types && Unknown(types, list[j + 1..])
  {
    if list[|list| - 1] in types then |list| - 1
    else
      assert forall i :: 0 <= i < |list| && list[i] in types ==> list[..|list| - 1][i] in types;
      LastKnown(types, list[..|list| - 1])
  }

  /** `first` and `last` define the same field differently, `t` does not define it. */
  function ForkedData(t: TypeName, first: TypeName, last: TypeName): Table {
    map[t := map[], first := map["k" := Text("1")], last := map["k" := Text("2")]]
  }

  /** Visiting other keys does not change an entry of the table. */
  lemma {:induction false} StoreKeepsOthers(types: Declared, rank: map<TypeName, nat>, table: Table,
                                            resolved: seq<TypeName>, order: seq<TypeName>, t: TypeName)
    requires Acyclic(types, rank) && t in table && t !in order
    ensures var table' := Store(types, rank, table, resolved, order).0; t in table' && table'[t] == table[t]
    decreases |order|
  {
    if order != [] {
      var (overwrites, resolved1) := GetOverwrites(types, rank, table, resolved, order[0]);
      StoreKeepsOthers(types, rank, Stored(table, order[0], overwrites), resolved1, order[1..], t);
    }
  }

  /** Of the forked data a read gives that of `first`, resolving gives that of `last`. */
  ghost predicate Forks(types: Declared, rank: map<TypeName, nat>, t: TypeName, first: TypeName, last: TypeName)
    requires Acyclic(types, rank)
  {
    var raw := ForkedData(t, first, last);
    var o := GetOverwrites(types, rank, raw, [], t).0;
    && Distinct([t, first, last])
    && Read(types, rank, raw, t, "k") == Some(Text("1"))
    && o.Some? && Field(o.value, "k") == Some(Text("2"))
  }

  lemma ForkShows(types: Declared, rank: map<TypeName, nat>, t: TypeName, first: TypeName, last: TypeName)
    requires Acyclic(types, rank) && Forks(types, rank, t, first, last)
    ensures var raw, order := ForkedData(t, first, last), [t, first, last];
      && IsKeyOrder(raw, order)
      && Field(Get(types, rank, raw, t), "k") == Some(Text("1"))
      && Field(Get(types, rank, SetPlainData(types, rank, raw, order), t), "k") == Some(Text("2"))
  {
    var raw, order := ForkedData(t, first, last), [t, first, last];
    assert order[0] == t && order[1] == first && order[2] == last;
    GetReads(types, rank, raw, t, "k");
    var table := TurnStores(types, rank, raw, t, [first, last]);
    assert [t] + [first, last] == order;
    GetReads(types, rank, table, t, "k");
    ReadsOwn(types, rank, table, t, "k");
  }

  /** A type visited first is stored with what resolving it gives, and stays so. */
  lemma TurnStores(types: Declared, rank: map<TypeName, nat>, raw: Table, t: TypeName, others: seq<TypeName>)
    returns (table: Table)
    requires Acyclic(types, rank) && t in raw && t !in others
    requires var o := GetOverwrites(types, rank, raw, [], t).0; o.Some? && "k" in o.value
    ensures table == SetPlainData(types, rank, raw, [t] + others)
    ensures t in table && Some(table[t]) == GetOverwrites(types, rank, raw, [], t).0
  {
    var (overwrites, resolved) := GetOverwrites(types, rank, raw, [], t);
    assert ([t] + others)[1..] == others;
    StoreKeepsOthers(types, rank, Stored(raw, t, overwrites), resolved, others, t);
    table := SetPlainData(types, rank, raw, [t] + others);
  }

  /** Another parent than the first is recognised: resolving takes the last such, reading the first. */
  lemma LaterParentForks(types: Declared, rank: map<TypeName, nat>, t: TypeName) returns (last: TypeName)
    requires Acyclic(types, rank) && |ParentsOf(types, t)| >= 2 && ParentsOf(types, t)[0] !in ParentsOf(types, t)[1..]
    requires !Unknown(types, ParentsOf(types, t)[1..])
    ensures Forks(types, rank, t, ParentsOf(types, t)[0], last)
  {
    var parents, r := ParentsOf(types, t), Rank(rank, t);
    var j := 1 + LastKnown(types, parents[1..]);
    last := parents[j];
    assert parents[1..][j - 1] == last && parents[1..][j..] == parents[j + 1..];
    assert Plain(types)[t] == parents && Below(rank, parents, r);
    var raw := ForkedData(t, parents[0], last);
    ReadsParents(types, rank, raw, t, "k");
    InheritsFromLast(types, rank, raw, [], parents, j, map[], r, "k");
  }

  /**
   Only the first parent is recognised, and it has a recognised parent of its own: resolving takes the field of
   that one, reading prefers the second parent.
   */
  lemma GrandparentForks(types: Declared, rank: map<TypeName, nat>, t: TypeName) returns (last: TypeName)
    requires Acyclic(types, rank) && |ParentsOf(types, t)| >= 2 && ParentsOf(types, t)[0] !in ParentsOf(types, t)[1..]
    requires Unknown(types, ParentsOf(types, t)[1..]) && !Unknown(types, ParentsOf(types, ParentsOf(types, t)[0]))
    ensures Forks(types, rank, t, ParentsOf(types, t)[1], last)
  {
    var parents, r := ParentsOf(types, t), Rank(rank, t);
    var p, u := parents[0], parents[1];
    var grandparents := ParentsOf(types, p);
    var j := LastKnown(types, grandparents);
    last := grandparents[j];
    assert parents[1..][0] == u && u !in types;
    assert Plain(types)[t] == parents && Below(rank, parents, r);
    assert Plain(types)[p] == grandparents && Below(rank, grandparents, Rank(rank, p));
    var raw := ForkedData(t, u, last);
    assert p !in raw;
    ReadsParents(types, rank, raw, t, "k");
    InheritsFromLast(types, rank, raw, [], grandparents, j, map[], Rank(rank, p), "k");
    InheritsFirstOnly(types, rank, raw, [], parents, r);
  }

  /**
   A type that is not tame, and whose list does not repeat its first name, shows: there are data, and an order
   of their keys, for which `setPlainData` changes what a read of the type returns.
   */
  lemma SeveralParentsDisagree(types: Declared, rank: map<TypeName, nat>, t: TypeName)
    returns (first: TypeName, last: TypeName)
    requires Acyclic(types, rank) && !Tame(types, t) && ParentsOf(types, t)[0] !in ParentsOf(types, t)[1..]
    ensures var raw, order := ForkedData(t, first, last), [t, first, last];
      && IsKeyOrder(raw, order)
      && Field(Get(types, rank, raw, t), "k") == Some(Text("1"))
      && Field(Get(types, rank, SetPlainData(types, rank, raw, order), t), "k") == Some(Text("2"))
  {
    var parents := ParentsOf(types, t);
    if Unknown(types, parents[1..]) {
      first := parents[1];
      last := GrandparentForks(types, rank, t);
    } else {
      first := parents[0];
      last := LaterParentForks(types, rank, t);
    }
    ForkShows(types, rank, t, first, last);
  }

  /** No list names its first parent a second time. */
  ghost predicate FirstOnce(types: Declared) {
    forall t :: t in types && ParentsOf(types, t) != [] ==> ParentsOf(types, t)[0] !in ParentsOf(types, t)[1..]
  }

  /** For all raw data and all orders of the keys `setPlainData` shows in no read, exactly on tame hierarchies. */
  lemma KeptExactlyWhenTame(types: Declared, rank: map<TypeName, nat>)
    requires Acyclic(types, rank) && FirstOnce(types)
    ensures AlwaysKept(types, rank) <==> AllTame(types)
  {
    if AllTame(types) {
      forall raw: Table, order: seq<TypeName> | IsKeyOrder(raw, order) ensures ReadsKept(types, rank, raw, order) {
        TameKeeps(types, rank, raw, order);
      }
    } else {
      var t :| t in types && !Tame(types, t);
      var first, last := SeveralParentsDisagree(types, rank, t);
      assert !ReadsKept(types, rank, ForkedData(t, first, last), [t, first, last]);
    }
  }

  /** Where all parents are recognised, the tame hierarchies are those of single inheritance. */
  lemma KeptExactlyForSingleParents(types: Declared, rank: map<TypeName, nat>)
    requires Acyclic(types, rank) && FirstOnce(types)
    requires forall t, i :: t in types && 0 <= i < |ParentsOf(types, t)| ==> ParentsOf(types, t)[i] in types
    ensures AlwaysKept(types, rank) <==> SingleParent(Plain(types))
  {
    KeptExactlyWhenTame(types, rank);
    forall t | t in types ensures Tame(types, t) <==> |Plain(types)[t]| <= 1 {
      var parents := ParentsOf(types, t);
      if |parents| >= 2 { assert parents[1..][0] == parents[1]; }
    }
  }

  /** On a tame hierarchy, saving the rewritten table and loading it again changes no result of `applyOverwrite`. */
  lemma TameReloadIsStable(types: Declared, rank: map<TypeName, nat>, raw: Table, order: seq<TypeName>,
                           again: seq<TypeName>, t: TypeName, data: Fields)
    requires Acyclic(types, rank) && AllTame(types)
    requires (forall a :: a in order ==> a in raw) && (forall a :: a in again ==> a in raw)
    ensures var saved := SetPlainData(types, rank, raw, order);
      Filled(data, Get(types, rank, SetPlainData(types, rank, saved, again), t)) ==
      Filled(data, Get(types, rank, saved, t))
  {
    RawKept(types, rank, raw);
    StoresKept(types, rank, raw, raw, [], order);
    var saved := SetPlainData(types, rank, raw, order);
    TameKeeps(types, rank, saved, again);
    SameFields(Get(types, rank, SetPlainData(types, rank, saved, again), t), Get(types, rank, saved, t));
  }
}
