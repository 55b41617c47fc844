/**
 What the memo of resolved types leaves out: `setPlainData` stores nothing inherited for a type that was resolved
 as an ancestor of another type before its own turn.
 */
module ResolvedTypes {
  import opened Wrappers
  import opened CredentialTypes
  import opened CredentialsOverwrites
  import opened SeveralParents

  /** With a type all its recognised parents are noted as resolved. */
  ghost predicate Closed(types: Declared, resolved: seq<TypeName>) {
    && AllKnown(types, resolved)
    && forall t, p :: t in resolved && p in ParentsOf(types, t) && p in types ==> p in resolved
  }

  /** `more` notes all that `resolved` does. */
  ghost predicate Notes(resolved: seq<TypeName>, more: seq<TypeName>) {
    forall t :: t in resolved ==> t in more
  }

  /** Resolving a recognised type notes it and its recognised ancestors. */
  lemma {:induction false} ResolveNotes(types: Declared, rank: map<TypeName, nat>, table: Table,
                                        resolved: seq<TypeName>, t: TypeName)
    requires Acyclic(types, rank) && Closed(types, resolved)
    ensures var more := GetOverwrites(types, rank, table, resolved, t).1;
      Closed(types, more) && Notes(resolved, more) && (t in types ==> t in more)
    decreases Rank(rank, t), 1, 0
  {
    if t !in resolved && t in types && types[t].Some? {
      var parents, r := types[t].value, Rank(rank, t);
      assert Plain(types)[t] == parents && Below(rank, parents, r);
      InheritNotes(types, rank, table, resolved, parents, map[], r);
    }
  }

  lemma {:induction false} InheritNotes(types: Declared, rank: map<TypeName, nat>, table: Table,
                                        resolved: seq<TypeName>, parents: seq<TypeName>, fields: Fields, r: nat)
    requires Acyclic(types, rank) && Below(rank, parents, r) && Closed(types, resolved)
    ensures var more := Inherit(types, rank, table, resolved, parents, fields, r).1;
      Closed(types, more) && Notes(resolved, more) && forall p :: p in parents && p in types ==> p in more
    decreases r, 0, |parents|
  {
    if parents != [] {
      ResolveNotes(types, rank, table, resolved, parents[0]);
      var (fields1, resolved1) := GetOverwrites(types, rank, table, resolved, parents[0]);
      InheritNotes(types, rank, table, resolved1, parents[1..], Assign(fields, fields1), r);
      assert forall p :: p in parents ==> p == parents[0] || p in parents[1..];
    }
  }

  lemma {:induction false} StoreNotes(types: Declared, rank: map<TypeName, nat>, table: Table,
                                      resolved: seq<TypeName>, order: seq<TypeName>)
    requires Acyclic(types, rank) && Closed(types, resolved)
    ensures var more := Store(types, rank, table, resolved, order).1;
      Closed(types, more) && Notes(resolved, more) && forall t :: t in order && t in types ==> t in more
    decreases |order|
  {
    if order != [] {
      ResolveNotes(types, rank, table, resolved, order[0]);
      var (overwrites, resolved1) := GetOverwrites(types, rank, table, resolved, order[0]);
      StoreNotes(types, rank, Stored(table, order[0], overwrites), resolved1, order[1..]);
      assert forall t :: t in order ==> t == order[0] || t in order[1..];
    }
  }

  lemma {:induction false} StoreSplit(types: Declared, rank: map<TypeName, nat>, table: Table,
                                      resolved: seq<TypeName>, a: seq<TypeName>, b: seq<TypeName>)
    requires Acyclic(types, rank)
    ensures Store(types, rank, table, resolved, a + b) ==
      var (table1, resolved1) := Store(types, rank, table, resolved, a); Store(types, rank, table1, resolved1, b)
    decreases |a|
  {
    if a == [] {
      assert a + b == b;
    } else {
      assert (a + b)[1..] == a[1..] + b;
      var (overwrites, resolved1) := GetOverwrites(types, rank, table, resolved, a[0]);
      StoreSplit(types, rank, Stored(table, a[0], overwrites), resolved1, a[1..], b);
    }
  }

  /** Ancestors of a noted type are noted, as far as they are recognised. */
  lemma {:induction false} AncestorNoted(types: Declared, resolved: seq<TypeName>, t: TypeName, path: seq<TypeName>)
    requires Closed(types, resolved) && t in resolved
    requires path != [] && IsPath(Plain(types), t, path) && path[|path| - 1] in types
    ensures path[|path| - 1] in resolved
    decreases |path|
  {
    assert Extends(Plain(types), t) == ParentsOf(types, t);
    if |path| > 1 {
      assert path[1..][0] in Extends(Plain(types), path[0]);
      AncestorNoted(types, resolved, path[0], path[1..]);
    }
  }

  /** The turn of a type that is noted as resolved changes nothing. */
  lemma TurnOfResolved(types: Declared, rank: map<TypeName, nat>, table: Table, resolved: seq<TypeName>, t: TypeName)
    requires Acyclic(types, rank) && t in resolved && t in table
    ensures Store(types, rank, table, resolved, [t]).0 == table
  {
    assert [t][1..] == [];
    assert Store(types, rank, table, resolved, []).0 == table;
    assert Stored(table, t, Entry(table, t)) == table;
  }

  /**
   A recognised type whose turn comes after that of one of its descendants keeps its raw fields in the table: it
   was resolved then, without being stored, and nothing it inherits is stored later. On any hierarchy.
   */
  lemma DescendantFirstLeavesRaw(types: Declared, rank: map<TypeName, nat>, raw: Table, before: seq<TypeName>,
                                 t: TypeName, after: seq<TypeName>, e: TypeName)
    requires Acyclic(types, rank) && t in raw && t in types && t !in before && t !in after
    requires e in before && e in types && Ancestor(Plain(types), e, t)
    ensures var table := SetPlainData(types, rank, raw, before + [t] + after); t in table && table[t] == raw[t]
  {
    var (table1, resolved1) := Store(types, rank, raw, [], before);
    StoreNotes(types, rank, raw, [], before);
    var path :| path != [] && IsPath(Plain(types), e, path) && path[|path| - 1] == t;
    AncestorNoted(types, resolved1, e, path);
    StoreKeepsOthers(types, rank, raw, [], before, t);
    TurnOfResolved(types, rank, table1, resolved1, t);
    StoreSplit(types, rank, raw, [], before, [t]);
    var (table2, resolved2) := Store(types, rank, raw, [], before + [t]);
    StoreSplit(types, rank, raw, [], before + [t], after);
    StoreKeepsOthers(types, rank, table2, resolved2, after, t);
  }
}
