/**
 `replaceInvalidCredentials`: credentials that nodes refer to in the old style, or by an id that may be gone,
 are looked up in the database, with one cache by name and one by id to spare queries.

 The database does not change during a pass. Credential types are enumerated per node in the order given.
 */
module CredentialRepair {
  import opened Wrappers

  type Id = string
  type Name = string
  type CredentialType = string

  datatype Stored = Stored(id: Id, name: Name, ctype: CredentialType)

  type Database = seq<Stored>

  /** The old style is a bare name, or a reference whose id is null. */
  datatype Credential = Bare(name: Name) | Ref(id: Option<Id>, name: Name)

  datatype Entry = Entry(ctype: CredentialType, credential: Credential)

  datatype Node = Node(disabled: bool, credentials: seq<Entry>)

  predicate UniqueIds(db: Database) {
    forall i, j :: 0 <= i < j < |db| ==> db[i].id != db[j].id
  }

  // ---------------------------------------------------------------- queries

  function FindBy(db: Database, name: Name, t: CredentialType): seq<Stored> {
    if db == [] then []
    else
      var rest := FindBy(db[1..], name, t);
      if db[0].name == name && db[0].ctype == t then [db[0]] + rest else rest
  }

  function FindOneBy(db: Database, id: Id, t: CredentialType): Option<Stored> {
    if db == [] then None
    else if db[0].id == id && db[0].ctype == t then Some(db[0])
    else FindOneBy(db[1..], id, t)
  }

  function Reference(stored: Stored): Credential { Ref(Some(stored.id), stored.name) }

  /** The credential with this name and type, if there is exactly one. */
  function ByName(db: Database, t: CredentialType, name: Name): Option<Credential> {
    var found := FindBy(db, name, t);
    if |found| == 1 then Some(Reference(found[0])) else None
  }

  function ById(db: Database, t: CredentialType, id: Id): Option<Credential> {
    var found := FindOneBy(db, id, t);
    if found.Some? then Some(Reference(found.value)) else None
  }

  // ---------------------------------------------------------------- the result, with and without caches

  predicate OldStyle(c: Credential) { c.Bare? || c.id.None? }

  /** Without caches; an old-style name that is not resolved is written as a reference without id. */
  function Free(db: Database, e: Entry): Credential {
    var t, c := e.ctype, e.credential;
    if OldStyle(c) then ByName(db, t, c.name).GetOr(Ref(None, c.name))
    else ById(db, t, c.id.value).GetOr(ByName(db, t, c.name).GetOr(c))
  }

  function Normal(c: Credential): Credential {
    if c.Bare? then Ref(None, c.name) else c
  }

  predicate SeenName(seen: seq<Entry>, t: CredentialType, name: Name) {
    exists p :: 0 <= p < |seen| && seen[p].ctype == t && OldStyle(seen[p].credential) && seen[p].credential.name == name
  }

  /** A reference whose id the database does not know and whose name does not lead to one credential either. */
  predicate Unresolved(db: Database, e: Entry, t: CredentialType, id: Id) {
    && e.ctype == t && e.credential.Ref? && e.credential.id == Some(id)
    && ById(db, t, id).None? && ByName(db, t, e.credential.name).None?
  }

  /** The first unresolved reference to `id` among the entries seen. */
  function FirstUnresolved(db: Database, seen: seq<Entry>, t: CredentialType, id: Id): Option<Credential> {
    if seen == [] then None
    else
      var before := FirstUnresolved(db, seen[..|seen| - 1], t, id);
      if before.Some? then before
      else if Unresolved(db, seen[|seen| - 1], t, id) then Some(seen[|seen| - 1].credential)
      else None
  }

  /** With caches: what the pass makes of `e` after the entries `seen`. */
  function Repaired(db: Database, seen: seq<Entry>, e: Entry): Credential {
    var t, c := e.ctype, e.credential;
    if OldStyle(c) then
      ByName(db, t, c.name).GetOr(if SeenName(seen, t, c.name) then Ref(None, c.name) else c)
    else
      ById(db, t, c.id.value).GetOr(
        FirstUnresolved(db, seen, t, c.id.value).GetOr(ByName(db, t, c.name).GetOr(c)))
  }

  function RepairAll(db: Database, entries: seq<Entry>): (r: seq<Entry>)
    ensures |r| == |entries|
  {
    seq(|entries|, q requires 0 <= q < |entries| => Entry(entries[q].ctype, Repaired(db, entries[..q], entries[q])))
  }

  // ---------------------------------------------------------------- when the caches do not show

  /** No entry reuses the type and id of an earlier unresolved reference under another name. */
  ghost predicate NoConflict(db: Database, entries: seq<Entry>) {
    forall p, q :: 0 <= p < q < |entries| ==> !Conflict(db, entries[p], entries[q])
  }

  predicate Conflict(db: Database, earlier: Entry, later: Entry) {
    && later.credential.Ref? && later.credential.id.Some?
    && Unresolved(db, earlier, later.ctype, later.credential.id.value)
    && later.credential.name != earlier.credential.name
  }

  lemma {:induction false} FirstUnresolvedIs(db: Database, seen: seq<Entry>, t: CredentialType, id: Id)
    ensures var first := FirstUnresolved(db, seen, t, id);
      && (first.None? ==> forall p :: 0 <= p < |seen| ==> !Unresolved(db, seen[p], t, id))
      && (first.Some? ==>
            exists p :: 0 <= p < |seen| && Unresolved(db, seen[p], t, id) && first.value == seen[p].credential &&
                        forall k :: 0 <= k < p ==> !Unresolved(db, seen[k], t, id))
  {
    if seen != [] {
      var front := seen[..|seen| - 1];
      FirstUnresolvedIs(db, front, t, id);
      var first := FirstUnresolved(db, front, t, id);
      if first.Some? {
        var p :| 0 <= p < |front| && Unresolved(db, front[p], t, id) && first.value == front[p].credential &&
                 forall k :: 0 <= k < p ==> !Unresolved(db, front[k], t, id);
        assert seen[p] == front[p] && forall k :: 0 <= k < p ==> seen[k] == front[k];
      } else {
        assert forall k :: 0 <= k < |front| ==> seen[k] == front[k];
      }
    }
  }

  lemma {:induction false} FoundByName(db: Database, name: Name, t: CredentialType)
    ensures forall s :: s in FindBy(db, name, t) ==> s in db && s.name == name && s.ctype == t
  {
    if db != [] { FoundByName(db[1..], name, t); }
  }

  lemma {:induction false} FoundById(db: Database, s: Stored)
    requires UniqueIds(db) && s in db
    ensures FindOneBy(db, s.id, s.ctype) == Some(s)
  {
    if db[0] != s { FoundById(db[1..], s); }
  }

  lemma {:induction false} FoundOne(db: Database, id: Id, t: CredentialType)
    ensures var found := FindOneBy(db, id, t);
      found.Some? ==> found.value in db && found.value.id == id && found.value.ctype == t
  {
    if db != [] { FoundOne(db[1..], id, t); }
  }

  /** A credential found by name is found again by its id, under the same name. */
  lemma ByNameThenById(db: Database, t: CredentialType, name: Name)
    requires UniqueIds(db) && ByName(db, t, name).Some?
    ensures var c := ByName(db, t, name).value;
      c.Ref? && c.id.Some? && c.name == name && ById(db, t, c.id.value) == Some(c)
  {
    FoundByName(db, name, t);
    var s := FindBy(db, name, t)[0];
    assert s in FindBy(db, name, t);
    FoundById(db, s);
  }

  lemma ByIdAgain(db: Database, t: CredentialType, id: Id)
    requires ById(db, t, id).Some?
    ensures var c := ById(db, t, id).value; c.Ref? && c.id == Some(id)
  {
    FoundOne(db, id, t);
  }

  /** One entry differs from the cache-free result exactly when an earlier unresolved reference shows through. */
  lemma RepairedIsFree(db: Database, seen: seq<Entry>, e: Entry)
    requires UniqueIds(db)
    ensures Normal(Repaired(db, seen, e)) == Free(db, e) <==>
      OldStyle(e.credential) || FirstUnresolved(db, seen, e.ctype, e.credential.id.value).None? ||
      FirstUnresolved(db, seen, e.ctype, e.credential.id.value).value.name == e.credential.name
  {
    var t, c := e.ctype, e.credential;
    if ByName(db, t, c.name).Some? { ByNameThenById(db, t, c.name); }
    if !OldStyle(c) {
      FirstUnresolvedIs(db, seen, t, c.id.value);
      if ById(db, t, c.id.value).Some? { ByIdAgain(db, t, c.id.value); }
    }
  }

  /**
   The two caches change nothing, up to writing an unresolved name as a reference without id, exactly when no
   entry reuses the type and id of an earlier unresolved reference under another name.
   */
  lemma CachesDoNotShow(db: Database, entries: seq<Entry>)
    requires UniqueIds(db)
    ensures (forall q :: 0 <= q < |entries| ==> Normal(RepairAll(db, entries)[q].credential) == Free(db, entries[q]))
      <==> NoConflict(db, entries)
  {
    forall q | 0 <= q < |entries|
      ensures Normal(RepairAll(db, entries)[q].credential) == Free(db, entries[q]) <==>
        OldStyle(entries[q].credential) || ShowsNothing(db, entries[..q], entries[q])
    {
      RepairedIsFree(db, entries[..q], entries[q]);
    }
    if NoConflict(db, entries) {
      forall q | 0 <= q < |entries| && !OldStyle(entries[q].credential)
        ensures ShowsNothing(db, entries[..q], entries[q])
      {
        NoConflictShowsNothing(db, entries, q);
      }
    } else {
      var p, q :| 0 <= p < q < |entries| && Conflict(db, entries[p], entries[q]);
      ConflictShows(db, entries, p, q);
    }
  }

  predicate ShowsNothing(db: Database, seen: seq<Entry>, e: Entry)
    requires !OldStyle(e.credential)
  {
    var first := FirstUnresolved(db, seen, e.ctype, e.credential.id.value);
    first.None? || first.value.name == e.credential.name
  }

  lemma NoConflictShowsNothing(db: Database, entries: seq<Entry>, q: nat)
    requires NoConflict(db, entries) && q < |entries| && !OldStyle(entries[q].credential)
    ensures ShowsNothing(db, entries[..q], entries[q])
  {
    var e := entries[q];
    FirstUnresolvedIs(db, entries[..q], e.ctype, e.credential.id.value);
    if FirstUnresolved(db, entries[..q], e.ctype, e.credential.id.value).Some? {
      var p :| 0 <= p < q && Unresolved(db, entries[..q][p], e.ctype, e.credential.id.value) &&
               FirstUnresolved(db, entries[..q], e.ctype, e.credential.id.value).value == entries[..q][p].credential;
      assert !Conflict(db, entries[p], entries[q]);
    }
  }

  /** Of two entries in conflict the later one, or else the earlier one, gets a foreign name. */
  lemma ConflictShows(db: Database, entries: seq<Entry>, p: nat, q: nat)
    requires p < q < |entries| && Conflict(db, entries[p], entries[q])
    ensures !ShowsNothing(db, entries[..q], entries[q]) || !ShowsNothing(db, entries[..p], entries[p])
  {
    var t, id := entries[q].ctype, entries[q].credential.id.value;
    FirstUnresolvedIs(db, entries[..q], t, id);
    FirstUnresolvedIs(db, entries[..p], t, id);
    assert entries[..q][p] == entries[p];
    FirstUnresolvedPrefix(db, entries[..q], p, t, id);
    assert entries[..q][..p] == entries[..p];
  }

  /** Seeing more entries never changes which reference was the first. */
  lemma {:induction false} FirstUnresolvedPrefix(db: Database, seen: seq<Entry>, n: nat, t: CredentialType, id: Id)
    requires n <= |seen|
    ensures FirstUnresolved(db, seen[..n], t, id).Some? ==>
      FirstUnresolved(db, seen, t, id) == FirstUnresolved(db, seen[..n], t, id)
    ensures n < |seen| && Unresolved(db, seen[n], t, id) && FirstUnresolved(db, seen[..n], t, id).None? ==>
      FirstUnresolved(db, seen, t, id) == Some(seen[n].credential)
  {
    if n == |seen| {
      assert seen[..n] == seen;
    } else {
      var front := seen[..|seen| - 1];
      assert front[..n] == seen[..n];
      FirstUnresolvedPrefix(db, front, n, t, id);
    }
  }

  // ---------------------------------------------------------------- a second pass

  /** What kinds of credential a pass leaves behind. */
  lemma RepairedKinds(db: Database, entries: seq<Entry>, q: nat)
    requires UniqueIds(db) && q < |entries|
    ensures var t, c, c' := entries[q].ctype, entries[q].credential, RepairAll(db, entries)[q].credential;
      if OldStyle(c') then OldStyle(c) && c'.name == c.name && ByName(db, t, c.name).None?
      else if ById(db, t, c'.id.value).Some? then ById(db, t, c'.id.value) == Some(c')
      else c'.Ref? && ByName(db, t, c'.name).None? && FirstUnresolved(db, entries[..q + 1], t, c'.id.value) == Some(c')
  {
    var t, c := entries[q].ctype, entries[q].credential;
    if ByName(db, t, c.name).Some? { ByNameThenById(db, t, c.name); }
    if !OldStyle(c) {
      var id := c.id.value;
      if ById(db, t, id).Some? { ByIdAgain(db, t, id); }
      FirstUnresolvedIs(db, entries[..q], t, id);
      assert entries[..q + 1][..q] == entries[..q];
    }
  }

  lemma SeenNameAgain(db: Database, entries: seq<Entry>, q: nat, t: CredentialType, name: Name)
    requires UniqueIds(db) && q <= |entries| && ByName(db, t, name).None?
    ensures SeenName(RepairAll(db, entries)[..q], t, name) <==> SeenName(entries[..q], t, name)
  {
    var again := RepairAll(db, entries);
    forall p | 0 <= p < q
      ensures again[p].ctype == t && OldStyle(again[p].credential) && again[p].credential.name == name <==>
        entries[p].ctype == t && OldStyle(entries[p].credential) && entries[p].credential.name == name
    {
      RepairedKinds(db, entries, p);
    }
    if SeenName(entries[..q], t, name) {
      var p :| 0 <= p < q && entries[..q][p].ctype == t && OldStyle(entries[..q][p].credential) &&
               entries[..q][p].credential.name == name;
      assert entries[p] == entries[..q][p] && again[..q][p] == again[p];
    }
    if SeenName(again[..q], t, name) {
      var p :| 0 <= p < q && again[..q][p].ctype == t && OldStyle(again[..q][p].credential) &&
               again[..q][p].credential.name == name;
      assert again[p] == again[..q][p] && entries[..q][p] == entries[p];
    }
  }

  lemma FirstUnresolvedAgain(db: Database, entries: seq<Entry>, q: nat)
    requires UniqueIds(db) && q < |entries|
    requires var c' := RepairAll(db, entries)[q].credential;
      !OldStyle(c') && ById(db, entries[q].ctype, c'.id.value).None?
    ensures var again := RepairAll(db, entries); var c' := again[q].credential;
      var first := FirstUnresolved(db, again[..q], entries[q].ctype, c'.id.value);
      first.None? || first == Some(c')
  {
    var again := RepairAll(db, entries);
    var t, c' := entries[q].ctype, again[q].credential;
    var id := c'.id.value;
    FirstUnresolvedIs(db, again[..q], t, id);
    if FirstUnresolved(db, again[..q], t, id).Some? {
      var p :| 0 <= p < q && Unresolved(db, again[..q][p], t, id) &&
               FirstUnresolved(db, again[..q], t, id).value == again[..q][p].credential;
      assert again[..q][p] == again[p];
      RepairedKinds(db, entries, p);
      RepairedKinds(db, entries, q);
      FirstUnresolvedPrefix(db, entries[..q + 1], p + 1, t, id);
      assert entries[..q + 1][..p + 1] == entries[..p + 1];
    }
  }

  /** A second pass over the same database changes nothing, conflicts or not. */
  lemma SecondPassChangesNothing(db: Database, entries: seq<Entry>)
    requires UniqueIds(db)
    ensures RepairAll(db, RepairAll(db, entries)) == RepairAll(db, entries)
  {
    var again := RepairAll(db, entries);
    forall q | 0 <= q < |entries| ensures Repaired(db, again[..q], again[q]) == again[q].credential {
      var t, c' := entries[q].ctype, again[q].credential;
      RepairedKinds(db, entries, q);
      if OldStyle(c') {
        SeenNameAgain(db, entries, q, t, c'.name);
      } else if ById(db, t, c'.id.value).None? {
        FirstUnresolvedAgain(db, entries, q);
      }
    }
    assert RepairAll(db, again) == again;
  }

  // ---------------------------------------------------------------- what an entry gets

  predicate Matches(stored: Stored, t: CredentialType, name: Name) { stored.ctype == t && stored.name == name }

  /** Place `i` of the database, and no other, holds this type and name. */
  ghost predicate OnlyAt(db: Database, t: CredentialType, name: Name, i: int) {
    && 0 <= i < |db| && Matches(db[i], t, name)
    && forall j :: 0 <= j < |db| && Matches(db[j], t, name) ==> j == i
  }

  ghost predicate IsUnique(db: Database, t: CredentialType, name: Name) { exists i :: OnlyAt(db, t, name, i) }

  /** Place `i` of the database holds this type and id. */
  predicate KnownAt(db: Database, t: CredentialType, id: Id, i: int) {
    0 <= i < |db| && db[i].ctype == t && db[i].id == id
  }

  ghost predicate IsKnown(db: Database, t: CredentialType, id: Id) { exists i :: KnownAt(db, t, id, i) }

  lemma {:induction false} NothingFound(db: Database, t: CredentialType, name: Name)
    ensures FindBy(db, name, t) == [] <==> forall j :: 0 <= j < |db| ==> !Matches(db[j], t, name)
  {
    if db != [] {
      NothingFound(db[1..], t, name);
      assert forall j :: 1 <= j < |db| ==> db[j] == db[1..][j - 1];
    }
  }

  lemma {:induction false} FoundOnlyAt(db: Database, t: CredentialType, name: Name, i: int)
    requires OnlyAt(db, t, name, i)
    ensures FindBy(db, name, t) == [db[i]]
  {
    var rest := db[1..];
    assert forall j :: 1 <= j < |db| ==> db[j] == rest[j - 1];
    if i == 0 {
      NothingFound(rest, t, name);
    } else {
      assert OnlyAt(rest, t, name, i - 1);
      FoundOnlyAt(rest, t, name, i - 1);
      assert !Matches(db[0], t, name);
    }
  }

  lemma {:induction false} OneFound(db: Database, t: CredentialType, name: Name) returns (i: int)
    requires |FindBy(db, name, t)| == 1
    ensures OnlyAt(db, t, name, i)
  {
    var rest := db[1..];
    assert forall j :: 1 <= j < |db| ==> db[j] == rest[j - 1];
    if Matches(db[0], t, name) {
      i := 0;
      NothingFound(rest, t, name);
    } else {
      i := OneFound(rest, t, name);
      i := i + 1;
      assert forall j :: 0 <= j < |rest| && Matches(rest[j], t, name) ==> j == i - 1;
    }
  }

  /** A name is resolved exactly if one place only holds it, to the id that is stored there. */
  lemma ByNameIs(db: Database, t: CredentialType, name: Name)
    ensures ByName(db, t, name).Some? <==> IsUnique(db, t, name)
    ensures forall i :: OnlyAt(db, t, name, i) ==> ByName(db, t, name) == Some(Ref(Some(db[i].id), name))
  {
    if ByName(db, t, name).Some? { var i := OneFound(db, t, name); }
    forall i | OnlyAt(db, t, name, i) ensures ByName(db, t, name) == Some(Ref(Some(db[i].id), name)) {
      FoundOnlyAt(db, t, name, i);
    }
  }

  lemma ByIdIs(db: Database, t: CredentialType, id: Id)
    requires UniqueIds(db)
    ensures ById(db, t, id).Some? <==> IsKnown(db, t, id)
    ensures forall i :: KnownAt(db, t, id, i) ==> ById(db, t, id) == Some(Ref(Some(id), db[i].name))
  {
    FoundOne(db, id, t);
    if ById(db, t, id).Some? {
      var i :| 0 <= i < |db| && db[i] == FindOneBy(db, id, t).value;
      assert KnownAt(db, t, id, i);
    }
    forall i | KnownAt(db, t, id, i) ensures ById(db, t, id) == Some(Ref(Some(id), db[i].name)) {
      FoundById(db, db[i]);
    }
  }

  /** A reference to an id that no place holds, under a name that not exactly one place holds. */
  ghost predicate IsDead(db: Database, e: Entry, t: CredentialType, id: Id) {
    && e.ctype == t && e.credential.Ref? && e.credential.id == Some(id)
    && !IsKnown(db, t, id) && !IsUnique(db, t, e.credential.name)
  }

  lemma UnresolvedIsDead(db: Database, e: Entry, t: CredentialType, id: Id)
    requires UniqueIds(db)
    ensures Unresolved(db, e, t, id) <==> IsDead(db, e, t, id)
  {
    ByIdIs(db, t, id);
    ByNameIs(db, t, e.credential.name);
  }

  /** What a lookup by name makes of `c`: the id stored at the one place of its name, or what it was. */
  ghost predicate ResolvedByName(db: Database, t: CredentialType, c: Credential, c': Credential) {
    && (forall i :: OnlyAt(db, t, c.name, i) ==> c' == Ref(Some(db[i].id), c.name))
    && (!IsUnique(db, t, c.name) ==> Normal(c') == Normal(c))
  }

  /**
   What a pass makes of an entry, in terms of the places of the database. An old-style credential gets an id if
   and only if exactly one place holds its type and name, and then that of the place; otherwise it stays, but
   for being written as a reference without id if the same type and name came up before. A reference whose id a
   place holds gets the name stored there. One whose id is unknown becomes the first dead reference to that id
   before it, if there is one, and is otherwise resolved by its name in the same way.
   */
  lemma RepairOutcome(db: Database, entries: seq<Entry>, q: nat)
    requires UniqueIds(db) && q < |entries|
    ensures RepairAll(db, entries)[q].ctype == entries[q].ctype
    ensures var t, c, c' := entries[q].ctype, entries[q].credential, RepairAll(db, entries)[q].credential;
      if OldStyle(c) then
        && ResolvedByName(db, t, c, c') && (!OldStyle(c') <==> IsUnique(db, t, c.name))
        && (!IsUnique(db, t, c.name) ==> c' == if NamedBefore(entries, q, t, c.name) then Ref(None, c.name) else c)
      else
        var id := c.id.value;
        && (forall i :: KnownAt(db, t, id, i) ==> c' == Ref(Some(id), db[i].name))
        && (!IsKnown(db, t, id) ==>
              && (forall p :: 0 <= p < q && FirstDead(db, entries, p, t, id) ==> c' == entries[p].credential)
              && ((forall p :: 0 <= p < q ==> !IsDead(db, entries[p], t, id)) ==> ResolvedByName(db, t, c, c')))
  {
    var t, c := entries[q].ctype, entries[q].credential;
    ByNameIs(db, t, c.name);
    SeenIsNamedBefore(entries, q, t, c.name);
    if !OldStyle(c) {
      ByIdIs(db, t, c.id.value);
      if !IsKnown(db, t, c.id.value) { FirstDeadIs(db, entries, q, t, c.id.value); }
    }
  }

  /** An old-style entry before `q` has this type and name. */
  ghost predicate NamedBefore(entries: seq<Entry>, q: nat, t: CredentialType, name: Name)
    requires q <= |entries|
  {
    exists p :: 0 <= p < q && entries[p].ctype == t && OldStyle(entries[p].credential) &&
                entries[p].credential.name == name
  }

  lemma SeenIsNamedBefore(entries: seq<Entry>, q: nat, t: CredentialType, name: Name)
    requires q <= |entries|
    ensures SeenName(entries[..q], t, name) <==> NamedBefore(entries, q, t, name)
  {
    assert forall p :: 0 <= p < q ==> entries[..q][p] == entries[p];
  }

  ghost predicate FirstDead(db: Database, entries: seq<Entry>, p: int, t: CredentialType, id: Id)
    requires 0 <= p < |entries|
  {
    IsDead(db, entries[p], t, id) && forall k :: 0 <= k < p ==> !IsDead(db, entries[k], t, id)
  }

  lemma FirstDeadIs(db: Database, entries: seq<Entry>, q: nat, t: CredentialType, id: Id)
    requires UniqueIds(db) && q <= |entries|
    ensures (forall p :: 0 <= p < q ==> !IsDead(db, entries[p], t, id)) ==>
      FirstUnresolved(db, entries[..q], t, id).None?
    ensures forall p :: 0 <= p < q && FirstDead(db, entries, p, t, id) ==>
      FirstUnresolved(db, entries[..q], t, id) == Some(entries[p].credential)
  {
    FirstUnresolvedIs(db, entries[..q], t, id);
    forall p | 0 <= p < q ensures Unresolved(db, entries[..q][p], t, id) <==> IsDead(db, entries[p], t, id) {
      UnresolvedIsDead(db, entries[p], t, id);
    }
    forall p | 0 <= p < q && FirstDead(db, entries, p, t, id)
      ensures FirstUnresolved(db, entries[..q], t, id) == Some(entries[p].credential)
    {
      var k :| 0 <= k < q && Unresolved(db, entries[..q][k], t, id) &&
               FirstUnresolved(db, entries[..q], t, id).value == entries[..q][k].credential &&
               forall j :: 0 <= j < k ==> !Unresolved(db, entries[..q][j], t, id);
      assert IsDead(db, entries[k], t, id) && Unresolved(db, entries[..q][p], t, id);
      assert k == p;
    }
  }

  // ---------------------------------------------------------------- the pass with its caches

  type NameCache = map<(CredentialType, Name), Credential>
  type IdCache = map<(CredentialType, Id), Credential>

  ghost predicate NamesOk(db: Database, seen: seq<Entry>, names: NameCache) {
    forall t, name ::
      && ((t, name) in names <==> SeenName(seen, t, name))
      && ((t, name) in names ==> names[(t, name)] == ByName(db, t, name).GetOr(Ref(None, name)))
  }

  ghost predicate IdsOk(db: Database, seen: seq<Entry>, ids: IdCache) {
    forall t, id ::
      if ById(db, t, id).Some? then (t, id) in ids ==> Some(ids[(t, id)]) == ById(db, t, id)
      else (if (t, id) in ids then Some(ids[(t, id)]) else None) == FirstUnresolved(db, seen, t, id)
  }

  lemma SeenOneMore(seen: seq<Entry>, e: Entry, t: CredentialType, name: Name)
    ensures SeenName(seen + [e], t, name) <==>
      SeenName(seen, t, name) || (e.ctype == t && OldStyle(e.credential) && e.credential.name == name)
  {
    if SeenName(seen, t, name) {
      var p :| 0 <= p < |seen| && seen[p].ctype == t && OldStyle(seen[p].credential) && seen[p].credential.name == name;
      assert (seen + [e])[p] == seen[p];
    }
    assert (seen + [e])[|seen|] == e;
  }

  lemma UnresolvedOneMore(db: Database, seen: seq<Entry>, e: Entry, t: CredentialType, id: Id)
    ensures FirstUnresolved(db, seen + [e], t, id) ==
      if FirstUnresolved(db, seen, t, id).Some? then FirstUnresolved(db, seen, t, id)
      else if Unresolved(db, e, t, id) then Some(e.credential) else None
  {
    assert (seen + [e])[..|seen|] == seen;
  }

  lemma CachesStep(db: Database, seen: seq<Entry>, e: Entry, names: NameCache, ids: IdCache, names': NameCache,
                   ids': IdCache)
    requires UniqueIds(db) && NamesOk(db, seen, names) && IdsOk(db, seen, ids)
    requires var t, c := e.ctype, e.credential;
      names' == if OldStyle(c) then names[(t, c.name) := ByName(db, t, c.name).GetOr(Ref(None, c.name))] else names
    requires var t, c := e.ctype, e.credential;
      ids' == if OldStyle(c) || (t, c.id.value) in ids then ids
              else if ById(db, t, c.id.value).Some? then ids[(t, c.id.value) := ById(db, t, c.id.value).value]
              else if ByName(db, t, c.name).Some? then
                ids[(t, ByName(db, t, c.name).value.id.GetOr("")) := ByName(db, t, c.name).value]
              else ids[(t, c.id.value) := c]
    ensures NamesOk(db, seen + [e], names') && IdsOk(db, seen + [e], ids')
  {
    if ByName(db, e.ctype, e.credential.name).Some? { ByNameThenById(db, e.ctype, e.credential.name); }
    forall t, name
      ensures ((t, name) in names' <==> SeenName(seen + [e], t, name))
      ensures (t, name) in names' ==> names'[(t, name)] == ByName(db, t, name).GetOr(Ref(None, name))
    {
      SeenOneMore(seen, e, t, name);
      assert (t, name) in names <==> SeenName(seen, t, name);
    }
    forall t, id
      ensures if ById(db, t, id).Some? then (t, id) in ids' ==> Some(ids'[(t, id)]) == ById(db, t, id)
              else (if (t, id) in ids' then Some(ids'[(t, id)]) else None) == FirstUnresolved(db, seen + [e], t, id)
    {
      UnresolvedOneMore(db, seen, e, t, id);
    }
  }

  /** One turn of the inner loop. */
  method RepairOne(db: Database, ghost seen: seq<Entry>, e: Entry, names: NameCache, ids: IdCache)
    returns (c: Credential, names': NameCache, ids': IdCache)
    requires UniqueIds(db) && NamesOk(db, seen, names) && IdsOk(db, seen, ids)
    ensures c == Repaired(db, seen, e)
    ensures NamesOk(db, seen + [e], names') && IdsOk(db, seen + [e], ids')
  {
    var t := e.ctype;
    c, names', ids' := e.credential, names, ids;
    assert (t, c.name) in names <==> SeenName(seen, t, c.name);
    if OldStyle(c) {
      var name := c.name;
      if (t, name) !in names {
        var found := FindBy(db, name, t);
        if |found| == 1 {
          names' := names[(t, name) := Reference(found[0])];
          c := names'[(t, name)];
        } else {
          names' := names[(t, name) := Ref(None, name)];
        }
      } else {
        c := names[(t, name)];
        assert names[(t, name) := c] == names;
      }
    } else {
      var id := c.id.value;
      if (t, id) !in ids {
        var one := FindOneBy(db, id, t);
        if one.Some? {
          ids' := ids[(t, id) := Reference(one.value)];
          c := ids'[(t, id)];
        } else {
          var found := FindBy(db, c.name, t);
          if |found| == 1 {
            ids' := ids[(t, found[0].id) := Reference(found[0])];
            c := ids'[(t, found[0].id)];
          } else {
            ids' := ids[(t, id) := c];
          }
        }
      } else {
        c := ids[(t, id)];
      }
    }
    CachesStep(db, seen, e, names, ids, names', ids');
  }

  /** The entries of the nodes that are not disabled, in the order in which they are visited. */
  function Flat(nodes: seq<Node>): seq<Entry> {
    if nodes == [] then []
    else Flat(nodes[..|nodes| - 1]) +
         if nodes[|nodes| - 1].disabled then [] else nodes[|nodes| - 1].credentials
  }

  /** The entries of an enabled node stand one after the other, behind those of the enabled nodes before it. */
  lemma {:induction false} FlatAt(nodes: seq<Node>, i: nat, j: nat)
    requires i < |nodes| && !nodes[i].disabled && j < |nodes[i].credentials|
    ensures |Flat(nodes[..i])| + j < |Flat(nodes)|
    ensures Flat(nodes)[|Flat(nodes[..i])| + j] == nodes[i].credentials[j]
    decreases |nodes|
  {
    var front := nodes[..|nodes| - 1];
    if i < |nodes| - 1 {
      assert front[..i] == nodes[..i];
      FlatAt(front, i, j);
    }
  }

  lemma {:induction false} FlatLength(nodes: seq<Node>, before: seq<Node>)
    requires |nodes| == |before| && forall k :: 0 <= k < |nodes| ==> SameShape(nodes[k], before[k])
    ensures |Flat(nodes)| == |Flat(before)|
    decreases |nodes|
  {
    if nodes != [] {
      assert SameShape(nodes[|nodes| - 1], before[|nodes| - 1]);
      FlatLength(nodes[..|nodes| - 1], before[..|nodes| - 1]);
    }
  }

  /** `after` is `before` after a pass: each credential of an enabled node is what the pass makes of its entry. */
  ghost predicate NodesGet(db: Database, before: seq<Node>, after: seq<Node>) {
    && |after| == |before|
    && forall i, j :: 0 <= i < |before| && 0 <= j < |before[i].credentials| && !before[i].disabled ==>
         NodeGets(db, before, after[i], i, j)
  }

  ghost predicate NodeGets(db: Database, before: seq<Node>, node: Node, i: nat, j: nat)
    requires i < |before| && j < |before[i].credentials|
  {
    var q := |Flat(before[..i])| + j;
    && q < |Flat(before)| && Flat(before)[q] == before[i].credentials[j]
    && j < |node.credentials| && node.credentials[j] == RepairAll(db, Flat(before))[q]
  }

  lemma OneNodeGets(db: Database, before: seq<Node>, after: seq<Node>, i: nat, j: nat)
    requires |after| == |before| && i < |before| && SameShape(after[i], before[i])
    requires |Flat(after[..i])| == |Flat(before[..i])| && Flat(after) == RepairAll(db, Flat(before))
    requires !before[i].disabled && j < |before[i].credentials|
    ensures NodeGets(db, before, after[i], i, j)
  {
    FlatAt(before, i, j);
    FlatAt(after, i, j);
  }

  lemma PrefixLength(after: seq<Node>, before: seq<Node>, i: nat)
    requires |after| == |before| && (forall k :: 0 <= k < |after| ==> SameShape(after[k], before[k])) && i <= |after|
    ensures |Flat(after[..i])| == |Flat(before[..i])|
  {
    FlatLength(after[..i], before[..i]);
  }

  lemma AllNodesGet(db: Database, before: seq<Node>, after: seq<Node>)
    requires |after| == |before| && (forall k :: 0 <= k < |after| ==> SameShape(after[k], before[k]))
    requires Flat(after) == RepairAll(db, Flat(before))
    ensures NodesGet(db, before, after)
  {
    forall i, j | 0 <= i < |before| && 0 <= j < |before[i].credentials| && !before[i].disabled
      ensures NodeGets(db, before, after[i], i, j)
    {
      PrefixLength(after, before, i);
      OneNodeGets(db, before, after, i, j);
    }
  }

  lemma RepairAllOneMore(db: Database, seen: seq<Entry>, e: Entry)
    ensures RepairAll(db, seen + [e]) == RepairAll(db, seen) + [Entry(e.ctype, Repaired(db, seen, e))]
  {
    forall q | 0 <= q < |seen| ensures (seen + [e])[..q] == seen[..q] && (seen + [e])[q] == seen[q] {
    }
    assert (seen + [e])[..|seen|] == seen;
  }

  lemma FlatOneMore(nodes: seq<Node>, node: Node)
    ensures Flat(nodes + [node]) == Flat(nodes) + if node.disabled then [] else node.credentials
  {
    assert (nodes + [node])[..|nodes|] == nodes;
  }

  lemma OneMoreOf(seen: seq<Entry>, credentials: seq<Entry>, j: nat)
    requires j < |credentials|
    ensures seen + credentials[..j] + [credentials[j]] == seen + credentials[..j + 1]
  {
  }

  /** The loop over the credentials of one node. */
  method RepairNode(db: Database, ghost seen: seq<Entry>, credentials: seq<Entry>, names: NameCache, ids: IdCache)
    returns (repaired: seq<Entry>, names': NameCache, ids': IdCache)
    requires UniqueIds(db) && NamesOk(db, seen, names) && IdsOk(db, seen, ids)
    ensures |repaired| == |credentials|
    ensures RepairAll(db, seen + credentials) == RepairAll(db, seen) + repaired
    ensures NamesOk(db, seen + credentials, names') && IdsOk(db, seen + credentials, ids')
  {
    repaired, names', ids' := [], names, ids;
    ghost var now := seen;
    var j := 0;
    while j < |credentials|
      invariant 0 <= j <= |credentials| && |repaired| == j && now == seen + credentials[..j]
      invariant NamesOk(db, now, names') && IdsOk(db, now, ids')
      invariant RepairAll(db, now) == RepairAll(db, seen) + repaired
    {
      var e := credentials[j];
      var c;
      c, names', ids' := RepairOne(db, now, e, names', ids');
      RepairAllOneMore(db, now, e);
      OneMoreOf(seen, credentials, j);
      now, repaired, j := now + [e], repaired + [Entry(e.ctype, c)], j + 1;
    }
    assert now == seen + credentials;
  }

  /** `node` is `before` after a pass: same switch, as many credentials, and the very same if disabled. */
  predicate SameShape(node: Node, before: Node) {
    && node.disabled == before.disabled && |node.credentials| == |before.credentials|
    && (node.disabled ==> node == before)
  }

  /** The part `done` of the pass: the nodes so far and the entries seen on them. */
  ghost predicate Done(db: Database, before: seq<Node>, done: seq<Node>, seen: seq<Entry>) {
    && |done| <= |before| && seen == Flat(before[..|done|]) && Flat(done) == RepairAll(db, seen)
    && forall k :: 0 <= k < |done| ==> SameShape(done[k], before[k])
  }

  lemma NodeDone(db: Database, before: seq<Node>, done: seq<Node>, seen: seq<Entry>, node: Node)
    requires Done(db, before, done, seen) && |done| < |before| && SameShape(node, before[|done|])
    requires var more := if node.disabled then [] else before[|done|].credentials;
      RepairAll(db, seen + more) == RepairAll(db, seen) + if node.disabled then [] else node.credentials
    ensures Done(db, before, done + [node], seen + if node.disabled then [] else before[|done|].credentials)
  {
    var i := |done|;
    FlatOneMore(before[..i], before[i]);
    FlatOneMore(done, node);
    assert before[..i + 1] == before[..i] + [before[i]];
  }

  /**
   The pass over the nodes of a workflow, which it changes in place: disabled nodes and the number of
   credentials of a node stay, and the entries of the others become what `RepairAll` says.
   */
  method ReplaceInvalidCredentials(db: Database, nodes: array<Node>)
    requires UniqueIds(db)
    modifies nodes
    ensures Flat(nodes[..]) == RepairAll(db, Flat(old(nodes[..])))
    ensures forall i :: 0 <= i < nodes.Length ==> SameShape(nodes[i], old(nodes[i]))
    ensures NodesGet(db, old(nodes[..]), nodes[..])
  {
    var names: NameCache, ids: IdCache := map[], map[];
    ghost var before := nodes[..];
    ghost var done: seq<Node>, seen: seq<Entry> := [], [];
    var i := 0;
    while i < nodes.Length
      invariant 0 <= i <= nodes.Length && |done| == i
      invariant forall k :: 0 <= k < i ==> nodes[k] == done[k]
      invariant forall k :: i <= k < nodes.Length ==> nodes[k] == before[k]
      invariant NamesOk(db, seen, names) && IdsOk(db, seen, ids)
      invariant Done(db, before, done, seen)
    {
      ghost var more: seq<Entry> := [];
      if nodes[i].disabled {
        assert seen + more == seen && RepairAll(db, seen) + more == RepairAll(db, seen);
      } else {
        more := nodes[i].credentials;
        var repaired;
        repaired, names, ids := RepairNode(db, seen, nodes[i].credentials, names, ids);
        nodes[i] := nodes[i].(credentials := repaired);
      }
      NodeDone(db, before, done, seen, nodes[i]);
      done, seen := done + [nodes[i]], seen + more;
      i := i + 1;
    }
    assert before[..i] == before && nodes[..] == done;
    AllNodesGet(db, before, done);
  }
}
