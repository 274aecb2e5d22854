/** The item service of the back end over an in-memory item table. The table maps each
    identifier to the row stored under it; `nextId` is the next identifier the generator
    hands out. */
module Service {
  import opened Wrappers
  import opened Items
  import Repository

  /** A non-empty set of identifiers has an element. Dafny derives the existential only
      once the opposite, "no identifier is in it", is put to it explicitly. */
  lemma HasElement(keys: set<int>)
    requires keys != {}
    ensures exists k :: k in keys
  {
    assert (forall j :: j !in keys) ==> keys == {};
  }

  /** A stored row sits under some identifier. */
  lemma HasKey(rows: map<int, Item>, x: Item)
    requires x in rows.Values
    ensures exists k :: k in rows && rows[k] == x
  {
    assert (forall j :: j in rows ==> rows[j] != x) ==> x !in rows.Values;
  }

  class ItemStore {
    var rows: map<int, Item>
    var nextId: int

    /** Every row is stored under its own identifier, and every identifier in use was
        handed out by the generator before. */
    ghost predicate Valid()
      reads this
    {
      forall k :: k in rows ==> k < nextId && rows[k].id == Some(k)
    }

    /** An empty table whose generator starts at 1. */
    constructor ()
      ensures Valid()
      ensures rows == map[] && nextId == 1
    {
      rows := map[];
      nextId := 1;
    }

    /** A full scan of the table. The database promises no row order, so the rows come
        in an arbitrary one; each row comes exactly once. */
    method Scan() returns (all: seq<Item>)
      requires Valid()
      ensures forall x :: x in all <==> x in rows.Values
      ensures forall i, j :: 0 <= i < j < |all| ==> all[i].id != all[j].id
    {
      all := [];
      var pending := rows.Keys;
      while pending != {}
        invariant pending <= rows.Keys
        invariant forall i :: 0 <= i < |all| ==>
          all[i].id.Some? && all[i].id.value in rows.Keys - pending && rows[all[i].id.value] == all[i]
        invariant forall k :: k in rows.Keys - pending ==> rows[k] in all
        invariant forall i, j :: 0 <= i < j < |all| ==> all[i].id != all[j].id
        decreases pending
      {
        HasElement(pending);
        var k :| k in pending;
        all := all + [rows[k]];
        pending := pending - {k};
      }
      forall x | x in rows.Values
        ensures x in all
      {
        HasKey(rows, x);
      }
      forall x | x in all
        ensures x in rows.Values
      {
        var i :| 0 <= i < |all| && all[i] == x;
        assert rows[all[i].id.value] == x;
      }
    }

    /** `findByType`: the stored items of the given type, and only those. */
    method FindByType(kind: string) returns (r: seq<Item>)
      requires Valid()
      ensures forall x :: x in r <==> x in rows.Values && x.kind == kind
    {
      var all := Scan();
      r := Repository.FindByType(all, kind);
    }

    /** `search`: the stored items that the repository's search rule matches, and only those. */
    method Search(kind: string, query: string) returns (r: seq<Item>)
      requires Valid()
      ensures forall x :: x in r <==> x in rows.Values && Repository.Matches(x, kind, query)
      ensures forall x :: x in r ==> x.kind == kind
    {
      var all := Scan();
      r := Repository.SearchByTypeAndQuery(all, kind, query);
    }

    /** `save`: stores the item under a fresh identifier and returns it with that
        identifier; every other field is kept as submitted. */
    method Save(item: Item) returns (saved: Item)
      requires Valid()
      modifies this
      ensures Valid()
      ensures saved.id.Some? && saved.id.value !in old(rows)
      ensures saved == item.(id := saved.id)
      ensures rows == old(rows)[saved.id.value := saved]
      ensures nextId > old(nextId)
    {
      var id := nextId;
      saved := item.(id := Some(id));
      rows := rows[id := saved];
      nextId := nextId + 1;
    }

    /** `update`: the path identifier replaces whatever identifier the body carried, and
        the body is stored under it. Without a row under that identifier the update fails
        and nothing changes. */
    method Update(id: int, item: Item) returns (updated: Option<Item>)
      requires Valid()
      modifies this
      ensures Valid()
      ensures nextId == old(nextId)
      ensures id in old(rows) ==>
        updated == Some(item.(id := Some(id))) && rows == old(rows)[id := updated.value]
      ensures id !in old(rows) ==> updated == None && rows == old(rows)
    {
      if id in rows {
        var body := item.(id := Some(id));
        rows := rows[id := body];
        updated := Some(body);
      } else {
        updated := None;
      }
    }

    /** `delete`: removes the row under the identifier, if any; no stored item carries that
        identifier afterwards, and every other row is untouched. */
    method Delete(id: int)
      requires Valid()
      modifies this
      ensures Valid()
      ensures nextId == old(nextId)
      ensures rows == old(rows) - {id}
      ensures forall x :: x in rows.Values ==> x.id != Some(id)
    {
      rows := rows - {id};
      forall x | x in rows.Values
        ensures x.id != Some(id)
      {
        HasKey(rows, x);
      }
    }
  }
}
