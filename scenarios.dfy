/** The back end's controller tests, replayed against a fresh item table. */
module Scenarios {
  import opened Wrappers
  import opened Items
  import Repository
  import Service

  /** A vinyl record keeps the submitted fields and gets an identifier. */
  method CreateVinyl() returns (created: Item)
    ensures created.id.Some?
    ensures created.name == "Dark Side of the Moon"
    ensures created.artist == Some("Pink Floyd") && created.year == Some(1973)
  {
    var store := new Service.ItemStore();
    var vinyl := Item(None, "vinyl", "Dark Side of the Moon", Some("Pink Floyd"), Some(1973),
                      None, None, Some("Riiul A"), Some("Klassika!"));
    created := store.Save(vinyl);
  }

  /** A bike part keeps the submitted fields and gets an identifier. */
  method CreateBike() returns (created: Item)
    ensures created.id.Some?
    ensures created.name == "Shimano pidurid"
    ensures created.category == Some("Pidurid") && created.quantity == Some(2)
  {
    var store := new Service.ItemStore();
    var bike := Item(None, "bike", "Shimano pidurid", None, None,
                     Some("Pidurid"), Some(2), Some("Garaaž"), None);
    created := store.Save(bike);
  }

  /** Searching the vinyl records for "Beatles" finds the record by The Beatles. */
  method SearchBeatles() returns (results: seq<Item>)
    ensures |results| > 0 && results[0].artist == Some("The Beatles")
  {
    var store := new Service.ItemStore();
    var vinyl := Item(None, "vinyl", "Abbey Road", Some("The Beatles"), Some(1969),
                      None, None, None, None);
    var created := store.Save(vinyl);
    assert store.rows.Values == {created};
    Repository.BeatlesFound(created);
    results := store.Search("vinyl", "Beatles");
    OnlyRowListed(results, store.rows, created);
  }

  /** A listing drawn from a table holding one row, that lists that row, starts with it. */
  lemma OnlyRowListed(results: seq<Item>, rows: map<int, Item>, only: Item)
    requires rows.Values == {only}
    requires forall x :: x in results <==> x in rows.Values
    ensures |results| > 0 && results[0] == only
  {
    assert only in results;
    assert results[0] in rows.Values;
  }

  /** Updating a stored record with a new location and notes returns those values. */
  method UpdateLocation() returns (updated: Option<Item>)
    ensures updated.Some?
    ensures updated.value.location == Some("Riiul B")
    ensures updated.value.notes == Some("Uuendatud asukoht")
  {
    var store := new Service.ItemStore();
    var original := Item(None, "vinyl", "Test Album", Some("Test Artist"), None,
                         None, None, None, None);
    var created := store.Save(original);
    var edited := created.(location := Some("Riiul B"), notes := Some("Uuendatud asukoht"));
    updated := store.Update(created.id.value, edited);
  }

  /** A deleted bike part is no longer listed among the bike parts. */
  method DeleteThenList() returns (created: Item, remaining: seq<Item>)
    ensures created.id.Some?
    ensures forall x :: x in remaining ==> x.id != created.id
  {
    var store := new Service.ItemStore();
    var item := Item(None, "bike", "Vana pump", None, None, Some("Pump"), Some(1), None, None);
    created := store.Save(item);
    store.Delete(created.id.value);
    remaining := store.FindByType("bike");
  }
}
