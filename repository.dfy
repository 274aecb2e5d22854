/** The two queries of the item repository, as pure functions over the rows of the table
    listed in table order. */
module Repository {
  import opened Wrappers
  import opened Items
  import opened Strings

  /** `LOWER(field) LIKE LOWER('%' || query || '%')`: a NULL field never matches, and a
      present one matches exactly when the lower-cased query occurs in its lower-cased
      text at some offset. */
  predicate FieldMatches(field: Option<string>, query: string): (b: bool)
    ensures b <==> field.Some? && exists k :: ContainsAt(Lower(query), Lower(field.value), k)
  {
    if field.None? then false
    else
      var found := Contains(Lower(query), Lower(field.value));
      assert found ==> exists k :: ContainsAt(Lower(query), Lower(field.value), k);
      assert (exists k :: ContainsAt(Lower(query), Lower(field.value), k)) ==> found;
      found
  }

  /** The fields the search looks at: the name, and the artist, category and location
      when present; `notes` is not among them. */
  predicate Searched(i: Item, f: string) {
    f == i.name || i.artist == Some(f) || i.category == Some(f) || i.location == Some(f)
  }

  /** The four column tests of the WHERE clause, taken together, say that the lower-cased
      query occurs in the lower-cased text of one of the searched fields. */
  lemma SomeFieldMatchesIff(i: Item, query: string)
    ensures (|| FieldMatches(Some(i.name), query)
             || FieldMatches(i.artist, query)
             || FieldMatches(i.category, query)
             || FieldMatches(i.location, query))
        <==> exists f, k :: Searched(i, f) && ContainsAt(Lower(query), Lower(f), k)
  {
    if exists f, k :: Searched(i, f) && ContainsAt(Lower(query), Lower(f), k) {
      var f, k :| Searched(i, f) && ContainsAt(Lower(query), Lower(f), k);
      var field: Option<string> := Some(f);
      assert FieldMatches(field, query);
      if f == i.name {
      } else if i.artist == Some(f) {
        assert FieldMatches(i.artist, query);
      } else if i.category == Some(f) {
        assert FieldMatches(i.category, query);
      } else {
        assert FieldMatches(i.location, query);
      }
      assert || FieldMatches(Some(i.name), query)
             || FieldMatches(i.artist, query)
             || FieldMatches(i.category, query)
             || FieldMatches(i.location, query);
    }
    if || FieldMatches(Some(i.name), query)
       || FieldMatches(i.artist, query)
       || FieldMatches(i.category, query)
       || FieldMatches(i.location, query)
    {
      var f: string;
      if FieldMatches(Some(i.name), query) {
        f := i.name;
      } else if FieldMatches(i.artist, query) {
        f := i.artist.value;
      } else if FieldMatches(i.category, query) {
        f := i.category.value;
      } else {
        f := i.location.value;
      }
      var field: Option<string> := Some(f);
      assert Searched(i, f) && FieldMatches(field, query);
      var k :| ContainsAt(Lower(query), Lower(f), k);
      assert Searched(i, f) && ContainsAt(Lower(query), Lower(f), k);
      assert exists f, k :: Searched(i, f) && ContainsAt(Lower(query), Lower(f), k);
    }
  }

  /** The WHERE clause of the search query: an item matches exactly when its type is the
      given one and the lower-cased query occurs, at some offset, in the lower-cased text
      of its name, artist, category or location. */
  predicate Matches(i: Item, kind: string, query: string): (b: bool)
    ensures b <==>
      i.kind == kind && exists f, k :: Searched(i, f) && ContainsAt(Lower(query), Lower(f), k)
  {
    SomeFieldMatchesIff(i, query);
    && i.kind == kind
    && (|| FieldMatches(Some(i.name), query)
        || FieldMatches(i.artist, query)
        || FieldMatches(i.category, query)
        || FieldMatches(i.location, query))
  }

  /** The derived finder `findByType`: the rows of the given type, in table order. */
  function FindByType(items: seq<Item>, kind: string): (r: seq<Item>)
    ensures |r| <= |items|
    ensures forall x :: x in r <==> x in items && x.kind == kind
  {
    if items == [] then []
    else (if items[0].kind == kind then [items[0]] else []) + FindByType(items[1..], kind)
  }

  /** The query `searchByTypeAndQuery`: the rows that match, in table order. */
  function SearchByTypeAndQuery(items: seq<Item>, kind: string, query: string): (r: seq<Item>)
    ensures |r| <= |items|
    ensures forall x :: x in r <==> x in items && Matches(x, kind, query)
  {
    if items == [] then []
    else (if Matches(items[0], kind, query) then [items[0]] else [])
         + SearchByTypeAndQuery(items[1..], kind, query)
  }

  /** Search results are exactly the search of the rows of that type: they are drawn from
      `findByType`, in the same order. */
  lemma {:induction false} SearchWithinType(items: seq<Item>, kind: string, query: string)
    ensures SearchByTypeAndQuery(items, kind, query)
         == SearchByTypeAndQuery(FindByType(items, kind), kind, query)
  {
    if items != [] {
      SearchWithinType(items[1..], kind, query);
      var rest := FindByType(items[1..], kind);
      if items[0].kind == kind {
        assert FindByType(items, kind) == [items[0]] + rest;
        assert ([items[0]] + rest)[1..] == rest;
      } else {
        assert FindByType(items, kind) == rest;
      }
    }
  }

  /** Two queries with the same lower-cased text give the same results. */
  lemma {:induction false} SameLowerSameResults(items: seq<Item>, kind: string, q1: string, q2: string)
    requires Lower(q1) == Lower(q2)
    ensures SearchByTypeAndQuery(items, kind, q1) == SearchByTypeAndQuery(items, kind, q2)
  {
    if items != [] {
      SameLowerSameResults(items[1..], kind, q1, q2);
    }
  }

  /** Matching ignores case: an upper-cased query finds the same items. */
  lemma CaseInsensitive(items: seq<Item>, kind: string, query: string)
    ensures SearchByTypeAndQuery(items, kind, Upper(query)) == SearchByTypeAndQuery(items, kind, query)
  {
    LowerOfUpper(query);
    SameLowerSameResults(items, kind, Upper(query), query);
  }

  /** The empty query lists every row of the type, since every row has a name. */
  lemma {:induction false} EmptyQueryFindsAll(items: seq<Item>, kind: string)
    ensures SearchByTypeAndQuery(items, kind, "") == FindByType(items, kind)
  {
    if items != [] {
      EmptyQueryFindsAll(items[1..], kind);
      EmptyContained(Lower(items[0].name));
    }
  }

  /** `notes` never takes part: changing only the notes does not change matching. */
  lemma NotesIgnored(i: Item, notes: Option<string>, kind: string, query: string)
    ensures Matches(i.(notes := notes), kind, query) == Matches(i, kind, query)
  {
  }

  /** An absent field never contributes a match: an item with no artist, category or
      location can only match through its name. */
  lemma AbsentFieldsNeverMatch(i: Item, kind: string, query: string)
    requires i.artist.None? && i.category.None? && i.location.None?
    ensures Matches(i, kind, query) <==> i.kind == kind && Contains(Lower(query), Lower(i.name))
  {
  }

  /** A piece of a query that matches a field matches that field too. */
  lemma FieldPieceMatches(f: Option<string>, query: string, piece: string)
    requires Contains(piece, query)
    requires FieldMatches(f, query)
    ensures FieldMatches(f, piece)
  {
    ContainsLower(piece, query);
    ContainsTransitive(Lower(piece), Lower(query), Lower(f.value));
  }

  /** Matching is monotone in the query: every piece of a matching query matches too. */
  lemma ShorterQueryStillMatches(i: Item, kind: string, query: string, piece: string)
    requires Contains(piece, query)
    requires Matches(i, kind, query)
    ensures Matches(i, kind, piece)
  {
    if FieldMatches(Some(i.name), query) {
      FieldPieceMatches(Some(i.name), query, piece);
    } else if FieldMatches(i.artist, query) {
      FieldPieceMatches(i.artist, query, piece);
    } else if FieldMatches(i.category, query) {
      FieldPieceMatches(i.category, query, piece);
    } else {
      FieldPieceMatches(i.location, query, piece);
    }
  }

  /** The search test: a vinyl item whose artist is "The Beatles" is found by "Beatles". */
  lemma BeatlesFound(abbey: Item)
    requires abbey.kind == "vinyl" && abbey.artist == Some("The Beatles")
    ensures Matches(abbey, "vinyl", "Beatles")
    ensures SearchByTypeAndQuery([abbey], "vinyl", "Beatles") == [abbey]
  {
    var artist := "The Beatles";
    assert artist[4..11] == "Beatles";
    LowerSlice(artist, 4, 11);
    assert ContainsAt(Lower("Beatles"), Lower(artist), 4);
    assert FieldMatches(abbey.artist, "Beatles");
  }
}
