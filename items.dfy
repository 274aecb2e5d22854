/** The inventory record exchanged between the front end and the REST API. */
module Items {
  import opened Wrappers

  /** One inventory record. `kind` is the `type` property (a reserved word in Dafny):
      a free string in the back end, `"vinyl"` or `"bike"` in the front end. */
  datatype Item = Item(
    id: Option<int>,
    kind: string,
    name: string,
    artist: Option<string>,
    year: Option<int>,
    category: Option<string>,
    quantity: Option<int>,
    location: Option<string>,
    notes: Option<string>)

  /** The category a front-end controller is fixed to. */
  datatype Category = Vinyl | Bike {
    /** The path segment and `type` value of the category. */
    function Tag(): string {
      match this
      case Vinyl => "vinyl"
      case Bike => "bike"
    }
  }

  /** The front end only knows the two categories. */
  predicate IsClientItem(i: Item) {
    i.kind == Vinyl.Tag() || i.kind == Bike.Tag()
  }

  /** The stricter bike-part shape: category and quantity are present. */
  predicate IsBikeItem(i: Item) {
    i.kind == Bike.Tag() && i.category.Some? && i.quantity.Some?
  }

  /** The stricter vinyl-record shape: the artist is present, the year stays optional. */
  predicate IsVinylItem(i: Item) {
    i.kind == Vinyl.Tag() && i.artist.Some?
  }

  /** A draft carries no identifier yet (`Omit<Item, 'id'>`). */
  predicate IsDraft(i: Item) {
    i.id.None?
  }

  /** The two stricter shapes exclude each other, and each is a client item. */
  lemma ShapesAreDisjoint(i: Item)
    ensures !(IsBikeItem(i) && IsVinylItem(i))
    ensures IsBikeItem(i) || IsVinylItem(i) ==> IsClientItem(i)
  {
  }
}
