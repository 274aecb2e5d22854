/** The front-end inventory controller: the observable state of one category's items and
    the five operations that keep it in step with the remote item gateway. Each gateway
    answer is a parameter of the operation that awaits it, and the browser's confirmation
    dialog is a boolean parameter of the delete. */
module Controller {
  import opened Wrappers
  import opened Items

  /** The fixed user-facing messages, one per operation kind. */
  const LoadFailed: string := "Viga andmete laadimisel"
  const SearchFailed: string := "Viga otsingul"
  const CreateFailed: string := "Viga lisamisel"
  const UpdateFailed: string := "Viga uuendamisel"
  const DeleteFailed: string := "Viga kustutamisel"

  /** The characters JavaScript's `String.prototype.trim` strips: white space and line
      terminators. */
  predicate IsJsSpace(c: char) {
    || c == '\t' || c == '\n' || c == '\U{000B}' || c == '\U{000C}' || c == '\r' || c == ' '
    || c == '\U{00A0}' || c == '\U{1680}' || '\U{2000}' <= c <= '\U{200A}'
    || c == '\U{2028}' || c == '\U{2029}' || c == '\U{202F}' || c == '\U{205F}'
    || c == '\U{3000}' || c == '\U{FEFF}'
  }

  /** Drops the leading white space: what is left is a suffix that does not start with it. */
  function TrimStart(s: string): (r: string)
    ensures |r| <= |s| && r == s[|s| - |r|..]
    ensures forall i :: 0 <= i < |s| - |r| ==> IsJsSpace(s[i])
    ensures r != [] ==> !IsJsSpace(r[0])
  {
    if s != [] && IsJsSpace(s[0]) then TrimStart(s[1..]) else s
  }

  /** Drops the trailing white space: what is left is a prefix that does not end with it. */
  function TrimEnd(s: string): (r: string)
    ensures |r| <= |s| && r == s[..|r|]
    ensures forall i :: |r| <= i < |s| ==> IsJsSpace(s[i])
    ensures r != [] ==> !IsJsSpace(r[|r| - 1])
  {
    if s != [] && IsJsSpace(s[|s| - 1]) then TrimEnd(s[..|s| - 1]) else s
  }

  /** `s.trim()`: it is empty exactly when every character of `s` is white space. */
  function Trim(s: string): (r: string)
    ensures r == [] <==> forall i :: 0 <= i < |s| ==> IsJsSpace(s[i])
  {
    var t := TrimStart(s);
    assert forall i :: |s| - |t| <= i < |s| ==> s[i] == t[i - (|s| - |t|)];
    TrimEnd(t)
  }

  /** `!query.trim()`: the query is blank exactly when it is empty or white space only. */
  predicate IsBlank(query: string): (b: bool)
    ensures b <==> forall i :: 0 <= i < |query| ==> IsJsSpace(query[i])
  {
    Trim(query) == []
  }

  /** One call to the remote item gateway. */
  datatype Call =
    | ListCall(kind: Category)
    | SearchCall(kind: Category, query: string)
    | CreateCall(draft: Item)
    | UpdateCall(id: int, item: Item)
    | DeleteCall(id: int)

  /** The three observable refs of a controller. */
  datatype View = View(items: seq<Item>, loading: bool, error: Option<string>)

  /** What one operation leaves behind: the refs afterwards, the gateway calls it made in
      order, and whether it re-raised the failure to its caller. */
  datatype Effect = Effect(view: View, calls: seq<Call>, raised: bool)

  /** Between operations nothing is loading, and any error is one of the fixed messages. */
  predicate Settled(v: View) {
    && !v.loading
    && (v.error.None? || v.error.value in {LoadFailed, SearchFailed, CreateFailed, UpdateFailed, DeleteFailed})
  }

  /** `loadItems`: the list answer replaces the items; a failure keeps them and records
      the load message. It never re-raises. */
  function AfterLoad(kind: Category, v: View, fetched: Outcome<seq<Item>>): (e: Effect)
    ensures Settled(e.view) && !e.raised
  {
    match fetched
    case Ok(xs) => Effect(View(xs, false, None), [ListCall(kind)], false)
    case Fail => Effect(View(v.items, false, Some(LoadFailed)), [ListCall(kind)], false)
  }

  /** `searchItems`: a blank query is a load; otherwise the search answer replaces the
      items, and a failure keeps them and records the search message. */
  function AfterSearch(kind: Category, v: View, query: string, fetched: Outcome<seq<Item>>): (e: Effect)
    ensures Settled(e.view) && !e.raised
  {
    if IsBlank(query) then AfterLoad(kind, v, fetched)
    else match fetched
      case Ok(xs) => Effect(View(xs, false, None), [SearchCall(kind, query)], false)
      case Fail => Effect(View(v.items, false, Some(SearchFailed)), [SearchCall(kind, query)], false)
  }

  /** A write followed, when it succeeds, by a reload: the shape shared by `createItem`
      and `updateItem`. A failed write records `message` and re-raises; a successful one
      ends as the reload does, which never re-raises. */
  function AfterWrite(kind: Category, v: View, write: Call, written: bool, message: string,
                      reloaded: Outcome<seq<Item>>): (e: Effect)
    requires message in {CreateFailed, UpdateFailed}
    ensures Settled(e.view)
    ensures e.raised == !written
  {
    if written then
      var r := AfterLoad(kind, v, reloaded);
      Effect(r.view, [write] + r.calls, false)
    else Effect(View(v.items, false, Some(message)), [write], true)
  }

  /** `createItem`. */
  function AfterCreate(kind: Category, v: View, draft: Item, written: Outcome<Item>,
                       reloaded: Outcome<seq<Item>>): (e: Effect)
    ensures Settled(e.view)
    ensures e.raised == written.Fail?
  {
    AfterWrite(kind, v, CreateCall(draft), written.Ok?, CreateFailed, reloaded)
  }

  /** `updateItem`. */
  function AfterUpdate(kind: Category, v: View, id: int, item: Item, written: Outcome<Item>,
                       reloaded: Outcome<seq<Item>>): (e: Effect)
    ensures Settled(e.view)
    ensures e.raised == written.Fail?
  {
    AfterWrite(kind, v, UpdateCall(id, item), written.Ok?, UpdateFailed, reloaded)
  }

  /** `deleteItem`: a declined confirmation changes nothing; otherwise a failed delete
      records the delete message, and a successful one ends as the reload does. It never
      re-raises. */
  function AfterDelete(kind: Category, v: View, id: int, confirmed: bool, deleted: Outcome<()>,
                       reloaded: Outcome<seq<Item>>): (e: Effect)
    ensures !e.raised
    ensures confirmed ==> Settled(e.view)
  {
    if !confirmed then Effect(v, [], false)
    else match deleted
      case Ok(_) =>
        var r := AfterLoad(kind, v, reloaded);
        Effect(r.view, [DeleteCall(id)] + r.calls, false)
      case Fail => Effect(View(v.items, false, Some(DeleteFailed)), [DeleteCall(id)], false)
  }

  /** One controller, fixed to a category. `calls` records every gateway call made so far. */
  class InventoryController {
    const itemType: Category
    var items: seq<Item>
    var loading: bool
    var error: Option<string>
    ghost var calls: seq<Call>

    /** The three refs as one value. */
    function Current(): View
      reads this
    {
      View(items, loading, error)
    }

    /** A fresh controller: no items, not loading, no error, no calls yet. */
    constructor (itemType: Category)
      ensures this.itemType == itemType
      ensures Current() == View([], false, None) && Settled(Current())
      ensures calls == []
    {
      this.itemType := itemType;
      items := [];
      loading := false;
      error := None;
      calls := [];
    }

    method LoadItems(fetched: Outcome<seq<Item>>)
      modifies this
      ensures var e := AfterLoad(itemType, old(Current()), fetched);
        Current() == e.view && calls == old(calls) + e.calls
      ensures Settled(Current())
    {
      loading := true;
      error := None;
      calls := calls + [ListCall(itemType)];
      match fetched {
        case Ok(xs) =>
          items := xs;
        case Fail =>
          error := Some(LoadFailed);
      }
      loading := false;
    }

    method SearchItems(query: string, fetched: Outcome<seq<Item>>)
      modifies this
      ensures var e := AfterSearch(itemType, old(Current()), query, fetched);
        Current() == e.view && calls == old(calls) + e.calls
      ensures Settled(Current())
    {
      ghost var before := Current();
      if IsBlank(query) {
        LoadItems(fetched);
        return;
      }
      assert AfterSearch(itemType, before, query, fetched).calls == [SearchCall(itemType, query)];
      loading := true;
      error := None;
      calls := calls + [SearchCall(itemType, query)];
      match fetched {
        case Ok(xs) =>
          items := xs;
        case Fail =>
          error := Some(SearchFailed);
      }
      loading := false;
    }

    /** `raised` is true when the failure is re-thrown to the caller. */
    method CreateItem(draft: Item, written: Outcome<Item>, reloaded: Outcome<seq<Item>>)
      returns (raised: bool)
      requires IsDraft(draft)
      modifies this
      ensures var e := AfterCreate(itemType, old(Current()), draft, written, reloaded);
        Current() == e.view && calls == old(calls) + e.calls && raised == e.raised
      ensures Settled(Current())
    {
      loading := true;
      error := None;
      calls := calls + [CreateCall(draft)];
      if written.Ok? {
        LoadItems(reloaded);
        raised := false;
      } else {
        error := Some(CreateFailed);
        raised := true;
      }
      loading := false;
    }

    /** `raised` is true when the failure is re-thrown to the caller. */
    method UpdateItem(id: int, item: Item, written: Outcome<Item>, reloaded: Outcome<seq<Item>>)
      returns (raised: bool)
      modifies this
      ensures var e := AfterUpdate(itemType, old(Current()), id, item, written, reloaded);
        Current() == e.view && calls == old(calls) + e.calls && raised == e.raised
      ensures Settled(Current())
    {
      loading := true;
      error := None;
      calls := calls + [UpdateCall(id, item)];
      if written.Ok? {
        LoadItems(reloaded);
        raised := false;
      } else {
        error := Some(UpdateFailed);
        raised := true;
      }
      loading := false;
    }

    method DeleteItem(id: int, confirmed: bool, deleted: Outcome<()>, reloaded: Outcome<seq<Item>>)
      modifies this
      ensures var e := AfterDelete(itemType, old(Current()), id, confirmed, deleted, reloaded);
        Current() == e.view && calls == old(calls) + e.calls
      ensures old(Settled(Current())) ==> Settled(Current())
    {
      if !confirmed {
        return;
      }
      loading := true;
      error := None;
      calls := calls + [DeleteCall(id)];
      if deleted.Ok? {
        LoadItems(reloaded);
      } else {
        error := Some(DeleteFailed);
      }
      loading := false;
    }
  }

  /** A blank query has exactly the effect of a load, list call included; any other query
      makes one search call with the controller's category and the query as typed,
      untrimmed. */
  lemma SearchCalls(kind: Category, v: View, query: string, fetched: Outcome<seq<Item>>)
    ensures IsBlank(query) ==> AfterSearch(kind, v, query, fetched) == AfterLoad(kind, v, fetched)
    ensures !IsBlank(query) ==> AfterSearch(kind, v, query, fetched).calls == [SearchCall(kind, query)]
  {
  }

  /** The empty string and a run of spaces are blank queries. */
  lemma BlankExamples()
    ensures IsBlank("") && IsBlank("   ")
    ensures !IsBlank(" Kett ")
  {
    assert !IsJsSpace(" Kett "[1]);
  }

  /** A failure, whatever the operation, keeps the items and records that operation's own
      message; a success replaces the items with the gateway's list and leaves no error. */
  lemma FailureKeepsItems(kind: Category, v: View, query: string, fetched: Outcome<seq<Item>>)
    ensures fetched.Fail? ==>
      AfterLoad(kind, v, fetched).view == View(v.items, false, Some(LoadFailed))
    ensures fetched.Fail? && !IsBlank(query) ==>
      AfterSearch(kind, v, query, fetched).view == View(v.items, false, Some(SearchFailed))
    ensures fetched.Ok? ==>
      AfterLoad(kind, v, fetched).view == AfterSearch(kind, v, query, fetched).view
        == View(fetched.value, false, None)
  {
  }

  /** A failed write keeps the items, records the write's message, makes no reload and
      re-raises. */
  lemma WriteFailure(kind: Category, v: View, draft: Item, id: int, item: Item,
                     reloaded: Outcome<seq<Item>>)
    ensures AfterCreate(kind, v, draft, Fail, reloaded)
         == Effect(View(v.items, false, Some(CreateFailed)), [CreateCall(draft)], true)
    ensures AfterUpdate(kind, v, id, item, Fail, reloaded)
         == Effect(View(v.items, false, Some(UpdateFailed)), [UpdateCall(id, item)], true)
  {
  }

  /** A successful write is followed by exactly one reload, and the write's effect is the
      reload's. */
  lemma WriteSuccessReloadsOnce(kind: Category, v: View, draft: Item, id: int, item: Item,
                                created: Item, updated: Item, reloaded: Outcome<seq<Item>>)
    ensures AfterCreate(kind, v, draft, Ok(created), reloaded).calls == [CreateCall(draft), ListCall(kind)]
    ensures AfterUpdate(kind, v, id, item, Ok(updated), reloaded).calls == [UpdateCall(id, item), ListCall(kind)]
    ensures AfterCreate(kind, v, draft, Ok(created), reloaded).view == AfterLoad(kind, v, reloaded).view
    ensures AfterUpdate(kind, v, id, item, Ok(updated), reloaded).view == AfterLoad(kind, v, reloaded).view
  {
  }

  /** The write succeeds but the reload fails: `loadItems` catches that failure itself, so
      nothing reaches the caller and the message is the load message, not the write's. */
  lemma ReloadFailureIsSwallowed(kind: Category, v: View, draft: Item, id: int, item: Item,
                                 created: Item, updated: Item)
    ensures var e := AfterCreate(kind, v, draft, Ok(created), Fail);
      !e.raised && e.view == View(v.items, false, Some(LoadFailed))
    ensures var e := AfterUpdate(kind, v, id, item, Ok(updated), Fail);
      !e.raised && e.view == View(v.items, false, Some(LoadFailed))
  {
  }

  /** A declined delete makes no call and leaves items, loading and error as they were;
      a confirmed one makes exactly one delete call, and reloads only when it succeeds. */
  lemma DeleteCalls(kind: Category, v: View, id: int, deleted: Outcome<()>, reloaded: Outcome<seq<Item>>)
    ensures AfterDelete(kind, v, id, false, deleted, reloaded) == Effect(v, [], false)
    ensures AfterDelete(kind, v, id, true, deleted, reloaded).calls
         == if deleted.Ok? then [DeleteCall(id), ListCall(kind)] else [DeleteCall(id)]
    ensures deleted.Fail? ==>
      AfterDelete(kind, v, id, true, deleted, reloaded).view == View(v.items, false, Some(DeleteFailed))
  {
  }

  /** The five messages differ, so the error tells which kind of step failed. */
  lemma MessagesDistinct()
    ensures |{LoadFailed, SearchFailed, CreateFailed, UpdateFailed, DeleteFailed}| == 5
  {
  }
}
