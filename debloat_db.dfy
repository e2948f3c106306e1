/**
 * The normalisation of `debloat_db.json` into the `debloatDB` dictionary, done the same
 * way by the startup code of `gui/js/renderer.js` and by `parseDebloatDB` in
 * `gui/js/apps.js`: one `{ name, description, safety }` entry per package id.
 */
module DebloatDb {
  import opened Common
  import opened Text

  /** The string fields of one element of the database array; `None` stands for a missing or non-string field. */
  datatype RawItem = RawItem(
    id: Option<string>, name: Option<string>, list: Option<string>,
    description: Option<string>, safety: Option<string>, removal: Option<string>)

  /** The parsed JSON: something other than an array, or an array whose elements may be `null`. */
  datatype RawDb = NotArray | Items(items: seq<Option<RawItem>>)

  /** One normalised entry of `state.debloatDB`. */
  datatype DbEntry = DbEntry(name: string, description: string, safety: string)

  const NoDescription := "No description available."

  /** `item && item.id`: the element is present and its id is a non-empty string. */
  predicate Kept(item: Option<RawItem>) {
    item.Some? && Truthy(item.value.id)
  }

  /**
   * The entry made from a kept element: the name falls back to the list and then to the
   * last "."-segment of the id, the description to a fixed text, the safety to the
   * removal and then to "unknown".
   */
  function Entry(item: RawItem): (e: DbEntry)
    requires Truthy(item.id)
    ensures e.name == (if Truthy(item.name) then item.name.value
                       else if Truthy(item.list) then item.list.value
                       else LastSegment(item.id.value, '.'))
    ensures e.description == (if Truthy(item.description) then item.description.value else NoDescription)
    ensures e.safety == (if Truthy(item.safety) then item.safety.value
                         else if Truthy(item.removal) then item.removal.value
                         else "unknown")
    ensures e.description != "" && e.safety != ""
  {
    DbEntry(
      OrElse(item.name, OrElse(item.list, LastSegment(item.id.value, '.'))),
      OrElse(item.description, NoDescription),
      OrElse(item.safety, OrElse(item.removal, "unknown")))
  }

  /** The dictionary after the first `|items|` elements: a later element with the same id overwrites. */
  function Formatted(items: seq<Option<RawItem>>): map<string, DbEntry> {
    if items == [] then map[]
    else
      var last := items[|items| - 1];
      var db := Formatted(items[..|items| - 1]);
      if Kept(last) then db[last.value.id.value := Entry(last.value)] else db
  }

  /** The whole normalisation: a value that is not an array gives the empty dictionary. */
  function FormatDb(raw: RawDb): (db: map<string, DbEntry>)
    ensures raw.NotArray? ==> db == map[]
  {
    match raw
    case NotArray => map[]
    case Items(items) => Formatted(items)
  }

  /** The `for ... of` loop that fills `formattedDB`. */
  method ParseDebloatDb(raw: RawDb) returns (db: map<string, DbEntry>)
    ensures db == FormatDb(raw)
  {
    db := map[];
    if raw.NotArray? {
      return;
    }
    var items := raw.items;
    var i := 0;
    while i < |items|
      invariant 0 <= i <= |items|
      invariant db == Formatted(items[..i])
    {
      assert items[..i + 1][..i] == items[..i];
      var item := items[i];
      if item.Some? && Truthy(item.value.id) {
        db := db[item.value.id.value := Entry(item.value)];
      }
      i := i + 1;
    }
    assert items[..i] == items;
  }

  /** An id is in the dictionary exactly when some kept element carries it. */
  lemma {:induction false} FormattedKeys(items: seq<Option<RawItem>>, id: string)
    ensures id in Formatted(items) <==> exists k :: 0 <= k < |items| && Kept(items[k]) && items[k].value.id == Some(id)
  {
    if items != [] {
      var front := items[..|items| - 1];
      FormattedKeys(front, id);
      if id in Formatted(front) {
        var k :| 0 <= k < |front| && Kept(front[k]) && front[k].value.id == Some(id);
        assert items[k] == front[k];
      }
      if exists k :: 0 <= k < |items| && Kept(items[k]) && items[k].value.id == Some(id) {
        var k :| 0 <= k < |items| && Kept(items[k]) && items[k].value.id == Some(id);
        if k < |items| - 1 { assert front[k] == items[k]; }
      }
    }
  }

  /** The entry of an id is made from the last kept element that carries it. */
  lemma {:induction false} FormattedLastWins(items: seq<Option<RawItem>>, k: nat)
    requires k < |items| && Kept(items[k])
    requires forall j :: k < j < |items| ==> !(Kept(items[j]) && items[j].value.id == items[k].value.id)
    ensures items[k].value.id.value in Formatted(items)
    ensures Formatted(items)[items[k].value.id.value] == Entry(items[k].value)
  {
    var front := items[..|items| - 1];
    if k < |items| - 1 {
      forall j | k < j < |front| ensures !(Kept(front[j]) && front[j].value.id == front[k].value.id) {
        assert front[j] == items[j];
      }
      assert front[k] == items[k];
      FormattedLastWins(front, k);
    }
  }

  /** Every entry of the dictionary has a description and a safety text. */
  lemma {:induction false} FormattedEntriesFilled(items: seq<Option<RawItem>>)
    ensures forall id :: id in Formatted(items) ==>
      Formatted(items)[id].description != "" && Formatted(items)[id].safety != ""
  {
    if items != [] {
      FormattedEntriesFilled(items[..|items| - 1]);
    }
  }
}
