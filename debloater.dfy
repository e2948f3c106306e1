/**
 * The pure parts of `gui/js/debloater.js`: the app records built from `pm list packages`,
 * the filter of the app list, the filter drop-downs, the selection set and its label,
 * and the commands of the batch actions and of the package listing.
 */
module Debloater {
  import opened Common
  import opened Text
  import opened Sorting
  import opened Adb
  import opened DebloatDb

  // ---- the records (debloater.js:89-106) ----

  /** One element of `fullAppListCache`. */
  datatype AppRecord = AppRecord(
    id: string, list: string, description: string,
    dependencies: seq<string>, neededBy: seq<string>, labels: seq<string>, removal: string)

  /**
   * The fields `populateAppList` reads from `state.debloatDB[pkg] || {}`. The
   * normalised entries carry only a name, a description and a safety, so the list and
   * the removal of every lookup are missing.
   */
  datatype Lookup = Lookup(list: Option<string>, description: Option<string>, removal: Option<string>)

  function InfoOf(db: map<string, DbEntry>, pkg: string): Lookup {
    if pkg in db then Lookup(None, Some(db[pkg].description), None) else Lookup(None, None, None)
  }

  /** A line of `pm list packages` with its first "package:" removed, then trimmed. */
  function PackageName(line: string): string {
    Trim(ReplaceFirst(line, "package:", ""))
  }

  predicate NonBlank(s: string) {
    s != ""
  }

  /** The package ids of the listing, in line order; `.filter(Boolean)` drops the blank ones. */
  function PackageIds(data: string): (ids: seq<string>)
    ensures "" !in ids
  {
    Filter(Map(Split(data, '\n'), PackageName), NonBlank)
  }

  /** A package id is listed exactly when it is not blank and some line names it. */
  lemma PackageIdsMembership(data: string, pkg: string)
    ensures pkg in PackageIds(data) <==>
      pkg != "" && exists line :: line in Split(data, '\n') && PackageName(line) == pkg
  {
    MapMembership(Split(data, '\n'), PackageName, pkg);
  }

  /** The usual line `package:<id>` gives the trimmed id. */
  lemma PackageNameOfLine(id: string)
    ensures PackageName("package:" + id) == Trim(id)
  {
    var line := "package:" + id;
    assert OccursAt(line, "package:", 0);
    assert IndexOf(line, "package:") == Some(0);
    assert line[..0] + "" + line[8..] == id;
  }

  /** The record of one package, with the defaults of `populateAppList`. */
  function RecordOf(db: map<string, DbEntry>, pkg: string): (r: AppRecord)
    ensures r.id == pkg
  {
    var info := InfoOf(db, pkg);
    AppRecord(pkg, OrElse(info.list, "Unknown"), OrElse(info.description, NoDescription), [], [], [],
      ToLower(OrElse(info.removal, "unknown")))
  }

  /**
   * Every record lists "Unknown" and removal "unknown", with no dependencies, no
   * dependents and no labels; its description is the database's, or the default text when
   * the package is not in the database or its description is empty.
   */
  lemma RecordDefaults(db: map<string, DbEntry>, pkg: string)
    ensures RecordOf(db, pkg).list == "Unknown" && RecordOf(db, pkg).removal == "unknown"
    ensures RecordOf(db, pkg).dependencies == [] && RecordOf(db, pkg).neededBy == [] && RecordOf(db, pkg).labels == []
    ensures RecordOf(db, pkg).description ==
      if pkg in db && db[pkg].description != "" then db[pkg].description else NoDescription
  {
    assert ToLower("unknown") == "unknown";
  }

  /** `a.id.localeCompare(b.id)` for a name order `le`. */
  function RecordBefore(le: (string, string) -> bool): (AppRecord, AppRecord) -> bool {
    (a: AppRecord, b: AppRecord) => le(a.id, b.id)
  }

  /** The `.map((pkg) => ...)` step: one record per id, in order. */
  function Records(db: map<string, DbEntry>, ids: seq<string>): seq<AppRecord> {
    if ids == [] then [] else Records(db, ids[..|ids| - 1]) + [RecordOf(db, ids[|ids| - 1])]
  }

  lemma {:induction false} RecordsIndex(db: map<string, DbEntry>, ids: seq<string>)
    ensures |Records(db, ids)| == |ids|
    ensures forall i :: 0 <= i < |ids| ==> Records(db, ids)[i] == RecordOf(db, ids[i])
  {
    if ids != [] {
      var front := ids[..|ids| - 1];
      RecordsIndex(db, front);
      forall i | 0 <= i < |ids| ensures Records(db, ids)[i] == RecordOf(db, ids[i]) {
        if i < |front| { assert ids[i] == front[i]; }
      }
    }
  }

  /** `fullAppListCache` after `populateAppList(data)`. */
  function AppRecords(data: string, db: map<string, DbEntry>, le: (string, string) -> bool): seq<AppRecord> {
    SortBy(Records(db, PackageIds(data)), RecordBefore(le))
  }

  /**
   * For any total preorder on ids, the cache holds one record per listed package (a
   * permutation of the records in line order), sorted by id, each with its defaults.
   */
  lemma AppRecordsSpec(data: string, db: map<string, DbEntry>, le: (string, string) -> bool)
    requires TotalPreorder(le)
    ensures multiset(AppRecords(data, db, le)) == multiset(Records(db, PackageIds(data)))
    ensures |AppRecords(data, db, le)| == |PackageIds(data)|
    ensures forall i, j :: 0 <= i < j < |AppRecords(data, db, le)| ==>
      le(AppRecords(data, db, le)[i].id, AppRecords(data, db, le)[j].id)
    ensures forall r :: r in AppRecords(data, db, le) ==> r.id in PackageIds(data) && r == RecordOf(db, r.id)
  {
    var recs := Records(db, PackageIds(data));
    RecordsIndex(db, PackageIds(data));
    var out := AppRecords(data, db, le);
    SortByPerm(recs, RecordBefore(le));
    assert TotalPreorder(RecordBefore(le)) by {
      var rb := RecordBefore(le);
      forall a, b ensures rb(a, b) || rb(b, a) { assert le(a.id, b.id) || le(b.id, a.id); }
      forall a, b, c | rb(a, b) && rb(b, c) ensures rb(a, c) { assert le(a.id, b.id) && le(b.id, c.id); }
    }
    SortBySorted(recs, RecordBefore(le));
    forall i, j | 0 <= i < j < |out| ensures le(out[i].id, out[j].id) {
      assert RecordBefore(le)(out[i], out[j]);
    }
    forall r | r in out ensures r.id in PackageIds(data) && r == RecordOf(db, r.id) {
      assert r in multiset(out);
      assert r in recs;
      var i :| 0 <= i < |recs| && recs[i] == r;
      assert PackageIds(data)[i] in PackageIds(data);
    }
  }

  // ---- the filter of the list (debloater.js:132-147) ----

  /** `activeFilters`: the safety and list drop-downs and the lower-cased search text. */
  datatype Filters = Filters(safety: string, oem: string, search: string)

  const NoFilters := Filters("all", "all", "")

  /** `state.debloatDB[app.id]?.name || ""`. */
  function DbName(db: map<string, DbEntry>, id: string): string {
    if id in db then db[id].name else ""
  }

  predicate SafetyMatch(app: AppRecord, f: Filters) {
    f.safety == "all" || app.removal == f.safety
  }

  predicate OemMatch(app: AppRecord, f: Filters) {
    f.oem == "all" || app.list == f.oem
  }

  predicate SearchMatch(app: AppRecord, f: Filters, db: map<string, DbEntry>) {
    f.search == "" || Contains(ToLower(app.id), f.search) || Contains(ToLower(DbName(db, app.id)), f.search)
  }

  predicate Shown(app: AppRecord, f: Filters, db: map<string, DbEntry>) {
    SafetyMatch(app, f) && OemMatch(app, f) && SearchMatch(app, f, db)
  }

  /** The records `renderAppList` shows, in cache order. */
  function ShownApps(cache: seq<AppRecord>, f: Filters, db: map<string, DbEntry>): (shown: seq<AppRecord>)
    ensures |shown| <= |cache|
  {
    if cache == [] then [] else ShownApps(cache[..|cache| - 1], f, db) + (if Shown(cache[|cache| - 1], f, db) then [cache[|cache| - 1]] else [])
  }

  /** The shown records are exactly the cached ones that pass the three filters. */
  lemma {:induction false} ShownAppsMembers(cache: seq<AppRecord>, f: Filters, db: map<string, DbEntry>)
    ensures forall a :: a in ShownApps(cache, f, db) <==> a in cache && Shown(a, f, db)
  {
    if cache != [] {
      var front, last := cache[..|cache| - 1], cache[|cache| - 1];
      ShownAppsMembers(front, f, db);
      assert cache == front + [last];
    }
  }

  /** When every record passes the filters, the whole cache is shown; when none does, nothing is. */
  lemma {:induction false} ShownAppsExtremes(cache: seq<AppRecord>, f: Filters, db: map<string, DbEntry>)
    ensures (forall i :: 0 <= i < |cache| ==> Shown(cache[i], f, db)) ==> ShownApps(cache, f, db) == cache
    ensures (forall i :: 0 <= i < |cache| ==> !Shown(cache[i], f, db)) ==> ShownApps(cache, f, db) == []
  {
    if cache != [] {
      var front := cache[..|cache| - 1];
      ShownAppsExtremes(front, f, db);
      assert forall i :: 0 <= i < |front| ==> front[i] == cache[i];
      assert cache == front + [cache[|cache| - 1]];
    }
  }

  /** With every filter at its default the whole cache is shown, in order. */
  lemma ShownAppsUnfiltered(cache: seq<AppRecord>, db: map<string, DbEntry>)
    ensures ShownApps(cache, NoFilters, db) == cache
  {
    ShownAppsExtremes(cache, NoFilters, db);
  }

  /** Typing more of the search text never brings an app back. */
  lemma ShownNarrowing(cache: seq<AppRecord>, safety: string, oem: string, t: string, u: string, db: map<string, DbEntry>)
    ensures forall a :: a in ShownApps(cache, Filters(safety, oem, t + u), db) ==> a in ShownApps(cache, Filters(safety, oem, t), db)
  {
    ShownAppsMembers(cache, Filters(safety, oem, t + u), db);
    ShownAppsMembers(cache, Filters(safety, oem, t), db);
    forall a | a in ShownApps(cache, Filters(safety, oem, t + u), db)
      ensures a in ShownApps(cache, Filters(safety, oem, t), db)
    {
      if t != "" {
        if Contains(ToLower(a.id), t + u) {
          ContainsPrefix(ToLower(a.id), t, u);
        } else {
          ContainsPrefix(ToLower(DbName(db, a.id)), t, u);
        }
      }
    }
  }

  /**
   * Since no record has a removal other than "unknown" nor a list other than "Unknown",
   * choosing any other safety or list in the drop-downs empties the view.
   */
  lemma ShownOnlyDefaults(data: string, db: map<string, DbEntry>, le: (string, string) -> bool, f: Filters)
    requires TotalPreorder(le)
    requires (f.safety != "all" && f.safety != "unknown") || (f.oem != "all" && f.oem != "Unknown")
    ensures ShownApps(AppRecords(data, db, le), f, db) == []
  {
    var cache := AppRecords(data, db, le);
    AppRecordsSpec(data, db, le);
    forall i | 0 <= i < |cache| ensures !Shown(cache[i], f, db) {
      assert cache[i] in cache;
      RecordDefaults(db, cache[i].id);
    }
    ShownAppsExtremes(cache, f, db);
  }

  // ---- the drop-downs (debloater.js:112-130) ----

  /** "all", then the distinct values in code-unit order. */
  function FilterOptions(values: seq<string>): (options: seq<string>)
    ensures |options| >= 1 && options[0] == "all"
  {
    ["all"] + SortBy(Dedup(values), OrdinalLe)
  }

  /** After "all" every value appears exactly once, in strictly increasing order, and nothing else does. */
  lemma FilterOptionsSpec(values: seq<string>)
    ensures forall v :: v in FilterOptions(values)[1..] <==> v in values
    ensures forall i, j :: 1 <= i < j < |FilterOptions(values)| ==>
      OrdinalLe(FilterOptions(values)[i], FilterOptions(values)[j]) && FilterOptions(values)[i] != FilterOptions(values)[j]
  {
    var d := Dedup(values);
    var sorted := SortBy(d, OrdinalLe);
    SortByPerm(d, OrdinalLe);
    assert FilterOptions(values)[1..] == sorted;
    forall v ensures v in sorted <==> v in values {
      assert v in sorted <==> v in multiset(sorted);
      assert v in d <==> v in multiset(d);
    }
    SortedDistinctIncreasing(d);
  }

  /** `fullAppListCache.map((app) => app.list)`. */
  function ListsOf(cache: seq<AppRecord>): seq<string> {
    if cache == [] then [] else ListsOf(cache[..|cache| - 1]) + [cache[|cache| - 1].list]
  }

  /** `fullAppListCache.map((app) => app.removal)`. */
  function RemovalsOf(cache: seq<AppRecord>): seq<string> {
    if cache == [] then [] else RemovalsOf(cache[..|cache| - 1]) + [cache[|cache| - 1].removal]
  }

  lemma {:induction false} FieldsIndex(cache: seq<AppRecord>)
    ensures |ListsOf(cache)| == |cache| && |RemovalsOf(cache)| == |cache|
    ensures forall i :: 0 <= i < |cache| ==> ListsOf(cache)[i] == cache[i].list && RemovalsOf(cache)[i] == cache[i].removal
  {
    if cache != [] {
      var front := cache[..|cache| - 1];
      FieldsIndex(front);
      forall i | 0 <= i < |cache|
        ensures ListsOf(cache)[i] == cache[i].list && RemovalsOf(cache)[i] == cache[i].removal
      {
        if i < |front| { assert cache[i] == front[i]; }
      }
    }
  }

  function OemOptions(cache: seq<AppRecord>): seq<string> {
    FilterOptions(ListsOf(cache))
  }

  function SafetyOptions(cache: seq<AppRecord>): seq<string> {
    FilterOptions(RemovalsOf(cache))
  }

  /** With a non-empty listing the drop-downs offer only "all" and the one default each. */
  lemma OptionsOfListing(data: string, db: map<string, DbEntry>, le: (string, string) -> bool)
    requires TotalPreorder(le) && PackageIds(data) != []
    ensures OemOptions(AppRecords(data, db, le)) == ["all", "Unknown"]
    ensures SafetyOptions(AppRecords(data, db, le)) == ["all", "unknown"]
  {
    var cache := AppRecords(data, db, le);
    AppRecordsSpec(data, db, le);
    forall i | 0 <= i < |cache| ensures cache[i].list == "Unknown" && cache[i].removal == "unknown" {
      assert cache[i] in cache;
      RecordDefaults(db, cache[i].id);
    }
    FieldsIndex(cache);
    OneOption(ListsOf(cache), "Unknown");
    OneOption(RemovalsOf(cache), "unknown");
  }

  /** Values that are all the same give "all" and that value. */
  lemma OneOption(values: seq<string>, v: string)
    requires values != [] && forall i :: 0 <= i < |values| ==> values[i] == v
    ensures FilterOptions(values) == ["all", v]
  {
    DedupConstant(values, v);
    SortSingleton(v);
  }

  lemma SortSingleton(x: string)
    ensures SortBy([x], OrdinalLe) == [x]
  {
    assert [x][1..] == [];
  }

  // ---- the selection (debloater.js:36-38, 189-199) ----

  /** A click on an app: `selectedPackages` loses the package if it had it, and gains it at the end otherwise. */
  function Toggle(selected: seq<string>, pkg: string): (r: seq<string>)
    ensures pkg in r <==> pkg !in selected
    ensures forall p :: p != pkg ==> (p in r <==> p in selected)
    ensures Distinct(selected) ==> Distinct(r)
  {
    if pkg in selected then Remove(selected, pkg) else selected + [pkg]
  }

  /** Two clicks on the same app restore the set; when it was not selected, even the order is restored. */
  lemma ToggleTwice(selected: seq<string>, pkg: string)
    ensures forall p :: p in Toggle(Toggle(selected, pkg), pkg) <==> p in selected
    ensures pkg !in selected ==> Toggle(Toggle(selected, pkg), pkg) == selected
  {
    if pkg !in selected {
      RemoveLast(selected, pkg);
    }
  }

  lemma {:induction false} RemoveLast(xs: seq<string>, x: string)
    requires x !in xs
    ensures Remove(xs + [x], x) == xs
  {
    if xs != [] {
      assert (xs + [x])[1..] == xs[1..] + [x];
      RemoveLast(xs[1..], x);
    } else {
      assert Remove([x], x) == Remove([], x);
    }
  }

  /** The text of the selection bar, or `None` when the bar is hidden. */
  function SelectionLabel(count: nat): (text: Option<string>)
    ensures text.None? <==> count == 0
  {
    if count > 0 then Some(NatToString(count) + " app" + (if count > 1 then "s" else "") + " selected") else None
  }

  /** The label reads "1 app selected" or "<n> apps selected", and its first word is the count. */
  lemma SelectionLabelText(count: nat)
    ensures count == 1 ==> SelectionLabel(count) == Some("1 app selected")
    ensures count > 1 ==> SelectionLabel(count) == Some(NatToString(count) + " apps selected")
    ensures count > 0 ==>
      var first := Split(SelectionLabel(count).value, ' ')[0];
      (forall k :: 0 <= k < |first| ==> IsDigit(first[k])) && DecimalValue(first) == count
  {
    if count > 0 {
      var n := NatToString(count);
      var rest := "app" + (if count > 1 then "s" else "") + " selected";
      var shown := SelectionLabel(count).value;
      if count == 1 {
        assert n == "1";
        assert shown == "1" + " app" + "" + " selected" == "1 app selected";
      } else {
        assert shown == n + " app" + "s" + " selected";
        assert n + " app" + "s" + " selected" == n + " apps selected";
      }
      assert shown == n + [' '] + rest;
      assert ' ' !in n by {
        forall k | 0 <= k < |n| ensures n[k] != ' ' { assert IsDigit(n[k]); }
      }
      SplitAfterFirst(n, ' ', rest);
      DecimalOfNatToString(count);
    }
  }

  // ---- the commands (debloater.js:72-87, 210-226) ----

  /** The arguments of `listApps` for the current app filter. */
  function ListAppsArgs(filter: string): (args: seq<string>)
    ensures |args| == if filter == "system" || filter == "user" then 6 else 5
    ensures args[..5] == ["shell", "pm", "list", "packages", "-e"]
    ensures "-s" in args <==> filter == "system"
    ensures "-3" in args <==> filter == "user"
  {
    ["shell", "pm", "list", "packages", "-e"] +
    (if filter == "system" then ["-s"] else []) + (if filter == "user" then ["-3"] else [])
  }

  function ListAppsRequest(filter: string): (r: Request)
    ensures IsDeviceCommand(r.args) && !r.background && RouteOf("", r.key) == ToAppList
  {
    assert "shell" in DeviceVerbs && ListAppsArgs(filter)[0] == "shell";
    Request("adb", ListAppsArgs(filter), false, Some("list-apps"))
  }

  /** The `pm` arguments of a batch action on one package: "uninstall", or anything else for disable. */
  function BatchArgs(action: string, pkg: string): (args: seq<string>)
    ensures |args| > 1 && args[0] == "shell" && args[|args| - 1] == pkg
    ensures args[1..|args| - 1] ==
      if action == "uninstall" then ["pm", "uninstall", "-k", "--user", "0"] else ["pm", "disable-user", "--user", "0"]
    ensures "-k" in args[..|args| - 1] <==> action == "uninstall"
  {
    if action == "uninstall" then
      var args := ["shell", "pm", "uninstall", "-k", "--user", "0", pkg];
      assert args[..|args| - 1][3] == "-k";
      args
    else ["shell", "pm", "disable-user", "--user", "0", pkg]
  }

  /** One background request per selected package, in selection order, all keyed `batch-<action>`. */
  function BatchRequests(action: string, selected: seq<string>): (rs: seq<Request>)
    ensures |rs| == |selected|
  {
    Map(selected, (pkg: string) => Request("adb", BatchArgs(action, pkg), true, Some("batch-" + action)))
  }

  /**
   * Each batch request is a background device command for its own package, and its
   * output reaches no handler: it is only logged.
   */
  lemma BatchRequestsShape(action: string, selected: seq<string>)
    ensures forall i :: 0 <= i < |selected| ==>
      var r := BatchRequests(action, selected)[i];
      r.background && IsDeviceCommand(r.args) && r.args[|r.args| - 1] == selected[i] && r.key == Some("batch-" + action)
    ensures forall out :: RouteOf(out, Some("batch-" + action)) in {LogError, LogInfo, Dropped}
  {
    var key := "batch-" + action;
    forall i | 0 <= i < |selected|
      ensures IsDeviceCommand(BatchRequests(action, selected)[i].args)
    {
      var args := BatchArgs(action, selected[i]);
      assert "shell" in DeviceVerbs && args[0] in args;
    }
    assert key[0] == 'b';
    DiffersAt(key, "dashboard-", 0);
    DiffersAt(key, "toggle-", 0);
  }

  /** `500 * Math.max(1, count / 2)` in milliseconds; the division is exact, so the delay is an integer. */
  function BatchDelay(count: nat): (ms: nat)
    ensures ms as real == 500.0 * (if 1.0 >= count as real / 2.0 then 1.0 else count as real / 2.0)
  {
    if count <= 2 then 500 else 250 * count
  }

  /** 500 ms for one or two packages, then 250 ms per package. */
  lemma BatchDelayValues(count: nat)
    ensures count <= 2 ==> BatchDelay(count) == 500
    ensures count >= 2 ==> BatchDelay(count) == 250 * count
    ensures BatchDelay(count) >= 500
  {
  }
}
