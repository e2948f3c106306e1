/**
 * The app tab of `gui/js/apps.js`: the package listing with its search filter, the
 * details pane with its safety classification, and the commands of the listing and of
 * the detail actions. The module is not wired into the start-up code, so the session
 * does not use it; its functions stand on their own.
 */
module Apps {
  import opened Common
  import opened Text
  import opened Sorting
  import opened Adb
  import opened DebloatDb
  import opened Debloater

  // ---- listing (apps.js:4-41) ----

  /** `listApps(filter)`: an explicit serial in front of the `pm list packages` arguments. */
  function AppsListRequest(dev: Option<string>, filter: string): (r: Option<Request>)
    ensures r.Some? <==> HasDevice(dev)
  {
    if HasDevice(dev) then Some(Request("adb.exe", ["-s", dev.value] + ListAppsArgs(filter), false, Some("list-apps")))
    else None
  }

  /**
   * The request is a foreground "list-apps" device command, so `runCommand` puts a
   * second `-s <serial>` in front of the one it already has.
   */
  lemma AppsListSerialTwice(dev: Option<string>, filter: string)
    requires HasDevice(dev)
    ensures var r := AppsListRequest(dev, filter).value;
      !r.background && r.key == Some("list-apps") && IsDeviceCommand(r.args) &&
      Injected(dev, r).args == ["-s", dev.value, "-s", dev.value] + ListAppsArgs(filter)
  {
    var r := AppsListRequest(dev, filter).value;
    assert "shell" in DeviceVerbs && r.args[2] == "shell" && r.args[2] in r.args;
  }

  /** The list pane: app items in order, the "No apps found." placeholder, and the no-results marker. */
  datatype AppPane = AppPane(items: seq<string>, placeholder: bool, noResults: bool)

  /** `populateAppList(data)` before it applies the search: the ids in code-unit order, or the placeholder. */
  function AppsPane(data: string): (pane: AppPane)
    ensures pane.placeholder <==> PackageIds(data) == []
    ensures multiset(pane.items) == multiset(PackageIds(data)) && !pane.noResults
  {
    var ids := PackageIds(data);
    SortByPerm(ids, OrdinalLe);
    if ids == [] then AppPane([], true, false) else AppPane(SortBy(ids, OrdinalLe), false, false)
  }

  lemma AppsPaneSorted(data: string)
    ensures SortedBy(AppsPane(data).items, OrdinalLe)
  {
    OrdinalLeIsTotalPreorder();
    SortBySorted(PackageIds(data), OrdinalLe);
  }

  /** An item stays visible when its name or its id, lower-cased, contains the filter; the name shown is the id. */
  predicate AppVisible(pkg: string, filter: string) {
    Contains(ToLower(pkg), filter) || Contains(ToLower(pkg), filter)
  }

  /** The visible items. */
  function VisibleApps(items: seq<string>, filter: string): (r: seq<string>)
    ensures |r| <= |items|
  {
    if items == [] then []
    else VisibleApps(items[..|items| - 1], filter) + (if AppVisible(items[|items| - 1], filter) then [items[|items| - 1]] else [])
  }

  /** The visible items are exactly the items that pass the filter. */
  lemma {:induction false} VisibleAppsMembers(items: seq<string>, filter: string)
    ensures forall p :: p in VisibleApps(items, filter) <==> p in items && AppVisible(p, filter)
  {
    if items != [] {
      var front, last := items[..|items| - 1], items[|items| - 1];
      VisibleAppsMembers(front, filter);
      assert items == front + [last];
    }
  }

  /** The number of children of the list element before the marker is added or removed. */
  function ChildCount(pane: AppPane): nat {
    |pane.items| + (if pane.placeholder then 1 else 0) + (if pane.noResults then 1 else 0)
  }

  /** The loop of `applyAppSearchFilter`: the visibility of each item and the number of visible ones. */
  method CountVisible(items: seq<string>, filter: string) returns (visible: seq<bool>, count: nat)
    ensures |visible| == |items|
    ensures forall i :: 0 <= i < |items| ==> visible[i] == AppVisible(items[i], filter)
    ensures count == |VisibleApps(items, filter)|
  {
    visible := [];
    count := 0;
    var i := 0;
    while i < |items|
      invariant 0 <= i <= |items|
      invariant |visible| == i
      invariant forall k :: 0 <= k < i ==> visible[k] == AppVisible(items[k], filter)
      invariant count == |VisibleApps(items[..i], filter)|
    {
      var pkg := ToLower(items[i]);
      var name := ToLower(items[i]);
      var isVisible := Contains(name, filter) || Contains(pkg, filter);
      assert isVisible == AppVisible(items[i], filter);
      assert items[..i + 1][..i] == items[..i];
      visible := visible + [isVisible];
      if isVisible {
        count := count + 1;
      }
      i := i + 1;
    }
    assert items[..i] == items;
  }

  /**
   * `applyAppSearchFilter`: after counting, the no-results marker is present exactly
   * when nothing is visible and the list element has any child at all (the "No apps
   * found." placeholder or an old marker counts as one).
   */
  method ApplyAppSearchFilter(pane: AppPane, input: string) returns (visible: seq<bool>, count: nat, after: AppPane)
    ensures |visible| == |pane.items|
    ensures forall i :: 0 <= i < |pane.items| ==> visible[i] == AppVisible(pane.items[i], ToLower(input))
    ensures count == |VisibleApps(pane.items, ToLower(input))|
    ensures after.items == pane.items && after.placeholder == pane.placeholder
    ensures after.noResults <==> count == 0 && ChildCount(pane) > 0
  {
    visible, count := CountVisible(pane.items, ToLower(input));
    after := pane;
    if count == 0 && ChildCount(pane) > 0 {
      if !pane.noResults {
        after := pane.(noResults := true);
      }
    } else if pane.noResults {
      after := pane.(noResults := false);
    }
  }

  /** An empty filter leaves everything visible: every text contains "". */
  lemma EmptyFilterShowsAll(items: seq<string>)
    ensures VisibleApps(items, "") == items
  {
    forall i | 0 <= i < |items| ensures AppVisible(items[i], "") {
      assert OccursAt(ToLower(items[i]), "", 0);
      ContainsIff(ToLower(items[i]), "");
    }
    VisibleAppsAll(items, "");
  }

  lemma {:induction false} VisibleAppsAll(items: seq<string>, filter: string)
    requires forall i :: 0 <= i < |items| ==> AppVisible(items[i], filter)
    ensures VisibleApps(items, filter) == items
  {
    if items != [] {
      var front, last := items[..|items| - 1], items[|items| - 1];
      assert forall i :: 0 <= i < |front| ==> AppVisible(front[i], filter) by {
        forall i | 0 <= i < |front| ensures AppVisible(front[i], filter) {
          assert front[i] == items[i];
        }
      }
      VisibleAppsAll(front, filter);
      assert AppVisible(last, filter);
      DropLastSnoc(items);
    }
  }

  // ---- the details pane (apps.js:73-104) ----

  /** The texts of the details pane. */
  datatype Details = Details(name: string, id: string, description: string, safetyText: string, safetyClass: string)

  const NoInformation := "No information available for this package. Research before taking any action."

  /** The badge text: lower-cased, with its first "recommended" turned into "safe". */
  function SafetyText(safety: string): string {
    ReplaceFirst(ToLower(safety), "recommended", "safe")
  }

  /** The badge class of a badge text. */
  function SafetyClass(text: string): (cls: string)
    ensures cls in {"safe", "caution", "unsafe", "unknown"}
    ensures cls == "safe" <==> text == "safe"
    ensures cls == "caution" <==> text in {"caution", "advanced"}
    ensures cls == "unsafe" <==> text in {"unsafe", "expert"}
  {
    if text == "safe" then "safe"
    else if text in {"caution", "advanced"} then "caution"
    else if text in {"unsafe", "expert"} then "unsafe"
    else "unknown"
  }

  /** `showAppDetails(pkg)`. */
  function AppDetails(db: map<string, DbEntry>, pkg: string): (d: Details)
    ensures d.id == pkg
    ensures pkg !in db ==>
      d.name == LastSegment(pkg, '.') && d.description == NoInformation &&
      d.safetyText == "unknown" && d.safetyClass == "unknown"
    ensures pkg in db ==>
      d.name == (if db[pkg].name != "" then db[pkg].name else LastSegment(pkg, '.')) &&
      d.description == (if db[pkg].description != "" then db[pkg].description else NoInformation) &&
      d.safetyText == SafetyText(if db[pkg].safety != "" then db[pkg].safety else "unknown")
    ensures d.safetyClass == SafetyClass(d.safetyText)
  {
    var entry := if pkg in db then Some(db[pkg]) else None;
    var name := if entry.Some? && entry.value.name != "" then entry.value.name else LastSegment(pkg, '.');
    var description := if entry.Some? && entry.value.description != "" then entry.value.description else NoInformation;
    var safety := if entry.Some? && entry.value.safety != "" then entry.value.safety else "unknown";
    var text := SafetyText(safety);
    assert ToLower("unknown") == "unknown" && !Contains("unknown", "recommended");
    Details(name, pkg, description, text, SafetyClass(text))
  }

  /**
   * A badge is "safe" exactly for a safety that lower-cases to "safe" or to
   * "recommended": the replacement turns only the whole word into "safe", so "not
   * recommended", which becomes "not safe", is "unknown".
   */
  lemma SafeExactly(t: string)
    ensures ReplaceFirst(t, "recommended", "safe") == "safe" <==> t == "safe" || t == "recommended"
  {
    var r := ReplaceFirst(t, "recommended", "safe");
    match IndexOf(t, "recommended")
    case None =>
      assert r == t;
      if t == "recommended" {
        assert OccursAt(t, "recommended", 0);
        assert false;
      }
    case Some(i) =>
      assert OccursAt(t, "recommended", i);
      assert r == t[..i] + "safe" + t[i + 11..];
      if r == "safe" {
        assert |t[..i]| == 0 && |t[i + 11..]| == 0;
        assert t == t[..i] + t[i..i + 11] + t[i + 11..];
      }
  }

  /**
   * The removal levels the debloat database writes, each with the badge class it
   * ends up with.
   */
  const DatabaseSafetyBadges: seq<(string, string)> :=
    [("Recommended", "safe"), ("Advanced", "caution"), ("Expert", "unsafe"), ("Unsafe", "unsafe")]

  /** Every removal level of the database gets its badge class, read case-insensitively. */
  lemma DatabaseSafetyClasses()
    ensures forall i :: 0 <= i < |DatabaseSafetyBadges| ==>
      SafetyClass(SafetyText(DatabaseSafetyBadges[i].0)) == DatabaseSafetyBadges[i].1
  {
    forall i | 0 <= i < |DatabaseSafetyBadges|
      ensures SafetyClass(SafetyText(DatabaseSafetyBadges[i].0)) == DatabaseSafetyBadges[i].1
    {
      var (level, cls) := DatabaseSafetyBadges[i];
      var lower := ToLower(level);
      if i == 0 {
        assert lower == "recommended";
        SafeExactly(lower);
      } else {
        assert lower == "advanced" || lower == "expert" || lower == "unsafe";
        assert |lower| < 11;
        assert !Contains(lower, "recommended");
      }
    }
  }

  // ---- the detail actions (apps.js:145-199) ----

  datatype DetailAction = Uninstall | Disable | Clear | Stop

  /** The arguments after the serial; the `cmd = "shell"` beside them is never passed on. */
  function DetailArgs(action: DetailAction, pkg: string): seq<string> {
    match action
    case Uninstall => ["pm", "uninstall", "-k", "--user", "0", pkg]
    case Disable => ["pm", "disable-user", "--user", "0", pkg]
    case Clear => ["pm", "clear", pkg]
    case Stop => ["am", "force-stop", pkg]
  }

  /** What a detail button does: the command it runs, and whether the list is reloaded after 1000 ms. */
  datatype DetailEffect = DetailEffect(command: Option<Request>, relist: bool)

  /** The confirmation dialogs of uninstall, disable and clear are answered `confirmed`; stop asks nothing. */
  function DetailEffectOf(action: DetailAction, pkg: Option<string>, dev: Option<string>, confirmed: bool): (e: DetailEffect)
    ensures e.command.Some? <==> Truthy(pkg) && HasDevice(dev) && (action == Stop || confirmed)
    ensures e.relist <==> e.command.Some? && action in {Uninstall, Disable}
    ensures e.command.Some? ==>
      e.command.value == Request("adb.exe", ["-s", dev.value] + DetailArgs(action, pkg.value), false, None)
  {
    if !Truthy(pkg) || !HasDevice(dev) then DetailEffect(None, false)
    else if action != Stop && !confirmed then DetailEffect(None, false)
    else DetailEffect(Some(Request("adb.exe", ["-s", dev.value] + DetailArgs(action, pkg.value), false, None)),
                      action in {Uninstall, Disable})
  }

  /**
   * Without the "shell" verb the detail commands are no device commands for
   * `runCommand` (unless the serial or the package is itself one of the verbs), so they
   * go out as given: `adb -s <serial> pm ...` rather than `adb -s <serial> shell pm ...`.
   */
  lemma DetailCommandsLackShell(action: DetailAction, pkg: string, dev: string)
    requires pkg !in DeviceVerbs && dev !in DeviceVerbs
    ensures var r := Request("adb.exe", ["-s", dev] + DetailArgs(action, pkg), false, None);
      "shell" !in r.args && !IsDeviceCommand(r.args) && Injected(Some(dev), r) == r
  {
    var args := ["-s", dev] + DetailArgs(action, pkg);
    forall w | w in args ensures w !in DeviceVerbs {
      if w != dev && w != pkg {
        assert |w| < 4 || w[0] !in {'s', 'p', 't', 'r', 'l'};
        ShortOrOtherInitial(w);
      }
    }
  }

  /** Every device verb has at least four letters and begins with one of "sptrl". */
  lemma ShortOrOtherInitial(w: string)
    requires |w| < 4 || w[0] !in {'s', 'p', 't', 'r', 'l'}
    ensures w !in DeviceVerbs
  {
    forall i | 0 <= i < |DeviceVerbs| ensures DeviceVerbs[i] != w {
      var v := DeviceVerbs[i];
      assert |v| >= 4 && v[0] in {'s', 'p', 't', 'r', 'l'};
    }
  }
}
