/**
 * The device registry and the dashboard of `gui/js/dashboard.js`: the parse of
 * `adb devices`, the seven background queries, and the field extraction from each
 * query's output.
 */
module Dashboard {
  import opened Common
  import opened Text
  import opened Patterns
  import opened Adb

  // ---- the device list (dashboard.js:26-33) ----

  /** A line that names a device: not blank, and mentioning "device". */
  predicate IsDeviceLine(line: string) {
    Trim(line) != "" && Contains(line, "device")
  }

  /** The serial of a device line: its first tab-separated field, trimmed. */
  function DeviceIdOf(line: string): (id: string)
    ensures '\t' !in id
    ensures id == [] || (!IsSpace(id[0]) && !IsSpace(id[|id| - 1]))
  {
    var part := Split(line, '\t')[0];
    TrimSpec(part);
    Trim(part)
  }

  /** The lines after the header line of `adb devices`. */
  function DeviceLines(data: string): seq<string> {
    Split(data, '\n')[1..]
  }

  /** The serials listed in `adb devices` output, in the order of their lines. */
  function DeviceIds(data: string): seq<string> {
    Map(Filter(DeviceLines(data), IsDeviceLine), DeviceIdOf)
  }

  /** The `forEach` of `populateDeviceList` that collects the serials. */
  method ParseDeviceList(data: string) returns (ids: seq<string>)
    ensures ids == DeviceIds(data)
  {
    var lines := Split(data, '\n')[1..];
    ids := [];
    var i := 0;
    while i < |lines|
      invariant 0 <= i <= |lines|
      invariant ids == Map(Filter(lines[..i], IsDeviceLine), DeviceIdOf)
    {
      assert lines[..i + 1] == lines[..i] + [lines[i]];
      FilterSnoc(lines[..i], lines[i], IsDeviceLine);
      if IsDeviceLine(lines[i]) {
        MapSnoc(Filter(lines[..i], IsDeviceLine), lines[i], DeviceIdOf);
        ids := ids + [DeviceIdOf(lines[i])];
      }
      i := i + 1;
    }
    assert lines[..i] == lines;
  }

  /** A serial is listed exactly when some line after the header is a device line naming it. */
  lemma DeviceIdsMembership(data: string, id: string)
    ensures id in DeviceIds(data) <==>
      exists line :: line in DeviceLines(data) && IsDeviceLine(line) && DeviceIdOf(line) == id
  {
    var kept := Filter(DeviceLines(data), IsDeviceLine);
    if id in DeviceIds(data) {
      var k :| 0 <= k < |kept| && DeviceIds(data)[k] == id;
      assert kept[k] in kept;
    } else {
      forall line | line in DeviceLines(data) && IsDeviceLine(line) ensures DeviceIdOf(line) != id {
        var k :| 0 <= k < |kept| && kept[k] == line;
        assert DeviceIds(data)[k] == DeviceIdOf(line);
      }
    }
  }

  /** Whatever the header line says, it contributes no serial: only the lines after it count. */
  lemma DeviceIdsSkipHeader(header: string, rest: string)
    requires '\n' !in header
    ensures DeviceIds(header + "\n" + rest) == Map(Filter(Split(rest, '\n'), IsDeviceLine), DeviceIdOf)
  {
    SplitAfterFirst(header, '\n', rest);
  }

  // ---- the dashboard queries (dashboard.js:77-91) ----

  /** The keyed queries of `getDashboardData`, in the key order of its object literal. */
  const DashboardQueries: seq<(string, seq<string>)> := [
    ("dashboard-props", ["shell", "getprop"]),
    ("dashboard-battery", ["shell", "dumpsys", "battery"]),
    ("dashboard-network", ["shell", "ip", "addr", "show", "wlan0"]),
    ("dashboard-cpu", ["shell", "dumpsys", "cpuinfo"]),
    ("dashboard-ram", ["shell", "cat", "/proc/meminfo"]),
    ("dashboard-screenSize", ["shell", "wm", "size"]),
    ("dashboard-screenDensity", ["shell", "wm", "density"])
  ]

  /** The background `adb` request of one query. */
  function QueryRequest(q: (string, seq<string>)): Request {
    Request("adb", q.1, true, Some(q.0))
  }

  /** The requests `getDashboardData` hands to `runCommand`, in order. */
  function DashboardRequests(): (rs: seq<Request>)
    ensures |rs| == 7
  {
    Map(DashboardQueries, QueryRequest)
  }

  /** Every query is a background `adb shell` call keyed "dashboard-...". */
  lemma DashboardRequestsBackground()
    ensures forall i :: 0 <= i < 7 ==>
      DashboardRequests()[i].background && DashboardRequests()[i].args[0] == "shell" &&
      IsDeviceCommand(DashboardRequests()[i].args) && DashboardRequests()[i].key.Some? &&
      StartsWith(DashboardRequests()[i].key.value, "dashboard-")
  {
    var rs := DashboardRequests();
    assert "shell" in DeviceVerbs;
    forall i | 0 <= i < 7
      ensures rs[i].background && rs[i].args[0] == "shell" && IsDeviceCommand(rs[i].args)
      ensures rs[i].key.Some? && StartsWith(rs[i].key.value, "dashboard-")
    {
      assert rs[i] == QueryRequest(DashboardQueries[i]);
      assert rs[i].args[0] in rs[i].args;
      var key := DashboardQueries[i].0;
      assert key[..10] == "dashboard-";
    }
  }

  /** No two queries share a key. */
  lemma DashboardKeysDistinct()
    ensures forall i, j :: 0 <= i < j < 7 ==> DashboardRequests()[i].key != DashboardRequests()[j].key
  {
    var rs := DashboardRequests();
    forall i, j | 0 <= i < j < 7 ensures rs[i].key != rs[j].key {
      assert rs[i].key == Some(DashboardQueries[i].0) && rs[j].key == Some(DashboardQueries[j].0);
      var a, b := DashboardQueries[i].0, DashboardQueries[j].0;
      assert a[10] != b[10] || a[11] != b[11] || |a| != |b|;
    }
  }

  /** The output router hands the output of every dashboard query back to the dashboard updater. */
  lemma DashboardRequestsRouted()
    ensures forall i, out :: 0 <= i < 7 ==> RouteOf(out, DashboardRequests()[i].key) == ToDashboard
  {
    DashboardRequestsBackground();
    var rs := DashboardRequests();
    forall i, out | 0 <= i < 7 ensures RouteOf(out, rs[i].key) == ToDashboard {
      RouteByKey(out, rs[i].key);
    }
  }

  // ---- field extraction (dashboard.js:94-146) ----

  /** `getProp(key)`: the first `[key]: [value]` of a `getprop` dump. */
  function GetProp(data: string, key: string): Option<string> {
    Delimited(data, "[" + key + "]: [", NotBracketOrEol, "]")
  }

  /**
   * A found value is the text up to the first `]` on the line of the leftmost
   * `[key]: [` that has one: it holds no `]` and no line break, and
   * `[key]: [value]` occurs in the dump. There is no value exactly when no `[key]: [`
   * is closed by a `]` on its own line.
   */
  lemma GetPropSpec(data: string, key: string)
    ensures GetProp(data, key).Some? ==>
      ']' !in GetProp(data, key).value &&
      (forall c :: c in GetProp(data, key).value ==> !IsLineTerminator(c)) &&
      exists i :: OccursAt(data, "[" + key + "]: [" + GetProp(data, key).value + "]", i)
    ensures GetProp(data, key).None? <==>
      forall i :: 0 <= i <= |data| ==> !DelimitedAt(data, "[" + key + "]: [", NotBracketOrEol, "]", i)
  {
    DelimitedSpec(data, "[" + key + "]: [", NotBracketOrEol, "]");
    DelimitedInClass(data, "[" + key + "]: [", NotBracketOrEol, "]");
  }

  /** A getprop field: its value, or "N/A" when missing or empty. */
  function PropText(data: string, key: string): (r: string)
    ensures Truthy(GetProp(data, key)) ==> r == GetProp(data, key).value
    ensures !Truthy(GetProp(data, key)) ==> r == "N/A"
    ensures r != ""
  {
    OrElse(GetProp(data, key), "N/A")
  }

  /** `Android <release> (API <sdk>)`, each part "?" when missing or empty. */
  function VersionText(data: string): (r: string)
    ensures StartsWith(r, "Android ") && EndsWith(r, ")")
    ensures var release, sdk := GetProp(data, "ro.build.version.release"), GetProp(data, "ro.build.version.sdk");
      r == "Android " + (if Truthy(release) then release.value else "?") +
        " (API " + (if Truthy(sdk) then sdk.value else "?") + ")"
    ensures !Truthy(GetProp(data, "ro.build.version.release")) && !Truthy(GetProp(data, "ro.build.version.sdk")) ==>
      r == "Android ? (API ?)"
  {
    "Android " + OrElse(GetProp(data, "ro.build.version.release"), "?") +
    " (API " + OrElse(GetProp(data, "ro.build.version.sdk"), "?") + ")"
  }

  /** `statusMap[statusNum] || "Unknown"`. */
  function StatusName(status: Option<string>): (name: string) {
    match status
    case Some("2") => "Charging"
    case Some("3") => "Discharging"
    case Some("4") => "Not Charging"
    case Some("5") => "Full"
    case _ => "Unknown"
  }

  /** Exactly the four codes 2 to 5 have names, one each; every other status, or none, is "Unknown". */
  lemma StatusNameTable(status: Option<string>)
    ensures StatusName(status) == "Charging" <==> status == Some("2")
    ensures StatusName(status) == "Discharging" <==> status == Some("3")
    ensures StatusName(status) == "Not Charging" <==> status == Some("4")
    ensures StatusName(status) == "Full" <==> status == Some("5")
    ensures StatusName(status) == "Unknown" <==> status !in {Some("2"), Some("3"), Some("4"), Some("5")}
  {
  }

  /** The battery line: `<level>% (<status name>)`, or "N/A" without a level. */
  function BatteryText(data: string): (r: string)
    ensures MarkerRun(data, "level: ", Digit).None? ==> r == "N/A"
    ensures MarkerRun(data, "level: ", Digit).Some? ==>
      r == MarkerRun(data, "level: ", Digit).value + "% (" + StatusName(MarkerRun(data, "status: ", Digit)) + ")"
  {
    match MarkerRun(data, "level: ", Digit)
    case None => "N/A"
    case Some(level) => level + "% (" + StatusName(MarkerRun(data, "status: ", Digit)) + ")"
  }

  /** The battery line is "N/A" exactly when no "level: " is followed by a digit. */
  lemma BatteryTextSpec(data: string)
    ensures BatteryText(data) == "N/A" <==> forall i :: 0 <= i <= |data| ==> !MarkerRunAt(data, "level: ", Digit, i)
  {
    MarkerRunSpec(data, "level: ", Digit);
    if MarkerRun(data, "level: ", Digit).Some? {
      var level := MarkerRun(data, "level: ", Digit).value;
      MarkerRunInClass(data, "level: ", Digit);
      assert level[0] in level;
      assert BatteryText(data)[0] == level[0];
    }
  }

  function IpText(data: string): (r: string)
    ensures Inet(data).None? ==> r == "N/A"
    ensures Inet(data).Some? ==> r == Inet(data).value
  {
    InetDottedQuad(data);
    OrElse(Inet(data), "N/A")
  }

  /** The address shown is "N/A" or a dotted quad of digit groups. */
  lemma IpTextShape(data: string)
    ensures IpText(data) == "N/A" || exists g1, g2, g3, g4 ::
      (|g1| > 0 && |g2| > 0 && |g3| > 0 && |g4| > 0 &&
       AllDigits(g1) && AllDigits(g2) && AllDigits(g3) && AllDigits(g4) &&
       IpText(data) == g1 + "." + g2 + "." + g3 + "." + g4)
  {
    InetDottedQuad(data);
  }

  /** The extraction behind a "N/A"-defaulted field: a non-empty run of the class, or "N/A". */
  function RunText(data: string, marker: string, k: CharClass): (r: string)
    ensures r == "N/A" || (|r| > 0 && forall c :: c in r ==> InClass(c, k))
    ensures r == "N/A" <==> MarkerRun(data, marker, k).None? || MarkerRun(data, marker, k) == Some("N/A")
    ensures MarkerRun(data, marker, k).Some? ==> r == MarkerRun(data, marker, k).value
  {
    MarkerRunInClass(data, marker, k);
    OrElse(MarkerRun(data, marker, k), "N/A")
  }

  function MacText(data: string): string { RunText(data, "link/ether ", HexOrColon) }

  function CpuText(data: string): string { RunText(data, "Load: ", DigitOrDot) }

  function ResolutionText(data: string): string { RunText(data, "Physical size: ", DigitOrX) }

  /** None of these fields can hold the letters of "N/A" as a value, so "N/A" means "not found". */
  lemma RunTextNotFound(data: string)
    ensures MacText(data) == "N/A" <==> MarkerRun(data, "link/ether ", HexOrColon).None?
    ensures CpuText(data) == "N/A" <==> MarkerRun(data, "Load: ", DigitOrDot).None?
    ensures ResolutionText(data) == "N/A" <==> MarkerRun(data, "Physical size: ", DigitOrX).None?
  {
    MarkerRunInClass(data, "link/ether ", HexOrColon);
    MarkerRunInClass(data, "Load: ", DigitOrDot);
    MarkerRunInClass(data, "Physical size: ", DigitOrX);
    assert 'N' in "N/A";
  }

  /** `${match} dpi || "N/A"`: a template string is never falsy, so a missing match shows "undefined dpi". */
  function DensityText(data: string): (r: string)
    ensures EndsWith(r, " dpi") && r != "N/A"
    ensures r == "undefined dpi" <==> MarkerRun(data, "Physical density: ", Digit).None?
    ensures MarkerRun(data, "Physical density: ", Digit).Some? ==>
      r[..|r| - 4] == MarkerRun(data, "Physical density: ", Digit).value
  {
    MarkerRunInClass(data, "Physical density: ", Digit);
    var m := MarkerRun(data, "Physical density: ", Digit);
    assert m.Some? ==> m.value[0] in m.value && !InClass('u', Digit);
    OrElse(m, "undefined") + " dpi"
  }

  /** The `MemTotal:`/`MemAvailable:` pattern `tag\s+(\d+) kB`. */
  function MemPattern(tag: string): seq<Token> {
    [Lit(tag), Run(Space, true), Run(Digit, true), Lit(" kB")]
  }

  function MemField(data: string, tag: string): Option<string> {
    Capture(data, MemPattern(tag), 2, 2)
  }

  lemma MemFieldDigits(data: string, tag: string)
    ensures MemField(data, tag).Some? ==> |MemField(data, tag).value| > 0 && AllDigits(MemField(data, tag).value)
  {
    var r := SearchFrom(data, MemPattern(tag), 0);
    if r.Some? {
      MatchAtConsumes(data, r.value[0], MemPattern(tag), 2);
      assert MemPattern(tag)[2] == Run(Digit, true);
    }
  }

  /** `parseInt` of the captured kB figure. */
  function MemKb(data: string, tag: string): (n: Option<nat>)
    ensures n.Some? <==> MemField(data, tag).Some?
    ensures n.Some? ==>
      AllDigits(MemField(data, tag).value) && n.value == DecimalValue(MemField(data, tag).value)
  {
    match MemField(data, tag)
    case None => None
    case Some(v) =>
      MemFieldDigits(data, tag);
      Some(DecimalValue(v))
  }

  /** A JavaScript number used as a condition: `NaN` (no match) and `0` are falsy. */
  predicate PositiveKb(n: Option<nat>) {
    n.Some? && n.value != 0
  }

  /** The used and total kB of the RAM bar, when both figures are present and non-zero. */
  function RamUsage(data: string): (u: Option<(int, nat)>)
    ensures u.Some? <==> PositiveKb(MemKb(data, "MemTotal:")) && PositiveKb(MemKb(data, "MemAvailable:"))
    ensures u.Some? ==>
      u.value.1 == MemKb(data, "MemTotal:").value && u.value.1 > 0 &&
      u.value.0 + MemKb(data, "MemAvailable:").value == u.value.1
  {
    var total, avail := MemKb(data, "MemTotal:"), MemKb(data, "MemAvailable:");
    if PositiveKb(total) && PositiveKb(avail) then Some((total.value - avail.value, total.value)) else None
  }

  /** The ids of the `.info-line strong` elements. */
  const InfoFieldIds: seq<string> := ["info-model", "info-brand", "info-version", "info-build",
    "info-battery", "info-ip", "info-mac", "info-cpu", "info-ram-text", "info-resolution", "info-density"]

  /** The text fields `updateDashboardData(data, commandKey)` writes. */
  function DashboardTexts(data: string, key: Option<string>): (m: map<string, string>)
    ensures forall id :: id in m ==> id in InfoFieldIds
    ensures key == Some("dashboard-ram") ==> m == map[]
  {
    if key == Some("dashboard-props") then
      map["info-model" := PropText(data, "ro.product.model"),
          "info-brand" := PropText(data, "ro.product.brand"),
          "info-version" := VersionText(data),
          "info-build" := PropText(data, "ro.build.display.id")]
    else if key == Some("dashboard-battery") then map["info-battery" := BatteryText(data)]
    else if key == Some("dashboard-network") then map["info-ip" := IpText(data), "info-mac" := MacText(data)]
    else if key == Some("dashboard-cpu") then map["info-cpu" := CpuText(data)]
    else if key == Some("dashboard-screenSize") then map["info-resolution" := ResolutionText(data)]
    else if key == Some("dashboard-screenDensity") then map["info-density" := DensityText(data)]
    else map[]
  }

  /** Only the keys of the dashboard queries write fields; the RAM query writes none of these. */
  lemma DashboardTextsKeys(data: string, key: Option<string>)
    ensures DashboardTexts(data, key) != map[] ==>
      exists i :: 0 <= i < |DashboardQueries| && key == Some(DashboardQueries[i].0) && i != 4
  {
    if DashboardTexts(data, key) != map[] {
      if key == Some("dashboard-props") { assert key == Some(DashboardQueries[0].0); }
      else if key == Some("dashboard-battery") { assert key == Some(DashboardQueries[1].0); }
      else if key == Some("dashboard-network") { assert key == Some(DashboardQueries[2].0); }
      else if key == Some("dashboard-cpu") { assert key == Some(DashboardQueries[3].0); }
      else if key == Some("dashboard-screenSize") { assert key == Some(DashboardQueries[5].0); }
      else { assert key == Some(DashboardQueries[6].0); }
    }
  }
}
