/**
 * The command runner and the output router of `gui/js/adb.js`, as values: what a
 * `runCommand` call hands to the external process, and which handler an output event
 * goes to.
 */
module Adb {
  import opened Common
  import opened Text

  /** One call of `runCommand(command, args, isBackgroundTask, commandKey)`. */
  datatype Request = Request(command: string, args: seq<string>, background: bool, key: Option<string>)

  datatype Severity = Info | Error | Success

  /** One line of the session log, without its wall-clock stamp. */
  datatype LogEntry = LogEntry(severity: Severity, message: string)

  const AbortMessage := "No device selected. Command aborted."

  /** The arguments that make a call a device command (adb.js:45-53). */
  const DeviceVerbs: seq<string> := ["shell", "pull", "push", "tcpip", "reboot", "screencap", "logcat"]

  /** `DeviceVerbs.some((cmd) => args.includes(cmd))`. */
  predicate IsDeviceCommand(args: seq<string>) {
    exists v :: v in DeviceVerbs && v in args
  }

  /** `state.currentDevice` used as a condition: `null` and `""` are both "no device". */
  predicate HasDevice(dev: Option<string>) {
    Truthy(dev)
  }

  /** Whether `runCommand` refuses the call locally. */
  predicate Aborts(dev: Option<string>, r: Request) {
    IsDeviceCommand(r.args) && !HasDevice(dev)
  }

  /** What `runCommand` hands to the external process when it does not abort. */
  function Injected(dev: Option<string>, r: Request): (d: Request)
    requires !Aborts(dev, r)
  {
    if IsDeviceCommand(r.args) then r.(args := ["-s", dev.value] + r.args) else r
  }

  /**
   * The serial is put in front exactly for device commands; nothing else about the
   * call changes, and putting it there does not change whether it is a device command.
   */
  lemma InjectedShape(dev: Option<string>, r: Request)
    requires !Aborts(dev, r)
    ensures Injected(dev, r).command == r.command && Injected(dev, r).background == r.background
    ensures Injected(dev, r).key == r.key
    ensures IsDeviceCommand(r.args) ==> Injected(dev, r).args == ["-s", dev.value] + r.args
    ensures !IsDeviceCommand(r.args) ==> Injected(dev, r).args == r.args
    ensures IsDeviceCommand(Injected(dev, r).args) == IsDeviceCommand(r.args)
  {
    if IsDeviceCommand(r.args) {
      var v :| v in DeviceVerbs && v in r.args;
      assert v in Injected(dev, r).args;
    }
  }

  /** The process calls made by running `rs` one after the other with the device fixed. */
  function DispatchAll(dev: Option<string>, rs: seq<Request>): seq<Request> {
    if rs == [] then []
    else
      var last := rs[|rs| - 1];
      DispatchAll(dev, rs[..|rs| - 1]) + (if Aborts(dev, last) then [] else [Injected(dev, last)])
  }

  /** The log lines written by running `rs`: one error per refused call. */
  function AbortLog(dev: Option<string>, rs: seq<Request>): seq<LogEntry> {
    if rs == [] then []
    else
      var last := rs[|rs| - 1];
      AbortLog(dev, rs[..|rs| - 1]) + (if Aborts(dev, last) then [LogEntry(Error, AbortMessage)] else [])
  }

  /** The busy flag after running `rs` from `busy`: set by every foreground call that is sent. */
  function BusyAfter(busy: bool, dev: Option<string>, rs: seq<Request>): bool {
    if rs == [] then busy
    else
      var last := rs[|rs| - 1];
      BusyAfter(busy, dev, rs[..|rs| - 1]) || (!Aborts(dev, last) && !last.background)
  }

  /**
   * With a device selected nothing is refused: every request is sent, in order, with
   * the serial injected where needed, and nothing is logged.
   */
  lemma {:induction false} DispatchAllWithDevice(dev: Option<string>, rs: seq<Request>)
    requires HasDevice(dev)
    ensures |DispatchAll(dev, rs)| == |rs|
    ensures forall i :: 0 <= i < |rs| ==> DispatchAll(dev, rs)[i] == Injected(dev, rs[i])
    ensures AbortLog(dev, rs) == []
  {
    if rs != [] {
      var front := rs[..|rs| - 1];
      DispatchAllWithDevice(dev, front);
      forall i | 0 <= i < |rs| ensures DispatchAll(dev, rs)[i] == Injected(dev, rs[i]) {
        if i < |rs| - 1 { assert rs[i] == front[i]; }
      }
    }
  }

  /** Background requests never set the busy flag. */
  lemma {:induction false} BusyAfterBackground(busy: bool, dev: Option<string>, rs: seq<Request>)
    requires forall i :: 0 <= i < |rs| ==> rs[i].background
    ensures BusyAfter(busy, dev, rs) == busy
  {
    if rs != [] {
      BusyAfterBackground(busy, dev, rs[..|rs| - 1]);
    }
  }

  /** Running one more request extends the dispatches, the log and the busy flag by that request alone. */
  lemma DispatchAllSnoc(busy: bool, dev: Option<string>, rs: seq<Request>, r: Request)
    ensures DispatchAll(dev, rs + [r]) == DispatchAll(dev, rs) + (if Aborts(dev, r) then [] else [Injected(dev, r)])
    ensures AbortLog(dev, rs + [r]) == AbortLog(dev, rs) + (if Aborts(dev, r) then [LogEntry(Error, AbortMessage)] else [])
    ensures BusyAfter(busy, dev, rs + [r]) == (BusyAfter(busy, dev, rs) || (!Aborts(dev, r) && !r.background))
  {
    assert (rs + [r])[..|rs + [r]| - 1] == rs;
  }

  /** Running a single request: sent unless refused, and the busy flag set for a sent foreground call. */
  lemma DispatchOne(busy: bool, dev: Option<string>, r: Request)
    ensures DispatchAll(dev, [r]) == (if Aborts(dev, r) then [] else [Injected(dev, r)])
    ensures BusyAfter(busy, dev, [r]) == (busy || (!Aborts(dev, r) && !r.background))
  {
    assert [r][..0] == [];
  }

  // ---- the output router (adb.js:15-36) ----

  /** `/^ERROR:/i`: the output begins with "ERROR:" in any letter case. */
  predicate ErrorTagged(output: string) {
    |output| >= 6 && forall k :: 0 <= k < 6 ==> LowerChar(output[k]) == "error:"[k]
  }

  /** `output.replace(/^ERROR:/i, "").trim()`. */
  function Message(output: string): (msg: string) {
    Trim(if ErrorTagged(output) then output[6..] else output)
  }

  /** Only a leading "ERROR:" is removed; a "SUCCESS:" tag, for one, stays in the message. */
  lemma MessageStrips(x: string)
    ensures Message("ERROR:" + x) == Trim(x)
    ensures Message("error:" + x) == Trim(x)
    ensures Message("SUCCESS:" + x) == Trim("SUCCESS:" + x)
  {
    var e, l, t := "ERROR:" + x, "error:" + x, "SUCCESS:" + x;
    assert forall k :: 0 <= k < 6 ==> e[k] == "ERROR:"[k] && l[k] == "error:"[k];
    assert e[6..] == x && l[6..] == x;
    assert ErrorTagged(e) && ErrorTagged(l);
    assert LowerChar(t[0]) == 's';
  }

  /** The handler an output event reaches. */
  datatype Route =
    | ToDeviceList   // populateDeviceList(output)
    | ToDashboard    // updateDashboardData(msg, key)
    | ToAppList      // populateAppList(msg)
    | ToFileList     // parseAndRenderDeviceFiles(msg)
    | ToToggle       // parseToggleState(msg, key)
    | ToDumpsys      // the dumpsys text box
    | LogError       // log(msg, "ERROR")
    | LogInfo        // log(msg, "INFO")
    | Dropped        // nothing

  /** The `if`/`else if` chain of the router, in its order. */
  function RouteOf(output: string, key: Option<string>): Route {
    if key == Some("adb-devices") then ToDeviceList
    else if key.Some? && StartsWith(key.value, "dashboard-") then ToDashboard
    else if key == Some("list-apps") then ToAppList
    else if key == Some("device-ls") then ToFileList
    else if key.Some? && StartsWith(key.value, "toggle-") then ToToggle
    else if key == Some("dumpsys") then ToDumpsys
    else if StartsWith(output, "ERROR:") then LogError
    else if Message(output) != "" then LogInfo
    else Dropped
  }

  /** The key alone picks every handler; the text matters only to what is logged. */
  lemma RouteByKey(output: string, key: Option<string>)
    ensures RouteOf(output, key) == ToDeviceList <==> key == Some("adb-devices")
    ensures RouteOf(output, key) == ToDashboard <==> key.Some? && StartsWith(key.value, "dashboard-")
    ensures RouteOf(output, key) == ToAppList <==> key == Some("list-apps")
    ensures RouteOf(output, key) == ToFileList <==> key == Some("device-ls")
    ensures RouteOf(output, key) == ToToggle <==> key.Some? && StartsWith(key.value, "toggle-")
    ensures RouteOf(output, key) == ToDumpsys <==> key == Some("dumpsys")
    ensures RouteOf(output, key) == LogError <==> !HandledKey(key) && StartsWith(output, "ERROR:")
    ensures RouteOf(output, key) == LogInfo <==>
      !HandledKey(key) && !StartsWith(output, "ERROR:") && Message(output) != ""
  {
    DiffersAt("adb-devices", "dashboard-", 0);
    DiffersAt("adb-devices", "toggle-", 0);
    DiffersAt("list-apps", "dashboard-", 0);
    DiffersAt("list-apps", "toggle-", 0);
    DiffersAt("device-ls", "dashboard-", 1);
    DiffersAt("device-ls", "toggle-", 0);
    DiffersAt("dumpsys", "dashboard-", 1);
    DiffersAt("dumpsys", "toggle-", 0);
  }

  lemma DiffersAt(s: string, p: string, k: nat)
    requires k < |p| && (k >= |s| || s[k] != p[k])
    ensures !StartsWith(s, p)
  {
    if |p| <= |s| { assert s[..|p|][k] == s[k]; }
  }

  /** Keys that reach a handler of their own. */
  predicate HandledKey(key: Option<string>) {
    key.Some? &&
    (key.value in {"adb-devices", "list-apps", "device-ls", "dumpsys"} ||
     StartsWith(key.value, "dashboard-") || StartsWith(key.value, "toggle-"))
  }

  /**
   * The error test for the log is case-sensitive while the stripping is not: an
   * output tagged "error:" in lower case and without a key is logged as information,
   * with the tag removed, or dropped when nothing else is left.
   */
  lemma LowerCaseErrorLoggedAsInfo(x: string)
    ensures RouteOf("error:" + x, None) == (if Trim(x) != "" then LogInfo else Dropped)
    ensures Message("error:" + x) == Trim(x)
  {
    var out := "error:" + x;
    assert Message(out) == Trim(x) by { MessageStrips(x); }
    assert !StartsWith(out, "ERROR:") by {
      assert out[0] == 'e';
      DiffersAt(out, "ERROR:", 0);
    }
    UntaggedUnkeyed(out);
  }

  lemma UntaggedUnkeyed(output: string)
    requires !StartsWith(output, "ERROR:")
    ensures RouteOf(output, None) == (if Message(output) != "" then LogInfo else Dropped)
  {
  }
}
