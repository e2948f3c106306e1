/**
 * The device tab of `gui/js/device.js`: the developer toggles (their buttons, the
 * properties written and read, and the parse of a read-back), and the argument builders
 * of the other controls.
 */
module Device {
  import opened Common
  import opened Text
  import opened Adb

  // ---- the toggle record (state.js:25-29) ----

  /** `state.devToggles`: an object's entries in insertion order. */
  type Toggles = seq<(string, bool)>

  const InitialToggles: Toggles := [("layout", false), ("overdraw", false), ("pointer", false)]

  function Keys(t: Toggles): (ks: seq<string>)
    ensures |ks| == |t|
  {
    if t == [] then [] else [t[0].0] + Keys(t[1..])
  }

  /** The keys are the entries' first components, in order. */
  lemma {:induction false} KeysAt(t: Toggles)
    ensures forall i :: 0 <= i < |t| ==> Keys(t)[i] == t[i].0
  {
    if t != [] {
      KeysAt(t[1..]);
      forall i | 0 <= i < |t| ensures Keys(t)[i] == t[i].0 {
        if i > 0 { assert Keys(t)[i] == Keys(t[1..])[i - 1]; }
      }
    }
  }

  /** `devToggles[key]`, `None` for `undefined`. */
  function Get(t: Toggles, key: string): Option<bool> {
    if t == [] then None
    else if t[0].0 == key then Some(t[0].1)
    else Get(t[1..], key)
  }

  /** `devToggles[key] = value`. */
  function Put(t: Toggles, key: string, value: bool): Toggles {
    if t == [] then [(key, value)]
    else if t[0].0 == key then [(key, value)] + t[1..]
    else [t[0]] + Put(t[1..], key, value)
  }

  /** The key reads back the value written, no other key changes, and an existing entry keeps its place while a new one goes last. */
  lemma {:induction false} PutSpec(t: Toggles, key: string, value: bool)
    ensures Get(Put(t, key, value), key) == Some(value)
    ensures forall k :: k != key ==> Get(Put(t, key, value), k) == Get(t, k)
    ensures Keys(Put(t, key, value)) == if key in Keys(t) then Keys(t) else Keys(t) + [key]
  {
    if t == [] {
    } else if t[0].0 == key {
      assert ([(key, value)] + t[1..])[1..] == t[1..];
    } else {
      var rest := Put(t[1..], key, value);
      PutSpec(t[1..], key, value);
      assert ([t[0]] + rest)[1..] == rest;
    }
  }

  /** The value as a condition: `undefined` is falsy. */
  predicate IsOn(t: Toggles, key: string) {
    Get(t, key) == Some(true)
  }

  lemma InitialTogglesOff()
    ensures Keys(InitialToggles) == ["layout", "overdraw", "pointer"]
    ensures forall k :: k in Keys(InitialToggles) ==> Get(InitialToggles, k) == Some(false)
  {
  }

  // ---- a click on a toggle (device.js:72-99) ----

  /** `toggleMap`: button id to toggle key. */
  const ToggleMap: seq<(string, string)> := [
    ("toggle-layout-bounds", "layout"), ("toggle-gpu-overdraw", "overdraw"), ("toggle-pointer-location", "pointer")]

  /** The toggles after a click: the key is flipped (`!undefined` is `true`). */
  function Flip(t: Toggles, key: string): (r: Toggles)
    ensures IsOn(r, key) <==> !IsOn(t, key)
    ensures Get(r, key).Some?
    ensures forall k :: k != key ==> Get(r, k) == Get(t, k)
  {
    PutSpec(t, key, !IsOn(t, key));
    Put(t, key, !IsOn(t, key))
  }

  /** The property a click writes. */
  function WriteProp(key: string): string {
    if key == "overdraw" then "debug.hwui.show_overdraw" else "debug.hwui." + key
  }

  /** The value a click writes: "show" for overdraw or "1" when on, "false" when off. */
  function WriteValue(key: string, on: bool): string {
    if on then (if key == "overdraw" then "show" else "1") else "false"
  }

  function SetPropRequest(key: string, on: bool): (r: Request)
    ensures IsDeviceCommand(r.args) && !r.background && r.key.None?
    ensures |r.args| == 4 && r.args[1] == "setprop" && r.args[2] == WriteProp(key) && r.args[3] == WriteValue(key, on)
  {
    assert "shell" in DeviceVerbs && ["shell", "setprop", WriteProp(key), WriteValue(key, on)][0] == "shell";
    Request("adb", ["shell", "setprop", WriteProp(key), WriteValue(key, on)], false, None)
  }

  /** The background request 200 ms after a click that makes the system re-read the properties. */
  const PokeRequest := Request("adb", ["shell", "service", "call", "activity", "1599295570"], true, None)

  // ---- reading the toggles back (device.js:133-160) ----

  /** `propMap[stateKey]`. */
  function ReadProp(key: string): (prop: Option<string>)
    ensures prop.Some? <==> key in {"layout", "overdraw", "pointer"}
  {
    if key == "layout" then Some("debug.hwui.layout")
    else if key == "overdraw" then Some("debug.hwui.show_overdraw")
    else if key == "pointer" then Some("debug.hwui.pointer_location")
    else None
  }

  /** Layout and overdraw are read where they are written; pointer is written to `debug.hwui.pointer` but read from `debug.hwui.pointer_location`. */
  lemma ReadWhereWritten()
    ensures ReadProp("layout") == Some(WriteProp("layout"))
    ensures ReadProp("overdraw") == Some(WriteProp("overdraw"))
    ensures WriteProp("pointer") == "debug.hwui.pointer" && ReadProp("pointer") == Some("debug.hwui.pointer_location")
  {
    assert "debug.hwui." + "layout" == "debug.hwui.layout";
    assert "debug.hwui." + "pointer" == "debug.hwui.pointer";
  }

  /** `checkToggleState(key, true)`; an unknown key's property is the text of `undefined`. */
  function GetPropRequest(key: string): (r: Request)
    ensures IsDeviceCommand(r.args) && r.background && r.key == Some("toggle-" + key)
  {
    var args := ["shell", "getprop", OrElse(ReadProp(key), "undefined")];
    assert "shell" in DeviceVerbs && args[0] == "shell";
    Request("adb", args, true, Some("toggle-" + key))
  }

  /** `checkAllToggleStates`: one query per key of the record, in its order. */
  function CheckRequests(t: Toggles): (rs: seq<Request>)
    ensures |rs| == |t| && forall i :: 0 <= i < |t| ==> rs[i] == GetPropRequest(t[i].0)
  {
    KeysAt(t);
    Map(Keys(t), GetPropRequest)
  }

  /** `commandKey.split("-")[1]`. */
  function ToggleKeyOf(commandKey: string): string
    requires StartsWith(commandKey, "toggle-")
  {
    SplitAfter(commandKey);
    Split(commandKey, '-')[1]
  }

  lemma SplitAfter(commandKey: string)
    requires StartsWith(commandKey, "toggle-")
    ensures |Split(commandKey, '-')| >= 2
    ensures Split(commandKey, '-') == ["toggle"] + Split(commandKey[7..], '-')
  {
    assert commandKey == "toggle" + ['-'] + commandKey[7..];
    SplitAfterFirst("toggle", '-', commandKey[7..]);
  }

  /** The key of a query comes back from its output as the key that is written: a round trip through the command key. */
  lemma ToggleKeyRoundTrip(key: string)
    requires '-' !in key
    ensures StartsWith("toggle-" + key, "toggle-") && ToggleKeyOf("toggle-" + key) == key
    ensures RouteOf("", GetPropRequest(key).key) == ToToggle
  {
    var ck := "toggle-" + key;
    assert ck[..7] == "toggle-";
    SplitAfter(ck);
    assert ck[7..] == key;
    assert Split(key, '-') == [key] by {
      JoinSplit(key, '-');
      SplitOfSeparatorFree(key, '-');
    }
    RouteByKey("", GetPropRequest(key).key);
  }

  lemma {:induction false} SplitOfSeparatorFree(s: string, sep: char)
    requires sep !in s
    ensures Split(s, sep) == [s]
  {
    if s != [] {
      SplitOfSeparatorFree(s[1..], sep);
      assert [s[0]] + s[1..] == s;
    }
  }

  /** `parseToggleState`: on exactly when the output mentions "true", "1" or "show", whatever the key. */
  predicate ToggleOn(msg: string) {
    Contains(msg, "true") || Contains(msg, "1") || Contains(msg, "show")
  }

  /** The toggles after `parseToggleState(msg, commandKey)`: only the parsed key is written. */
  function ParseToggleState(t: Toggles, msg: string, commandKey: string): (r: Toggles)
    requires StartsWith(commandKey, "toggle-")
    ensures Get(r, ToggleKeyOf(commandKey)) == Some(ToggleOn(msg))
    ensures forall k :: k != ToggleKeyOf(commandKey) ==> Get(r, k) == Get(t, k)
  {
    PutSpec(t, ToggleKeyOf(commandKey), ToggleOn(msg));
    Put(t, ToggleKeyOf(commandKey), ToggleOn(msg))
  }

  /** A value a click writes reads back as the state it was written for. */
  lemma WrittenValueReadsBack(key: string, on: bool)
    ensures ToggleOn(WriteValue(key, on)) == on
  {
    if on {
      if key == "overdraw" {
        assert OccursAt("show", "show", 0);
        ContainsIff("show", "show");
      } else {
        assert OccursAt("1", "1", 0);
        ContainsIff("1", "1");
      }
    } else {
      NotAt("false", "true");
      NotAt("false", "1");
      NotAt("false", "show");
    }
  }

  /** The button id of a key: the three renames, in the order the code applies them. */
  function ButtonId(key: string): string {
    "toggle-" + ReplaceFirst(ReplaceFirst(ReplaceFirst(key, "overdraw", "gpu-overdraw"), "pointer", "pointer-location"), "layout", "layout-bounds")
  }

  /** For each key of the table the renames lead back to the button it belongs to. */
  lemma ButtonIdLayout()
    ensures ButtonId("layout") == ToggleMap[0].0
  {
    assert ReplaceFirst("layout", "overdraw", "gpu-overdraw") == "layout" by { NotAt("layout", "overdraw"); }
    assert ReplaceFirst("layout", "pointer", "pointer-location") == "layout" by { NotAt("layout", "pointer"); }
    assert ReplaceFirst("layout", "layout", "layout-bounds") == "layout-bounds" by { ReplaceWhole("layout", "layout-bounds"); }
    ButtonIdSteps("layout", "layout", "layout", "layout-bounds");
    ToggleIds();
  }

  lemma ButtonIdOverdraw()
    ensures ButtonId("overdraw") == ToggleMap[1].0
  {
    RenamesOfOverdraw();
    ButtonIdSteps("overdraw", "gpu-overdraw", "gpu-overdraw", "gpu-overdraw");
    ToggleIds();
  }

  lemma RenamesOfOverdraw()
    ensures ReplaceFirst("overdraw", "overdraw", "gpu-overdraw") == "gpu-overdraw"
    ensures ReplaceFirst("gpu-overdraw", "pointer", "pointer-location") == "gpu-overdraw"
    ensures ReplaceFirst("gpu-overdraw", "layout", "layout-bounds") == "gpu-overdraw"
  {
    ReplaceWhole("overdraw", "gpu-overdraw");
    NotAt("gpu-overdraw", "pointer");
    NotAt("gpu-overdraw", "layout");
  }

  lemma ButtonIdPointer()
    ensures ButtonId("pointer") == ToggleMap[2].0
  {
    RenamesOfPointer();
    ButtonIdSteps("pointer", "pointer", "pointer-location", "pointer-location");
    ToggleIds();
  }

  lemma RenamesOfPointer()
    ensures ReplaceFirst("pointer", "overdraw", "gpu-overdraw") == "pointer"
    ensures ReplaceFirst("pointer", "pointer", "pointer-location") == "pointer-location"
    ensures ReplaceFirst("pointer-location", "layout", "layout-bounds") == "pointer-location"
  {
    NotAt("pointer", "overdraw");
    ReplaceWhole("pointer", "pointer-location");
    NotAt("pointer-location", "layout");
  }

  /** The button ids of the table are the prefix followed by the renamed key. */
  lemma ToggleIds()
    ensures ToggleMap[0].0 == "toggle-" + "layout-bounds"
    ensures ToggleMap[1].0 == "toggle-" + "gpu-overdraw"
    ensures ToggleMap[2].0 == "toggle-" + "pointer-location"
  {
  }

  /** The button id from the results of the three renames. */
  lemma ButtonIdSteps(key: string, s1: string, s2: string, s3: string)
    requires ReplaceFirst(key, "overdraw", "gpu-overdraw") == s1
    requires ReplaceFirst(s1, "pointer", "pointer-location") == s2
    requires ReplaceFirst(s2, "layout", "layout-bounds") == s3
    ensures ButtonId(key) == "toggle-" + s3
  {
  }

  lemma ReplaceWhole(s: string, rep: string)
    ensures ReplaceFirst(s, s, rep) == rep
  {
    assert OccursAt(s, s, 0);
    assert IndexOf(s, s) == Some(0);
    assert s[..0] + rep + s[|s|..] == rep;
  }

  /** Position `i` of `s` does not start `t`: its letter differs from the first of `t`, or the next one from the second. */
  ghost predicate NoStartAt(s: string, t: string, i: nat)
    requires i < |s| && |t| >= 1
  {
    s[i] == t[0] ==> |t| >= 2 && (i + 1 >= |s| || s[i + 1] != t[1])
  }

  /** `t` does not occur in `s` when no position of `s` starts it. */
  lemma NotAt(s: string, t: string)
    requires |t| >= 1
    requires forall i: nat :: i < |s| ==> NoStartAt(s, t, i)
    ensures !Contains(s, t)
  {
    forall i | 0 <= i && i + |t| <= |s| ensures !OccursAt(s, t, i) {
      var w := s[i..i + |t|];
      assert w[0] == s[i];
      assert NoStartAt(s, t, i);
      if s[i] == t[0] {
        assert w[1] == s[i + 1];
      }
    }
    ContainsIff(s, t);
  }

  // ---- the other controls (device.js:17-70, 101-130) ----

  /** The entries of the quick-command drop-down: shown name and command text. */
  const QuickCommands: seq<(string, string)> := [
    ("Battery Stats", "dumpsys battery"), ("Display Info", "dumpsys display"), ("Memory Info", "dumpsys meminfo"),
    ("Active Services", "dumpsys activity services"), ("Get All Props", "getprop")]

  /** The run button: `["shell", ...cmd.split(" ")]` in the foreground, keyed "dumpsys", when a command is chosen. */
  function QuickCommandRequest(cmd: Option<string>): (r: Option<Request>)
    ensures r.Some? <==> Truthy(cmd)
  {
    if Truthy(cmd) then Some(Request("adb", ["shell"] + Split(cmd.value, ' '), false, Some("dumpsys"))) else None
  }

  /** The arguments after "shell" join back to the chosen command, and the output goes to the text box. */
  lemma QuickCommandRoundTrip(cmd: string)
    requires cmd != ""
    ensures var r := QuickCommandRequest(Some(cmd)).value;
      Join(r.args[1..], " ") == cmd && IsDeviceCommand(r.args) && !r.background && RouteOf("", r.key) == ToDumpsys
  {
    var r := QuickCommandRequest(Some(cmd)).value;
    assert r.args[1..] == Split(cmd, ' ');
    JoinSplit(cmd, ' ');
    assert "shell" in DeviceVerbs && r.args[0] in r.args;
    RouteByKey("", r.key);
  }

  /** The connect button: `adb connect <ip>:5555`, only for a non-empty address. */
  function ConnectRequest(ip: string): (r: Option<Request>)
    ensures r.Some? <==> ip != ""
    ensures r.Some? ==> r.value.args == ["connect", ip + ":5555"] && !r.value.background && r.value.key.None?
  {
    if ip != "" then Some(Request("adb", ["connect", ip + ":5555"], false, None)) else None
  }

  /** A connection is not a device command, so it is sent with no device selected too. */
  lemma ConnectNeedsNoDevice(ip: string, dev: Option<string>)
    requires ip != ""
    ensures !Aborts(dev, ConnectRequest(ip).value) && Injected(dev, ConnectRequest(ip).value) == ConnectRequest(ip).value
  {
    var a := ip + ":5555";
    assert a[|a| - 1] == '5';
    forall v | v in DeviceVerbs ensures v !in ["connect", a] {
      assert v[|v| - 1] != '5';
    }
  }

  /** `adb shell wm <prop> <value>`, in the foreground and unkeyed, for a non-empty value. */
  function WmRequest(prop: string, value: string): (r: Option<Request>)
    ensures r.Some? <==> value != ""
    ensures r.Some? ==>
      IsDeviceCommand(r.value.args) && !r.value.background && r.value.key.None? &&
      r.value.args == ["shell", "wm", prop, value]
  {
    assert "shell" in DeviceVerbs && ["shell", "wm", prop, value][0] == "shell";
    if value != "" then Some(Request("adb", ["shell", "wm", prop, value], false, None)) else None
  }

  /** The screen properties: the size now when given, the density 200 ms later when given. */
  function ScreenSizeRequest(size: string): (r: Option<Request>)
    ensures r.Some? <==> size != ""
    ensures r.Some? ==>
      IsDeviceCommand(r.value.args) && !r.value.background && r.value.key.None? &&
      r.value.args == ["shell", "wm", "size", size]
  {
    WmRequest("size", size)
  }

  function ScreenDensityRequest(density: string): (r: Option<Request>)
    ensures r.Some? <==> density != ""
    ensures r.Some? ==>
      IsDeviceCommand(r.value.args) && !r.value.background && r.value.key.None? &&
      r.value.args == ["shell", "wm", "density", density]
  {
    WmRequest("density", density)
  }

  /** What a reboot button runs: its `data-cmd` split at spaces. */
  function RebootRequest(cmd: string): Request {
    Request("adb", Split(cmd, ' '), false, None)
  }

  const WirelessRequest := Request("adb", ["tcpip", "5555"], false, None)

  const WirelessMessage := "Enabled wireless ADB on port 5555. Connect to your device's IP address."
}
