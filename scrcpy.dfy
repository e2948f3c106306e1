/**
 * The screen-mirroring button of `gui/js/scrcpy.js`: the options of the form, the
 * argument list built from them by conditional appends, and the launch request.
 */
module Scrcpy {
  import opened Common
  import opened Text
  import opened Adb

  /** The form: the bit-rate text and the six check boxes. */
  datatype ScrcpyOptions = ScrcpyOptions(
    bitRate: string, record: bool, fullscreen: bool, turnScreenOff: bool,
    showTouches: bool, stayAwake: bool, powerOffOnClose: bool)

  /** The flags the builder can emit, in the order it appends them. */
  const Flags: seq<string> := [
    "--video-bit-rate", "--record", "--fullscreen", "--turn-screen-off",
    "--show-touches", "--stay-awake", "--power-off-on-close"]

  /** Whether the `i`-th flag is emitted. */
  predicate Enabled(o: ScrcpyOptions, i: nat)
    requires i < |Flags|
  {
    match i
    case 0 => o.bitRate != ""
    case 1 => o.record
    case 2 => o.fullscreen
    case 3 => o.turnScreenOff
    case 4 => o.showTouches
    case 5 => o.stayAwake
    case _ => o.powerOffOnClose
  }

  /** The file name of a recording started at the clock value `now` (milliseconds). */
  function RecordFile(now: nat): (name: string)
    ensures StartsWith(name, "scrcpy-record-") && EndsWith(name, ".mp4")
  {
    var name := "scrcpy-record-" + NatToString(now) + ".mp4";
    assert name[..14] == "scrcpy-record-";
    assert name[|name| - 4..] == ".mp4";
    name
  }

  /** The part of the argument list that the `i`-th flag contributes. */
  function Segment(o: ScrcpyOptions, now: nat, i: nat): (seg: seq<string>)
    requires i < |Flags|
    ensures Enabled(o, i) ==> |seg| >= 1 && seg[0] == Flags[i]
    ensures !Enabled(o, i) ==> seg == []
  {
    if !Enabled(o, i) then []
    else
      match i
      case 0 => ["--video-bit-rate", o.bitRate]
      case 1 => ["--record", RecordFile(now)]
      case 2 => ["--fullscreen"]
      case 3 => ["--turn-screen-off"]
      case 4 => ["--show-touches"]
      case 5 => ["--stay-awake"]
      case _ => ["--power-off-on-close"]
  }

  /** The argument list after the first `n` conditional appends. */
  function ArgsUpTo(o: ScrcpyOptions, now: nat, n: nat): seq<string>
    requires n <= |Flags|
  {
    if n == 0 then [] else ArgsUpTo(o, now, n - 1) + Segment(o, now, n - 1)
  }

  function ScrcpyArgs(o: ScrcpyOptions, now: nat): seq<string> {
    ArgsUpTo(o, now, |Flags|)
  }

  /** `if (checked) args.push(...words)`: the `n`-th conditional push. */
  method PushIf(o: ScrcpyOptions, now: nat, n: nat, args: seq<string>, cond: bool, words: seq<string>)
    returns (r: seq<string>)
    requires n < |Flags| && args == ArgsUpTo(o, now, n)
    requires cond == Enabled(o, n) && (cond ==> words == Segment(o, now, n))
    ensures r == ArgsUpTo(o, now, n + 1)
  {
    r := args;
    if cond { r := r + words; }
  }

  /** The click handler's `args` array, built by conditional pushes. */
  method BuildScrcpyArgs(o: ScrcpyOptions, now: nat) returns (args: seq<string>)
    ensures args == ScrcpyArgs(o, now)
  {
    args := [];
    args := PushIf(o, now, 0, args, o.bitRate != "", ["--video-bit-rate", o.bitRate]);
    args := PushIf(o, now, 1, args, o.record, ["--record", RecordFile(now)]);
    args := PushIf(o, now, 2, args, o.fullscreen, ["--fullscreen"]);
    args := PushIf(o, now, 3, args, o.turnScreenOff, ["--turn-screen-off"]);
    args := PushIf(o, now, 4, args, o.showTouches, ["--show-touches"]);
    args := PushIf(o, now, 5, args, o.stayAwake, ["--stay-awake"]);
    args := PushIf(o, now, 6, args, o.powerOffOnClose, ["--power-off-on-close"]);
  }

  predicate IsFlag(a: string) {
    StartsWith(a, "--")
  }

  /** The enabled flags among the first `n`, in table order. */
  function EnabledFlags(o: ScrcpyOptions, n: nat): (fs: seq<string>)
    requires n <= |Flags|
    ensures forall f :: f in fs <==> exists i :: 0 <= i < n && Enabled(o, i) && Flags[i] == f
  {
    if n == 0 then []
    else
      var fs := EnabledFlags(o, n - 1) + (if Enabled(o, n - 1) then [Flags[n - 1]] else []);
      fs
  }

  /** The flags of the table all begin with "--", while the record file name does not. */
  lemma FlagsAreFlags()
    ensures forall i :: 0 <= i < |Flags| ==> IsFlag(Flags[i])
  {
    assert forall i :: 0 <= i < |Flags| ==> Flags[i][..2] == "--";
  }

  lemma RecordFileNoFlag(now: nat)
    ensures !IsFlag(RecordFile(now))
  {
    assert RecordFile(now)[..14] == "scrcpy-record-";
    assert RecordFile(now)[0] == 's';
  }

  /** The flag words of a contribution: its flag when it is enabled, and nothing else. */
  lemma SegmentFlags(o: ScrcpyOptions, now: nat, i: nat)
    requires i < |Flags| && !IsFlag(o.bitRate)
    ensures Filter(Segment(o, now, i), IsFlag) == (if Enabled(o, i) then [Flags[i]] else [])
  {
    FlagsAreFlags();
    var seg := Segment(o, now, i);
    if Enabled(o, i) {
      if i == 0 {
        assert seg[1..] == [o.bitRate];
        assert Filter([o.bitRate], IsFlag) == [];
      } else if i == 1 {
        RecordFileNoFlag(now);
        assert seg[1..] == [RecordFile(now)];
        assert Filter([RecordFile(now)], IsFlag) == [];
      } else {
        assert seg[1..] == [];
      }
    }
  }

  /**
   * The flags appear in the order of the table, each exactly when its option is set:
   * a bit-rate value that is not itself a flag is the only other word there.
   */
  lemma {:induction false} FlagsInOrder(o: ScrcpyOptions, now: nat, n: nat)
    requires n <= |Flags| && !IsFlag(o.bitRate)
    ensures Filter(ArgsUpTo(o, now, n), IsFlag) == EnabledFlags(o, n)
  {
    if n > 0 {
      FlagsInOrder(o, now, n - 1);
      FilterConcat(ArgsUpTo(o, now, n - 1), Segment(o, now, n - 1), IsFlag);
      SegmentFlags(o, now, n - 1);
    }
  }

  /** No flag is emitted twice: the enabled flags are a sub-sequence of a list of distinct words. */
  lemma {:induction false} EnabledFlagsDistinct(o: ScrcpyOptions, n: nat)
    requires n <= |Flags|
    ensures Distinct(EnabledFlags(o, n))
  {
    if n > 0 {
      EnabledFlagsDistinct(o, n - 1);
      var front := EnabledFlags(o, n - 1);
      if Enabled(o, n - 1) {
        assert forall i, j :: 0 <= i < j < |Flags| ==> Flags[i] != Flags[j] by {
          assert forall i :: 0 <= i < |Flags| ==> |Flags[i]| == [16, 8, 12, 17, 14, 12, 20][i];
          assert forall i, j :: 0 <= i < j < |Flags| && |Flags[i]| == |Flags[j]| ==> Flags[i][2] != Flags[j][2];
        }
        assert Flags[n - 1] !in front;
        var fs := front + [Flags[n - 1]];
        assert forall i, j :: 0 <= i < j < |fs| ==> fs[i] != fs[j] by {
          forall i, j | 0 <= i < j < |fs| ensures fs[i] != fs[j] {
            if j < |front| { assert fs[i] == front[i] && fs[j] == front[j]; }
            else { assert fs[i] in front; }
          }
        }
      }
    }
  }

  /** Whole-list form: the flags of the argument list, in order and at most once each. */
  lemma ScrcpyFlags(o: ScrcpyOptions, now: nat)
    requires !IsFlag(o.bitRate)
    ensures Filter(ScrcpyArgs(o, now), IsFlag) == EnabledFlags(o, |Flags|)
    ensures Distinct(Filter(ScrcpyArgs(o, now), IsFlag))
  {
    FlagsInOrder(o, now, |Flags|);
    EnabledFlagsDistinct(o, |Flags|);
  }

  /** Nothing is launched without a device; otherwise `scrcpy` runs in the background without key. */
  function ScrcpyRequest(dev: Option<string>, args: seq<string>): (r: Option<Request>)
    ensures r.Some? <==> HasDevice(dev)
    ensures r.Some? ==> r.value == Request("scrcpy", args, true, None)
  {
    if HasDevice(dev) then Some(Request("scrcpy", args, true, None)) else None
  }

  /**
   * The launch is no device command, so no "-s <serial>" is added and `scrcpy` picks the
   * device itself; only a bit-rate text that is one of the device verbs would change that.
   */
  lemma ScrcpyWithoutSerial(o: ScrcpyOptions, now: nat, dev: Option<string>)
    requires HasDevice(dev) && o.bitRate !in DeviceVerbs
    ensures !IsDeviceCommand(ScrcpyArgs(o, now))
    ensures Injected(dev, ScrcpyRequest(dev, ScrcpyArgs(o, now)).value).args == ScrcpyArgs(o, now)
  {
    var args := ScrcpyArgs(o, now);
    FlagsNoVerbs();
    RecordFileNoVerb(now);
    forall w | w in args ensures w !in DeviceVerbs {
      ArgsWords(o, now, |Flags|, w);
    }
    assert !IsDeviceCommand(args);
  }

  lemma FlagsNoVerbs()
    ensures forall f :: f in Flags ==> f !in DeviceVerbs
  {
    assert forall v :: v in DeviceVerbs ==> v[0] != '-';
    assert forall f :: f in Flags ==> f[0] == '-';
  }

  lemma RecordFileNoVerb(now: nat)
    ensures RecordFile(now) !in DeviceVerbs
  {
    assert forall v :: v in DeviceVerbs ==> |v| <= 9;
    assert |RecordFile(now)| > 9;
  }

  /** Every word of the list is a flag, the bit-rate value or the record file name. */
  lemma {:induction false} ArgsWords(o: ScrcpyOptions, now: nat, n: nat, w: string)
    requires n <= |Flags|
    requires w in ArgsUpTo(o, now, n)
    ensures w in Flags || w == o.bitRate || w == RecordFile(now)
  {
    if n > 0 {
      if w in ArgsUpTo(o, now, n - 1) {
        ArgsWords(o, now, n - 1, w);
      } else {
        assert w in Segment(o, now, n - 1);
      }
    }
  }
}
