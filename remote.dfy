/**
 * The remote-control tab of `gui/js/remote.js`: the table from button ids to Android
 * key codes, the key-event command of a button, and the text sender with its space
 * escaping.
 */
module Remote {
  import opened Common
  import opened Text
  import opened Adb

  /** The button ids and the key codes they send, in the order of the table. */
  const RemoteKeycodes: seq<(string, nat)> := [
    ("remote-dpad-up", 19), ("remote-dpad-down", 20), ("remote-dpad-left", 21),
    ("remote-dpad-right", 22), ("remote-dpad-center", 66), ("remote-home-btn", 3),
    ("remote-back-btn", 4), ("remote-recents-btn", 187), ("remote-vol-up-btn", 24),
    ("remote-vol-down-btn", 25), ("remote-prev-btn", 88), ("remote-next-btn", 87),
    ("remote-play-pause-btn", 85)]

  /** The key code of a button of the table. */
  function KeycodeOf(id: string): (code: Option<nat>)
    ensures code.Some? <==> exists i :: 0 <= i < |RemoteKeycodes| && RemoteKeycodes[i].0 == id
    ensures code.Some? ==> exists i :: 0 <= i < |RemoteKeycodes| && RemoteKeycodes[i] == (id, code.value)
  {
    LookupIn(RemoteKeycodes, id)
  }

  function LookupIn(table: seq<(string, nat)>, id: string): (code: Option<nat>)
    ensures code.Some? <==> exists i :: 0 <= i < |table| && table[i].0 == id
    ensures code.Some? ==> exists i :: 0 <= i < |table| && table[i] == (id, code.value)
  {
    if table == [] then None
    else if table[0].0 == id then Some(table[0].1)
    else
      var r := LookupIn(table[1..], id);
      assert forall i :: 0 <= i < |table| - 1 ==> table[1..][i] == table[i + 1];
      r
  }

  /** Letters 7 and 12 of the ids in the table: they tell the ids apart. */
  const IdLetters7 := "dddddhbrvvpnp"
  const IdLetters12 := "udlrcbbtpobbp"

  /** The thirteen button ids are distinct. */
  lemma KeycodeIdsDistinct()
    ensures forall i, j :: 0 <= i < j < |RemoteKeycodes| ==> RemoteKeycodes[i].0 != RemoteKeycodes[j].0
  {
    assert forall i :: 0 <= i < |RemoteKeycodes| ==>
      |RemoteKeycodes[i].0| > 12 && RemoteKeycodes[i].0[7] == IdLetters7[i] && RemoteKeycodes[i].0[12] == IdLetters12[i];
    assert forall i, j :: 0 <= i < j < |RemoteKeycodes| ==> IdLetters7[i] != IdLetters7[j] || IdLetters12[i] != IdLetters12[j];
  }

  /** Each button sends the code the table gives it. */
  lemma KeycodeOfTable(i: nat)
    requires i < |RemoteKeycodes|
    ensures KeycodeOf(RemoteKeycodes[i].0) == Some(RemoteKeycodes[i].1)
  {
    KeycodeIdsDistinct();
    var code := KeycodeOf(RemoteKeycodes[i].0);
    var j :| 0 <= j < |RemoteKeycodes| && RemoteKeycodes[j] == (RemoteKeycodes[i].0, code.value);
    assert !(i < j) && !(j < i);
  }

  /** The click handler of a button: `["shell", "input", "keyevent", code]` in the background, without key. */
  function KeyEventRequest(code: nat): (r: Request)
    ensures r.command == "adb" && r.background && r.key == None
    ensures IsDeviceCommand(r.args) && |r.args| == 4
    ensures r.args[..3] == ["shell", "input", "keyevent"] && r.args[3] == NatToString(code)
    ensures DecimalValue(r.args[3]) == code
  {
    DecimalOfNatToString(code);
    var r := Request("adb", ["shell", "input", "keyevent", NatToString(code)], true, None);
    assert "shell" in DeviceVerbs && r.args[0] in r.args;
    r
  }

  // ---- the text sender (remote.js:29-39) ----

  /** `text.replace(/ /g, "%s")`. */
  function EscapeSpaces(s: string): (r: string)
    ensures ' ' !in r
    ensures |r| >= |s|
  {
    if s == [] then []
    else (if s[0] == ' ' then "%s" else [s[0]]) + EscapeSpaces(s[1..])
  }

  /** The escaping works letter by letter: it distributes over concatenation. */
  lemma {:induction false} EscapeConcat(a: string, b: string)
    ensures EscapeSpaces(a + b) == EscapeSpaces(a) + EscapeSpaces(b)
  {
    if a != [] {
      assert (a + b)[0] == a[0] && (a + b)[1..] == a[1..] + b;
      var h := if a[0] == ' ' then "%s" else [a[0]];
      assert EscapeSpaces(a + b) == h + EscapeSpaces(a[1..] + b);
      assert EscapeSpaces(a) == h + EscapeSpaces(a[1..]);
      EscapeConcat(a[1..], b);
    } else {
      assert a + b == b;
    }
  }

  /** Every space becomes "%s" and every other letter stays as it is. */
  lemma EscapeLetters(c: char)
    ensures EscapeSpaces([c]) == (if c == ' ' then "%s" else [c])
  {
    assert [c][1..] == [];
  }

  /** Text without a space is sent unchanged. */
  lemma {:induction false} EscapeWithoutSpaces(s: string)
    requires ' ' !in s
    ensures EscapeSpaces(s) == s
  {
    if s != [] {
      assert s[0] != ' ';
      EscapeWithoutSpaces(s[1..]);
      assert s == [s[0]] + s[1..];
    }
  }

  /** Reading "%s" back as a space. */
  function UnescapeSpaces(s: string): string
    decreases |s|
  {
    if s == [] then []
    else if |s| >= 2 && s[0] == '%' && s[1] == 's' then " " + UnescapeSpaces(s[2..])
    else [s[0]] + UnescapeSpaces(s[1..])
  }

  /** A text without '%' is recovered from what is sent; a '%' of its own could be misread. */
  lemma {:induction false} UnescapeEscape(s: string)
    requires '%' !in s
    ensures UnescapeSpaces(EscapeSpaces(s)) == s
  {
    if s != [] {
      var e := EscapeSpaces(s);
      UnescapeEscape(s[1..]);
      if s[0] == ' ' {
        assert e == "%s" + EscapeSpaces(s[1..]);
        assert e[2..] == EscapeSpaces(s[1..]);
      } else {
        assert e == [s[0]] + EscapeSpaces(s[1..]);
        assert e[1..] == EscapeSpaces(s[1..]);
      }
      assert s == [s[0]] + s[1..];
    }
  }

  /** A literal "%s" in the text reads back as a space: the escaping is not injective. */
  lemma EscapeNotInjective()
    ensures EscapeSpaces(" ") == EscapeSpaces("%s")
  {
    EscapeLetters(' ');
    EscapeWithoutSpaces("%s");
  }

  /** `sendText`: only a non-empty input is sent, as `["shell", "input", "text", escaped]` in the background. */
  function SendTextRequest(input: string): (r: Option<Request>)
    ensures r.Some? <==> input != ""
    ensures r.Some? ==> r.value.command == "adb" && r.value.background && r.value.key == None
    ensures r.Some? ==> IsDeviceCommand(r.value.args) && |r.value.args| == 4
    ensures r.Some? ==> r.value.args[..3] == ["shell", "input", "text"] && r.value.args[3] == EscapeSpaces(input)
  {
    if input == "" then None
    else
      var r := Request("adb", ["shell", "input", "text", EscapeSpaces(input)], true, None);
      assert "shell" in DeviceVerbs && r.args[0] in r.args;
      Some(r)
  }

  /** What is typed on the device is the input, as long as the input has no '%' of its own. */
  lemma SendTextReadsBack(input: string)
    requires input != "" && '%' !in input
    ensures UnescapeSpaces(SendTextRequest(input).value.args[3]) == input
  {
    UnescapeEscape(input);
  }
}
