/**
 * The file explorer of `gui/js/files.js` as values: its `path.join`, the parse and
 * order of an `ls -F` listing, the breadcrumb trail, and what each context-menu action
 * asks `runCommand` to do.
 */
module Files {
  import opened Common
  import opened Text
  import opened Sorting
  import opened Adb

  // ---- path.join (files.js:7-14) ----

  /** `arg.replace(/\/$/, "")`: one trailing slash removed. */
  function DropTrailingSlash(s: string): (r: string)
    ensures EndsWith(s, "/") ==> s == r + "/"
    ensures !EndsWith(s, "/") ==> r == s
  {
    if |s| > 0 && s[|s| - 1] == '/' then s[..|s| - 1] else s
  }

  predicate NonEmpty(s: string) {
    s != ""
  }

  /** No two slashes in a row. */
  predicate NoDoubleSlash(s: string) {
    forall k :: 0 <= k < |s| - 1 ==> !(s[k] == '/' && s[k + 1] == '/')
  }

  /** `replace(/\/+/g, "/")`: every run of slashes becomes one slash. */
  function CollapseSlashes(s: string): (r: string)
    ensures NoDoubleSlash(r)
    ensures r == [] <==> s == []
    ensures r != [] ==> r[0] == s[0]
    ensures NoDoubleSlash(s) ==> r == s
  {
    if |s| < 2 then s
    else if s[0] == '/' && s[1] == '/' then CollapseSlashes(s[1..])
    else
      var rest := CollapseSlashes(s[1..]);
      assert NoDoubleSlash(s) ==> NoDoubleSlash(s[1..]) by {
        if NoDoubleSlash(s) {
          forall k | 0 <= k < |s[1..]| - 1 ensures !(s[1..][k] == '/' && s[1..][k + 1] == '/') {
            assert s[1..][k] == s[k + 1] && s[1..][k + 1] == s[k + 2];
          }
        }
      }
      assert s == [s[0]] + s[1..];
      [s[0]] + rest
  }

  /** The names between the slashes: the non-empty parts of a split on "/". */
  function SlashParts(s: string): seq<string> {
    Filter(Split(s, '/'), NonEmpty)
  }

  /** Splitting a string that starts with `c` on "/". */
  lemma SplitCons(c: char, t: string)
    ensures Split([c] + t, '/') ==
      if c == '/' then [""] + Split(t, '/') else [[c] + Split(t, '/')[0]] + Split(t, '/')[1..]
  {
    assert ([c] + t)[1..] == t;
  }

  /** The names of a split that starts with `p`. */
  lemma SlashPartsCons(p: string, ps: seq<string>)
    ensures Filter([p] + ps, NonEmpty) == (if p != "" then [p] else []) + Filter(ps, NonEmpty)
  {
    assert ([p] + ps)[1..] == ps;
  }

  /**
   * Collapsing keeps every name between the slashes, in order, and the text before the
   * first slash, and the last character. With `NoDoubleSlash` and the first character
   * kept, this fixes the result.
   */
  lemma {:induction false} CollapseKeepsParts(s: string)
    ensures SlashParts(CollapseSlashes(s)) == SlashParts(s)
    ensures Split(CollapseSlashes(s), '/')[0] == Split(s, '/')[0]
    ensures s != [] ==> CollapseSlashes(s)[|CollapseSlashes(s)| - 1] == s[|s| - 1]
  {
    if |s| < 2 {
    } else if s[0] == '/' && s[1] == '/' {
      CollapseKeepsParts(s[1..]);
      assert s == [s[0]] + s[1..];
      SplitCons(s[0], s[1..]);
      SlashPartsCons("", Split(s[1..], '/'));
    } else {
      var rest := CollapseSlashes(s[1..]);
      CollapseKeepsParts(s[1..]);
      assert CollapseSlashes(s) == [s[0]] + rest;
      assert s == [s[0]] + s[1..];
      SplitCons(s[0], rest);
      SplitCons(s[0], s[1..]);
      CollapseConsParts(s[0], rest, s[1..]);
    }
  }

  /** Putting the same character in front of two strings with the same split keeps them alike. */
  lemma CollapseConsParts(c: char, t: string, u: string)
    requires Split(t, '/')[0] == Split(u, '/')[0] && SlashParts(t) == SlashParts(u)
    ensures Split([c] + t, '/')[0] == Split([c] + u, '/')[0]
    ensures SlashParts([c] + t) == SlashParts([c] + u)
  {
    var a, b := Split(t, '/'), Split(u, '/');
    SplitCons(c, t);
    SplitCons(c, u);
    if c == '/' {
      SlashPartsCons("", a);
      SlashPartsCons("", b);
    } else {
      var head := [c] + a[0];
      var x: seq<string> := if a[0] != "" then [a[0]] else [];
      var p, q := Filter(a[1..], NonEmpty), Filter(b[1..], NonEmpty);
      assert a == [a[0]] + a[1..] && b == [b[0]] + b[1..];
      SlashPartsCons(a[0], a[1..]);
      SlashPartsCons(b[0], b[1..]);
      assert x + p == x + q;
      assert p == (x + p)[|x|..] && q == (x + q)[|x|..];
      SlashPartsCons(head, a[1..]);
      SlashPartsCons(head, b[1..]);
    }
  }

  /** `path.join(...args)`. */
  function PathJoin(args: seq<string>): (r: string)
    ensures r != ""
    ensures NoDoubleSlash(r)
  {
    var j := CollapseSlashes(Join(Filter(Map(args, DropTrailingSlash), NonEmpty), "/"));
    if j == "" then "/" else j
  }

  /** Arguments that are all empty or "/" join to "/". */
  lemma PathJoinAllEmpty(args: seq<string>)
    requires forall a :: a in args ==> a == "" || a == "/"
    ensures PathJoin(args) == "/"
  {
    var dropped := Map(args, DropTrailingSlash);
    forall i | 0 <= i < |dropped| ensures !NonEmpty(dropped[i]) {
      assert args[i] in args;
    }
    FilterNone(dropped, NonEmpty);
  }

  /** "/" contributes nothing: `join("/", x)` is `x` itself, without a leading slash. */
  lemma PathJoinRoot(x: string)
    requires x != "" && '/' !in x
    ensures PathJoin(["/", x]) == x
  {
    assert DropTrailingSlash("/") == "";
    assert DropTrailingSlash(x) == x;
    assert Map(["/", x], DropTrailingSlash) == ["", x];
    assert Filter(["", x], NonEmpty) == [x] by {
      assert ["", x][1..] == [x];
      assert [x][1..] == [];
    }
    assert NoDoubleSlash(x);
  }

  /** A directory and a plain name: one slash between them, and nothing else changes. */
  lemma PathJoinAppend(dir: string, name: string)
    requires NoDoubleSlash(dir) && DropTrailingSlash(dir) != ""
    requires name != "" && '/' !in name
    ensures PathJoin([dir, name]) == DropTrailingSlash(dir) + "/" + name
  {
    var d := DropTrailingSlash(dir);
    assert NoDoubleSlash(d + "/" + name) by {
      assert d[|d| - 1] != '/' && NoDoubleSlash(d) by {
        if EndsWith(dir, "/") {
          assert dir[|d| - 1] == d[|d| - 1];
          forall k | 0 <= k < |d| - 1 ensures !(d[k] == '/' && d[k + 1] == '/') {
            assert d[k] == dir[k] && d[k + 1] == dir[k + 1];
          }
        }
      }
      SlashBetween(d, name);
    }
    JoinBeforeCollapse(dir, name);
  }

  /** Joining a directory and a plain name before the slashes are collapsed. */
  lemma JoinBeforeCollapse(dir: string, name: string)
    requires DropTrailingSlash(dir) != ""
    requires name != "" && '/' !in name
    ensures Join(Filter(Map([dir, name], DropTrailingSlash), NonEmpty), "/") == DropTrailingSlash(dir) + "/" + name
  {
    var d := DropTrailingSlash(dir);
    assert DropTrailingSlash(name) == name by {
      if EndsWith(name, "/") { assert name[|name| - 1] in name; }
    }
    assert Map([dir, name], DropTrailingSlash) == [d, name];
    assert Filter([d, name], NonEmpty) == [d, name] by {
      assert [d, name][1..] == [name];
      assert [name][1..] == [];
    }
    assert [d, name][1..] == [name];
  }

  /** One slash between a name that does not end in one and a name with none adds no double slash. */
  lemma SlashBetween(d: string, name: string)
    requires NoDoubleSlash(d) && d != "" && d[|d| - 1] != '/'
    requires '/' !in name
    ensures NoDoubleSlash(d + "/" + name)
  {
    var s := d + "/" + name;
    forall k | 0 <= k < |s| - 1 ensures !(s[k] == '/' && s[k + 1] == '/') {
      if k < |d| - 1 {
        assert s[k] == d[k] && s[k + 1] == d[k + 1];
      } else if k == |d| - 1 {
        assert s[k] == d[k];
      } else if k == |d| {
        assert s[k + 1] == name[0] && name[0] in name;
      } else {
        assert s[k] == name[k - |d| - 1] && s[k] in name;
      }
    }
  }

  // ---- the listing (files.js:84-111) ----

  datatype FileItem = FileItem(name: string, isDirectory: bool)

  /** The name filter: non-empty, not an `ls:` error or the `total` line, not `.` or `..`. */
  predicate KeepName(name: string) {
    name != "" && !StartsWith(name, "ls:") && !StartsWith(name, "total") && name != "." && name != ".."
  }

  /** An entry of `ls -F`: a trailing "/" marks a directory and is not part of the name. */
  function ToFileItem(line: string): (item: FileItem)
    ensures item.isDirectory <==> EndsWith(line, "/")
  {
    FileItem(DropTrailingSlash(line), EndsWith(line, "/"))
  }

  /** How `ls -F` prints an item. */
  function ItemLine(item: FileItem): string {
    item.name + (if item.isDirectory then "/" else "")
  }

  /** The item keeps all of its line: printing it again gives the line back. */
  lemma ItemLineRoundTrip(line: string)
    ensures ItemLine(ToFileItem(line)) == line
  {
  }

  /** The kept, trimmed lines of a listing, in their order. */
  function ListedNames(data: string): seq<string> {
    Filter(Map(Split(data, '\n'), Trim), KeepName)
  }

  function ListedItems(data: string): seq<FileItem> {
    Map(ListedNames(data), ToFileItem)
  }

  /** A name is listed exactly when some line trims to it and it passes the filter. */
  lemma ListedNamesMembership(data: string, name: string)
    ensures name in ListedNames(data) <==>
      KeepName(name) && exists line :: line in Split(data, '\n') && Trim(line) == name
  {
    MapMembership(Split(data, '\n'), Trim, name);
  }

  /** The comparator of the sort: directories first, then the name order. */
  function FileBefore(nameLe: (string, string) -> bool): (le: (FileItem, FileItem) -> bool) {
    (a: FileItem, b: FileItem) => if a.isDirectory != b.isDirectory then a.isDirectory else nameLe(a.name, b.name)
  }

  lemma FileBeforeIsTotalPreorder(nameLe: (string, string) -> bool)
    requires TotalPreorder(nameLe)
    ensures TotalPreorder(FileBefore(nameLe))
  {
    var le := FileBefore(nameLe);
    forall a, b ensures le(a, b) || le(b, a) {
      assert nameLe(a.name, b.name) || nameLe(b.name, a.name);
    }
    forall a, b, c | le(a, b) && le(b, c) ensures le(a, c) {
      if a.isDirectory == b.isDirectory && b.isDirectory == c.isDirectory {
        assert nameLe(a.name, b.name) && nameLe(b.name, c.name);
      }
    }
  }

  /** The rendered listing, for a name order `nameLe` standing for the locale collation. */
  function FileListing(data: string, nameLe: (string, string) -> bool): seq<FileItem> {
    SortBy(ListedItems(data), FileBefore(nameLe))
  }

  /**
   * For any total preorder on names, the listing holds exactly the kept entries, every
   * directory comes before every file, and within each kind the names are in order.
   */
  lemma FileListingSpec(data: string, nameLe: (string, string) -> bool)
    requires TotalPreorder(nameLe)
    ensures multiset(FileListing(data, nameLe)) == multiset(ListedItems(data))
    ensures forall i, j ::
      (0 <= i < j < |FileListing(data, nameLe)| && FileListing(data, nameLe)[j].isDirectory) ==>
      FileListing(data, nameLe)[i].isDirectory
    ensures forall i, j ::
      (0 <= i < j < |FileListing(data, nameLe)| &&
       FileListing(data, nameLe)[i].isDirectory == FileListing(data, nameLe)[j].isDirectory) ==>
      nameLe(FileListing(data, nameLe)[i].name, FileListing(data, nameLe)[j].name)
  {
    var r := FileListing(data, nameLe);
    SortByPerm(ListedItems(data), FileBefore(nameLe));
    FileBeforeIsTotalPreorder(nameLe);
    SortBySorted(ListedItems(data), FileBefore(nameLe));
    forall i, j | 0 <= i < j < |r| ensures FileBefore(nameLe)(r[i], r[j]) {
    }
  }

  // ---- breadcrumbs (files.js:130-154) ----

  /** One breadcrumb: its text, and the directory a click lists (`None`: not clickable). */
  datatype Crumb = Crumb(text: string, target: Option<string>)

  /** `currentDevicePath.split("/").filter((p) => p)`. */
  function PathParts(path: string): (parts: seq<string>)
    ensures forall k :: 0 <= k < |parts| ==> parts[k] != "" && '/' !in parts[k]
  {
    Filter(Split(path, '/'), NonEmpty)
  }

  /** The value of `pathOnClick` after the first `k` parts have been joined onto "/". */
  function Accumulated(parts: seq<string>, k: nat): string
    requires k <= |parts|
  {
    if k == 0 then "/" else PathJoin([Accumulated(parts, k - 1), parts[k - 1]])
  }

  /** The directory crumb `i` names: the first `i + 1` parts joined by "/"; the last crumb is not clickable. */
  function CrumbTarget(parts: seq<string>, i: nat): Option<string>
    requires i < |parts|
  {
    if i < |parts| - 1 then Some(Join(parts[..i + 1], "/")) else None
  }

  /** The trail as the loop writes it: every handler reads the one `pathOnClick` after the loop. */
  function BreadcrumbsAsWritten(path: string): (crumbs: seq<Crumb>)
    ensures |crumbs| == |PathParts(path)| + 1 && crumbs[0] == Crumb("/", Some("/"))
    ensures forall i :: 0 <= i < |PathParts(path)| ==> crumbs[i + 1] == Crumb(PathParts(path)[i],
      if i < |PathParts(path)| - 1 then Some(Accumulated(PathParts(path), |PathParts(path)|)) else None)
  {
    var parts := PathParts(path);
    [Crumb("/", Some("/"))] +
    seq(|parts|, i requires 0 <= i < |parts| =>
      Crumb(parts[i], if i < |parts| - 1 then Some(Accumulated(parts, |parts|)) else None))
  }

  /** The root crumb and the crumbs of the first `i` parts. */
  function CrumbsUpTo(parts: seq<string>, i: nat): (crumbs: seq<Crumb>)
    requires i <= |parts|
    ensures |crumbs| == i + 1 && crumbs[0] == Crumb("/", Some("/"))
    ensures forall k :: 0 <= k < i ==> crumbs[k + 1] == Crumb(parts[k], CrumbTarget(parts, k))
  {
    if i == 0 then [Crumb("/", Some("/"))]
    else CrumbsUpTo(parts, i - 1) + [Crumb(parts[i - 1], CrumbTarget(parts, i - 1))]
  }

  /** The trail as intended: the root, then one crumb per part, each listing the directory it names. */
  function Breadcrumbs(path: string): (crumbs: seq<Crumb>)
    ensures |crumbs| == |PathParts(path)| + 1 && crumbs[0] == Crumb("/", Some("/"))
    ensures forall i :: 0 <= i < |PathParts(path)| ==>
      crumbs[i + 1] == Crumb(PathParts(path)[i], CrumbTarget(PathParts(path), i))
  {
    CrumbsUpTo(PathParts(path), |PathParts(path)|)
  }

  /**
   * The loop of `renderBreadcrumbs`, with the path of each crumb taken when it is made:
   * joining part after part onto "/" builds exactly the intended trail.
   */
  method RenderBreadcrumbs(path: string) returns (crumbs: seq<Crumb>)
    ensures crumbs == Breadcrumbs(path)
  {
    var parts := Filter(Split(path, '/'), NonEmpty);
    assert parts == PathParts(path);
    var pathOnClick := "/";
    crumbs := [Crumb("/", Some("/"))];
    var i := 0;
    while i < |parts|
      invariant 0 <= i <= |parts|
      invariant pathOnClick == Accumulated(parts, i)
      invariant crumbs == CrumbsUpTo(parts, i)
    {
      pathOnClick := PathJoin([pathOnClick, parts[i]]);
      var target := if i < |parts| - 1 then Some(pathOnClick) else None;
      AccumulatedStep(parts, i);
      crumbs := crumbs + [Crumb(parts[i], target)];
      i := i + 1;
    }
  }

  /** One turn of the loop: the next accumulated path, and the crumb made with it. */
  lemma AccumulatedStep(parts: seq<string>, i: nat)
    requires SlashFreeParts(parts) && i < |parts|
    ensures Accumulated(parts, i + 1) == PathJoin([Accumulated(parts, i), parts[i]])
    ensures CrumbTarget(parts, i) == if i < |parts| - 1 then Some(Accumulated(parts, i + 1)) else None
  {
    if i < |parts| - 1 {
      AccumulatedIsJoin(parts, i + 1);
    }
  }

  predicate SlashFreeParts(parts: seq<string>) {
    forall k :: 0 <= k < |parts| ==> parts[k] != "" && '/' !in parts[k]
  }

  lemma {:induction false} JoinSnoc(parts: seq<string>, x: string, sep: string)
    requires parts != []
    ensures Join(parts + [x], sep) == Join(parts, sep) + sep + x
  {
    if |parts| > 1 {
      assert (parts + [x])[1..] == parts[1..] + [x];
      JoinSnoc(parts[1..], x, sep);
    }
  }

  /** Joining slash-free names with "/" gives a path without "//" that does not end in "/". */
  lemma {:induction false} JoinSlashFree(parts: seq<string>)
    requires parts != [] && SlashFreeParts(parts)
    ensures NoDoubleSlash(Join(parts, "/")) && Join(parts, "/") != ""
    ensures Join(parts, "/")[|Join(parts, "/")| - 1] != '/'
    ensures Join(parts, "/")[0] != '/'
  {
    if |parts| > 1 {
      JoinSlashFree(parts[1..]);
      var a, b := parts[0], Join(parts[1..], "/");
      var s := a + "/" + b;
      assert a[|a| - 1] != '/' by { assert a[|a| - 1] in a; }
      assert a[0] != '/' by { assert a[0] in a; }
      forall k | 0 <= k < |s| - 1 ensures !(s[k] == '/' && s[k + 1] == '/') {
        if k < |a| - 1 {
          assert s[k] == a[k];
          assert a[k] in a;
        } else if k == |a| - 1 {
          assert s[k] == a[k];
        } else if k == |a| {
          assert s[k + 1] == b[0];
        } else {
          assert s[k] == b[k - |a| - 1] && s[k + 1] == b[k - |a|];
        }
      }
    } else {
      assert Join(parts, "/") == parts[0];
      assert parts[0][|parts[0]| - 1] in parts[0];
      assert parts[0][0] in parts[0];
      forall k | 0 <= k < |parts[0]| - 1 ensures parts[0][k] != '/' {
        assert parts[0][k] in parts[0];
      }
    }
  }

  lemma SlashFreePrefix(parts: seq<string>, k: nat)
    requires SlashFreeParts(parts) && k <= |parts|
    ensures SlashFreeParts(parts[..k])
  {
    forall t | 0 <= t < k ensures parts[..k][t] != "" && '/' !in parts[..k][t] {
      assert parts[..k][t] == parts[t];
    }
  }

  /** The first part is joined to "/" without a slash in front. */
  lemma AccumulatedFirst(parts: seq<string>)
    requires parts != [] && parts[0] != "" && '/' !in parts[0]
    ensures Accumulated(parts, 1) == parts[0]
  {
    assert Accumulated(parts, 0) == "/";
    PathJoinRoot(parts[0]);
  }

  /** After `k` parts the accumulated path is those parts joined by "/", with no leading slash. */
  lemma {:induction false} AccumulatedIsJoin(parts: seq<string>, k: nat)
    requires SlashFreeParts(parts) && 1 <= k <= |parts|
    ensures Accumulated(parts, k) == Join(parts[..k], "/")
  {
    var last := parts[k - 1];
    assert last != "" && '/' !in last;
    if k == 1 {
      AccumulatedFirst(parts);
      assert parts[..1] == [last];
    } else {
      AccumulatedIsJoin(parts, k - 1);
      JoinNextPart(parts, k);
    }
  }

  /** `path.join` of the first `k - 1` parts joined by "/" and part `k - 1` is the first `k` parts joined by "/". */
  lemma JoinNextPart(parts: seq<string>, k: nat)
    requires SlashFreeParts(parts) && 2 <= k <= |parts|
    ensures PathJoin([Join(parts[..k - 1], "/"), parts[k - 1]]) == Join(parts[..k], "/")
  {
    var front, last := parts[..k - 1], parts[k - 1];
    var j := Join(front, "/");
    assert PathJoin([j, last]) == j + "/" + last by {
      SlashFreePrefix(parts, k - 1);
      JoinSlashFree(front);
      PathJoinAppend(j, last);
    }
    assert Join(parts[..k], "/") == j + "/" + last by {
      TakeSnoc(parts, k);
      JoinSnoc(front, last, "/");
    }
  }

  /**
   * As written, every clickable crumb lists the whole path, so no crumb except the
   * root leads anywhere but the directory already shown.
   */
  lemma AsWrittenCrumbsListCurrentDir(path: string, i: nat)
    requires i < |PathParts(path)| - 1
    ensures BreadcrumbsAsWritten(path)[i + 1].target == Some(Join(PathParts(path), "/"))
    ensures BreadcrumbsAsWritten(path)[i + 1].target != Breadcrumbs(path)[i + 1].target
  {
    var parts := PathParts(path);
    WholePathLonger(parts, i);
    assert BreadcrumbsAsWritten(path)[i + 1].target == Some(Accumulated(parts, |parts|));
    assert Breadcrumbs(path)[i + 1].target == Some(Join(parts[..i + 1], "/"));
  }

  lemma {:induction false} AccumulatedWhole(parts: seq<string>)
    requires SlashFreeParts(parts) && parts != []
    ensures Accumulated(parts, |parts|) == Join(parts, "/")
  {
    AccumulatedIsJoin(parts, |parts|);
    assert parts[..|parts|] == parts;
  }

  lemma {:induction false} WholePathLonger(parts: seq<string>, i: nat)
    requires SlashFreeParts(parts) && i < |parts| - 1
    ensures Accumulated(parts, |parts|) == Join(parts, "/")
    ensures |Join(parts[..i + 1], "/")| < |Join(parts, "/")|
  {
    var k := i + 1;
    assert 1 <= k < |parts|;
    JoinPrefixShorter(parts, k);
    AccumulatedWhole(parts);
  }

  lemma {:induction false} JoinPrefixShorter(parts: seq<string>, k: nat)
    requires SlashFreeParts(parts) && 1 <= k < |parts|
    ensures |Join(parts[..k], "/")| < |Join(parts, "/")|
    decreases |parts| - k
  {
    TakeSnoc(parts, k + 1);
    JoinSnoc(parts[..k], parts[k], "/");
    if k + 1 < |parts| {
      JoinPrefixShorter(parts, k + 1);
    } else {
      assert parts[..k + 1] == parts;
    }
  }

  // ---- listing a directory and the context menu (files.js:72-82, 189-235) ----

  /** The foreground `ls -F "<dir>"` of `listDeviceFiles`. */
  function LsRequest(dir: string): (r: Request)
    ensures IsDeviceCommand(r.args) && !r.background && r.key == Some("device-ls")
  {
    assert "shell" in DeviceVerbs && ["shell", "ls -F \"" + dir + "\""][0] == "shell";
    Request("adb", ["shell", "ls -F \"" + dir + "\""], false, Some("device-ls"))
  }

  datatype MenuAction = Open | Download | Rename | Delete | NewFolder

  /** What the user answers to the dialog an action opens, if any. */
  datatype Answer = Answer(destination: Option<string>, text: Option<string>, confirmed: bool)

  /** The effects of one context-menu action: a directory to list now, a command, and a relist in 500 ms. */
  datatype MenuEffect = MenuEffect(list: Option<string>, command: Option<Request>, relistLater: bool)

  const NoEffect := MenuEffect(None, None, false)

  function Quoted(s: string): string {
    "\"" + s + "\""
  }

  /** The path an action works on: the item in the current directory, or the directory itself. */
  function TargetPath(cur: string, item: Option<FileItem>): string {
    if item.Some? then PathJoin([cur, item.value.name]) else cur
  }

  function MenuEffectOf(action: MenuAction, item: Option<FileItem>, cur: string, answer: Answer): MenuEffect {
    var target := TargetPath(cur, item);
    match action
    case Open =>
      if item.Some? && item.value.isDirectory then MenuEffect(Some(target), None, false) else NoEffect
    case Download =>
      if item.Some? && !item.value.isDirectory && Truthy(answer.destination) then
        MenuEffect(None, Some(Request("adb", ["pull", Quoted(target), Quoted(answer.destination.value)], false, None)), false)
      else NoEffect
    case Rename =>
      if item.Some? && Truthy(answer.text) && answer.text.value != item.value.name then
        var newPath := PathJoin([cur, answer.text.value]);
        MenuEffect(None, Some(Request("adb", ["shell", "mv " + Quoted(target) + " " + Quoted(newPath)], false, None)), true)
      else NoEffect
    case Delete =>
      if item.Some? && answer.confirmed then
        MenuEffect(None, Some(Request("adb", ["shell", "rm -rf " + Quoted(target)], false, None)), true)
      else NoEffect
    case NewFolder =>
      if Truthy(answer.text) then
        var newPath := PathJoin([cur, answer.text.value]);
        MenuEffect(None, Some(Request("adb", ["shell", "mkdir " + Quoted(newPath)], false, None)), true)
      else NoEffect
  }

  /**
   * The guards of the context menu: each action has an effect exactly under its own
   * condition, a command is always a foreground device command without a key, and a
   * relist follows exactly the commands that change the directory.
   */
  lemma MenuEffectGuards(action: MenuAction, item: Option<FileItem>, cur: string, answer: Answer)
    ensures MenuEffectOf(action, item, cur, answer).list.Some? <==>
      action == Open && item.Some? && item.value.isDirectory
    ensures MenuEffectOf(action, item, cur, answer).list.Some? ==>
      MenuEffectOf(action, item, cur, answer).list.value == PathJoin([cur, item.value.name])
    ensures action == Download ==> (MenuEffectOf(action, item, cur, answer).command.Some? <==>
      item.Some? && !item.value.isDirectory && Truthy(answer.destination))
    ensures action == Rename ==> (MenuEffectOf(action, item, cur, answer).command.Some? <==>
      item.Some? && Truthy(answer.text) && answer.text.value != item.value.name)
    ensures action == Delete ==> (MenuEffectOf(action, item, cur, answer).command.Some? <==>
      item.Some? && answer.confirmed)
    ensures action == NewFolder ==> (MenuEffectOf(action, item, cur, answer).command.Some? <==> Truthy(answer.text))
    ensures MenuEffectOf(action, item, cur, answer).command.Some? ==>
      var c := MenuEffectOf(action, item, cur, answer).command.value;
      IsDeviceCommand(c.args) && !c.background && c.key.None?
    ensures MenuEffectOf(action, item, cur, answer).relistLater <==>
      MenuEffectOf(action, item, cur, answer).command.Some? && action != Download
  {
    assert "shell" in DeviceVerbs && "pull" in DeviceVerbs;
    var e := MenuEffectOf(action, item, cur, answer);
    if e.command.Some? {
      assert e.command.value.args[0] in e.command.value.args;
    }
  }
}
