# A.S.C.E.N.D front end, modelled in Dafny

A.S.C.E.N.D is an Electron front end for `adb` and `scrcpy`. This project models the
renderer side of it (`gui/js/`). That side has three parts:

- one mutable session record (`state.js`), plus module state in `debloater.js`;
- a command pipeline: `runCommand` decides whether a call is a device command, refuses
  device commands when no device is selected, puts `-s <serial>` in front of the args,
  and sets the busy flag; the output router then clears the busy flag and sends each
  output to a handler picked by its correlation key;
- a set of text parsers and argument builders: `adb devices`, `getprop`, `dumpsys`,
  `ls -F`, `pm list packages`, the debloat database, `path.join`, breadcrumbs, the
  scrcpy flags, the remote key codes and the text escaping.

The model is laid out as follows:

- **Session** (`session.dfy`). A class holding the fields of `state.js` and the state
  that `debloater.js` keeps in module variables. Every handler that changes state is a
  method with a `modifies` frame. Its `ensures` give the whole new state in terms of the
  specification functions of the other modules. The outside world is modelled this way:
  - the external process is the ghost sequence `dispatched` of the requests handed over;
  - the session log is `log`;
  - `setTimeout` adds a `Timer` (delay and follow-up), and `FireTimer` runs one;
  - one tick of the `setInterval` poller is a call of `PollTick`.
- **Adb** (`adb.dfy`). The device-command test, the serial injection, the fold of
  `runCommand` over a list of requests, `ERROR:` stripping, and the order of the router.
- **Dashboard, Files, Debloater, Apps, DebloatDb, Device, Remote, Scrcpy**. One module
  per source file. Each holds the pure parts of that file, with lemmas that connect
  every operation to a partner (an inverse, a reference definition or an invariant).
- **Text, Patterns, Sorting, Common**. The JavaScript built-ins the code relies on:
  - `trim`, `split`, `join`, `indexOf`, `includes`, `replace` with a string pattern,
    and `toLowerCase`;
  - a small regular-expression matcher (a literal, or a greedy run of a character
    class), which finds the leftmost match;
  - an insertion sort, proved a permutation and sorted for any total preorder;
  - `filter`, `map` and `[...new Set(xs)]`.

Where the code is quirky, the model keeps the quirk and a lemma states it:

- `"1"` and `"show"` read as "on" for every toggle (`Device.ParseToggleState`).
- The "pointer" toggle is written to one property and read from another
  (`Device.ReadWhereWritten`).
- `path.join("/", x)` drops the leading slash (`Files.PathJoinRoot`).
- The density "N/A" fallback can never be reached (`Dashboard.DensityText`).
- An output tagged `error:` is stripped case-insensitively but logged as information
  (`Adb.LowerCaseErrorLoggedAsInfo`).
- `apps.js` puts the serial in front itself, so `runCommand` adds it a second time for
  the app listing (`Apps.AppsListSerialTwice`).
- The detail buttons of `apps.js` never pass the `shell` verb they prepare
  (`Apps.DetailCommandsLackShell`).

One quirk is recorded rather than kept: the breadcrumbs. As written, every clickable
crumb lists the whole current path (see "## Findings"), but the session stores the
corrected trail `Files.Breadcrumbs`. The as-written trail is `Files.BreadcrumbsAsWritten`.

## Model

| member | source | states |
|---|---|---|
| Session.Session.constructor | gui/js/state.js:3-30 | The initial record: no device, an empty list, not busy, the dashboard tab, an empty database, the "all" filter, path "/sdcard/", list view, nothing selected, all three toggles off. |
| Session.Session.SetBusy | gui/js/shell.js:86-89 | The busy flag becomes the argument. |
| Session.Session.TabClick | gui/js/shell.js:44-84 | The settings link opens the dialog and changes nothing else. A link with no target, or to the active tab, changes nothing. Any other link makes its target the active tab and refreshes exactly once. |
| Adb.InjectedShape | gui/js/adb.js:45-67 | `-s <serial>` is put in front exactly for device commands. Command, background flag and key are kept. Whether the call is a device command does not change. |
| Session.Session.RunCommand | gui/js/adb.js:39-71 | `Ran`: a device command with no device logs one error, sends nothing and leaves the busy flag alone. Any other call is sent exactly once, with the serial injected, logs nothing, and sets the busy flag exactly for a foreground call. |
| Session.Session.RunAll | gui/js/adb.js:39-71 | Running requests in turn sends exactly `DispatchAll`, logs exactly `AbortLog` and leaves the busy flag at `BusyAfter`. These are the folds of one `runCommand`. |
| Adb.DispatchAllWithDevice | gui/js/adb.js:60-67 | With a device selected nothing is refused. Every request is sent in order, with the serial injected where needed, and nothing is logged. |
| Adb.BusyAfterBackground | gui/js/adb.js:69 | Background requests never set the busy flag. |
| Adb.DispatchAllSnoc | gui/js/adb.js:39-71 | Running one more request extends the dispatches, the log and the busy flag by that request's effect alone. |
| Adb.DispatchOne | gui/js/adb.js:60-70 | A single request is sent unless refused. It sets the busy flag exactly when it is sent in the foreground. |
| Adb.MessageStrips | gui/js/adb.js:17 | A leading "ERROR:" in any letter case is removed before trimming. A "SUCCESS:" tag stays in the message. |
| Adb.RouteByKey | gui/js/adb.js:19-35 | Each handler is reached exactly under its key test, in the router's order. An unkeyed output is logged as an error exactly when it starts with case-sensitive "ERROR:". It is logged as information exactly when it does not start that way and its message is non-empty. |
| Adb.LowerCaseErrorLoggedAsInfo | gui/js/adb.js:17-35 | An unkeyed output tagged "error:" in lower case has its tag stripped. It is logged as information, or dropped when nothing is left. |
| Adb.UntaggedUnkeyed | gui/js/adb.js:31-35 | An unkeyed output without "ERROR:" is logged as information when its message is non-empty, and dropped otherwise. |
| Session.Session.OnOutput | gui/js/adb.js:15-36 | Every output clears the busy flag first. The key then picks exactly one handler, in the router's order, and each handler receives the stripped message (the devices handler receives the raw output). Every part of the session that handler does not own is left unchanged. Unrouted output is logged as an error, as information, or not at all. |
| Session.Session.OnStateOutput | gui/js/adb.js:16-24 | The device-list, dashboard and app-list branches of the router each meet the whole-output contract `Handled`. |
| Session.Session.OnViewOutput | gui/js/adb.js:25-30 | The file-list, toggle and dumpsys branches each meet `Handled`. The dumpsys box receives the message. |
| Session.Session.OnLogOutput | gui/js/adb.js:31-35 | The fall-through logs one error line, one information line, or nothing. |
| Session.Session.OnDeviceListOutput | gui/js/adb.js:19-20 | The busy flag is cleared and the raw output is parsed into the device list. |
| Session.Session.OnDashboardOutput | gui/js/adb.js:21-22 | The busy flag is cleared and only the dashboard texts of that key are written. |
| Session.Session.OnAppListOutput | gui/js/adb.js:23-24 | The busy flag is cleared. The app cache, both drop-downs and the shown list are rebuilt from the message. |
| Session.Session.OnFileListOutput | gui/js/adb.js:25-26 | The busy flag is cleared and the listing is replaced by the parsed message. |
| Session.Session.OnToggleOutput | gui/js/adb.js:27-28 | The busy flag is cleared and only the toggle named by the key is written. |
| Session.Session.OnDumpsysOutput | gui/js/adb.js:29-30 | The busy flag is cleared and the dumpsys box holds the message. |
| Session.Session.OnUnroutedOutput | gui/js/adb.js:31-35 | The busy flag is cleared and at most one line is logged. |
| Session.RefreshRequestsRoutes | gui/js/adb.js:79-94 | A refresh sends only device commands. Each one's output goes back to its own tab's handler. Only the apps and files tabs run in the foreground, and an unknown tab sends nothing. |
| Session.Session.RefreshView | gui/js/adb.js:73-95 | With no device, one information line is logged and nothing else changes. With a device, exactly the action of the active tab runs: its requests are sent and only that tab's views are reset. Any other tab does nothing. |
| Session.Session.RefreshDashboardTab | gui/js/adb.js:80-82 | The dashboard case of `refreshView` has the effect `Refreshed`. |
| Session.Session.RefreshAppsTab | gui/js/adb.js:83-85 | The apps case of `refreshView` has the effect `Refreshed`. |
| Session.Session.RefreshFilesTab | gui/js/adb.js:86-88 | The files case lists the stored path again and has the effect `Refreshed`. |
| Session.Session.RefreshDeviceTab | gui/js/adb.js:89-91 | The device case of `refreshView` has the effect `Refreshed`. |
| Dashboard.DeviceIdOf | gui/js/dashboard.js:31 | A serial holds no tab and starts and ends with no white space. |
| Dashboard.ParseDeviceList | gui/js/dashboard.js:27-33 | The loop collects exactly `DeviceIds`: the trimmed first tab field of every non-blank line that follows the header and contains "device", in line order. |
| Dashboard.DeviceIdsMembership | gui/js/dashboard.js:28-32 | A serial is listed exactly when some line after the header is a device line naming it. |
| Dashboard.DeviceIdsSkipHeader | gui/js/dashboard.js:28 | Whatever the first line says, it contributes no serial. |
| Session.Session.PopulateDeviceList | gui/js/dashboard.js:26-75 | The stored list becomes the parsed list. An unchanged list changes nothing, so feeding the same text again is idempotent. A changed list keeps the selected device while it is still listed. Otherwise the first serial is selected and the view refreshed once. An empty list leaves no device and a cleared dashboard. |
| Session.Session.SelectDeviceItem | gui/js/dashboard.js:48-61 | Picking the selected device does nothing. Picking another selects it and refreshes once. |
| Session.Session.RefreshDevicesClick | gui/js/dashboard.js:7-9 | One foreground devices query keyed "adb-devices" is sent, and the session becomes busy. |
| Dashboard.DashboardRequests | gui/js/dashboard.js:80-91 | Seven requests. |
| Dashboard.DashboardRequestsBackground | gui/js/dashboard.js:80-91 | Every query is a background `adb shell` device command keyed "dashboard-...". |
| Dashboard.DashboardKeysDistinct | gui/js/dashboard.js:80-88 | No two queries share a key. |
| Dashboard.DashboardRequestsRouted | gui/js/dashboard.js:80-91 | The router sends the output of every dashboard query back to the dashboard updater. |
| Session.Session.GetDashboardData | gui/js/dashboard.js:77-92 | With no device, nothing changes. With a device, the dashboard is cleared and exactly the seven queries are sent in the background. The busy flag and the log are unchanged. |
| Session.Session.ClearDashboard | gui/js/dashboard.js:155-158 | Every field reads "..." and the RAM bar is empty. |
| Dashboard.GetPropSpec | gui/js/dashboard.js:97-98 | A value is found exactly when some `[key]: [` is closed by `]` on its own line. It is the text of the leftmost such match. It holds no `]` and no line break, and `[key]: [value]` occurs in the dump. |
| Dashboard.PropText | gui/js/dashboard.js:99-104 | A getprop field shows its value whenever the value is found and non-empty, and "N/A" otherwise. It is never empty. |
| Dashboard.VersionText | gui/js/dashboard.js:101-103 | The version reads `Android <release> (API <sdk>)`, and each value that is missing or empty reads "?". So it is "Android ? (API ?)" when both are. |
| Dashboard.StatusNameTable | gui/js/dashboard.js:107-115 | Exactly the codes 2, 3, 4 and 5 have the names Charging, Discharging, Not Charging and Full. Any other or missing status is "Unknown". |
| Dashboard.BatteryText | gui/js/dashboard.js:106-116 | The battery line is `<level>% (<status name>)` when a level was found, and "N/A" otherwise. |
| Dashboard.BatteryTextSpec | gui/js/dashboard.js:106-116 | The line is "N/A" exactly when no "level: " is followed by a digit. |
| Dashboard.IpText | gui/js/dashboard.js:118-120 | A found address is the text shown, and "N/A" is shown when there is none. |
| Dashboard.IpTextShape | gui/js/dashboard.js:118-120 | The address shown is "N/A" or four non-empty digit groups joined by dots. |
| Dashboard.RunText | gui/js/dashboard.js:119-142 | A found run is the text shown. The field is "N/A" or a non-empty run of its character class, and it is "N/A" exactly when nothing was extracted. |
| Dashboard.RunTextNotFound | gui/js/dashboard.js:119-142 | The MAC, CPU load and resolution fields read "N/A" exactly when the marker is not followed by a character of the class. |
| Dashboard.DensityText | gui/js/dashboard.js:144-145 | A found density shows as `<digits> dpi`. A missing one shows "undefined dpi", exactly when nothing matched, because a template string is never falsy. So the text always ends in " dpi" and is never "N/A". |
| Dashboard.MemFieldDigits | gui/js/dashboard.js:127-130 | A captured kB figure is a non-empty string of digits. |
| Dashboard.MemKb | gui/js/dashboard.js:126-131 | A figure is present exactly when the `MemTotal:`/`MemAvailable:` pattern matches. It is then the decimal value of the captured digits, as `parseInt` reads them. |
| Dashboard.RamUsage | gui/js/dashboard.js:126-139 | The bar is updated exactly when both figures are present and non-zero. Then used + available = total > 0. |
| Dashboard.DashboardTexts | gui/js/dashboard.js:94-146 | Only dashboard field ids are written. The RAM query writes no text field of the model, because its `info-ram-text` is the floating-point `toFixed` display, which is left out. |
| Dashboard.DashboardTextsKeys | gui/js/dashboard.js:96-146 | Fields are written only for the keys of the dashboard queries, other than the RAM query. |
| Session.Session.UpdateDashboardData | gui/js/dashboard.js:94-153 | The fields of the key are written over the old ones. The RAM bar changes only for two non-zero figures. |
| Files.DropTrailingSlash | gui/js/files.js:10 | Exactly one trailing slash is removed, and a string without one is unchanged. |
| Files.CollapseKeepsParts | gui/js/files.js:13 | The names between the slashes survive in order, and so do the text before the first slash and the last character. With the contract of `CollapseSlashes` (no "//", first character kept), this fixes the result as the input with each run of slashes made one slash. |
| Files.CollapseSlashes | gui/js/files.js:13 | The result has no "//". It is empty exactly when the input is, keeps the first character, and leaves a string without "//" as it is. |
| Files.PathJoin | gui/js/files.js:7-14 | `path.join` never returns "" and never holds "//". |
| Files.PathJoinAllEmpty | gui/js/files.js:8-13 | Arguments that are all "" or "/" join to "/". |
| Files.PathJoinRoot | gui/js/files.js:10-13 | "/" contributes nothing: `join("/", x)` is `x`, with no leading slash. |
| Files.PathJoinAppend | gui/js/files.js:8-13 | A directory and a plain name are joined with exactly one slash, and nothing else changes. |
| Files.ToFileItem | gui/js/files.js:96-99 | An entry is a directory exactly when its line ends in "/". |
| Files.ItemLineRoundTrip | gui/js/files.js:96-99 | Printing an item again gives back its line, so no information is lost. |
| Files.ListedNamesMembership | gui/js/files.js:85-95 | A name is listed exactly when some line trims to it and it passes the filter: non-empty, not "ls:…", not "total…", not "." or "..". |
| Files.FileBeforeIsTotalPreorder | gui/js/files.js:105-111 | For any total preorder on names, "directories first, then names" is a total preorder. |
| Files.FileListingSpec | gui/js/files.js:84-111 | For any total preorder on names, the listing is a permutation of the kept entries. Every directory comes before every file, and each kind is in name order. |
| Session.Session.ParseAndRenderDeviceFiles | gui/js/files.js:84-111 | The rendered listing is `FileListing` of the text. |
| Session.Session.ListDeviceFiles | gui/js/files.js:72-82 | With no device, nothing changes. With one, the path is stored, the selection cleared and the corrected breadcrumbs of `Files.Breadcrumbs` drawn. Exactly one foreground `ls -F "<dir>"` keyed "device-ls" is sent, and the session becomes busy. |
| Files.LsRequest | gui/js/files.js:81 | The listing is a foreground device command keyed "device-ls". |
| Files.PathParts | gui/js/files.js:133 | The parts of a path are non-empty and hold no "/". |
| Files.BreadcrumbsAsWritten | gui/js/files.js:130-154 | As written, there is a root crumb and one crumb per part. Every clickable crumb lists the value `pathOnClick` has after the loop. |
| Files.AsWrittenCrumbsListCurrentDir | gui/js/files.js:134-151 | Every intermediate crumb lists the whole current path, never the prefix it shows. |
| Files.Breadcrumbs | gui/js/files.js:130-154 | The intended trail: the root, then one crumb per part. Each crumb except the last lists the first parts up to its own, joined by "/". |
| Files.CrumbsUpTo | gui/js/files.js:140-153 | The root crumb and the crumbs of the first `i` parts. |
| Files.RenderBreadcrumbs | gui/js/files.js:130-154 | The loop, with each crumb's path taken when the crumb is made, builds exactly `Breadcrumbs(path)`. |
| Files.AccumulatedStep | gui/js/files.js:141-151 | One turn of the loop: the next `pathOnClick`, and the crumb target taken from it. |
| Files.AccumulatedIsJoin | gui/js/files.js:134-141 | After `k` parts, `pathOnClick` is those parts joined by "/", with no leading slash. |
| Files.JoinNextPart | gui/js/files.js:141 | `path.join` of a joined prefix and the next part is the longer prefix joined. |
| Files.JoinSlashFree | gui/js/files.js:141 | Slash-free parts joined by "/" give a path with no "//" that neither starts nor ends with "/". |
| Files.WholePathLonger | gui/js/files.js:141-150 | The whole path is strictly longer than any proper prefix, so the two targets differ. |
| Files.MenuEffectGuards | gui/js/files.js:189-235 | Open lists a directory target. Download needs a file and a destination. Rename needs a non-empty new name that differs from the old. Delete needs confirmation. New folder needs a non-empty name. Every command is a foreground device command without key. A relist in 500 ms follows exactly the commands that change the directory. |
| Session.Session.ContextMenuAction | gui/js/files.js:189-235 | With no effect, or a listing without a device, nothing changes. A listing has the whole effect of `listDeviceFiles`. A command has exactly the effect of one `runCommand`, including refusal and busy flag, and leaves the path and the selection alone. A relist in 500 ms is scheduled exactly when the effect asks for one. |
| Session.Session.ClickFileItem | gui/js/files.js:19-30 | A click selects the item. |
| Session.Session.OpenFileItem | gui/js/files.js:32-38 | A double click on a directory has the whole effect of listing `join(current, name)`: path, selection, breadcrumbs, busy flag, log and dispatch. Anything else, or no device, changes nothing. |
| Session.Session.ContextMenuOn | gui/js/files.js:40-59 | The item under the mouse, or none, becomes the menu target, and an item is also selected. |
| Session.Session.CrumbClick | gui/js/files.js:138-151 | A clickable crumb has the whole effect of listing the target stored in it. The last crumb, or no device, changes nothing. The trail the session stores is the corrected one. |
| Session.Session.SetFileViewMode | gui/js/files.js:156-163 | The view mode becomes the argument. |
| Debloater.PackageIds | gui/js/debloater.js:90-93 | No listed id is blank. |
| Debloater.PackageIdsMembership | gui/js/debloater.js:90-93 | An id is listed exactly when it is not blank and some line gives it after its first "package:" is removed and it is trimmed. |
| Debloater.PackageNameOfLine | gui/js/debloater.js:92 | The line `package:<id>` gives the trimmed id. |
| Debloater.RecordOf | gui/js/debloater.js:94-105 | A record carries its package id. |
| Debloater.RecordDefaults | gui/js/debloater.js:95-104 | The list is "Unknown" and the removal "unknown", because database entries carry neither. Dependencies, needed-by and labels are empty. The description is the database's, or the default text. |
| Debloater.RecordsIndex | gui/js/debloater.js:94-105 | One record per id, in order. |
| Debloater.AppRecordsSpec | gui/js/debloater.js:89-106 | For any total preorder on ids, the cache is a permutation of one record per listed package, sorted by id, each record with its defaults. |
| Session.Session.PopulateAppList | gui/js/debloater.js:89-110 | The cache becomes `AppRecords` of the text, and both drop-downs and the shown list are drawn from it. |
| Session.Session.SetAppCache | gui/js/debloater.js:90-109 | The cache is replaced and both views are drawn from it. |
| Debloater.ShownApps | gui/js/debloater.js:135-147 | No more records are shown than are cached. |
| Debloater.ShownAppsMembers | gui/js/debloater.js:135-147 | A record is shown exactly when it is cached and passes all three tests: the safety test, the list test, and the search on the lower-cased id or database name. |
| Debloater.ShownAppsExtremes | gui/js/debloater.js:135-147 | When every record passes, the whole cache is shown in order. When none does, nothing is. |
| Debloater.ShownAppsUnfiltered | gui/js/debloater.js:135-147 | With the filters at their defaults, the whole cache is shown in order. |
| Debloater.ShownNarrowing | gui/js/debloater.js:140-145 | Typing more search text never brings an app back. |
| Debloater.ShownOnlyDefaults | gui/js/debloater.js:136-139 | A safety other than "all"/"unknown", or a list other than "all"/"Unknown", shows nothing. |
| Session.Session.RenderAppList | gui/js/debloater.js:132-147 | The shown list is the cached records the filters let through, in cache order. |
| Session.Session.SetSearch | gui/js/debloater.js:23-26 | The search is stored lower-cased and the list is drawn again. |
| Session.Session.SetDropdownFilter | gui/js/debloater.js:61-67 | The picked filter is stored and the list is drawn again. |
| Debloater.FilterOptions | gui/js/debloater.js:118 | A drop-down starts with "all". |
| Debloater.FilterOptionsSpec | gui/js/debloater.js:113-129 | After "all", every value appears exactly once, in strictly increasing code-unit order, and nothing else does. |
| Debloater.FieldsIndex | gui/js/debloater.js:113-114 | The list and removal columns of the cache, in order. |
| Debloater.OptionsOfListing | gui/js/debloater.js:113-129 | With a non-empty listing, the drop-downs are ["all", "Unknown"] and ["all", "unknown"]. |
| Debloater.OneOption | gui/js/debloater.js:113-129 | Values that are all the same give "all" and that value. |
| Session.Session.PopulateFilterDropdowns | gui/js/debloater.js:112-130 | Both drop-downs are the options of the cached columns. |
| Debloater.Toggle | gui/js/debloater.js:36-38 | A click flips the package's membership, keeps every other package, and keeps the selection free of repeats. |
| Debloater.ToggleTwice | gui/js/debloater.js:36-38 | Two clicks restore the set. When the package was not selected, they restore the order as well. |
| Session.Session.ClickApp | gui/js/debloater.js:31-40 | The selection gains or loses the package, and the bar is hidden exactly when the selection is empty. |
| Session.Session.ClearSelection | gui/js/debloater.js:202-208 | The selection becomes empty. |
| Debloater.SelectionLabel | gui/js/debloater.js:189-200 | The bar is hidden exactly when the count is 0. |
| Debloater.SelectionLabelText | gui/js/debloater.js:193-195 | The label reads "1 app selected" or "<n> apps selected", and its first word reads back as the count. |
| Debloater.ListAppsArgs | gui/js/debloater.js:82-84 | The args are `shell pm list packages -e`, plus "-s" exactly for the system filter and "-3" exactly for the user filter. |
| Debloater.ListAppsRequest | gui/js/debloater.js:86 | The listing is a foreground device command whose output goes to the app-list handler. |
| Session.Session.ListApps | gui/js/debloater.js:72-87 | With no device, nothing is sent. With one, the selection is cleared and exactly one foreground "list-apps" query is sent. |
| Session.Session.SetAppFilter | gui/js/debloater.js:12-21 | The filter is stored and the list is requested again. |
| Debloater.BatchArgs | gui/js/debloater.js:220-223 | "uninstall" runs `shell pm uninstall -k --user 0 <pkg>`, which keeps the user data. Any other action runs `shell pm disable-user --user 0 <pkg>`. The `-k` flag is there exactly for "uninstall". |
| Debloater.BatchRequests | gui/js/debloater.js:218-225 | One request per selected package. |
| Debloater.BatchRequestsShape | gui/js/debloater.js:218-225 | Every request is a background device command for its package, in selection order, keyed "batch-<action>". The router hands those outputs to no handler. |
| Debloater.BatchDelay | gui/js/debloater.js:226 | The delay is 500·max(1, count/2) computed over the reals, and it is still a whole number of milliseconds. |
| Debloater.BatchDelayValues | gui/js/debloater.js:226 | The delay is 500 ms for one or two packages, 250·count from two on, and never below 500. |
| Session.Session.BatchAction | gui/js/debloater.js:210-227 | An empty selection or a declined confirmation does nothing. Otherwise one background command is sent per package and one relist is scheduled after `BatchDelay(count)`. The busy flag is unchanged. |
| DebloatDb.Entry | gui/js/renderer.js:30-36 | The name falls back from name to list to the id's last "."-segment. The description falls back to the default text. The safety falls back from safety to removal to "unknown". |
| DebloatDb.FormatDb | gui/js/apps.js:108-113 | Anything other than an array gives the empty dictionary. |
| DebloatDb.ParseDebloatDb | gui/js/apps.js:106-124 | The loop builds exactly `FormatDb`. |
| DebloatDb.FormattedKeys | gui/js/renderer.js:28-37 | An id is in the dictionary exactly when some element with a non-empty id carries it. |
| DebloatDb.FormattedLastWins | gui/js/apps.js:114-121 | An id's entry comes from the last element carrying that id. |
| DebloatDb.FormattedEntriesFilled | gui/js/apps.js:116-120 | Every entry has a description and a safety text. |
| Session.Session.Startup | gui/js/renderer.js:25-58 | The database is loaded and normalised, or a failure is logged and the old database kept. One background start-server is sent and the first poll is scheduled after 500 ms. The greeting is logged. |
| Session.Session.PollTick | gui/js/renderer.js:51-55 | A tick sends one background devices query when not busy, and nothing when busy. Polling never sets the busy flag. |
| Session.Session.FireTimer | gui/js/renderer.js:49-56 | A scheduled follow-up runs once and is removed. The first poll sends the devices query and starts the poller. The first poll logs nothing and leaves the busy flag alone. A later `listApps` has the whole effect of `listApps`: with a device the selection is cleared, the app query sent and the session busy, and without one nothing changes. A relist has the whole effect of `listDeviceFiles` on the current path, or none without a device. A delayed command has exactly the effect of one `runCommand`. Each branch leaves the fields the others change as they were. |
| Session.DevicesQueryNotDevice | gui/js/renderer.js:50-53 | The devices query is not a device command, so it is never refused and is sent unchanged. |
| Apps.AppsListRequest | gui/js/apps.js:4-16 | With no device, nothing is sent. |
| Apps.AppsListSerialTwice | gui/js/apps.js:8-16 | The listing is a foreground device command keyed "list-apps". Because of its own `-s`, the process receives the serial twice. |
| Apps.AppsPane | gui/js/apps.js:19-39 | The pane shows the placeholder exactly when no package is listed. Its items are a permutation of the listed ids. |
| Apps.AppsPaneSorted | gui/js/apps.js:33 | The items follow the default (code-unit) sort order. |
| Apps.VisibleApps | gui/js/apps.js:48-54 | No more items are visible than are shown. |
| Apps.VisibleAppsMembers | gui/js/apps.js:49-51 | An item is visible exactly when its lower-cased name or id holds the filter. |
| Apps.CountVisible | gui/js/apps.js:47-54 | The loop gives each item's visibility, and the count is the number of visible items. |
| Apps.ApplyAppSearchFilter | gui/js/apps.js:43-71 | The filter is the lower-cased input. The no-results marker is present exactly when nothing is visible and the list has children. |
| Apps.EmptyFilterShowsAll | gui/js/apps.js:51 | An empty filter leaves every item visible. |
| Apps.VisibleAppsAll | gui/js/apps.js:51 | When every item passes, all are visible in order. |
| Apps.SafetyClass | gui/js/apps.js:98-103 | The class is one of four. "safe" holds exactly for "safe", "caution" exactly for caution/advanced, and "unsafe" exactly for unsafe/expert. |
| Apps.SafeExactly | gui/js/apps.js:94-96 | After the first "recommended" is replaced, the text is "safe" exactly for "safe" and "recommended". |
| Apps.DatabaseSafetyClasses | gui/js/apps.js:94-103 | Each removal level the database writes gets its badge class, whatever its case: "Recommended" is "safe", "Advanced" is "caution", and "Expert" and "Unsafe" are "unsafe". |
| Apps.AppDetails | gui/js/apps.js:79-97 | The pane shows the database name, description and safety of a known package. Each one falls back, when missing or empty, to the last "."-segment, the no-information text and "unknown". The badge is `SafetyText` of the safety and its class is `SafetyClass` of the badge. |
| Apps.DetailEffectOf | gui/js/apps.js:157-200 | A command runs exactly with a package and a device, and for stop, uninstall, disable or clear with confirmation. A relist follows exactly uninstall and disable. The command is `adb.exe -s <serial> …`. |
| Apps.DetailCommandsLackShell | gui/js/apps.js:164-196 | When neither the serial nor the package is an adb device verb, the detail commands hold no "shell". They are then no device commands, and `runCommand` passes them on unchanged. |
| Device.KeysAt | gui/js/state.js:25-29 | The toggle keys are those of the record, in order. |
| Device.PutSpec | gui/js/device.js:79 | The written key reads back its value and no other key changes. An existing key keeps its place. |
| Device.InitialTogglesOff | gui/js/state.js:25-29 | Initially the keys are layout, overdraw and pointer, all off. |
| Device.Flip | gui/js/device.js:79 | A click flips exactly its key's state and leaves the other keys unchanged. |
| Device.SetPropRequest | gui/js/device.js:80-88 | The write is a foreground device command without key: `shell setprop <write property> <write value>`. |
| Device.ReadProp | gui/js/device.js:139-143 | Exactly the three toggle keys have a property. |
| Device.ReadWhereWritten | gui/js/device.js:139-143 | Layout and overdraw are read where they are written. Pointer is written to `debug.hwui.pointer` but read from `debug.hwui.pointer_location`. |
| Device.GetPropRequest | gui/js/device.js:144-149 | A read-back is a background device command keyed "toggle-<key>". |
| Device.CheckRequests | gui/js/device.js:135 | One read-back per key of the record, in its order. |
| Session.Session.CheckAllToggleStates | gui/js/device.js:133-136 | With no device, nothing changes. With one, exactly the background read-backs are sent. |
| Device.SplitAfter | gui/js/device.js:153 | A key "toggle-…" splits into "toggle" and the rest. |
| Device.ToggleKeyRoundTrip | gui/js/device.js:148-153 | The command key of a query gives its key back, and the router sends its output to the toggle parser. |
| Device.ParseToggleState | gui/js/device.js:152-155 | Only the key named by the command key is written. It is on exactly when the output holds "true", "1" or "show", whatever the key. |
| Session.Session.ParseToggleState | gui/js/device.js:152-155 | The stored toggles become `Device.ParseToggleState` of the old ones. |
| Device.WrittenValueReadsBack | gui/js/device.js:152-155 | A value a click writes reads back as the state it was written for. |
| Device.ButtonIdLayout | gui/js/device.js:156-159 | The renames turn "layout" into the id of its button. |
| Device.ButtonIdOverdraw | gui/js/device.js:156-159 | The renames turn "overdraw" into the id of its button. |
| Device.ButtonIdPointer | gui/js/device.js:156-159 | The renames turn "pointer" into the id of its button. |
| Session.Session.ToggleClick | gui/js/device.js:77-98 | The key is flipped, and the property for the new state is written with the whole effect of one `runCommand`. With a device, it is sent and the session is busy. Without one, an error is logged and nothing else happens. The service poke is scheduled in the background after 200 ms. |
| Device.QuickCommandRequest | gui/js/device.js:127-130 | A quick command runs exactly when one is chosen. |
| Device.QuickCommandRoundTrip | gui/js/device.js:129 | The args after "shell" join back to the chosen command. It runs in the foreground and its output goes to the dumpsys box. |
| Session.Session.RunQuickCommand | gui/js/device.js:127-130 | Nothing happens without a choice. Otherwise the quick command has the whole effect of one `runCommand`: with a device it is sent and the session is busy, and without one the error is logged and nothing is sent. |
| Device.ConnectRequest | gui/js/device.js:24-29 | Connect runs exactly for a non-empty address, as the foreground, unkeyed `connect <ip>:5555`. |
| Device.ConnectNeedsNoDevice | gui/js/device.js:27 | `connect <ip>:5555` is not a device command, so it is sent with no device selected as well, unchanged. |
| Session.Session.ConnectClick | gui/js/device.js:24-29 | An empty address does nothing. Otherwise the connect request is sent as it is. |
| Session.Session.EnableWireless | gui/js/device.js:17-23 | `tcpip 5555` is sent, and the session is busy. Without a device it is refused with an error and the busy flag is kept. A success line is logged in both cases. |
| Device.WmRequest | gui/js/device.js:53-55 | A `wm` setting is sent exactly for a non-empty value, as the foreground, unkeyed device command `shell wm <prop> <value>`. |
| Device.ScreenSizeRequest | gui/js/device.js:53 | The size is set exactly for a non-empty resolution, by the foreground, unkeyed device command whose arguments are exactly `shell wm size <size>`. |
| Device.ScreenDensityRequest | gui/js/device.js:54-55 | The density is set exactly for a non-empty density, by the foreground, unkeyed device command whose arguments are exactly `shell wm density <density>`. |
| Session.Session.SetScreenProps | gui/js/device.js:50-56 | A given size has the whole effect of one `runCommand`: sent and busy with a device, refused with an error without one. Nothing is sent without a size. The density is scheduled 200 ms later when one is given. |
| Session.Session.ResetScreenProps | gui/js/device.js:58-70 | Declining changes nothing. On confirmation, the size reset has the whole effect of one `runCommand`, sent or refused, and the density reset is scheduled after 200 ms. |
| Session.Session.RebootClick | gui/js/device.js:8-15 | Declining changes nothing. On confirmation, the button's command split at spaces has the whole effect of one `runCommand`. A command that is sent makes the session busy. A refused one logs an error and sends nothing. |
| Remote.KeycodeOf | gui/js/remote.js:7-21 | A button has a code exactly when it is in the table, and the code is the table's. |
| Remote.KeycodeIdsDistinct | gui/js/remote.js:7-21 | The thirteen button ids are distinct. |
| Remote.KeycodeOfTable | gui/js/remote.js:7-26 | Each button sends exactly the code the table gives it. |
| Remote.KeyEventRequest | gui/js/remote.js:25 | A key event is a background `shell input keyevent <code>` without key, and its last word reads back as the code. |
| Session.Session.PressRemoteKey | gui/js/remote.js:23-27 | The button's key event has the whole effect of one `runCommand`. With a device it is sent and the busy flag and log are unchanged. Without one an error is logged and nothing is sent. |
| Remote.EscapeSpaces | gui/js/remote.js:34 | The escaped text holds no space. |
| Remote.EscapeConcat | gui/js/remote.js:34 | The escaping works letter by letter, so it distributes over concatenation. |
| Remote.EscapeLetters | gui/js/remote.js:34 | A space becomes "%s" and every other letter stays. |
| Remote.EscapeWithoutSpaces | gui/js/remote.js:34 | Text without a space is sent unchanged. |
| Remote.UnescapeEscape | gui/js/remote.js:34 | Reading "%s" back as a space recovers any text that holds no "%". |
| Remote.EscapeNotInjective | gui/js/remote.js:34 | " " and "%s" are sent alike. |
| Remote.SendTextRequest | gui/js/remote.js:29-39 | Only a non-empty input is sent, as a background `shell input text <escaped>` without key. |
| Remote.SendTextReadsBack | gui/js/remote.js:31-36 | What the device types is the input, whenever the input holds no "%". |
| Session.Session.SendText | gui/js/remote.js:29-39 | An empty input does nothing. Otherwise the escaped text has the whole effect of one background `runCommand`: sent with a device, refused with an error without one. The box is cleared either way. |
| Session.Session.TypeRemoteText | gui/js/remote.js:30-31 | The input box holds the typed text. |
| Scrcpy.RecordFile | gui/js/scrcpy.js:12 | The record file is `scrcpy-record-<now>.mp4`. |
| Scrcpy.Segment | gui/js/scrcpy.js:10-17 | A push adds its flag first when its option is set, and nothing otherwise. |
| Scrcpy.PushIf | gui/js/scrcpy.js:10-17 | One conditional push extends the args to the next prefix `ArgsUpTo`. |
| Scrcpy.BuildScrcpyArgs | gui/js/scrcpy.js:9-17 | The pushes in sequence build exactly `ScrcpyArgs`. |
| Scrcpy.EnabledFlags | gui/js/scrcpy.js:10-17 | A flag is listed exactly when its option is set. |
| Scrcpy.FlagsInOrder | gui/js/scrcpy.js:10-17 | The flags appear in table order, each exactly when its option is set. |
| Scrcpy.EnabledFlagsDistinct | gui/js/scrcpy.js:10-17 | No flag is emitted twice. |
| Scrcpy.ScrcpyFlags | gui/js/scrcpy.js:9-17 | The flags of the whole list are in order and appear at most once each. |
| Scrcpy.SegmentFlags | gui/js/scrcpy.js:10-12 | The only flag a push adds is its own. |
| Scrcpy.ArgsWords | gui/js/scrcpy.js:9-17 | Every word is a flag, the bit-rate value or the record file name. |
| Scrcpy.ScrcpyRequest | gui/js/scrcpy.js:8-18 | Nothing is launched without a device. With one, `scrcpy` runs in the background without key. |
| Scrcpy.ScrcpyWithoutSerial | gui/js/scrcpy.js:18 | When a device is present and the bit rate is not an adb device verb, the launch is not a device command, so no `-s <serial>` is added. |
| Session.Session.StartScrcpy | gui/js/scrcpy.js:7-19 | With no device, nothing changes. With one, exactly one background `scrcpy` with the built args is sent, and the busy flag is unchanged. |
| Text.TrimSpec | gui/js/dashboard.js:30-31 | `trim` keeps the slice left after white space is dropped at both ends, so the result starts and ends with no white space. |
| Text.TrimEmptyIff | gui/js/dashboard.js:30 | A line trims to "" exactly when it is all white space. |
| Text.IndexOf | gui/js/apps.js:96 | The index found is the first occurrence, and no earlier position holds one. |
| Text.ContainsIff | gui/js/device.js:155 | `includes` holds exactly when the text occurs at some index. |
| Text.ContainsPrefix | gui/js/debloater.js:142-145 | A text holding `t + u` holds `t`. |
| Text.ReplaceFirst | gui/js/debloater.js:92 | `replace` with a string pattern changes only the leftmost occurrence, to the replacement, and a text without the pattern is unchanged. |
| Text.Split | gui/js/files.js:86 | `split` gives at least one part, and no part holds the separator. |
| Text.JoinSplit | gui/js/device.js:129 | Splitting on a character and joining with it gives the string back. |
| Text.LastSegment | gui/js/renderer.js:32 | The last "."-segment holds no ".". |
| Text.NatToString | gui/js/remote.js:25 | A number prints as digits with no leading zero. |
| Text.DecimalOfNatToString | gui/js/remote.js:25 | The printed digits read back as the number. |
| Patterns.MarkerRunSpec | gui/js/dashboard.js:106-107 | `marker(class+)` extracts the run after the leftmost marker that a class character follows, and finds nothing exactly when no such marker exists. |
| Patterns.MarkerRunInClass | gui/js/dashboard.js:106-124 | An extracted run is non-empty and holds only class characters. |
| Patterns.DelimitedSpec | gui/js/dashboard.js:98 | `m(class*)t` extracts the run of the leftmost place where it matches, and finds nothing exactly when it matches nowhere. |
| Patterns.DelimitedInClass | gui/js/dashboard.js:98 | An extracted value holds only class characters, and `m + value + t` occurs in the text. |
| Patterns.InetDottedQuad | gui/js/dashboard.js:118 | An extracted address is four non-empty digit groups joined by dots. |
| Patterns.SearchFrom | gui/js/dashboard.js:127-130 | The match found is the leftmost, and no earlier position matches. |
| Sorting.SortByPerm | gui/js/files.js:105-111 | The sort is a permutation of its input. |
| Sorting.SortBySorted | gui/js/files.js:105-111 | With a total preorder, the sort's result is in order. |
| Sorting.OrdinalLeIsTotalPreorder | gui/js/debloater.js:128-129 | The default sort order (code units) is a total preorder. |
| Sorting.CaselessLeIsTotalPreorder | gui/js/debloater.js:106 | The name order standing for the locale collation is a total preorder. |
| Sorting.SortedDistinctIncreasing | gui/js/debloater.js:128-129 | Distinct strings, sorted by the default order, increase strictly. |
| Common.OrElse | gui/js/dashboard.js:99 | `a \|\| b` is `a` when it is a non-empty string, and `b` otherwise. |
| Common.Filter | gui/js/files.js:88-95 | `filter` keeps exactly the elements that pass. |
| Common.FilterConcat | gui/js/files.js:88-95 | Filtering distributes over concatenation. |
| Common.Map | gui/js/files.js:96-99 | `map` applies the function at every index. |
| Common.Remove | gui/js/debloater.js:37 | `Set.delete` removes the element and keeps every other one. |
| Common.Dedup | gui/js/debloater.js:113-114 | `new Set` keeps each element once, and nothing else. |
| Common.DedupOrder | gui/js/debloater.js:113-114 | The elements keep the order of their first occurrences. |

## Left out

- I/O and IPC are left out. `window.electronAPI` (`executeCommand`, `onCommandOutput`,
  `getDebloatInfo`, `saveFile`), `main.js` and the preload bridges are not modelled.
  The process is the ghost sequence `dispatched`, and its output is a parameter of
  `OnOutput`.
- The timing of `setTimeout` and `setInterval` is left out. A follow-up is recorded with
  its delay and fired by `FireTimer` in any order the caller chooses. A poll tick is a
  call of `PollTick`. No wall clock is modelled.
- `Date.now()` is the parameter `now` of `Scrcpy.RecordFile`. The screenshot handler
  (`device.js:31-48`) is left out: its file name comes from the clock, its destination
  from a save dialog, and its steps are chained timers.
- Floating-point display is left out: the RAM percentage and the GB strings of
  `toFixed`. `Dashboard.RamUsage` keeps the integer used and total figures and the guard.
- The DOM is left out: HTML strings, CSS classes, the drop-down open/close handlers, the
  context-menu position and `hideContextMenu`. Only the texts, lists and flags the
  handlers compute are fields.
- Locale collation is left out. `localeCompare` (`files.js:107-110`,
  `debloater.js:106`) is a comparator parameter in every lemma, where any total preorder
  is allowed. The session uses `Sorting.CaselessLe`, a stand-in that is not ICU.
  `Array.prototype.sort` without a comparator is code-unit order.
- Strings are sequences of `char`; UTF-16 surrogate pairs are not modelled.
  `toLowerCase` lowers only ASCII letters.
- Regular expressions are a literal-plus-run matcher, and they find the leftmost match.
  The getprop key is matched literally, although its dots are unescaped in the pattern.
- The debloat database is modelled by its string fields only. A field that is missing
  or not a string is `None`. A thrown load error is its message.
- `console.error` in `parseDebloatDB` and the `catch` block of `updateDashboardData`
  are left out. The modelled extractors cannot throw.
- The confirmation and input dialogs (`modals.js`, `confirm`) are answered by
  parameters (`confirmed`, `Answer`). Their promises and any interleaving are not
  modelled.
- `apps.js` is modelled as values (`Apps`) but is not wired into the session. The
  renderer never calls `initAppsTab`, and its `listApps`/`populateAppList` differ from
  those of `debloater.js`, which the session uses.
- `isConnectionCommand` (`adb.js:54-58`) is computed and never used, so it is left out.
- `isSidebarCollapsed` is kept in the record, but the sidebar toggle of `shell.js` is
  not modelled (DOM only).
- The keycode is passed to `runCommand` as a number and converted to text by the IPC
  layer. The model sends its decimal text (`Remote.KeyEventRequest`).
- Session.Session.OnOutput: for the devices route, the contract states only the
  stored list and the unchanged-list case. The full case split of
  `PopulateDeviceList` is stated by that method but is not carried through `Handled`.
- Session.Session.ListDeviceFiles: draws the corrected breadcrumbs `Files.Breadcrumbs`,
  not the trail of `files.js:140-151`, where every clickable crumb lists the whole path
  (`Files.BreadcrumbsAsWritten`).
- Session.Session.TabClick: a switch to the files tab draws the corrected breadcrumbs.
- Session.Session.RefreshView: a refresh of the files tab draws the corrected breadcrumbs.
- Session.Session.RefreshFilesTab: draws the corrected breadcrumbs.
- Session.Session.PopulateDeviceList: a new device on the files tab draws the corrected breadcrumbs.
- Session.Session.SelectDeviceItem: a new device on the files tab draws the corrected breadcrumbs.
- Session.Session.OpenFileItem: opening a directory draws the corrected breadcrumbs.
- Session.Session.ContextMenuAction: a listing draws the corrected breadcrumbs.
- Session.Session.FireTimer: a delayed relist draws the corrected breadcrumbs.
- Session.Session.CrumbClick: lists the prefix the crumb names, whereas the program
  lists the whole current path, without its leading slash
  (`Files.AsWrittenCrumbsListCurrentDir`).
- Sorting.SortBy: it is stable, as `Array.prototype.sort` is, but no lemma states
  this, so the order of ties (say "Foo" and "foo" under `CaselessLe`) is left open in
  `FileListingSpec` and `AppRecordsSpec`.
- Debloater.ListsOf and Debloater.RemovalsOf stand for `.map` over the cache and are
  specified through `FieldsIndex`.

## Findings

| source | as written | input that shows it | evidently intended | confidence | as-written member | corrected member |
|---|---|---|---|---|---|---|
| gui/js/files.js:134-151 | Every crumb's click handler reads the one `let pathOnClick`, which the loop has advanced to the whole path by the time anyone clicks. | The path "/sdcard/Download/": the "sdcard" crumb lists "sdcard/Download", not "sdcard". | Each intermediate crumb lists the directory it names: the first parts up to its own, joined by "/". | not executed | Files.BreadcrumbsAsWritten, Files.AsWrittenCrumbsListCurrentDir | Files.Breadcrumbs, Files.RenderBreadcrumbs |
