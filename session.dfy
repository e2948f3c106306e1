/**
 * The session of the front end: the `state` record of `gui/js/state.js`, the state the
 * other modules keep beside it (the app cache, the selection and the filters of
 * `gui/js/debloater.js`, the texts the handlers write into the page), and every handler
 * that changes them. The external process is the ghost sequence `dispatched` of the
 * requests `runCommand` hands over; the session log is the sequence `log`;
 * `setTimeout` is a list of pending follow-ups that `FireTimer` runs, and one tick of
 * the `setInterval` poller is a call of `PollTick`.
 */
module Session {
  import opened Common
  import opened Text
  import opened Sorting
  import opened Adb
  import opened Dashboard
  import opened Files
  import opened DebloatDb
  import opened Debloater
  import Device
  import Remote
  import Scrcpy

  /** A follow-up scheduled with `setTimeout`. */
  datatype FollowUp =
    | StartPolling          // the first devices query, which also starts the interval (renderer.js:49-56)
    | ListAppsLater         // `listApps` after a batch action (debloater.js:226)
    | ListFilesLater        // `listDeviceFiles(state.currentDevicePath)` after a file command (files.js:215-233)
    | RunLater(r: Request)  // a command sent later: the service poke, a screen density

  datatype Timer = Timer(delay: nat, action: FollowUp)

  /** What `getDebloatInfo` gives the start-up code: the parsed JSON, or the message of what it threw. */
  datatype LoadResult = Loaded(raw: RawDb) | Failed(message: string)

  const NoRefreshMessage := "Cannot refresh view, no device selected."
  const InitMessage := "A.S.C.E.N.D. Initialized. Awaiting device connection..."
  const LoadFailurePrefix := "FATAL: Failed to load or parse debloat_db.json. "

  /** The devices query of the poller and of the first poll: background, keyed "adb-devices". */
  const DevicesQuery := Request("adb", ["devices"], true, Some("adb-devices"))
  /** The refresh button of the device list runs the same query in the foreground. */
  const RefreshDevicesRequest := Request("adb", ["devices"], false, Some("adb-devices"))
  const StartServer := Request("adb", ["start-server"], true, None)

  /** The dashboard after `clearDashboard`: every field reads "...". */
  const ClearedTexts: map<string, string> := map id | id in InfoFieldIds :: "..."

  /** The requests `refreshView` makes for a tab, with a device selected. */
  function RefreshRequests(tab: string, filter: string, path: string, toggles: Device.Toggles): seq<Request> {
    if tab == "dashboard-tab" then DashboardRequests()
    else if tab == "apps-tab" then [ListAppsRequest(filter)]
    else if tab == "files-tab" then [LsRequest(path)]
    else if tab == "device-tab" then Device.CheckRequests(toggles)
    else []
  }

  /**
   * The output of every request of a refresh comes back to the handler of its tab, each
   * request is a device command, and only the apps and files tabs run one in the
   * foreground; any other tab requests nothing.
   */
  lemma RefreshRequestsRoutes(tab: string, filter: string, path: string, toggles: Device.Toggles, out: string)
    ensures forall r :: r in RefreshRequests(tab, filter, path, toggles) ==> IsDeviceCommand(r.args)
    ensures forall r :: r in RefreshRequests(tab, filter, path, toggles) ==>
      RouteOf(out, r.key) == (if tab == "dashboard-tab" then ToDashboard
                              else if tab == "apps-tab" then ToAppList
                              else if tab == "files-tab" then ToFileList
                              else ToToggle)
    ensures (forall r :: r in RefreshRequests(tab, filter, path, toggles) ==> r.background) <==>
      tab != "apps-tab" && tab != "files-tab"
    ensures tab !in {"dashboard-tab", "apps-tab", "files-tab", "device-tab"} ==> RefreshRequests(tab, filter, path, toggles) == []
  {
    var rs := RefreshRequests(tab, filter, path, toggles);
    if tab == "dashboard-tab" {
      DashboardRequestsBackground();
      DashboardKeysDistinct();
      DashboardRequestsRouted();
      forall r | r in rs ensures IsDeviceCommand(r.args) && r.background && RouteOf(out, r.key) == ToDashboard {
        var i :| 0 <= i < |rs| && rs[i] == r;
      }
    } else if tab == "apps-tab" {
      RouteByKey("", Some("list-apps"));
      RouteByKey(out, Some("list-apps"));
      assert rs[0] in rs;
    } else if tab == "files-tab" {
      RouteByKey(out, Some("device-ls"));
      assert rs[0] in rs;
    } else if tab == "device-tab" {
      forall r | r in rs ensures IsDeviceCommand(r.args) && r.background && RouteOf(out, r.key) == ToToggle {
        var i :| 0 <= i < |rs| && rs[i] == r;
        var k := toggles[i].0;
        assert r.key == Some("toggle-" + k);
        assert ("toggle-" + k)[..7] == "toggle-";
        RouteByKey(out, r.key);
      }
    }
  }

  /** `currentDeviceList.includes(currentDevice)`: `null` is in no list. */
  predicate KeepsDevice(dev: Option<string>, ids: seq<string>) {
    dev.Some? && dev.value in ids
  }

  class Session {
    // state.js
    var currentDevice: Option<string>
    var currentDeviceList: seq<string>
    var isBusy: bool
    var activeTab: string
    var isSidebarCollapsed: bool
    var debloatDB: map<string, DbEntry>
    var currentAppFilter: string
    var selectedApp: Option<string>
    var currentDevicePath: string
    var fileViewMode: string
    var selectedFileItem: Option<FileItem>
    var contextMenuTarget: Option<FileItem>
    var devToggles: Device.Toggles

    // the outside world
    ghost var dispatched: seq<Request>
    var log: seq<LogEntry>
    var timers: seq<Timer>
    var pollingStarted: bool

    // debloater.js
    var appCache: seq<AppRecord>
    var selectedPackages: seq<string>
    var activeFilters: Filters

    // what the handlers write into the page
    var infoTexts: map<string, string>
    var ramBar: Option<(int, nat)>
    var oemOptions: seq<string>
    var safetyOptions: seq<string>
    var shownApps: seq<AppRecord>
    var fileListing: seq<FileItem>
    var breadcrumbs: seq<Crumb>
    var dumpsysText: string
    var sendTextInput: string
    var settingsOpen: bool

    /** The record of state.js, before any handler has run. */
    constructor ()
      ensures currentDevice == None && currentDeviceList == []
      ensures !isBusy && activeTab == "dashboard-tab" && isSidebarCollapsed
      ensures debloatDB == map[] && currentAppFilter == "all" && selectedApp == None
      ensures currentDevicePath == "/sdcard/" && fileViewMode == "list"
      ensures selectedFileItem == None && contextMenuTarget == None
      ensures devToggles == Device.InitialToggles
      ensures dispatched == [] && log == [] && timers == [] && !pollingStarted
      ensures appCache == [] && selectedPackages == [] && activeFilters == NoFilters
      ensures infoTexts == map[] && ramBar == None && oemOptions == [] && safetyOptions == [] && shownApps == []
      ensures fileListing == [] && breadcrumbs == [] && dumpsysText == "" && sendTextInput == "" && !settingsOpen
    {
      currentDevice := None;
      currentDeviceList := [];
      isBusy := false;
      activeTab := "dashboard-tab";
      isSidebarCollapsed := true;
      debloatDB := map[];
      currentAppFilter := "all";
      selectedApp := None;
      currentDevicePath := "/sdcard/";
      fileViewMode := "list";
      selectedFileItem := None;
      contextMenuTarget := None;
      devToggles := Device.InitialToggles;
      dispatched := [];
      log := [];
      timers := [];
      pollingStarted := false;
      appCache := [];
      selectedPackages := [];
      activeFilters := NoFilters;
      infoTexts := map[];
      ramBar := None;
      oemOptions := [];
      safetyOptions := [];
      shownApps := [];
      fileListing := [];
      breadcrumbs := [];
      dumpsysText := "";
      sendTextInput := "";
      settingsOpen := false;
    }

    // ---- shell.js ----

    /** `setBusy(b)`. */
    method SetBusy(b: bool)
      modifies this`isBusy
      ensures isBusy == b
    {
      isBusy := b;
    }

    /**
     * A click on a navigation link: the settings link opens the settings dialog and
     * nothing else; a link without a target or to the active tab does nothing; any other
     * link makes its tab the active one and refreshes it.
     */
    method TabClick(isSettings: bool, target: Option<string>)
      modifies this`activeTab, this`settingsOpen
      modifies this`isBusy, this`dispatched, this`log, this`infoTexts, this`ramBar
      modifies this`selectedPackages, this`currentDevicePath, this`selectedFileItem, this`breadcrumbs
      ensures isSettings ==> settingsOpen
      ensures isSettings ==> unchanged(this`activeTab, this`isBusy, this`dispatched, this`log)
      ensures isSettings ==>
        unchanged(this`infoTexts, this`ramBar, this`selectedPackages, this`currentDevicePath, this`selectedFileItem, this`breadcrumbs)
      ensures !isSettings && (!Truthy(target) || target.value == old(activeTab)) ==> unchanged(this)
      ensures !isSettings && Truthy(target) && target.value != old(activeTab) ==>
        activeTab == target.value && settingsOpen == old(settingsOpen) && Refreshed()
    {
      if isSettings {
        settingsOpen := true;
        return;
      }
      if !Truthy(target) || activeTab == target.value {
        return;
      }
      activeTab := target.value;
      RefreshView();
    }

    // ---- adb.js ----

    /**
     * `runCommand`: a device command without a device is refused with an error in the
     * log; anything else is handed over once, with the serial in front exactly for
     * device commands, and a foreground call marks the session busy.
     */
    method RunCommand(r: Request)
      modifies this`isBusy, this`dispatched, this`log
      ensures Ran(r)
    {
      if IsDeviceCommand(r.args) && !HasDevice(currentDevice) {
        log := log + [LogEntry(Error, AbortMessage)];
        return;
      }
      var sent := if IsDeviceCommand(r.args) then r.(args := ["-s", currentDevice.value] + r.args) else r;
      if !r.background {
        SetBusy(true);
      }
      dispatched := dispatched + [sent];
    }

    /**
     * The whole effect of one `runCommand(r)` on the busy flag, the requests handed
     * over and the log.
     */
    twostate predicate Ran(r: Request)
      reads this
    {
      dispatched == old(dispatched) + (if Aborts(currentDevice, r) then [] else [Injected(currentDevice, r)]) &&
      log == old(log) + (if Aborts(currentDevice, r) then [LogEntry(Error, AbortMessage)] else []) &&
      isBusy == (old(isBusy) || (!Aborts(currentDevice, r) && !r.background))
    }

    /** `runCommand` on each request of `rs` in turn, as the `for` loops of the handlers do. */
    method RunAll(rs: seq<Request>)
      modifies this`isBusy, this`dispatched, this`log
      ensures dispatched == old(dispatched) + DispatchAll(currentDevice, rs)
      ensures log == old(log) + AbortLog(currentDevice, rs)
      ensures isBusy == BusyAfter(old(isBusy), currentDevice, rs)
    {
      ghost var dev, d0, l0, b0 := currentDevice, dispatched, log, isBusy;
      var i := 0;
      while i < |rs|
        invariant 0 <= i <= |rs| && currentDevice == dev
        invariant dispatched == d0 + DispatchAll(dev, rs[..i])
        invariant log == l0 + AbortLog(dev, rs[..i])
        invariant isBusy == BusyAfter(b0, dev, rs[..i])
      {
        var r := rs[i];
        DispatchAllSnoc(b0, dev, rs[..i], r);
        TakeSnoc(rs, i + 1);
        RunCommand(r);
        i := i + 1;
      }
      TakeAll(rs);
    }

    /**
     * The whole effect of `refreshView`, for the tab and the device it finds: without a
     * device one information line is logged and nothing else changes; with one, the
     * requests of the tab are run and the views of that tab alone are reset.
     */
    twostate predicate Refreshed()
      reads this
    {
      var dev := HasDevice(currentDevice);
      var reqs := if dev then RefreshRequests(activeTab, currentAppFilter, old(currentDevicePath), devToggles) else [];
      log == old(log) + (if dev then [] else [LogEntry(Info, NoRefreshMessage)]) &&
      dispatched == old(dispatched) + DispatchAll(currentDevice, reqs) &&
      isBusy == BusyAfter(old(isBusy), currentDevice, reqs) &&
      infoTexts == (if dev && activeTab == "dashboard-tab" then ClearedTexts else old(infoTexts)) &&
      ramBar == (if dev && activeTab == "dashboard-tab" then None else old(ramBar)) &&
      selectedPackages == (if dev && activeTab == "apps-tab" then [] else old(selectedPackages)) &&
      currentDevicePath == old(currentDevicePath) &&
      selectedFileItem == (if dev && activeTab == "files-tab" then None else old(selectedFileItem)) &&
      breadcrumbs == (if dev && activeTab == "files-tab" then Breadcrumbs(currentDevicePath) else old(breadcrumbs))
    }

    /**
     * `refreshView`: without a device only an information line is logged; with one, the
     * action of the active tab runs, and any other tab does nothing.
     */
    method RefreshView()
      modifies this`isBusy, this`dispatched, this`log, this`infoTexts, this`ramBar
      modifies this`selectedPackages, this`currentDevicePath, this`selectedFileItem, this`breadcrumbs
      ensures Refreshed()
    {
      if !HasDevice(currentDevice) {
        log := log + [LogEntry(Info, NoRefreshMessage)];
        return;
      }
      if activeTab == "dashboard-tab" {
        RefreshDashboardTab();
      } else if activeTab == "apps-tab" {
        RefreshAppsTab();
      } else if activeTab == "files-tab" {
        RefreshFilesTab();
      } else if activeTab == "device-tab" {
        RefreshDeviceTab();
      }
    }

    /** The dashboard branch of `refreshView`. */
    method RefreshDashboardTab()
      requires HasDevice(currentDevice) && activeTab == "dashboard-tab"
      modifies this`isBusy, this`dispatched, this`log, this`infoTexts, this`ramBar
      ensures Refreshed()
    {
      DashboardRequestsBackground();
      DashboardKeysDistinct();
      DashboardRequestsRouted();
      BusyAfterBackground(isBusy, currentDevice, DashboardRequests());
      GetDashboardData();
    }

    /** The apps branch of `refreshView`. */
    method RefreshAppsTab()
      requires HasDevice(currentDevice) && activeTab == "apps-tab"
      modifies this`isBusy, this`dispatched, this`log, this`selectedPackages
      ensures Refreshed()
    {
      assert activeTab != "dashboard-tab" && activeTab != "files-tab" by {
        assert activeTab[0] == 'a';
      }
      ghost var reqs := RefreshRequests(activeTab, currentAppFilter, currentDevicePath, devToggles);
      assert reqs == [ListAppsRequest(currentAppFilter)];
      DispatchOne(isBusy, currentDevice, ListAppsRequest(currentAppFilter));
      ListApps();
      assert dispatched == old(dispatched) + DispatchAll(currentDevice, reqs);
    }

    /** The files branch of `refreshView`: the stored path is listed again. */
    method RefreshFilesTab()
      requires HasDevice(currentDevice) && activeTab == "files-tab"
      modifies this`isBusy, this`dispatched, this`log, this`currentDevicePath, this`selectedFileItem, this`breadcrumbs
      ensures Refreshed()
    {
      assert activeTab != "dashboard-tab" && activeTab != "apps-tab" by {
        assert activeTab[0] == 'f';
      }
      DispatchOne(isBusy, currentDevice, LsRequest(currentDevicePath));
      ListDeviceFiles(currentDevicePath);
    }

    /** The device branch of `refreshView`. */
    method RefreshDeviceTab()
      requires HasDevice(currentDevice) && activeTab == "device-tab"
      modifies this`isBusy, this`dispatched, this`log
      ensures Refreshed()
    {
      assert activeTab != "dashboard-tab" && activeTab != "apps-tab" && activeTab != "files-tab" by {
        assert activeTab[0] == 'd' && activeTab[1] == 'e';
      }
      CheckAllToggleStates();
      BusyAfterBackground(old(isBusy), currentDevice, Device.CheckRequests(devToggles));
    }

    /** The parts of the session only the devices output may change: the busy flag is cleared and no command sent. */
    twostate predicate DeviceSideKept()
      reads this
    {
      !isBusy && unchanged(this`dispatched, this`currentDevice, this`currentDeviceList, this`selectedPackages) &&
      unchanged(this`currentDevicePath, this`selectedFileItem, this`breadcrumbs)
    }

    twostate predicate DashboardKept()
      reads this
    {
      unchanged(this`infoTexts, this`ramBar)
    }

    twostate predicate AppListKept()
      reads this
    {
      unchanged(this`appCache, this`oemOptions, this`safetyOptions, this`shownApps)
    }

    /** The views no output but their own changes: the listing, the toggles and the dumpsys box. */
    twostate predicate ViewsKept(listing: bool, toggles: bool, dumpsys: bool)
      reads this
    {
      (listing ==> unchanged(this`fileListing)) && (toggles ==> unchanged(this`devToggles)) &&
      (dumpsys ==> unchanged(this`dumpsysText))
    }

    /**
     * The devices output: the list is stored (see `PopulateDeviceList`), and when it is
     * the stored one nothing but the busy flag changes.
     */
    twostate predicate DeviceListHandled(output: string)
      reads this
    {
      currentDeviceList == DeviceIds(output) &&
      (DeviceIds(output) == old(currentDeviceList) ==>
        !isBusy && dispatched == old(dispatched) && log == old(log) && currentDevice == old(currentDevice))
    }

    twostate predicate DashboardHandled(msg: string, key: Option<string>)
      reads this
    {
      infoTexts == old(infoTexts) + DashboardTexts(msg, key) &&
      ramBar == (if key == Some("dashboard-ram") && RamUsage(msg).Some? then RamUsage(msg) else old(ramBar)) &&
      DeviceSideKept() && AppListKept() && ViewsKept(true, true, true) && log == old(log)
    }

    twostate predicate AppListHandled(msg: string)
      reads this
    {
      appCache == AppRecords(msg, debloatDB, CaselessLe) && oemOptions == OemOptions(appCache) &&
      safetyOptions == SafetyOptions(appCache) && shownApps == ShownApps(appCache, activeFilters, debloatDB) &&
      DeviceSideKept() && DashboardKept() && ViewsKept(true, true, true) && log == old(log)
    }

    twostate predicate FileListHandled(msg: string)
      reads this
    {
      fileListing == FileListing(msg, CaselessLe) &&
      DeviceSideKept() && DashboardKept() && AppListKept() && ViewsKept(false, true, true) && log == old(log)
    }

    twostate predicate ToggleHandled(msg: string, commandKey: string)
      requires StartsWith(commandKey, "toggle-")
      reads this
    {
      devToggles == Device.ParseToggleState(old(devToggles), msg, commandKey) &&
      DeviceSideKept() && DashboardKept() && AppListKept() && ViewsKept(true, false, true) && log == old(log)
    }

    twostate predicate DumpsysHandled(msg: string)
      reads this
    {
      dumpsysText == msg &&
      DeviceSideKept() && DashboardKept() && AppListKept() && ViewsKept(true, true, false) && log == old(log)
    }

    /** An output no handler takes: at most one line is logged. */
    twostate predicate UnroutedHandled(entry: Option<LogEntry>)
      reads this
    {
      log == old(log) + (if entry.Some? then [entry.value] else []) &&
      DeviceSideKept() && DashboardKept() && AppListKept() && ViewsKept(true, true, true)
    }

    /**
     * The whole effect of the output handler: the busy flag is cleared, then the key
     * picks one handler, in the order of the router, and every part of the session that
     * handler does not own is left as it was; an output no handler takes is logged as an
     * error, as information, or not at all.
     */
    twostate predicate Handled(output: string, key: Option<string>)
      reads this
    {
      match RouteOf(output, key)
      case ToDeviceList => DeviceListHandled(output) && AppListKept() && ViewsKept(true, true, true)
      case ToDashboard => DashboardHandled(Message(output), key)
      case ToAppList => AppListHandled(Message(output))
      case ToFileList => FileListHandled(Message(output))
      case ToToggle => ToggleHandled(Message(output), key.value)
      case ToDumpsys => DumpsysHandled(Message(output))
      case LogError => UnroutedHandled(Some(LogEntry(Error, Message(output))))
      case LogInfo => UnroutedHandled(Some(LogEntry(Info, Message(output))))
      case Dropped => UnroutedHandled(None)
    }

    /** The output handler of `runCommand`'s output events. */
    method OnOutput(output: string, key: Option<string>)
      modifies this`isBusy, this`dispatched, this`log, this`infoTexts, this`ramBar
      modifies this`selectedPackages, this`currentDevicePath, this`selectedFileItem, this`breadcrumbs
      modifies this`currentDevice, this`currentDeviceList, this`appCache, this`oemOptions, this`safetyOptions
      modifies this`shownApps, this`fileListing, this`devToggles, this`dumpsysText
      ensures Handled(output, key)
    {
      match RouteOf(output, key)
      case ToDeviceList => OnStateOutput(output, key);
      case ToDashboard => OnStateOutput(output, key);
      case ToAppList => OnStateOutput(output, key);
      case ToFileList => OnViewOutput(output, key);
      case ToToggle => OnViewOutput(output, key);
      case ToDumpsys => OnViewOutput(output, key);
      case LogError => OnLogOutput(output, key);
      case LogInfo => OnLogOutput(output, key);
      case Dropped => OnLogOutput(output, key);
    }

    /** The handlers that replace session state: the device list, the dashboard and the app list. */
    method OnStateOutput(output: string, key: Option<string>)
      requires RouteOf(output, key) in {ToDeviceList, ToDashboard, ToAppList}
      modifies this`isBusy, this`dispatched, this`log, this`infoTexts, this`ramBar
      modifies this`selectedPackages, this`currentDevicePath, this`selectedFileItem, this`breadcrumbs
      modifies this`currentDevice, this`currentDeviceList, this`appCache, this`oemOptions, this`safetyOptions
      modifies this`shownApps
      ensures Handled(output, key)
    {
      var route := RouteOf(output, key);
      if route == ToDeviceList {
        OnDeviceListOutput(output);
      } else if route == ToDashboard {
        OnDashboardOutput(Message(output), key);
      } else {
        OnAppListOutput(Message(output));
      }
    }

    /** The handlers that fill a view: the file listing, a toggle and the dumpsys box. */
    method OnViewOutput(output: string, key: Option<string>)
      requires RouteOf(output, key) in {ToFileList, ToToggle, ToDumpsys}
      modifies this`isBusy, this`fileListing, this`devToggles, this`dumpsysText
      ensures Handled(output, key)
    {
      var route := RouteOf(output, key);
      if route == ToFileList {
        OnFileListOutput(Message(output));
      } else if route == ToToggle {
        OnToggleOutput(Message(output), key.value);
      } else {
        OnDumpsysOutput(Message(output));
      }
    }

    /** The router's fall-through: an error line, an information line, or nothing. */
    method OnLogOutput(output: string, key: Option<string>)
      requires RouteOf(output, key) in {LogError, LogInfo, Dropped}
      modifies this`isBusy, this`log
      ensures Handled(output, key)
    {
      var route := RouteOf(output, key);
      if route == LogError {
        OnUnroutedOutput(Some(LogEntry(Error, Message(output))));
      } else if route == LogInfo {
        OnUnroutedOutput(Some(LogEntry(Info, Message(output))));
      } else {
        OnUnroutedOutput(None);
      }
    }

    method OnDeviceListOutput(output: string)
      modifies this`isBusy, this`dispatched, this`log, this`infoTexts, this`ramBar
      modifies this`selectedPackages, this`currentDevicePath, this`selectedFileItem, this`breadcrumbs
      modifies this`currentDevice, this`currentDeviceList
      ensures DeviceListHandled(output)
    {
      SetBusy(false);
      PopulateDeviceList(output);
    }

    method OnDashboardOutput(msg: string, key: Option<string>)
      modifies this`isBusy, this`infoTexts, this`ramBar
      ensures DashboardHandled(msg, key)
    {
      SetBusy(false);
      UpdateDashboardData(msg, key);
    }

    method OnAppListOutput(msg: string)
      modifies this`isBusy, this`appCache, this`oemOptions, this`safetyOptions, this`shownApps
      ensures AppListHandled(msg)
    {
      SetBusy(false);
      PopulateAppList(msg);
    }

    method OnFileListOutput(msg: string)
      modifies this`isBusy, this`fileListing
      ensures FileListHandled(msg)
    {
      SetBusy(false);
      ParseAndRenderDeviceFiles(msg);
    }

    method OnToggleOutput(msg: string, commandKey: string)
      requires StartsWith(commandKey, "toggle-")
      modifies this`isBusy, this`devToggles
      ensures ToggleHandled(msg, commandKey)
    {
      SetBusy(false);
      ParseToggleState(msg, commandKey);
    }

    method OnDumpsysOutput(msg: string)
      modifies this`isBusy, this`dumpsysText
      ensures DumpsysHandled(msg)
    {
      SetBusy(false);
      dumpsysText := msg;
    }

    method OnUnroutedOutput(entry: Option<LogEntry>)
      modifies this`isBusy, this`log
      ensures UnroutedHandled(entry)
    {
      SetBusy(false);
      if entry.Some? {
        log := log + [entry.value];
      }
    }

    // ---- dashboard.js ----

    /** The refresh button of the device list: a foreground devices query. */
    method RefreshDevicesClick()
      modifies this`isBusy, this`dispatched, this`log
      ensures dispatched == old(dispatched) + [RefreshDevicesRequest] && isBusy && log == old(log)
    {
      RunCommand(RefreshDevicesRequest);
    }

    /**
     * `populateDeviceList(data)`: a list equal to the stored one changes nothing; a new
     * list replaces it, keeps the selected device when it is still there and otherwise
     * selects the first one and refreshes; an empty list leaves no device and clears the
     * dashboard.
     */
    method PopulateDeviceList(data: string)
      modifies this`currentDevice, this`currentDeviceList
      modifies this`isBusy, this`dispatched, this`log, this`infoTexts, this`ramBar
      modifies this`selectedPackages, this`currentDevicePath, this`selectedFileItem, this`breadcrumbs
      ensures currentDeviceList == DeviceIds(data)
      ensures DeviceIds(data) == old(currentDeviceList) ==> unchanged(this)
      ensures DeviceIds(data) != old(currentDeviceList) && DeviceIds(data) == [] ==>
        currentDevice == None && infoTexts == ClearedTexts && ramBar == None &&
        unchanged(this`isBusy, this`dispatched, this`log, this`selectedPackages) &&
        unchanged(this`currentDevicePath, this`selectedFileItem, this`breadcrumbs)
      ensures DeviceIds(data) != old(currentDeviceList) && DeviceIds(data) != [] && KeepsDevice(old(currentDevice), DeviceIds(data)) ==>
        currentDevice == old(currentDevice) &&
        unchanged(this`isBusy, this`dispatched, this`log, this`infoTexts, this`ramBar, this`selectedPackages) &&
        unchanged(this`currentDevicePath, this`selectedFileItem, this`breadcrumbs)
      ensures DeviceIds(data) != old(currentDeviceList) && DeviceIds(data) != [] && !KeepsDevice(old(currentDevice), DeviceIds(data)) ==>
        currentDevice == Some(DeviceIds(data)[0]) && Refreshed()
    {
      var ids := ParseDeviceList(data);
      if ids == currentDeviceList {
        return;
      }
      currentDeviceList := ids;
      if |ids| > 0 {
        if !KeepsDevice(currentDevice, ids) {
          currentDevice := Some(ids[0]);
          RefreshView();
        }
      } else {
        currentDevice := None;
        ClearDashboard();
      }
    }

    /** A click on an entry of the device drop-down: a new device is selected and the view refreshed. */
    method SelectDeviceItem(id: string)
      modifies this`currentDevice
      modifies this`isBusy, this`dispatched, this`log, this`infoTexts, this`ramBar
      modifies this`selectedPackages, this`currentDevicePath, this`selectedFileItem, this`breadcrumbs
      ensures old(currentDevice) == Some(id) ==> unchanged(this)
      ensures old(currentDevice) != Some(id) ==> currentDevice == Some(id) && Refreshed()
    {
      if currentDevice == Some(id) {
        return;
      }
      currentDevice := Some(id);
      RefreshView();
    }

    /** `getDashboardData`: with a device, the dashboard is cleared and the seven queries go out in the background. */
    method GetDashboardData()
      modifies this`isBusy, this`dispatched, this`log, this`infoTexts, this`ramBar
      ensures !HasDevice(currentDevice) ==> unchanged(this`isBusy, this`dispatched, this`log, this`infoTexts, this`ramBar)
      ensures HasDevice(currentDevice) ==>
        infoTexts == ClearedTexts && ramBar == None && log == old(log) && isBusy == old(isBusy) &&
        dispatched == old(dispatched) + DispatchAll(currentDevice, DashboardRequests())
    {
      if !HasDevice(currentDevice) {
        return;
      }
      ClearDashboard();
      DashboardRequestsBackground();
      DashboardKeysDistinct();
      DashboardRequestsRouted();
      DispatchAllWithDevice(currentDevice, DashboardRequests());
      BusyAfterBackground(isBusy, currentDevice, DashboardRequests());
      RunAll(DashboardRequests());
    }

    /** `clearDashboard`: every field reads "..." and the RAM bar is empty. */
    method ClearDashboard()
      modifies this`infoTexts, this`ramBar
      ensures infoTexts == ClearedTexts && ramBar == None
    {
      infoTexts := ClearedTexts;
      ramBar := None;
    }

    /** `updateDashboardData(data, key)`: the fields of the key are written; the RAM bar only for two non-zero figures. */
    method UpdateDashboardData(data: string, key: Option<string>)
      modifies this`infoTexts, this`ramBar
      ensures infoTexts == old(infoTexts) + DashboardTexts(data, key)
      ensures ramBar == (if key == Some("dashboard-ram") && RamUsage(data).Some? then RamUsage(data) else old(ramBar))
    {
      infoTexts := infoTexts + DashboardTexts(data, key);
      if key == Some("dashboard-ram") && RamUsage(data).Some? {
        ramBar := RamUsage(data);
      }
    }

    // ---- debloater.js ----

    /** A click on an app filter button: the filter is stored and the list reloaded. */
    method SetAppFilter(filter: string)
      modifies this`currentAppFilter, this`selectedPackages, this`isBusy, this`dispatched, this`log
      ensures currentAppFilter == filter
      ensures !HasDevice(currentDevice) ==> unchanged(this`selectedPackages, this`isBusy, this`dispatched, this`log)
      ensures HasDevice(currentDevice) ==>
        selectedPackages == [] && isBusy && log == old(log) &&
        dispatched == old(dispatched) + [Injected(currentDevice, ListAppsRequest(filter))]
    {
      currentAppFilter := filter;
      ListApps();
    }

    /**
     * `listApps`: with a device, the selection is cleared and one foreground
     * "list-apps" query for the stored filter goes out; without one nothing is sent.
     */
    method ListApps()
      modifies this`selectedPackages, this`isBusy, this`dispatched, this`log
      ensures !HasDevice(currentDevice) ==> unchanged(this`selectedPackages, this`isBusy, this`dispatched, this`log)
      ensures HasDevice(currentDevice) ==>
        selectedPackages == [] && isBusy && log == old(log) &&
        dispatched == old(dispatched) + [Injected(currentDevice, ListAppsRequest(currentAppFilter))]
    {
      if !HasDevice(currentDevice) {
        return;
      }
      ClearSelection();
      RunCommand(ListAppsRequest(currentAppFilter));
    }

    /** `populateAppList(data)`: the app records, the two drop-downs, and the list as filtered. */
    method PopulateAppList(data: string)
      modifies this`appCache, this`oemOptions, this`safetyOptions, this`shownApps
      ensures appCache == AppRecords(data, debloatDB, CaselessLe)
      ensures oemOptions == OemOptions(appCache)
      ensures safetyOptions == SafetyOptions(appCache)
      ensures shownApps == ShownApps(appCache, activeFilters, debloatDB)
    {
      var cache := AppRecords(data, debloatDB, CaselessLe);
      SetAppCache(cache);
    }

    /** The rest of `populateAppList` once the records are built: the cache is replaced and both views drawn from it. */
    method SetAppCache(cache: seq<AppRecord>)
      modifies this`appCache, this`oemOptions, this`safetyOptions, this`shownApps
      ensures appCache == cache
      ensures oemOptions == OemOptions(cache)
      ensures safetyOptions == SafetyOptions(cache)
      ensures shownApps == ShownApps(cache, activeFilters, debloatDB)
    {
      appCache := cache;
      PopulateFilterDropdowns();
      RenderAppList();
    }

    /** `populateFilterDropdowns`: the list and the safety drop-downs of the cached apps. */
    method PopulateFilterDropdowns()
      modifies this`oemOptions, this`safetyOptions
      ensures oemOptions == OemOptions(appCache)
      ensures safetyOptions == SafetyOptions(appCache)
    {
      oemOptions := OemOptions(appCache);
      safetyOptions := SafetyOptions(appCache);
    }

    /** `renderAppList`: the cached apps the three filters let through, in cache order. */
    method RenderAppList()
      modifies this`shownApps
      ensures shownApps == ShownApps(appCache, activeFilters, debloatDB)
    {
      shownApps := ShownApps(appCache, activeFilters, debloatDB);
    }

    /** Typing in the search box: the text is stored lower-cased and the list filtered again. */
    method SetSearch(input: string)
      modifies this`activeFilters, this`shownApps
      ensures activeFilters == old(activeFilters).(search := ToLower(input))
      ensures shownApps == ShownApps(appCache, activeFilters, debloatDB)
    {
      activeFilters := activeFilters.(search := ToLower(input));
      RenderAppList();
    }

    /** A pick in the safety (`safety`) or the list (`!safety`) drop-down. */
    method SetDropdownFilter(safety: bool, value: string)
      modifies this`activeFilters, this`shownApps
      ensures activeFilters == if safety then old(activeFilters).(safety := value) else old(activeFilters).(oem := value)
      ensures shownApps == ShownApps(appCache, activeFilters, debloatDB)
    {
      if safety {
        activeFilters := activeFilters.(safety := value);
      } else {
        activeFilters := activeFilters.(oem := value);
      }
      RenderAppList();
    }

    /** A click on an app of the list: its package joins or leaves the selection. */
    method ClickApp(pkg: string)
      modifies this`selectedPackages
      ensures selectedPackages == Toggle(old(selectedPackages), pkg)
      ensures pkg in selectedPackages <==> pkg !in old(selectedPackages)
      ensures SelectionLabel(|selectedPackages|).None? <==> selectedPackages == []
    {
      selectedPackages := Toggle(selectedPackages, pkg);
    }

    method ClearSelection()
      modifies this`selectedPackages
      ensures selectedPackages == []
    {
      selectedPackages := [];
    }

    /**
     * `handleBatchAction(action)`: with a selection and a confirmation, one background
     * command per selected package, in selection order, and one `listApps` scheduled
     * after `BatchDelay(count)` ms; otherwise nothing.
     */
    method BatchAction(action: string, confirmed: bool)
      modifies this`isBusy, this`dispatched, this`log, this`timers
      ensures selectedPackages == [] || !confirmed ==> unchanged(this`isBusy, this`dispatched, this`log, this`timers)
      ensures selectedPackages != [] && confirmed ==>
        dispatched == old(dispatched) + DispatchAll(currentDevice, BatchRequests(action, selectedPackages)) &&
        log == old(log) + AbortLog(currentDevice, BatchRequests(action, selectedPackages)) &&
        isBusy == old(isBusy) &&
        timers == old(timers) + [Timer(BatchDelay(|selectedPackages|), ListAppsLater)]
    {
      var count := |selectedPackages|;
      if count == 0 || !confirmed {
        return;
      }
      BatchRequestsShape(action, selectedPackages);
      BusyAfterBackground(isBusy, currentDevice, BatchRequests(action, selectedPackages));
      RunAll(BatchRequests(action, selectedPackages));
      timers := timers + [Timer(BatchDelay(count), ListAppsLater)];
    }

    // ---- files.js ----

    /**
     * `listDeviceFiles(dir)`: with a device, the path is stored, the selection cleared,
     * the breadcrumbs drawn, and one foreground `ls -F` keyed "device-ls" sent.
     */
    method ListDeviceFiles(dir: string)
      modifies this`currentDevicePath, this`selectedFileItem, this`breadcrumbs, this`isBusy, this`dispatched, this`log
      ensures !HasDevice(currentDevice) ==>
        unchanged(this`currentDevicePath, this`selectedFileItem, this`breadcrumbs, this`isBusy, this`dispatched, this`log)
      ensures HasDevice(currentDevice) ==> Listed(dir)
    {
      if !HasDevice(currentDevice) {
        return;
      }
      currentDevicePath := dir;
      selectedFileItem := None;
      breadcrumbs := RenderBreadcrumbs(dir);
      RunCommand(LsRequest(dir));
    }

    /**
     * What `listDeviceFiles(dir)` does with a device: the path is stored, the selection
     * cleared, the breadcrumbs of `dir` drawn, and one foreground `ls -F` sent, which
     * marks the session busy.
     */
    twostate predicate Listed(dir: string)
      reads this
    {
      HasDevice(currentDevice) &&
      currentDevicePath == dir && selectedFileItem == None && breadcrumbs == Breadcrumbs(dir) &&
      isBusy && log == old(log) && dispatched == old(dispatched) + [Injected(currentDevice, LsRequest(dir))]
    }

    /** `parseAndRenderDeviceFiles(data)`. */
    method ParseAndRenderDeviceFiles(data: string)
      modifies this`fileListing
      ensures fileListing == FileListing(data, CaselessLe)
    {
      fileListing := FileListing(data, CaselessLe);
    }

    /** A click on an item selects it. */
    method ClickFileItem(item: FileItem)
      modifies this`selectedFileItem
      ensures selectedFileItem == Some(item)
    {
      selectedFileItem := Some(item);
    }

    /** A double click on a directory lists it. */
    method OpenFileItem(item: FileItem)
      modifies this`currentDevicePath, this`selectedFileItem, this`breadcrumbs, this`isBusy, this`dispatched, this`log
      ensures !item.isDirectory || !HasDevice(currentDevice) ==>
        unchanged(this`currentDevicePath, this`selectedFileItem, this`breadcrumbs, this`isBusy, this`dispatched, this`log)
      ensures item.isDirectory && HasDevice(currentDevice) ==> Listed(PathJoin([old(currentDevicePath), item.name]))
    {
      if item.isDirectory {
        ListDeviceFiles(PathJoin([currentDevicePath, item.name]));
      }
    }

    /** A context click: the item under the mouse, or none, becomes the menu target, and an item is selected. */
    method ContextMenuOn(item: Option<FileItem>)
      modifies this`contextMenuTarget, this`selectedFileItem
      ensures contextMenuTarget == item
      ensures selectedFileItem == if item.Some? then item else old(selectedFileItem)
    {
      contextMenuTarget := item;
      if item.Some? {
        selectedFileItem := item;
      }
    }

    /** A click on a breadcrumb lists the directory it names; the last crumb does nothing. */
    method CrumbClick(i: nat)
      requires i < |breadcrumbs|
      modifies this`currentDevicePath, this`selectedFileItem, this`breadcrumbs, this`isBusy, this`dispatched, this`log
      ensures old(breadcrumbs[i].target).None? || !HasDevice(currentDevice) ==>
        unchanged(this`currentDevicePath, this`selectedFileItem, this`breadcrumbs, this`isBusy, this`dispatched, this`log)
      ensures old(breadcrumbs[i].target).Some? && HasDevice(currentDevice) ==> Listed(old(breadcrumbs[i].target).value)
    {
      var target := breadcrumbs[i].target;
      if target.Some? {
        ListDeviceFiles(target.value);
      }
    }

    /** `setFileViewMode(mode)`. */
    method SetFileViewMode(mode: string)
      modifies this`fileViewMode
      ensures fileViewMode == mode
    {
      fileViewMode := mode;
    }

    /**
     * `handleContextMenuAction`: the effect of the action on the menu target, with the
     * dialog answered `answer`; a command that changes the directory is followed by a
     * relist of the then current directory in 500 ms.
     */
    method ContextMenuAction(action: MenuAction, answer: Answer)
      modifies this`currentDevicePath, this`selectedFileItem, this`breadcrumbs, this`isBusy, this`dispatched, this`log
      modifies this`timers
      ensures var e := MenuEffectOf(action, contextMenuTarget, old(currentDevicePath), answer);
        e.command.None? && (e.list.None? || !HasDevice(currentDevice)) ==>
          unchanged(this`currentDevicePath, this`selectedFileItem, this`breadcrumbs, this`isBusy, this`dispatched, this`log)
      ensures var e := MenuEffectOf(action, contextMenuTarget, old(currentDevicePath), answer);
        e.command.Some? ==> unchanged(this`currentDevicePath, this`selectedFileItem, this`breadcrumbs) && Ran(e.command.value)
      ensures var e := MenuEffectOf(action, contextMenuTarget, old(currentDevicePath), answer);
        e.list.Some? && HasDevice(currentDevice) ==> Listed(e.list.value)
      ensures var e := MenuEffectOf(action, contextMenuTarget, old(currentDevicePath), answer);
        timers == old(timers) + (if e.relistLater then [Timer(500, ListFilesLater)] else [])
    {
      var e := MenuEffectOf(action, contextMenuTarget, currentDevicePath, answer);
      if e.list.Some? {
        assert e.command.None?;
        ListDeviceFiles(e.list.value);
      } else if e.command.Some? {
        RunCommand(e.command.value);
      }
      if e.relistLater {
        timers := timers + [Timer(500, ListFilesLater)];
      }
    }

    // ---- device.js ----

    /**
     * A click on toggle button `i`: its key is flipped, the property written for the new
     * state, and the service poke scheduled in the background after 200 ms.
     */
    method ToggleClick(i: nat)
      requires i < |Device.ToggleMap|
      modifies this`devToggles, this`isBusy, this`dispatched, this`log, this`timers
      ensures var key := Device.ToggleMap[i].1;
        devToggles == Device.Flip(old(devToggles), key) &&
        Ran(Device.SetPropRequest(key, Device.IsOn(devToggles, key))) &&
        timers == old(timers) + [Timer(200, RunLater(Device.PokeRequest))]
      ensures var key := Device.ToggleMap[i].1;
        HasDevice(currentDevice) ==>
          isBusy && log == old(log) &&
          dispatched == old(dispatched) + [Injected(currentDevice, Device.SetPropRequest(key, Device.IsOn(devToggles, key)))]
      ensures !HasDevice(currentDevice) ==>
        dispatched == old(dispatched) && log == old(log) + [LogEntry(Error, AbortMessage)] && isBusy == old(isBusy)
    {
      var key := Device.ToggleMap[i].1;
      devToggles := Device.Flip(devToggles, key);
      RunCommand(Device.SetPropRequest(key, Device.IsOn(devToggles, key)));
      timers := timers + [Timer(200, RunLater(Device.PokeRequest))];
    }

    /** `checkAllToggleStates`: with a device, one background query per toggle key. */
    method CheckAllToggleStates()
      modifies this`isBusy, this`dispatched, this`log
      ensures !HasDevice(currentDevice) ==> unchanged(this`isBusy, this`dispatched, this`log)
      ensures HasDevice(currentDevice) ==>
        dispatched == old(dispatched) + DispatchAll(currentDevice, Device.CheckRequests(devToggles)) &&
        log == old(log) && isBusy == old(isBusy)
    {
      if !HasDevice(currentDevice) {
        return;
      }
      DispatchAllWithDevice(currentDevice, Device.CheckRequests(devToggles));
      BusyAfterBackground(isBusy, currentDevice, Device.CheckRequests(devToggles));
      RunAll(Device.CheckRequests(devToggles));
    }

    /** `parseToggleState(msg, key)`: only the key named by the command key is set. */
    method ParseToggleState(msg: string, commandKey: string)
      requires StartsWith(commandKey, "toggle-")
      modifies this`devToggles
      ensures devToggles == Device.ParseToggleState(old(devToggles), msg, commandKey)
      ensures Device.Get(devToggles, Device.ToggleKeyOf(commandKey)) == Some(Device.ToggleOn(msg))
    {
      devToggles := Device.ParseToggleState(devToggles, msg, commandKey);
    }

    /** The run button of the quick commands. */
    method RunQuickCommand(cmd: Option<string>)
      modifies this`isBusy, this`dispatched, this`log
      ensures !Truthy(cmd) ==> unchanged(this`isBusy, this`dispatched, this`log)
      ensures Truthy(cmd) ==> Ran(Device.QuickCommandRequest(cmd).value)
      ensures Truthy(cmd) && HasDevice(currentDevice) ==>
        dispatched == old(dispatched) + [Injected(currentDevice, Device.QuickCommandRequest(cmd).value)] && isBusy &&
        log == old(log)
      ensures Truthy(cmd) && !HasDevice(currentDevice) ==>
        dispatched == old(dispatched) && log == old(log) + [LogEntry(Error, AbortMessage)] && isBusy == old(isBusy)
    {
      var r := Device.QuickCommandRequest(cmd);
      if r.Some? {
        Device.QuickCommandRoundTrip(cmd.value);
        RunCommand(r.value);
      }
    }

    /** The connect button: sent for a non-empty address, with or without a device. */
    method ConnectClick(ip: string)
      modifies this`isBusy, this`dispatched, this`log
      ensures ip == "" ==> unchanged(this`isBusy, this`dispatched, this`log)
      ensures ip != "" ==> dispatched == old(dispatched) + [Device.ConnectRequest(ip).value] && isBusy && log == old(log)
    {
      var r := Device.ConnectRequest(ip);
      if r.Some? {
        Device.ConnectNeedsNoDevice(ip, currentDevice);
        RunCommand(r.value);
      }
    }

    /** The wireless button: `tcpip 5555`, and then a success line whatever became of the command. */
    method EnableWireless()
      modifies this`isBusy, this`dispatched, this`log
      ensures HasDevice(currentDevice) ==>
        dispatched == old(dispatched) + [Injected(currentDevice, Device.WirelessRequest)] &&
        log == old(log) + [LogEntry(Success, Device.WirelessMessage)] && isBusy
      ensures !HasDevice(currentDevice) ==>
        dispatched == old(dispatched) &&
        log == old(log) + [LogEntry(Error, AbortMessage), LogEntry(Success, Device.WirelessMessage)] &&
        isBusy == old(isBusy)
    {
      assert "tcpip" in DeviceVerbs && Device.WirelessRequest.args[0] in Device.WirelessRequest.args;
      RunCommand(Device.WirelessRequest);
      log := log + [LogEntry(Success, Device.WirelessMessage)];
    }

    /** The screen properties: a size now when one is given, a density 200 ms later when one is given. */
    method SetScreenProps(size: string, density: string)
      modifies this`isBusy, this`dispatched, this`log, this`timers
      ensures size == "" ==> unchanged(this`isBusy, this`dispatched, this`log)
      ensures size != "" ==> Ran(Device.ScreenSizeRequest(size).value)
      ensures size != "" && HasDevice(currentDevice) ==>
        dispatched == old(dispatched) + [Injected(currentDevice, Device.ScreenSizeRequest(size).value)] && isBusy &&
        log == old(log)
      ensures size != "" && !HasDevice(currentDevice) ==>
        dispatched == old(dispatched) && log == old(log) + [LogEntry(Error, AbortMessage)] && isBusy == old(isBusy)
      ensures timers == old(timers) + (if density != "" then [Timer(200, RunLater(Device.ScreenDensityRequest(density).value))] else [])
    {
      var s := Device.ScreenSizeRequest(size);
      if s.Some? {
        RunCommand(s.value);
      }
      var d := Device.ScreenDensityRequest(density);
      if d.Some? {
        timers := timers + [Timer(200, RunLater(d.value))];
      }
    }

    /** The reset button: when confirmed, the size reset now and the density reset 200 ms later. */
    method ResetScreenProps(confirmed: bool)
      modifies this`isBusy, this`dispatched, this`log, this`timers
      ensures !confirmed ==> unchanged(this`isBusy, this`dispatched, this`log, this`timers)
      ensures confirmed ==> Ran(Device.ScreenSizeRequest("reset").value)
      ensures confirmed && HasDevice(currentDevice) ==>
        dispatched == old(dispatched) + [Injected(currentDevice, Device.ScreenSizeRequest("reset").value)] && isBusy &&
        log == old(log)
      ensures confirmed && !HasDevice(currentDevice) ==>
        dispatched == old(dispatched) && log == old(log) + [LogEntry(Error, AbortMessage)] && isBusy == old(isBusy)
      ensures confirmed ==> timers == old(timers) + [Timer(200, RunLater(Device.ScreenDensityRequest("reset").value))]
    {
      if !confirmed {
        return;
      }
      RunCommand(Device.ScreenSizeRequest("reset").value);
      timers := timers + [Timer(200, RunLater(Device.ScreenDensityRequest("reset").value))];
    }

    /** A reboot button: when confirmed, its command split at spaces. */
    method RebootClick(cmd: string, confirmed: bool)
      modifies this`isBusy, this`dispatched, this`log
      ensures !confirmed ==> unchanged(this`isBusy, this`dispatched, this`log)
      ensures confirmed ==> Ran(Device.RebootRequest(cmd))
      ensures confirmed && !Aborts(currentDevice, Device.RebootRequest(cmd)) ==>
        dispatched == old(dispatched) + [Injected(currentDevice, Device.RebootRequest(cmd))] && isBusy && log == old(log)
      ensures confirmed && Aborts(currentDevice, Device.RebootRequest(cmd)) ==>
        dispatched == old(dispatched) && log == old(log) + [LogEntry(Error, AbortMessage)] && isBusy == old(isBusy)
    {
      if confirmed {
        RunCommand(Device.RebootRequest(cmd));
      }
    }

    // ---- remote.js and scrcpy.js ----

    /** Remote button `i`: its key event in the background. */
    method PressRemoteKey(i: nat)
      requires i < |Remote.RemoteKeycodes|
      modifies this`isBusy, this`dispatched, this`log
      ensures Ran(Remote.KeyEventRequest(Remote.RemoteKeycodes[i].1))
      ensures HasDevice(currentDevice) ==>
        dispatched == old(dispatched) + [Injected(currentDevice, Remote.KeyEventRequest(Remote.RemoteKeycodes[i].1))] &&
        isBusy == old(isBusy) && log == old(log)
      ensures !HasDevice(currentDevice) ==>
        dispatched == old(dispatched) && log == old(log) + [LogEntry(Error, AbortMessage)] && isBusy == old(isBusy)
    {
      RunCommand(Remote.KeyEventRequest(Remote.RemoteKeycodes[i].1));
    }

    /** Typing into the text box of the remote. */
    method TypeRemoteText(text: string)
      modifies this`sendTextInput
      ensures sendTextInput == text
    {
      sendTextInput := text;
    }

    /** `sendText`: a non-empty input is sent escaped, in the background, and the box cleared. */
    method SendText()
      modifies this`isBusy, this`dispatched, this`log, this`sendTextInput
      ensures old(sendTextInput) == "" ==> unchanged(this`isBusy, this`dispatched, this`log, this`sendTextInput)
      ensures old(sendTextInput) != "" ==> sendTextInput == ""
      ensures old(sendTextInput) != "" ==> Ran(Remote.SendTextRequest(old(sendTextInput)).value)
      ensures old(sendTextInput) != "" && HasDevice(currentDevice) ==>
        dispatched == old(dispatched) + [Injected(currentDevice, Remote.SendTextRequest(old(sendTextInput)).value)] &&
        isBusy == old(isBusy) && log == old(log)
      ensures old(sendTextInput) != "" && !HasDevice(currentDevice) ==>
        dispatched == old(dispatched) && log == old(log) + [LogEntry(Error, AbortMessage)] && isBusy == old(isBusy)
    {
      var r := Remote.SendTextRequest(sendTextInput);
      if r.Some? {
        RunCommand(r.value);
        sendTextInput := "";
      }
    }

    /** The scrcpy button: with a device, `scrcpy` with the built arguments, in the background and without key. */
    method StartScrcpy(o: Scrcpy.ScrcpyOptions, now: nat)
      modifies this`isBusy, this`dispatched, this`log
      ensures !HasDevice(currentDevice) ==> unchanged(this`isBusy, this`dispatched, this`log)
      ensures HasDevice(currentDevice) ==>
        dispatched == old(dispatched) + [Injected(currentDevice, Request("scrcpy", Scrcpy.ScrcpyArgs(o, now), true, None))] &&
        isBusy == old(isBusy) && log == old(log)
    {
      if !HasDevice(currentDevice) {
        return;
      }
      var args := Scrcpy.BuildScrcpyArgs(o, now);
      RunCommand(Request("scrcpy", args, true, None));
    }

    // ---- renderer.js ----

    /**
     * The start-up code after the modules are set up: the database loaded and
     * normalised (a failure is logged and leaves the database as it was), the server
     * started in the background, the first poll scheduled after 500 ms, and the
     * greeting logged.
     */
    method Startup(load: LoadResult)
      modifies this`debloatDB, this`isBusy, this`dispatched, this`log, this`timers
      ensures debloatDB == if load.Loaded? then FormatDb(load.raw) else old(debloatDB)
      ensures dispatched == old(dispatched) + [StartServer] && isBusy == old(isBusy)
      ensures timers == old(timers) + [Timer(500, StartPolling)]
      ensures log == old(log) + (if load.Failed? then [LogEntry(Error, LoadFailurePrefix + load.message)] else []) +
        [LogEntry(Info, InitMessage)]
    {
      if load.Loaded? {
        debloatDB := ParseDebloatDb(load.raw);
      } else {
        log := log + [LogEntry(Error, LoadFailurePrefix + load.message)];
      }
      assert !IsDeviceCommand(StartServer.args) by {
        forall v | v in DeviceVerbs ensures v !in StartServer.args { assert v != "start-server"; }
      }
      RunCommand(StartServer);
      timers := timers + [Timer(500, StartPolling)];
      log := log + [LogEntry(Info, InitMessage)];
    }

    /** One tick of the poller: a background devices query when polling has started and the session is not busy. */
    method PollTick()
      modifies this`isBusy, this`dispatched, this`log
      ensures pollingStarted && !old(isBusy) ==> dispatched == old(dispatched) + [DevicesQuery] && log == old(log) && !isBusy
      ensures !(pollingStarted && !old(isBusy)) ==> unchanged(this`isBusy, this`dispatched, this`log)
    {
      if pollingStarted && !isBusy {
        DevicesQueryNotDevice();
        RunCommand(DevicesQuery);
      }
    }

    /** Timer `i` runs out: it is removed and its follow-up runs. */
    method FireTimer(i: nat)
      requires i < |timers|
      modifies this`timers, this`pollingStarted
      modifies this`isBusy, this`dispatched, this`log, this`selectedPackages
      modifies this`currentDevicePath, this`selectedFileItem, this`breadcrumbs
      ensures timers == old(timers[..i] + timers[i + 1..])
      ensures pollingStarted == (old(pollingStarted) || old(timers[i].action).StartPolling?)
      ensures old(timers[i].action).StartPolling? ==>
        dispatched == old(dispatched) + [DevicesQuery] && isBusy == old(isBusy) && log == old(log) &&
        unchanged(this`selectedPackages, this`currentDevicePath, this`selectedFileItem, this`breadcrumbs)
      ensures old(timers[i].action).ListAppsLater? ==>
        unchanged(this`currentDevicePath, this`selectedFileItem, this`breadcrumbs)
      ensures old(timers[i].action).ListAppsLater? && HasDevice(currentDevice) ==>
        selectedPackages == [] && isBusy && log == old(log) &&
        dispatched == old(dispatched) + [Injected(currentDevice, ListAppsRequest(currentAppFilter))]
      ensures old(timers[i].action).ListAppsLater? && !HasDevice(currentDevice) ==>
        unchanged(this`selectedPackages, this`isBusy, this`dispatched, this`log)
      ensures old(timers[i].action).ListFilesLater? ==> unchanged(this`selectedPackages)
      ensures old(timers[i].action).ListFilesLater? && HasDevice(currentDevice) ==>
        Listed(old(currentDevicePath))
      ensures old(timers[i].action).ListFilesLater? && !HasDevice(currentDevice) ==>
        unchanged(this`currentDevicePath, this`selectedFileItem, this`breadcrumbs, this`isBusy, this`dispatched, this`log)
      ensures old(timers[i].action).RunLater? ==>
        Ran(old(timers[i].action).r) &&
        unchanged(this`selectedPackages, this`currentDevicePath, this`selectedFileItem, this`breadcrumbs)
    {
      var t := timers[i];
      timers := timers[..i] + timers[i + 1..];
      match t.action
      case StartPolling =>
        DevicesQueryNotDevice();
        RunCommand(DevicesQuery);
        pollingStarted := true;
      case ListAppsLater =>
        ListApps();
      case ListFilesLater =>
        ListDeviceFiles(currentDevicePath);
      case RunLater(r) =>
        RunCommand(r);
    }
  }

  /** The devices query is no device command: it never aborts and is sent unchanged. */
  lemma DevicesQueryNotDevice()
    ensures !IsDeviceCommand(DevicesQuery.args) && !IsDeviceCommand(RefreshDevicesRequest.args)
    ensures forall dev :: Injected(dev, DevicesQuery) == DevicesQuery
  {
    forall v | v in DeviceVerbs ensures v !in DevicesQuery.args { assert v != "devices"; }
  }
}
