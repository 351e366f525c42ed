/** The process list service of the main process: it runs
    `tasklist /v /fo csv /nh`, keeps the processes that have a window title,
    turns each title into an application entry, caches the list for five
    seconds, and answers the renderer's `GET_RUNNING_APPS`,
    `SELECT_APPLICATION` and `GET_APP_ICON` messages.

    The command's output is an input (`Result<string>`: its standard output,
    or the error it failed with); so is the clock (`now`, in milliseconds) and
    the set of files that exist on disk (for `fs.existsSync`). */
module ProcessManager {
  import opened Wrappers
  import opened JsString
  import opened JsPath

  /** How long a cached list stays valid, in milliseconds. */
  const CacheDuration: int := 5000
  const DefaultIcon: string := "default-icon"
  const ListFailedMessage: string := "Impossible de récupérer la liste des applications"
  /** Position of the window title among the CSV fields of a `tasklist /v` line. */
  const WindowTitleField: nat := 8

  datatype ProcessInfo = ProcessInfo(id: string, name: string, path: string, icon: string)

  /** The reply to `GET_RUNNING_APPS`: `{success: true, data}` or `{success: false, error}`. */
  datatype AppsReply = AppsData(data: seq<ProcessInfo>) | AppsError(error: string)

  // ---------------------------------------------------------------------------
  // Parsing the output of tasklist

  /** The window-title field of one output line, with every `"` removed;
      `None` when the line has fewer fields (the field is `undefined`). */
  function WindowTitle(line: string): (t: Option<string>)
    ensures t.Some? <==> |Split(line, ',')| > WindowTitleField
    ensures t.Some? ==> '"' !in t.value && ',' !in t.value
  {
    var fields := Split(line, ',');
    if |fields| > WindowTitleField then Some(RemoveAll(fields[WindowTitleField], '"')) else None
  }

  /** A title is kept when it is present, not empty and does not contain `N/A`. */
  predicate KeptTitle(t: Option<string>) {
    t.Some? && t.value != "" && !Contains(t.value, "N/A")
  }

  /** What one line contributes: nothing for a blank line, otherwise its
      window title if that is kept. */
  function TitleOfLine(line: string): (t: Option<string>)
    ensures t.Some? ==> WellFormedTitle(t.value) && Trim(line) != ""
    ensures t.Some? ==> forall x :: x in t.value ==> x in line
  {
    if Trim(line) == "" then None
    else var t := WindowTitle(line); if KeptTitle(t) then t else None
  }

  /** A character string that can be a window title in the parsed list. */
  predicate WellFormedTitle(t: string) {
    t != "" && !Contains(t, "N/A") && '"' !in t && ',' !in t
  }

  /** The kept titles of `lines`, in order. */
  function TitlesOfLines(lines: seq<string>): (titles: seq<string>)
    ensures |titles| <= |lines|
    ensures forall i :: 0 <= i < |titles| ==> WellFormedTitle(titles[i])
    ensures forall i, x :: 0 <= i < |titles| && x in titles[i] ==> exists k :: 0 <= k < |lines| && x in lines[k]
  {
    if |lines| == 0 then []
    else
      var rest := TitlesOfLines(lines[1..]);
      match TitleOfLine(lines[0])
      case None => rest
      case Some(t) =>
        assert forall x :: x in t ==> x in lines[0];
        [t] + rest
  }

  /** What each of `lines` contributes, position by position. */
  function LineTitles(lines: seq<string>): (ts: seq<Option<string>>)
    ensures |ts| == |lines| && forall k :: 0 <= k < |lines| ==> ts[k] == TitleOfLine(lines[k])
  {
    seq(|lines|, k requires 0 <= k < |lines| => TitleOfLine(lines[k]))
  }

  /** Every kept title is the title of one of the lines. */
  lemma {:induction false} TitlesFromLines(lines: seq<string>)
    ensures forall t :: t in TitlesOfLines(lines) ==> Some(t) in LineTitles(lines)
  {
    if |lines| > 0 {
      TitlesFromLines(lines[1..]);
      assert LineTitles(lines) == [TitleOfLine(lines[0])] + LineTitles(lines[1..]);
    }
  }

  /** So each character of a title occurs in the line the title came from. */
  lemma TitleCharsFromLines(lines: seq<string>)
    ensures forall i, x :: 0 <= i < |TitlesOfLines(lines)| && x in TitlesOfLines(lines)[i] ==>
      exists k :: 0 <= k < |lines| && TitleOfLine(lines[k]) == Some(TitlesOfLines(lines)[i]) && x in lines[k]
  {
    var titles := TitlesOfLines(lines);
    TitlesFromLines(lines);
    forall i, x | 0 <= i < |titles| && x in titles[i]
      ensures exists k :: 0 <= k < |lines| && TitleOfLine(lines[k]) == Some(titles[i]) && x in lines[k]
    {
      assert titles[i] in titles;
      var k :| 0 <= k < |lines| && LineTitles(lines)[k] == Some(titles[i]);
      assert TitleOfLine(lines[k]) == Some(titles[i]);
    }
  }

  /** `getProcessList` once the command has printed `stdout`. */
  function ParseTasklist(stdout: string): (titles: seq<string>)
    ensures forall t :: t in titles ==> Some(t) in LineTitles(Split(stdout, '\n'))
  {
    TitlesFromLines(Split(stdout, '\n'));
    TitlesOfLines(Split(stdout, '\n'))
  }

  lemma {:induction false} TitlesOfLinesAppend(a: seq<string>, b: seq<string>)
    ensures TitlesOfLines(a + b) == TitlesOfLines(a) + TitlesOfLines(b)
  {
    if |a| == 0 {
      assert a + b == b;
    } else {
      assert (a + b)[0] == a[0];
      assert (a + b)[1..] == a[1..] + b;
      TitlesOfLinesAppend(a[1..], b);
    }
  }

  /** Lines are parsed independently: the titles of two blocks of output
      joined by a line break are the titles of the first block followed by
      those of the second. */
  lemma ParseTasklistConcat(a: string, b: string)
    ensures ParseTasklist(a + "\n" + b) == ParseTasklist(a) + ParseTasklist(b)
  {
    SplitConcat(a, b, '\n');
    assert a + "\n" + b == a + ['\n'] + b;
    TitlesOfLinesAppend(Split(a, '\n'), Split(b, '\n'));
  }

  /** A single line yields its window title exactly when the line is not
      blank, has a title field, and the title without quotes is not empty
      and does not contain `N/A`. */
  lemma ParseTasklistLine(line: string)
    requires '\n' !in line
    ensures ParseTasklist(line) == (if TitleOfLine(line).Some? then [TitleOfLine(line).value] else [])
    ensures TitleOfLine(line).Some? <==>
      Trim(line) != "" && |Split(line, ',')| > WindowTitleField
      && RemoveAll(Split(line, ',')[WindowTitleField], '"') != ""
      && !Contains(RemoveAll(Split(line, ',')[WindowTitleField], '"'), "N/A")
  {
    SplitWithoutSeparator(line, '\n');
    assert [line][1..] == [];
  }

  /** Every parsed title is one line's non-empty, quote- and comma-free
      field that does not contain `N/A`; there are at most as many titles
      as lines. */
  lemma ParsedTitles(stdout: string)
    ensures |ParseTasklist(stdout)| <= |Split(stdout, '\n')|
    ensures forall i :: 0 <= i < |ParseTasklist(stdout)| ==>
      WellFormedTitle(ParseTasklist(stdout)[i]) && '\n' !in ParseTasklist(stdout)[i]
  {
    var lines := Split(stdout, '\n');
    var titles := ParseTasklist(stdout);
    forall i | 0 <= i < |titles| ensures '\n' !in titles[i] {
      assert titles[i] in titles;
      var k :| 0 <= k < |lines| && LineTitles(lines)[k] == Some(titles[i]);
      assert '\n' !in lines[k];
    }
  }

  // ---------------------------------------------------------------------------
  // Building application entries

  /** `getAppName`: the base name of the title without its extension. */
  function AppName(appPath: string): (name: string)
    ensures name + Extname(appPath) == Basename(appPath)
    ensures Basename(appPath) != "" ==> name != ""
  {
    NameAndExtension(appPath);
    NameWithoutExtension(appPath)
  }

  /** `path.join(dir, file)` for a file name without separators: the
      directory, then exactly one separator, then the file name. */
  function JoinPath(dir: string, file: string): (p: string)
    ensures |p| > |file| && p[|p| - |file|..] == file && IsSeparator(p[|p| - |file| - 1])
    ensures |dir| <= |p| && p[..|dir|] == dir
    ensures |p| <= |dir| + 1 + |file|
  {
    if |dir| > 0 && IsSeparator(dir[|dir| - 1]) then dir + file else dir + "\\" + file
  }

  /** Where an extracted icon for `appPath` would be stored. */
  function IconPath(tmpDir: string, appPath: string): string {
    JoinPath(tmpDir, AppName(appPath) + ".ico")
  }

  /** `getAppIcon`: the icon file when it exists, otherwise the default icon. */
  function AppIcon(tmpDir: string, files: set<string>, appPath: string): (icon: string)
    ensures IconPath(tmpDir, appPath) in files ==> icon == IconPath(tmpDir, appPath)
    ensures IconPath(tmpDir, appPath) !in files ==> icon == DefaultIcon
  {
    var p := IconPath(tmpDir, appPath);
    if p in files then p else DefaultIcon
  }

  /** The entry made for the title at position `i` of the process list. */
  function Entry(tmpDir: string, files: set<string>, title: string, i: nat): ProcessInfo {
    ProcessInfo(AppName(title) + "-" + NatToString(i), AppName(title), title, AppIcon(tmpDir, files, title))
  }

  /** `processes.map((process, index) => ...)` */
  function Entries(tmpDir: string, files: set<string>, titles: seq<string>): (apps: seq<ProcessInfo>)
    ensures |apps| == |titles|
    ensures forall i :: 0 <= i < |titles| ==> apps[i] == Entry(tmpDir, files, titles[i], i)
  {
    seq(|titles|, i requires 0 <= i < |titles| => Entry(tmpDir, files, titles[i], i))
  }

  /** The entry for position `i` has the app name as prefix and the
      position as decimal suffix, separated by `-`; it keeps the title as
      its path. */
  lemma EntryShape(tmpDir: string, files: set<string>, titles: seq<string>, i: nat)
    requires i < |titles|
    ensures var e := Entries(tmpDir, files, titles)[i];
      && e.id == e.name + "-" + NatToString(i)
      && e.name == AppName(titles[i]) && e.path == titles[i]
      && (e.icon == DefaultIcon || e.icon == IconPath(tmpDir, titles[i]))
  {
  }

  /** Two strings `a-d1` and `b-d2` whose suffixes hold no `-` agree on the suffix. */
  lemma SameSuffixAfterDash(a: string, d1: string, b: string, d2: string)
    requires '-' !in d1 && '-' !in d2
    requires a + "-" + d1 == b + "-" + d2
    ensures d1 == d2
  {
    DashBeforeSuffix(a, d1);
    DashBeforeSuffix(b, d2);
  }

  lemma DashBeforeSuffix(a: string, d: string)
    ensures (a + "-" + d)[|a|] == '-' && (a + "-" + d)[|a| + 1..] == d
    ensures forall j :: |a| < j < |a + "-" + d| ==> (a + "-" + d)[j] == d[j - |a| - 1]
  {
  }

  /** Entry ids are unique within one list, so selecting by id is unambiguous. */
  lemma EntryIdsDistinct(tmpDir: string, files: set<string>, titles: seq<string>, i: nat, j: nat)
    requires i < |titles| && j < |titles| && i != j
    ensures Entries(tmpDir, files, titles)[i].id != Entries(tmpDir, files, titles)[j].id
  {
    var di, dj := NatToString(i), NatToString(j);
    if Entries(tmpDir, files, titles)[i].id == Entries(tmpDir, files, titles)[j].id {
      SameSuffixAfterDash(AppName(titles[i]), di, AppName(titles[j]), dj);
      NatToStringInjective(i, j);
    }
  }

  /** `apps.find(app => app.id === appId)`: the first entry with the id. */
  function FindById(apps: seq<ProcessInfo>, id: string): (r: Option<ProcessInfo>)
    ensures r.Some? ==>
      exists k :: (0 <= k < |apps| && apps[k] == r.value && r.value.id == id
                   && forall j :: 0 <= j < k ==> apps[j].id != id)
    ensures r.None? ==> forall k :: 0 <= k < |apps| ==> apps[k].id != id
  {
    if |apps| == 0 then None
    else if apps[0].id == id then Some(apps[0])
    else
      var r := FindById(apps[1..], id);
      assert forall k :: 0 <= k < |apps[1..]| ==> apps[1..][k] == apps[k + 1];
      r
  }

  class ProcessManager {
    var cachedProcesses: Option<seq<ProcessInfo>>
    var lastCacheTime: int
    var selectedApp: Option<ProcessInfo>
    /** `os.tmpdir()` */
    const tmpDir: string
    /** How many times the process list command has been run. */
    var queries: nat

    constructor (tmp: string)
      ensures cachedProcesses == None && lastCacheTime == 0 && selectedApp == None
      ensures tmpDir == tmp && queries == 0
    {
      cachedProcesses := None;
      lastCacheTime := 0;
      selectedApp := None;
      tmpDir := tmp;
      queries := 0;
    }

    /** The cache answers while it holds a list (even an empty one) that is
        less than five seconds old. */
    predicate CacheValid(now: int)
      reads this
      ensures CacheValid(now) ==> cachedProcesses.Some?
      ensures now >= lastCacheTime + CacheDuration ==> !CacheValid(now)
    {
      cachedProcesses.Some? && now - lastCacheTime < CacheDuration
    }

    /** `getRunningApps` at time `now`: serve a valid cache without running
        the command; otherwise run it, and on success build one entry per
        title and cache the list with the time. A failing command propagates
        its error and leaves the cache alone. */
    method GetRunningApps(now: int, tasklist: Result<string>, files: set<string>)
      returns (r: Result<seq<ProcessInfo>>)
      modifies this`cachedProcesses, this`lastCacheTime, this`queries
      ensures old(CacheValid(now)) ==>
        (r == Success(old(cachedProcesses).value) && cachedProcesses == old(cachedProcesses)
         && lastCacheTime == old(lastCacheTime) && queries == old(queries))
      ensures !old(CacheValid(now)) ==>
        (queries == old(queries) + 1
         && (tasklist.Failure? ==>
               r == Failure(tasklist.error) && cachedProcesses == old(cachedProcesses)
               && lastCacheTime == old(lastCacheTime))
         && (tasklist.Success? ==>
               var apps := Entries(tmpDir, files, ParseTasklist(tasklist.value));
               r == Success(apps) && cachedProcesses == Some(apps) && lastCacheTime == now))
    {
      if cachedProcesses.Some? && now - lastCacheTime < CacheDuration {
        return Success(cachedProcesses.value);
      }
      queries := queries + 1;
      match tasklist
      case Failure(e) =>
        r := Failure(e);
      case Success(stdout) =>
        var apps := Entries(tmpDir, files, ParseTasklist(stdout));
        cachedProcesses := Some(apps);
        lastCacheTime := now;
        r := Success(apps);
    }

    /** The `GET_RUNNING_APPS` handler: never throws, wraps the list or a
        fixed error message. */
    method HandleGetRunningApps(now: int, tasklist: Result<string>, files: set<string>)
      returns (reply: AppsReply)
      modifies this`cachedProcesses, this`lastCacheTime, this`queries
      ensures old(CacheValid(now)) ==> reply == AppsData(old(cachedProcesses).value)
      ensures !old(CacheValid(now)) && tasklist.Failure? ==> reply == AppsError(ListFailedMessage)
      ensures !old(CacheValid(now)) && tasklist.Success? ==>
        reply == AppsData(Entries(tmpDir, files, ParseTasklist(tasklist.value)))
      ensures cachedProcesses.Some? ==> reply.AppsData? ==> reply.data == cachedProcesses.value
    {
      var r := GetRunningApps(now, tasklist, files);
      match r
      case Success(apps) => reply := AppsData(apps);
      case Failure(_) => reply := AppsError(ListFailedMessage);
    }

    /** The `SELECT_APPLICATION` handler: the first cached entry with the id,
        or none. */
    method SelectApplication(appId: string)
      modifies this`selectedApp
      ensures selectedApp == FindById(cachedProcesses.GetOr([]), appId)
      ensures selectedApp.Some? ==>
        (selectedApp.value.id == appId && cachedProcesses.Some? && selectedApp.value in cachedProcesses.value)
      ensures cachedProcesses.None? ==> selectedApp == None
    {
      selectedApp := FindById(if cachedProcesses.Some? then cachedProcesses.value else [], appId);
    }

    /** The `GET_APP_ICON` handler. */
    method HandleGetAppIcon(appPath: string, files: set<string>) returns (icon: string)
      ensures icon == AppIcon(tmpDir, files, appPath)
      ensures icon == DefaultIcon || icon in files
    {
      icon := AppIcon(tmpDir, files, appPath);
    }
  }
}
