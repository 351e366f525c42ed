/** `getRunningApplications`: list the processes that have a visible window,
    as PowerShell's `Get-Process | ... | ConvertTo-Csv` prints them, keep
    `{id: pid, name: trimmed title}` for every line that matches the pattern
    of a CSV row, drop common system programs by keyword, and sort by name.
    The command's output is an input (`Result<string>`: its standard output,
    or the error it failed with). */
module Applications {
  import opened Wrappers
  import opened JsString

  datatype Application = Application(id: string, name: string)

  // ---------------------------------------------------------------------------
  // The pattern "(\d+)","([^"]+)","([^"]*)"

  /** Length of the longest run of decimal digits in `s` starting at `i`. */
  function DigitRun(s: string, i: nat): (n: nat)
    requires i <= |s|
    ensures i + n <= |s|
    ensures forall j :: i <= j < i + n ==> IsDigit(s[j])
    ensures i + n < |s| ==> !IsDigit(s[i + n])
    decreases |s| - i
  {
    if i < |s| && IsDigit(s[i]) then 1 + DigitRun(s, i + 1) else 0
  }

  /** Length of the longest run of characters other than `"` in `s` from `i`. */
  function NonQuoteRun(s: string, i: nat): (n: nat)
    requires i <= |s|
    ensures i + n <= |s|
    ensures forall j :: i <= j < i + n ==> s[j] != '"'
    ensures i + n < |s| ==> s[i + n] == '"'
    decreases |s| - i
  {
    if i < |s| && s[i] != '"' then 1 + NonQuoteRun(s, i + 1) else 0
  }

  /** The captures of one match: process id, process name, window title. */
  datatype Captures = Captures(pid: string, name: string, title: string)

  /** The three characters `","` that separate two quoted CSV fields. */
  const FieldBreak: string := "\",\""

  /** The pattern matched at position `i`. Each group is a maximal run
      followed by a `"`, and a shorter run would be followed by a character
      of the run itself, so backtracking never finds another match: the
      match at a given position is unique. */
  function MatchAt(s: string, i: nat): (r: Option<Captures>)
    ensures r.Some? ==> i < |s| && s[i] == '"' && r.value.pid != "" && r.value.name != ""
  {
    if i < |s| && s[i] == '"' then
      var p := i + 1;
      var q := p + DigitRun(s, p);
      if q == p || !OccursAt(s, FieldBreak, q) then None
      else
        var r := q + 3;
        var t := r + NonQuoteRun(s, r);
        if t == r || !OccursAt(s, FieldBreak, t) then None
        else
          var u := t + 3;
          var v := u + NonQuoteRun(s, u);
          if v < |s| then Some(Captures(s[p..q], s[r..t], s[u..v])) else None
    else None
  }

  /** The result of the first position from `from` up to `last` at which
      `m` finds a match: the scan that a regular expression search makes. */
  function Leftmost(m: nat -> Option<Captures>, from: nat, last: nat): Option<Captures>
    decreases last - from
  {
    if m(from).Some? then m(from)
    else if from >= last then None
    else Leftmost(m, from + 1, last)
  }

  lemma {:induction false} LeftmostExists(m: nat -> Option<Captures>, from: nat, last: nat)
    requires from <= last
    ensures Leftmost(m, from, last).Some? ==> exists i :: from <= i <= last && m(i) == Leftmost(m, from, last)
    ensures Leftmost(m, from, last).None? ==> forall i :: from <= i <= last ==> m(i).None?
    decreases last - from
  {
    if m(from).None? && from < last {
      LeftmostExists(m, from + 1, last);
    }
  }

  lemma {:induction false} LeftmostIsFirst(m: nat -> Option<Captures>, from: nat, last: nat, i: nat)
    requires from <= i <= last && m(i).Some?
    requires forall j :: from <= j < i ==> m(j).None?
    ensures Leftmost(m, from, last) == m(i)
    decreases i - from
  {
    if from < i {
      assert m(from).None?;
      LeftmostIsFirst(m, from + 1, last, i);
    }
  }

  /** The pattern tried at each position of `s`. */
  function Matcher(s: string): nat -> Option<Captures> {
    (j: nat) => MatchAt(s, j)
  }

  /** `s.match(pattern)` without the global flag: the leftmost match at or
      after `from`. */
  function FirstMatchFrom(s: string, from: nat): Option<Captures>
    requires from <= |s|
  {
    Leftmost(Matcher(s), from, |s|)
  }

  /** `line.match(pattern)`: a match exactly when the pattern matches at
      some position of the line. */
  function FirstMatch(s: string): (r: Option<Captures>)
    ensures r.Some? ==> exists i :: 0 <= i <= |s| && MatchAt(s, i) == r
    ensures r.None? ==> forall i :: 0 <= i <= |s| ==> MatchAt(s, i).None?
  {
    FirstMatchExists(s, 0);
    FirstMatchFrom(s, 0)
  }

  /** A match exists exactly when the pattern matches at some position. */
  lemma FirstMatchExists(s: string, from: nat)
    requires from <= |s|
    ensures FirstMatchFrom(s, from).Some? ==>
      exists i :: from <= i <= |s| && MatchAt(s, i) == FirstMatchFrom(s, from)
    ensures FirstMatchFrom(s, from).None? ==> forall i :: from <= i <= |s| ==> MatchAt(s, i).None?
  {
    var m := Matcher(s);
    LeftmostExists(m, from, |s|);
    if FirstMatchFrom(s, from).Some? {
      var i :| from <= i <= |s| && m(i) == Leftmost(m, from, |s|);
      assert MatchAt(s, i) == FirstMatchFrom(s, from);
    } else {
      forall i | from <= i <= |s| ensures MatchAt(s, i).None? {
        assert m(i).None?;
      }
    }
  }

  /** The match found is the one at the leftmost position where the
      pattern matches. */
  lemma FirstMatchIsLeftmost(s: string, from: nat, i: nat)
    requires from <= i <= |s| && MatchAt(s, i).Some?
    requires forall j :: from <= j < i ==> MatchAt(s, j).None?
    ensures FirstMatchFrom(s, from) == MatchAt(s, i)
  {
    var m := Matcher(s);
    forall j | from <= j < i ensures m(j).None? {
      assert MatchAt(s, j).None?;
    }
    LeftmostIsFirst(m, from, |s|, i);
  }

  /** Whatever the position, a match's process id is a non-empty run of
      digits, its name a non-empty run without `"`, its title has no `"`. */
  lemma CapturesShape(s: string, i: nat)
    requires i <= |s| && MatchAt(s, i).Some?
    ensures var c := MatchAt(s, i).value;
      && c.pid != "" && (forall k :: 0 <= k < |c.pid| ==> IsDigit(c.pid[k]))
      && c.name != "" && '"' !in c.name && '"' !in c.title
  {
    var p := i + 1;
    var q := p + DigitRun(s, p);
    var r := q + 3;
    var t := r + NonQuoteRun(s, r);
    var u := t + 3;
    var v := u + NonQuoteRun(s, u);
    assert MatchAt(s, i) == Some(Captures(s[p..q], s[r..t], s[u..v]));
    SliceOfDigits(s, p, q);
    SliceWithoutQuote(s, r, t);
    SliceWithoutQuote(s, u, v);
  }

  /** A slice of digits, read as a string of its own. */
  lemma SliceOfDigits(s: string, a: nat, b: nat)
    requires a <= b <= |s|
    requires forall j :: a <= j < b ==> IsDigit(s[j])
    ensures forall k :: 0 <= k < b - a ==> IsDigit(s[a..b][k])
  {
    forall k | 0 <= k < b - a ensures IsDigit(s[a..b][k]) {
      assert s[a..b][k] == s[a + k];
    }
  }

  /** A slice without `"`, read as a string of its own. */
  lemma SliceWithoutQuote(s: string, a: nat, b: nat)
    requires a <= b <= |s|
    requires forall j :: a <= j < b ==> s[j] != '"'
    ensures '"' !in s[a..b]
  {
    forall k | 0 <= k < b - a ensures s[a..b][k] != '"' {
      assert s[a..b][k] == s[a + k];
    }
  }

  /** A line without any digit never matches: `\d+` has nothing to match. */
  lemma NoDigitNoMatch(s: string, from: nat)
    requires from <= |s|
    requires forall k :: 0 <= k < |s| ==> !IsDigit(s[k])
    ensures FirstMatchFrom(s, from) == None
  {
    FirstMatchExists(s, from);
    forall i | from <= i <= |s| ensures MatchAt(s, i).None? {
      if i + 1 < |s| {
        assert !IsDigit(s[i + 1]);
      }
    }
  }

  /** The quoted CSV row `"pid","name","title"`. */
  function CsvRow(pid: string, name: string, title: string): string {
    "\"" + pid + FieldBreak + name + FieldBreak + title + "\""
  }

  lemma DigitRunExact(s: string, i: nat, n: nat)
    requires i + n <= |s|
    requires forall j :: i <= j < i + n ==> IsDigit(s[j])
    requires i + n < |s| ==> !IsDigit(s[i + n])
    ensures DigitRun(s, i) == n
  {
  }

  lemma NonQuoteRunExact(s: string, i: nat, n: nat)
    requires i + n <= |s|
    requires forall j :: i <= j < i + n ==> s[j] != '"'
    requires i + n < |s| ==> s[i + n] == '"'
    ensures NonQuoteRun(s, i) == n
  {
  }

  /** Every character of a slice of digits is a digit. */
  lemma DigitsOfSlice(s: string, a: nat, b: nat)
    requires a <= b <= |s|
    requires forall k :: 0 <= k < b - a ==> IsDigit(s[a..b][k])
    ensures forall j :: a <= j < b ==> IsDigit(s[j])
  {
    forall j | a <= j < b ensures IsDigit(s[j]) {
      assert s[j] == s[a..b][j - a];
    }
  }

  /** No character of a slice without `"` is a `"`. */
  lemma NoQuoteOfSlice(s: string, a: nat, b: nat)
    requires a <= b <= |s|
    requires '"' !in s[a..b]
    ensures forall j :: a <= j < b ==> s[j] != '"'
  {
    forall j | a <= j < b ensures s[j] != '"' {
      assert s[j] == s[a..b][j - a];
    }
  }

  /** The match at 0 once the length of each run is known. */
  lemma MatchAtRuns(s: string, q: nat, t: nat, v: nat)
    requires 1 < q <= |s| && 1 <= |s| && s[0] == '"' && DigitRun(s, 1) == q - 1
    requires OccursAt(s, FieldBreak, q)
    requires q + 3 < t <= |s| && NonQuoteRun(s, q + 3) == t - (q + 3)
    requires OccursAt(s, FieldBreak, t)
    requires t + 3 <= v < |s| && NonQuoteRun(s, t + 3) == v - (t + 3)
    ensures MatchAt(s, 0) == Some(Captures(s[1..q], s[q + 3..t], s[t + 3..v]))
  {
  }

  /** The pattern matches at 0 any string laid out as a row: a quote, the
      digits, `","`, the name, `","`, the title, a quote. */
  lemma MatchAtRow(s: string, pid: string, name: string, title: string)
    requires pid != "" && forall k :: 0 <= k < |pid| ==> IsDigit(pid[k])
    requires name != "" && '"' !in name && '"' !in title
    requires |s| == |pid| + |name| + |title| + 8
    requires s[0] == '"' && s[1..1 + |pid|] == pid
    requires s[1 + |pid|..4 + |pid|] == FieldBreak
    requires s[4 + |pid|..4 + |pid| + |name|] == name
    requires s[4 + |pid| + |name|..7 + |pid| + |name|] == FieldBreak
    requires s[7 + |pid| + |name|..7 + |pid| + |name| + |title|] == title
    requires s[|s| - 1] == '"'
    ensures MatchAt(s, 0) == Some(Captures(pid, name, title))
  {
    var q := 1 + |pid|;
    var r := q + 3;
    var t := r + |name|;
    var u := t + 3;
    var v := u + |title|;
    DigitsOfSlice(s, 1, q);
    assert !IsDigit(s[q]) by { assert s[q] == s[q..r][0]; }
    DigitRunExact(s, 1, |pid|);
    NoQuoteOfSlice(s, r, t);
    assert s[t] == s[t..u][0];
    NonQuoteRunExact(s, r, |name|);
    NoQuoteOfSlice(s, u, v);
    NonQuoteRunExact(s, u, |title|);
    MatchAtRuns(s, q, t, v);
  }

  /** The quoted layout of `CsvRow`, field by field. */
  lemma CsvRowLayout(pid: string, name: string, title: string)
    ensures var s := CsvRow(pid, name, title);
      && |s| == |pid| + |name| + |title| + 8
      && s[0] == '"' && s[1..1 + |pid|] == pid
      && s[1 + |pid|..4 + |pid|] == FieldBreak
      && s[4 + |pid|..4 + |pid| + |name|] == name
      && s[4 + |pid| + |name|..7 + |pid| + |name|] == FieldBreak
      && s[7 + |pid| + |name|..7 + |pid| + |name| + |title|] == title
      && s[|s| - 1] == '"'
  {
    var s1 := "\"" + pid;
    var s2 := s1 + FieldBreak;
    var s3 := s2 + name;
    var s4 := s3 + FieldBreak;
    var s5 := s4 + title;
    var s := s5 + "\"";
    assert s == CsvRow(pid, name, title);
    assert s[..|s5|] == s5 && s5[..|s4|] == s4 && s4[..|s3|] == s3 && s3[..|s2|] == s2 && s2[..|s1|] == s1;
    assert s[1..1 + |pid|] == s1[1..];
    assert s[1 + |pid|..4 + |pid|] == s2[|s1|..];
    assert s[4 + |pid|..4 + |pid| + |name|] == s3[|s2|..];
    assert s[4 + |pid| + |name|..7 + |pid| + |name|] == s4[|s3|..];
    assert s[7 + |pid| + |name|..7 + |pid| + |name| + |title|] == s5[|s4|..];
  }

  /** A well-formed row is matched from its first character, and the
      captures are its three fields. */
  lemma CsvRowMatches(pid: string, name: string, title: string)
    requires pid != "" && forall k :: 0 <= k < |pid| ==> IsDigit(pid[k])
    requires name != "" && '"' !in name && '"' !in title
    ensures FirstMatch(CsvRow(pid, name, title)) == Some(Captures(pid, name, title))
  {
    CsvRowLayout(pid, name, title);
    MatchAtRow(CsvRow(pid, name, title), pid, name, title);
  }

  // ---------------------------------------------------------------------------
  // From lines to applications

  /** What one line adds to the set: `{id: pid, name: title.trim()}` when the
      line matches and the trimmed title is non-empty (the process name is
      then never needed, a match always has a non-empty name and id). */
  function LineApplication(line: string): (a: Option<Application>)
    ensures a.Some? ==> a.value.name != ""
  {
    var m := FirstMatch(line);
    if m.Some? && Trim(m.value.title) != "" then Some(Application(m.value.pid, Trim(m.value.title)))
    else None
  }

  /** An application's id is the process id: a non-empty string of digits. */
  lemma LineApplicationId(line: string)
    requires LineApplication(line).Some?
    ensures var id := LineApplication(line).value.id;
      id != "" && forall k :: 0 <= k < |id| ==> IsDigit(id[k])
  {
    FirstMatchExists(line, 0);
    var i :| 0 <= i <= |line| && MatchAt(line, i) == FirstMatch(line);
    CapturesShape(line, i);
  }

  /** The applications of `lines`, in order; a `Set` of freshly created
      objects never merges two of them, so nothing is deduplicated. */
  function ParsedApplications(lines: seq<string>): (apps: seq<Application>)
    ensures |apps| <= |lines|
    ensures forall k :: 0 <= k < |apps| ==> apps[k].name != ""
  {
    if |lines| == 0 then []
    else
      var last := LineApplication(lines[|lines| - 1]);
      ParsedApplications(lines[..|lines| - 1]) + (if last.Some? then [last.value] else [])
  }

  /** The row of a well-formed line becomes an application with the trimmed
      title as its name, and only when that title is not blank. */
  lemma CsvRowApplication(pid: string, name: string, title: string)
    requires pid != "" && forall k :: 0 <= k < |pid| ==> IsDigit(pid[k])
    requires name != "" && '"' !in name && '"' !in title
    ensures LineApplication(CsvRow(pid, name, title)) ==
      (if Trim(title) == "" then None else Some(Application(pid, Trim(title))))
  {
    CsvRowMatches(pid, name, title);
  }

  /** The header row that `ConvertTo-Csv` prints holds no digit, so it could
      never make an entry even if it were not skipped. */
  lemma HeaderRowYieldsNothing()
    ensures LineApplication(CsvRow("Id", "ProcessName", "MainWindowTitle")) == None
  {
    var h := CsvRow("Id", "ProcessName", "MainWindowTitle");
    assert forall c :: c in "Id" + "ProcessName" + "MainWindowTitle" + FieldBreak ==> !IsDigit(c);
    forall k | 0 <= k < |h| ensures !IsDigit(h[k]) {
      assert h[k] in h;
    }
    NoDigitNoMatch(h, 0);
  }

  lemma ParsedApplicationsStep(lines: seq<string>, i: nat)
    requires i < |lines|
    ensures ParsedApplications(lines[..i + 1]) == ParsedApplications(lines[..i])
      + (if LineApplication(lines[i]).Some? then [LineApplication(lines[i]).value] else [])
  {
    assert lines[..i + 1][..i] == lines[..i];
  }

  /** The `forEach` over the lines, adding to the set. */
  method CollectApplications(lines: seq<string>) returns (apps: seq<Application>)
    ensures apps == ParsedApplications(lines)
  {
    apps := [];
    var i := 0;
    while i < |lines|
      invariant 0 <= i <= |lines|
      invariant apps == ParsedApplications(lines[..i])
    {
      var a := LineApplication(lines[i]);
      ParsedApplicationsStep(lines, i);
      if a.Some? {
        apps := apps + [a.value];
      }
      i := i + 1;
    }
    assert lines[..|lines|] == lines;
  }

  // ---------------------------------------------------------------------------
  // Filtering and sorting

  const SystemKeywords: seq<string> := ["system", "runtime", "service", "powershell", "cmd", "explorer"]

  /** The name, lower-cased, contains none of the system keywords. */
  predicate NotSystem(name: string) {
    ContainsNone(ToLower(name), SystemKeywords)
  }

  /** The keyword test spelt out: none of the six words occurs in the
      lower-cased name. */
  lemma NotSystemKeywords(name: string)
    ensures var lower := ToLower(name);
      NotSystem(name) <==>
        && !Contains(lower, "system") && !Contains(lower, "runtime") && !Contains(lower, "service")
        && !Contains(lower, "powershell") && !Contains(lower, "cmd") && !Contains(lower, "explorer")
  {
    var lower := ToLower(name);
    var t1 := SystemKeywords[1..];
    var t2 := t1[1..];
    var t3 := t2[1..];
    var t4 := t3[1..];
    var t5 := t4[1..];
    assert t5 == ["explorer"] && t5[1..] == [];
    assert ContainsNone(lower, t5) <==> !Contains(lower, "explorer");
    assert ContainsNone(lower, t4) <==> !Contains(lower, "cmd") && ContainsNone(lower, t5);
    assert ContainsNone(lower, t3) <==> !Contains(lower, "powershell") && ContainsNone(lower, t4);
    assert ContainsNone(lower, t2) <==> !Contains(lower, "service") && ContainsNone(lower, t3);
    assert ContainsNone(lower, t1) <==> !Contains(lower, "runtime") && ContainsNone(lower, t2);
  }

  /** `s` contains none of `words`. */
  predicate ContainsNone(s: string, words: seq<string>) {
    |words| == 0 || (!Contains(s, words[0]) && ContainsNone(s, words[1..]))
  }

  /** `apps.filter(keep)`: the applications kept, in order. */
  function Filter(apps: seq<Application>, keep: Application -> bool): (kept: seq<Application>)
    ensures |kept| <= |apps|
  {
    if |apps| == 0 then []
    else if keep(apps[0]) then [apps[0]] + Filter(apps[1..], keep)
    else Filter(apps[1..], keep)
  }

  /** The filter keeps exactly the applications that pass the test, and
      only drops some: what it keeps, with multiplicity, was in the list. */
  lemma {:induction false} FilterKeeps(apps: seq<Application>, keep: Application -> bool)
    ensures forall a :: a in Filter(apps, keep) <==> a in apps && keep(a)
    ensures multiset(Filter(apps, keep)) <= multiset(apps)
  {
    if |apps| > 0 {
      var rest := Filter(apps[1..], keep);
      FilterKeeps(apps[1..], keep);
      SubMultisetCons(apps[0], rest, apps[1..]);
      assert apps == [apps[0]] + apps[1..];
      assert forall a :: a in apps <==> a == apps[0] || a in apps[1..];
      if keep(apps[0]) {
        assert Filter(apps, keep) == [apps[0]] + rest;
        assert forall a :: a in [apps[0]] + rest <==> a == apps[0] || a in rest;
      } else {
        assert Filter(apps, keep) == rest;
      }
    }
  }

  /** The test `filter` applies: keep the applications that are not system
      programs. */
  predicate Kept(app: Application) {
    NotSystem(app.name)
  }

  /** The system programs filtered out. */
  function FilterSystem(apps: seq<Application>): (kept: seq<Application>)
    ensures |kept| <= |apps|
    ensures forall a :: a in kept <==> a in apps && NotSystem(a.name)
    ensures multiset(kept) <= multiset(apps)
  {
    FilterKeeps(apps, Kept);
    Filter(apps, Kept)
  }

  /** Putting an element in front of both sides, or of the larger one
      only, keeps a sub-multiset a sub-multiset. */
  lemma SubMultisetCons(x: Application, a: seq<Application>, b: seq<Application>)
    requires multiset(a) <= multiset(b)
    ensures multiset([x] + a) <= multiset([x] + b)
    ensures multiset(a) <= multiset([x] + b)
  {
    assert multiset([x] + a) == multiset{x} + multiset(a);
    assert multiset([x] + b) == multiset{x} + multiset(b);
  }

  /** Code-unit lexicographic order on names. */
  predicate NameLe(a: string, b: string) {
    |a| == 0 || (|b| > 0 && (a[0] < b[0] || (a[0] == b[0] && NameLe(a[1..], b[1..]))))
  }

  lemma {:induction false} NameLeTotal(a: string, b: string)
    ensures NameLe(a, b) || NameLe(b, a)
  {
    if |a| > 0 && |b| > 0 && a[0] == b[0] {
      NameLeTotal(a[1..], b[1..]);
    }
  }

  lemma {:induction false} NameLeTrans(a: string, b: string, c: string)
    requires NameLe(a, b) && NameLe(b, c)
    ensures NameLe(a, c)
  {
    if |a| > 0 && a[0] == b[0] && b[0] == c[0] {
      NameLeTrans(a[1..], b[1..], c[1..]);
    }
  }

  predicate SortedByName(apps: seq<Application>) {
    forall i, j :: 0 <= i < j < |apps| ==> NameLe(apps[i].name, apps[j].name)
  }

  /** Put `x` before the first element it does not follow. */
  function Insert(x: Application, sorted: seq<Application>): (r: seq<Application>)
    ensures multiset(r) == multiset(sorted) + multiset{x}
    ensures |r| == |sorted| + 1
    ensures r[0] == x || (|sorted| > 0 && r[0] == sorted[0])
  {
    if |sorted| == 0 then [x]
    else if NameLe(x.name, sorted[0].name) then [x] + sorted
    else
      assert sorted == [sorted[0]] + sorted[1..];
      [sorted[0]] + Insert(x, sorted[1..])
  }

  lemma {:induction false} InsertSorted(x: Application, sorted: seq<Application>)
    requires SortedByName(sorted)
    ensures SortedByName(Insert(x, sorted))
  {
    if |sorted| > 0 && NameLe(x.name, sorted[0].name) {
      forall j | 0 < j < |sorted| ensures NameLe(x.name, sorted[j].name) {
        NameLeTrans(x.name, sorted[0].name, sorted[j].name);
      }
    } else if |sorted| > 0 {
      var rest := Insert(x, sorted[1..]);
      InsertSorted(x, sorted[1..]);
      NameLeTotal(x.name, sorted[0].name);
      var r := Insert(x, sorted);
      assert r == [sorted[0]] + rest;
      forall i, j | 0 <= i < j < |r| ensures NameLe(r[i].name, r[j].name) {
        if i == 0 {
          assert NameLe(sorted[0].name, rest[0].name);
          if j > 1 {
            NameLeTrans(sorted[0].name, rest[0].name, rest[j - 1].name);
          }
        }
      }
    }
  }

  /** `apps.sort((a, b) => a.name.localeCompare(b.name))`, a stable sort. */
  function SortByName(apps: seq<Application>): (r: seq<Application>)
    ensures multiset(r) == multiset(apps)
  {
    if |apps| == 0 then []
    else
      assert apps == [apps[0]] + apps[1..];
      Insert(apps[0], SortByName(apps[1..]))
  }

  lemma {:induction false} SortByNameSorted(apps: seq<Application>)
    ensures SortedByName(SortByName(apps))
  {
    if |apps| > 0 {
      SortByNameSorted(apps[1..]);
      InsertSorted(apps[0], SortByName(apps[1..]));
    }
  }

  // ---------------------------------------------------------------------------
  // The whole function

  /** What `getRunningApplications` resolves to: `[]` when the command
      failed, otherwise the applications of every line but the first,
      filtered and sorted. */
  function RunningApplications(output: Result<string>): (apps: seq<Application>)
    ensures output.Failure? ==> apps == []
    ensures SortedByName(apps)
  {
    match output
    case Failure(_) => []
    case Success(stdout) =>
      var kept := FilterSystem(ParsedApplications(Split(stdout, '\n')[1..]));
      SortByNameSorted(kept);
      SortByName(kept)
  }

  method GetRunningApplications(output: Result<string>) returns (apps: seq<Application>)
    ensures apps == RunningApplications(output)
  {
    match output
    case Failure(_) =>
      apps := [];
    case Success(stdout) =>
      var lines := Split(stdout, '\n')[1..];
      var collected := CollectApplications(lines);
      apps := SortByName(FilterSystem(collected));
  }

  /** The result is sorted by name, holds no system program, is a
      permutation of the kept entries, and has at most one entry per line
      after the first. */
  lemma RunningApplicationsProperties(stdout: string)
    ensures var apps := RunningApplications(Success(stdout));
      var parsed := ParsedApplications(Split(stdout, '\n')[1..]);
      && SortedByName(apps)
      && multiset(apps) == multiset(FilterSystem(parsed))
      && multiset(apps) <= multiset(parsed)
      && (forall a :: a in parsed && NotSystem(a.name) ==> a in apps)
      && (forall a :: a in apps ==> a in parsed && NotSystem(a.name) && a.name != "")
      && |apps| <= |Split(stdout, '\n')| - 1
  {
    var parsed := ParsedApplications(Split(stdout, '\n')[1..]);
    var kept := FilterSystem(parsed);
    var apps := SortByName(kept);
    SortByNameSorted(kept);
    assert |apps| == |multiset(apps)| == |kept|;
    forall a | a in apps ensures a in kept {
      assert a in multiset(apps);
    }
    forall a | a in kept ensures a in apps {
      assert a in multiset(kept);
    }
  }

  /** The first line is skipped whatever it holds. */
  lemma FirstLineIgnored(first: string, other: string, rest: string)
    requires '\n' !in first && '\n' !in other
    ensures RunningApplications(Success(first + "\n" + rest))
         == RunningApplications(Success(other + "\n" + rest))
  {
    SplitConcat(first, rest, '\n');
    SplitConcat(other, rest, '\n');
    SplitWithoutSeparator(first, '\n');
    SplitWithoutSeparator(other, '\n');
    assert first + "\n" + rest == first + ['\n'] + rest;
    assert other + "\n" + rest == other + ['\n'] + rest;
    assert Split(first + "\n" + rest, '\n')[1..] == Split(rest, '\n');
    assert Split(other + "\n" + rest, '\n')[1..] == Split(rest, '\n');
  }
}
