/** Node's `path.basename` and `path.extname` as they behave on Windows (the
    `path.win32` flavour, the only platform the application's process listing
    supports): both `/` and `\` separate segments, a leading drive such as
    `C:` is not part of the name, trailing separators are ignored. */
module JsPath {
  import opened JsString

  predicate IsSeparator(c: char) {
    c == '/' || c == '\\'
  }

  predicate IsAsciiLetter(c: char) {
    ('A' <= c <= 'Z') || ('a' <= c <= 'z')
  }

  /** Length of a leading drive designator `X:`, 0 or 2. */
  function DriveLength(p: string): nat {
    if |p| >= 2 && IsAsciiLetter(p[0]) && p[1] == ':' then 2 else 0
  }

  /** Where `p` ends once its trailing separators are dropped. */
  function EndBeforeSeparators(p: string): (n: nat)
    ensures n <= |p|
    ensures n > 0 ==> !IsSeparator(p[n - 1])
    ensures forall j :: n <= j < |p| ==> IsSeparator(p[j])
  {
    if |p| > 0 && IsSeparator(p[|p| - 1]) then EndBeforeSeparators(p[..|p| - 1]) else |p|
  }

  /** Index of the last separator in `p`, or -1. */
  function LastSeparator(p: string): (r: int)
    ensures -1 <= r < |p|
    ensures r >= 0 ==> IsSeparator(p[r])
    ensures forall j :: r < j < |p| ==> !IsSeparator(p[j])
  {
    if |p| == 0 then -1
    else if IsSeparator(p[|p| - 1]) then |p| - 1
    else LastSeparator(p[..|p| - 1])
  }

  /** `p` without its drive designator. */
  function AfterDrive(p: string): string {
    p[DriveLength(p)..]
  }

  /** `q` without its trailing separators. */
  function TrimSeparators(q: string): string {
    q[..EndBeforeSeparators(q)]
  }

  /** What follows the last separator of `t`. */
  function LastSegment(t: string): (b: string)
    ensures forall i :: 0 <= i < |b| ==> !IsSeparator(b[i])
  {
    t[LastSeparator(t) + 1..]
  }

  /** `path.basename(p)`: the last segment, after any drive and before any
      trailing separators. */
  function Basename(p: string): (b: string)
    ensures forall i :: 0 <= i < |b| ==> !IsSeparator(b[i])
  {
    LastSegment(TrimSeparators(AfterDrive(p)))
  }

  /** The extension of a base name: from its last `.` on, unless that dot
      is the first character (a dot-file such as `.bashrc`), there is no dot,
      or the name is `..`. */
  function ExtensionOf(b: string): (e: string)
    ensures |e| <= |b| && e == b[|b| - |e|..]
  {
    var k := LastIndexOf(b, '.');
    if k <= 0 || b == ".." then "" else b[k..]
  }

  /** `path.extname(p)`: empty, or a `.` and what follows it to the end
      of the base name. */
  function Extname(p: string): (e: string)
    ensures e == "" || e[0] == '.'
    ensures forall i :: 0 <= i < |e| ==> !IsSeparator(e[i])
  {
    ExtensionOf(Basename(p))
  }

  /** `path.basename(p, path.extname(p))`: the base name without its extension. */
  function NameWithoutExtension(p: string): (n: string)
    ensures |n| <= |Basename(p)| && n == Basename(p)[..|n|]
    ensures forall i :: 0 <= i < |n| ==> !IsSeparator(n[i])
  {
    var b := Basename(p);
    b[..|b| - |ExtensionOf(b)|]
  }

  /** The name and the extension together make up the base name; the
      extension is empty or one dot followed by dot-free text, and the name
      is never empty when the base name is not. */
  lemma NameAndExtension(p: string)
    ensures NameWithoutExtension(p) + Extname(p) == Basename(p)
    ensures Extname(p) == "" || (Extname(p)[0] == '.' && '.' !in Extname(p)[1..])
    ensures Basename(p) != "" ==> NameWithoutExtension(p) != ""
    ensures forall i :: 0 <= i < |Basename(p)| ==> !IsSeparator(Basename(p)[i])
  {
    var b := Basename(p);
    var k := LastIndexOf(b, '.');
    if k > 0 && b != ".." {
      assert b[..k] + b[k..] == b;
      forall i | 1 <= i < |b[k..]| ensures b[k..][i] != '.' {
        assert b[k..][i] == b[k + i];
      }
    }
  }

  lemma LowerCharSeparator(c: char)
    ensures IsSeparator(LowerChar(c)) == IsSeparator(c)
    ensures (LowerChar(c) == '.') == (c == '.')
    ensures (LowerChar(c) == ':') == (c == ':')
    ensures IsAsciiLetter(LowerChar(c)) == IsAsciiLetter(c)
  {
  }

  lemma ToLowerSlice(s: string, a: nat, b: nat)
    requires a <= b <= |s|
    ensures ToLower(s)[a..b] == ToLower(s[a..b])
  {
  }

  /** The functions below locate a position by the characters around it;
      lower-casing keeps separators and dots where they are, so it keeps
      those positions. */
  lemma EndBeforeSeparatorsLower(p: string)
    ensures EndBeforeSeparators(ToLower(p)) == EndBeforeSeparators(p)
  {
    var q := ToLower(p);
    var n1, n2 := EndBeforeSeparators(p), EndBeforeSeparators(q);
    if n1 < n2 {
      LowerCharSeparator(p[n2 - 1]);
    } else if n2 < n1 {
      LowerCharSeparator(p[n1 - 1]);
    }
  }

  lemma LastSeparatorLower(p: string)
    ensures LastSeparator(ToLower(p)) == LastSeparator(p)
  {
    var q := ToLower(p);
    var r1, r2 := LastSeparator(p), LastSeparator(q);
    if r1 < r2 {
      LowerCharSeparator(p[r2]);
    } else if r2 < r1 {
      LowerCharSeparator(p[r1]);
    }
  }

  lemma LastDotLower(b: string)
    ensures LastIndexOf(ToLower(b), '.') == LastIndexOf(b, '.')
  {
    var q := ToLower(b);
    var r1, r2 := LastIndexOf(b, '.'), LastIndexOf(q, '.');
    if r1 < r2 {
      LowerCharSeparator(b[r2]);
    } else if r2 < r1 {
      LowerCharSeparator(b[r1]);
    }
  }

  lemma DriveLengthLower(p: string)
    ensures DriveLength(ToLower(p)) == DriveLength(p)
  {
    if |p| >= 2 {
      LowerCharSeparator(p[0]);
      LowerCharSeparator(p[1]);
    }
  }

  lemma DotDotLower(b: string)
    ensures (ToLower(b) == "..") == (b == "..")
  {
    if |b| == 2 {
      LowerCharSeparator(b[0]);
      LowerCharSeparator(b[1]);
      assert b == [b[0], b[1]];
    }
  }

  lemma AfterDriveLower(p: string)
    ensures AfterDrive(ToLower(p)) == ToLower(AfterDrive(p))
  {
    DriveLengthLower(p);
    ToLowerSlice(p, DriveLength(p), |p|);
  }

  lemma TrimSeparatorsLower(q: string)
    ensures TrimSeparators(ToLower(q)) == ToLower(TrimSeparators(q))
  {
    EndBeforeSeparatorsLower(q);
    ToLowerSlice(q, 0, EndBeforeSeparators(q));
  }

  lemma LastSegmentLower(t: string)
    ensures LastSegment(ToLower(t)) == ToLower(LastSegment(t))
  {
    LastSeparatorLower(t);
    ToLowerSlice(t, LastSeparator(t) + 1, |t|);
  }

  /** `basename` commutes with `toLowerCase`. */
  lemma BasenameLower(p: string)
    ensures Basename(ToLower(p)) == ToLower(Basename(p))
  {
    AfterDriveLower(p);
    TrimSeparatorsLower(AfterDrive(p));
    LastSegmentLower(TrimSeparators(AfterDrive(p)));
  }

  /** Lower-casing a path lower-cases its extension and nothing else about
      where the extension starts: `extname` commutes with `toLowerCase`. */
  lemma ExtnameLower(p: string)
    ensures Extname(ToLower(p)) == ToLower(Extname(p))
  {
    BasenameLower(p);
    ExtensionOfLower(Basename(p));
  }

  lemma ExtensionOfLower(b: string)
    ensures ExtensionOf(ToLower(b)) == ToLower(ExtensionOf(b))
  {
    LastDotLower(b);
    DotDotLower(b);
    var k := LastIndexOf(b, '.');
    if k > 0 {
      ToLowerSlice(b, k, |b|);
    }
  }
}
