/**
 * The pure naming rules of the organizer: the extension key of a file name
 * (`os.path.splitext(name)[1].lstrip('.').lower() or 'no_extension'`), the
 * destination folder `source_dir/<key>` and the new name `<prefix>-<name>`.
 */
module Naming {

  import opened Paths

  /** The key of files that have no extension. */
  const NoExtension: string := "no_extension"

  /** Position of the last `c` in `s`, or -1 when there is none (`str.rfind`). */
  function LastIndexOf(s: string, c: char): (r: int)
    ensures -1 <= r < |s|
    ensures r >= 0 ==> s[r] == c
    ensures forall i :: r < i < |s| ==> s[i] != c
  {
    if s == [] then -1
    else if s[|s| - 1] == c then |s| - 1
    else LastIndexOf(s[..|s| - 1], c)
  }

  /** Some character of `p[lo..hi]` is not a dot. */
  predicate HasNonDot(p: string, lo: int, hi: int)
    requires 0 <= lo && hi <= |p|
  {
    exists i :: lo <= i < hi && p[i] != '.'
  }

  /**
   * `os.path.splitext` on POSIX: the extension starts at the last dot after
   * the last separator, provided something other than dots precedes that dot
   * in the last component (so `.bashrc` has no extension); otherwise it is empty.
   */
  function SplitExt(p: string): (r: (string, string))
    ensures r.0 + r.1 == p
    ensures r.1 == [] || (r.1[0] == '.' && forall k :: 0 < k < |r.1| ==> r.1[k] != '.')
    ensures forall k :: 0 <= k < |r.1| ==> r.1[k] != '/'
  {
    var sepIndex := LastIndexOf(p, '/');
    var dotIndex := LastIndexOf(p, '.');
    if dotIndex > sepIndex && HasNonDot(p, sepIndex + 1, dotIndex) then
      (p[..dotIndex], p[dotIndex..])
    else
      (p, "")
  }

  /** `str.lstrip(c)`: drops every leading `c`. */
  function LStrip(s: string, c: char): (r: string)
    ensures IsSuffix(r, s)
    ensures r == [] || r[0] != c
    ensures forall i :: 0 <= i < |s| - |r| ==> s[i] == c
  {
    if s != [] && s[0] == c then
      var r := LStrip(s[1..], c);
      assert s[|s| - |r|..] == s[1..][|s[1..]| - |r|..];
      r
    else s
  }

  predicate IsUpper(c: char) { 'A' <= c <= 'Z' }

  /** ASCII `str.lower` of one character. */
  function LowerChar(c: char): (d: char)
    ensures !IsUpper(d)
    ensures IsUpper(c) ==> d as int == c as int + 32
    ensures !IsUpper(c) ==> d == c
  {
    if IsUpper(c) then (c as int + 32) as char else c
  }

  /** No ASCII capital letter occurs in `s`. */
  predicate IsLowerCase(s: string)
  {
    forall i :: 0 <= i < |s| ==> !IsUpper(s[i])
  }

  /** ASCII `str.lower`. */
  function AsciiLower(s: string): (r: string)
    ensures |r| == |s|
    ensures forall i :: 0 <= i < |s| ==> r[i] == LowerChar(s[i])
    ensures IsLowerCase(r)
  {
    if s == [] then [] else [LowerChar(s[0])] + AsciiLower(s[1..])
  }

  /** A folder name a key can be: non-empty, lower case, with no dot and no separator. */
  predicate IsKeyShaped(k: string)
  {
    k != [] && IsLowerCase(k) && forall i :: 0 <= i < |k| ==> k[i] != '.' && k[i] != '/'
  }

  /** The extension key of a file name. */
  function ExtensionKey(name: string): (key: string)
    ensures IsKeyShaped(key)
  {
    var ext := AsciiLower(LStrip(SplitExt(name).1, '.'));
    LoweredExtensionIsKeyShaped(name, ext);
    SentinelIsKeyShaped(NoExtension);
    if ext == [] then NoExtension else ext
  }

  /** The lowered, stripped extension of a name, when not empty, is a valid key. */
  lemma LoweredExtensionIsKeyShaped(name: string, ext: string)
    requires ext == AsciiLower(LStrip(SplitExt(name).1, '.'))
    ensures ext != [] ==> IsKeyShaped(ext)
  {
    var suffix := SplitExt(name).1;
    var stripped := LStrip(suffix, '.');
    StrippedIsDotFree(suffix, stripped);
    LowerKeepsDotFree(stripped, ext);
  }

  /** The sentinel itself is a valid key. */
  lemma SentinelIsKeyShaped(k: string)
    requires k == NoExtension
    ensures IsKeyShaped(k)
  {
    forall i | 0 <= i < |k|
      ensures !IsUpper(k[i]) && k[i] != '.' && k[i] != '/'
    {
      assert 'a' <= k[i] <= 'z' || k[i] == '_';
    }
  }

  /** Stripping the leading dot of a splitext suffix leaves no dot and no separator. */
  lemma StrippedIsDotFree(suffix: string, stripped: string)
    requires suffix == [] || (suffix[0] == '.' && forall k :: 0 < k < |suffix| ==> suffix[k] != '.')
    requires forall k :: 0 <= k < |suffix| ==> suffix[k] != '/'
    requires stripped == LStrip(suffix, '.')
    ensures forall k :: 0 <= k < |stripped| ==> stripped[k] != '.' && stripped[k] != '/'
  {
    var d := |suffix| - |stripped|;
    assert stripped == suffix[d..];
    forall k | 0 <= k < |stripped|
      ensures stripped[k] != '.' && stripped[k] != '/'
    {
      assert stripped[k] == suffix[d + k];
    }
  }

  lemma LowerKeepsDotFree(s: string, r: string)
    requires forall k :: 0 <= k < |s| ==> s[k] != '.' && s[k] != '/'
    requires r == AsciiLower(s)
    ensures forall k :: 0 <= k < |r| ==> r[k] != '.' && r[k] != '/'
  {
  }

  /** `i` is the dot at which `os.path.splitext` splits `name`. */
  ghost predicate IsExtensionDot(name: string, i: int)
  {
    && 0 <= i < |name| && name[i] == '.'
    && (forall k :: i < k < |name| ==> name[k] != '.' && name[k] != '/')
    && exists j :: 0 <= j < i && name[j] != '.' && forall k :: j <= k < i ==> name[k] != '/'
  }

  /** The split dot of `os.path.splitext` is the last dot, and it is not a leading dot. */
  lemma {:induction false} SplitAtExtensionDot(name: string, i: int)
    requires IsExtensionDot(name, i)
    ensures SplitExt(name) == (name[..i], name[i..])
  {
    var sepIndex := LastIndexOf(name, '/');
    var dotIndex := LastIndexOf(name, '.');
    assert dotIndex == i;
    var j :| 0 <= j < i && name[j] != '.' && forall k :: j <= k < i ==> name[k] != '/';
    assert sepIndex < j;
    assert HasNonDot(name, sepIndex + 1, dotIndex);
  }

  /** A name with an extension dot followed by text: its key is that text, lowercased. */
  lemma {:induction false} KeyOfExtension(name: string, i: int)
    requires IsExtensionDot(name, i) && i + 1 < |name|
    ensures ExtensionKey(name) == AsciiLower(name[i + 1..])
  {
    SplitAtExtensionDot(name, i);
    var suffix := name[i..];
    assert suffix[1..] == name[i + 1..];
    assert LStrip(suffix, '.') == LStrip(suffix[1..], '.');
    assert suffix[1..][0] != '.';
    assert LStrip(suffix, '.') == name[i + 1..];
  }

  /** A name without an extension dot that is followed by text gets the sentinel key. */
  lemma {:induction false} KeyWithoutExtension(name: string)
    requires forall i :: 0 <= i < |name| - 1 ==> !IsExtensionDot(name, i)
    ensures ExtensionKey(name) == NoExtension
  {
    var sepIndex := LastIndexOf(name, '/');
    var dotIndex := LastIndexOf(name, '.');
    if dotIndex > sepIndex && HasNonDot(name, sepIndex + 1, dotIndex) {
      var j :| sepIndex + 1 <= j < dotIndex && name[j] != '.';
      assert IsExtensionDot(name, dotIndex);
      assert dotIndex == |name| - 1;
      var suffix := name[dotIndex..];
      assert suffix == ".";
      assert LStrip(suffix, '.') == LStrip(suffix[1..], '.');
    }
  }

  /** The folder a file called `name` goes to: directly under the source root. */
  function DestinationDir(source: Path, name: string): (d: Path)
    ensures |d| == |source| + 1 && d[..|source|] == source
    ensures IsKeyShaped(d[|source|]) && d[|source|] == ExtensionKey(name)
  {
    source + [ExtensionKey(name)]
  }

  /** `f"{prefix}-{name}"`. */
  function NewName(prefix: string, name: string): (n: string)
    ensures |n| == |prefix| + 1 + |name|
    ensures n[..|prefix|] == prefix && n[|prefix|] == '-'
    ensures IsSuffix(name, n) && n != name
  {
    prefix + "-" + name
  }

  /** The path a file called `name` is moved to, given its year-month prefix. */
  function DestinationPath(source: Path, prefix: string, name: string): (d: Path)
    ensures |d| == |source| + 2 && d[..|source| + 1] == DestinationDir(source, name)
    ensures d[|source| + 1] == NewName(prefix, name)
  {
    DestinationDir(source, name) + [NewName(prefix, name)]
  }
}
