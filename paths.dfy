/**
 * The file-path operations the converter uses to dispatch on the input's
 * type and to place its output next to the input: `Path.GetExtension`,
 * `Path.GetFileName`, `Path.GetFileNameWithoutExtension`,
 * `Path.GetDirectoryName`, `Path.Combine` and `ToLowerInvariant`, for
 * Windows paths whose separators are `\` and `/` and whose root is a drive
 * (`C:` or `C:\`) or a single leading separator.
 */
module Paths {
  import opened Wrappers

  predicate IsSeparator(c: char) { c == '\\' || c == '/' }

  predicate NoSeparator(s: string) { forall i :: 0 <= i < |s| ==> !IsSeparator(s[i]) }

  predicate IsLetter(c: char) { 'A' <= c <= 'Z' || 'a' <= c <= 'z' }

  /** The length of the path's root: `C:\` is 3, `C:` is 2, a leading separator is 1, a relative path has none. */
  function RootLength(path: string): (n: nat)
    ensures n <= |path| && n <= 3
    ensures n > 0 ==> IsSeparator(path[n - 1]) || path[n - 1] == ':'
  {
    if |path| >= 2 && IsLetter(path[0]) && path[1] == ':' then
      if |path| >= 3 && IsSeparator(path[2]) then 3 else 2
    else if |path| >= 1 && IsSeparator(path[0]) then 1
    else 0
  }

  /** The index of the last `c` in `s`, if there is one. */
  function LastIndexOf(s: string, c: char): (r: Option<nat>)
    ensures r.Some? ==> r.value < |s| && s[r.value] == c
    ensures r.Some? ==> forall j :: r.value < j < |s| ==> s[j] != c
    ensures r.None? ==> forall j :: 0 <= j < |s| ==> s[j] != c
  {
    if |s| == 0 then None
    else if s[|s| - 1] == c then Some(|s| - 1)
    else LastIndexOf(s[..|s| - 1], c)
  }

  /** The number of characters before the last separator's successor: 0 when there is no separator. */
  function AfterLastSeparator(s: string): (k: nat)
    ensures k <= |s| && NoSeparator(s[k..])
    ensures k > 0 ==> IsSeparator(s[k - 1])
  {
    if |s| == 0 || IsSeparator(s[|s| - 1]) then |s|
    else
      var k := AfterLastSeparator(s[..|s| - 1]);
      assert s[k..] == s[..|s| - 1][k..] + [s[|s| - 1]];
      k
  }

  /** `Path.GetFileName`: what follows the last separator and the root. */
  function FileName(path: string): (name: string)
    ensures NoSeparator(name)
  {
    var k := AfterLastSeparator(path);
    var r := RootLength(path);
    if k < r then path[r..] else path[k..]
  }

  /** `Path.GetExtension`: from the last point after the last separator on; empty when there is no point or the point ends the path. */
  function Extension(path: string): string
  {
    var tail := path[AfterLastSeparator(path)..];
    match LastIndexOf(tail, '.')
    case None => ""
    case Some(k) => if k == |tail| - 1 then "" else tail[k..]
  }

  /** `Path.GetFileNameWithoutExtension`: the file name up to its last point. */
  function Stem(path: string): (stem: string)
    ensures NoSeparator(stem)
  {
    var name := FileName(path);
    match LastIndexOf(name, '.')
    case None => name
    case Some(k) => name[..k]
  }

  /** The end of `path[..k]` once trailing separators are dropped, never going below `low`. */
  function TrimSeparators(path: string, k: nat, low: nat): (e: nat)
    requires low <= k <= |path|
    ensures low <= e <= k
  {
    if k > low && IsSeparator(path[k - 1]) then TrimSeparators(path, k - 1, low) else k
  }

  /**
   * `Path.GetDirectoryName`: the path up to its last separator, with any
   * run of separators there dropped, but never shorter than the root; empty
   * for a bare file name.
   */
  function DirectoryName(path: string): (dir: string)
    ensures |dir| <= |path| && dir == path[..|dir|]
  {
    var r := RootLength(path);
    var k := AfterLastSeparator(path);
    if k <= r then path[..r] else path[..TrimSeparators(path, k - 1, r)]
  }

  /** `Path.Combine(dir, name)` for a relative, non-empty `name`: joined by `\` unless `dir` is empty or already ends in a separator. */
  function Combine(dir: string, name: string): string
  {
    if |dir| == 0 then name
    else if IsSeparator(dir[|dir| - 1]) then dir + name
    else dir + "\\" + name
  }

  /** `ToLowerInvariant` on the ASCII letters. */
  function ToLower(s: string): (t: string)
    ensures |t| == |s|
    ensures forall i :: 0 <= i < |s| ==> t[i] == if 'A' <= s[i] <= 'Z' then (s[i] as int + 32) as char else s[i]
  {
    seq(|s|, i requires 0 <= i < |s| => if 'A' <= s[i] <= 'Z' then (s[i] as int + 32) as char else s[i])
  }

  /** Lower-casing twice is lower-casing once, so the dispatch does not depend on the letter case of the extension. */
  lemma ToLowerIdempotent(s: string)
    ensures ToLower(ToLower(s)) == ToLower(s)
  {
  }

  /** A name with neither separators nor colons: a plain file name. */
  predicate PlainName(name: string)
  {
    |name| > 0 && NoSeparator(name) && forall i :: 0 <= i < |name| ==> name[i] != ':'
  }

  /** A plain name combined onto a directory is the file name of the result, which begins with the directory. */
  lemma CombineKeepsName(dir: string, name: string)
    requires PlainName(name)
    ensures FileName(Combine(dir, name)) == name
    ensures |dir| <= |Combine(dir, name)| && Combine(dir, name)[..|dir|] == dir
  {
    if |dir| == 0 {
      PlainNameIsFileName(name);
    } else if IsSeparator(dir[|dir| - 1]) {
      NameAfterSeparator(dir, name);
    } else {
      assert dir + "\\" + name == (dir + "\\") + name;
      NameAfterSeparator(dir + "\\", name);
    }
  }

  lemma PlainNameIsFileName(name: string)
    requires PlainName(name)
    ensures FileName(name) == name
  {
    assert AfterLastSeparator(name) == 0;
    assert RootLength(name) == 0 by {
      assert !IsSeparator(name[0]);
      assert |name| >= 2 ==> name[1] != ':';
    }
  }

  /** After a prefix ending in a separator, a plain name is the file name. */
  lemma NameAfterSeparator(head: string, name: string)
    requires |head| > 0 && IsSeparator(head[|head| - 1]) && PlainName(name)
    ensures FileName(head + name) == name
  {
    var p := head + name;
    var k := AfterLastSeparator(p);
    assert k == |head| by {
      assert p[|head| - 1] == head[|head| - 1];
      assert forall j :: |head| <= j < |p| ==> p[j] == name[j - |head|];
    }
    assert RootLength(p) <= |head| by {
      if |head| == 1 {
        assert p[1] == name[0];
      }
    }
    assert p[|head|..] == name;
  }

  /** The output of the WAV path: its file name is the input's stem with `.wav`, and so is its extension. */
  lemma WavOutputName(dir: string, stem: string)
    requires NoSeparator(stem) && forall i :: 0 <= i < |stem| ==> stem[i] != ':'
    ensures FileName(Combine(dir, stem + ".wav")) == stem + ".wav"
    ensures Extension(Combine(dir, stem + ".wav")) == ".wav"
    ensures Combine(dir, stem + ".wav")[..|dir|] == dir
  {
    var name := stem + ".wav";
    assert PlainName(name) by {
      forall i | 0 <= i < |name| ensures !IsSeparator(name[i]) && name[i] != ':' {
        if i < |stem| { assert name[i] == stem[i]; }
      }
    }
    CombineKeepsName(dir, name);
    var p := Combine(dir, name);
    ExtensionOfNamed(p, stem);
  }

  /** A path whose last four characters are `.wav`, after a part without separators, has the extension `.wav`. */
  lemma ExtensionOfNamed(p: string, stem: string)
    requires |p| >= |stem| + 4 && p[|p| - |stem| - 4..] == stem + ".wav" && NoSeparator(stem)
    ensures Extension(p) == ".wav"
  {
    var k := AfterLastSeparator(p);
    assert k <= |p| - 4 by {
      var w := stem + ".wav";
      var b := |p| - |stem| - 4;
      forall j | b <= j < |p|
        ensures !IsSeparator(p[j])
      {
        assert p[j] == w[j - b];
        if j - b < |stem| {
          assert w[j - b] == stem[j - b];
        }
      }
    }
    var tail := p[k..];
    assert tail[|tail| - 4..] == ".wav";
    var r := LastIndexOf(tail, '.');
    assert tail[|tail| - 4] == '.';
    assert r == Some(|tail| - 4);
  }
}
