/**
 * File-path manipulation as the iOS services use it (`URL.deletingLastPathComponent`,
 * `lastPathComponent`, `pathExtension`, `deletingPathExtension`,
 * `appendingPathComponent`), on paths written as strings.
 *
 * The directory part keeps its trailing '/', so joining is concatenation.
 * The extension is the text after the last '.' of the last component, provided
 * that dot is neither the component's first nor its last character.
 */
module Paths {

  /** The index of the last `c` in `s`, or -1. */
  function LastIndexOf(s: string, c: char): (k: int)
    ensures -1 <= k < |s|
    ensures k >= 0 ==> s[k] == c
    ensures forall i :: k < i < |s| ==> s[i] != c
  {
    if s == [] then -1
    else if s[|s| - 1] == c then |s| - 1
    else LastIndexOf(s[..|s| - 1], c)
  }

  predicate Free(s: string, c: char) {
    forall i :: 0 <= i < |s| ==> s[i] != c
  }

  /** Everything up to and including the last '/': `deletingLastPathComponent`. */
  function Directory(p: string): string {
    p[..LastIndexOf(p, '/') + 1]
  }

  /** Everything after the last '/': `lastPathComponent`. */
  function LastComponent(p: string): string {
    p[LastIndexOf(p, '/') + 1..]
  }

  /** The position of the dot that starts the extension, if the name has one. */
  function ExtensionDot(name: string): (d: int)
    ensures d == -1 || 0 < d < |name| - 1
  {
    var k := LastIndexOf(name, '.');
    if 0 < k < |name| - 1 then k else -1
  }

  /** `pathExtension` of a file name: "" when it has none. */
  function Extension(name: string): string {
    var d := ExtensionDot(name);
    if d == -1 then "" else name[d + 1..]
  }

  /** `deletingPathExtension().lastPathComponent`: the name without ".ext". */
  function Stem(name: string): string {
    var d := ExtensionDot(name);
    if d == -1 then name else name[..d]
  }

  /** `createOutputURL(from:suffix:)`: `<directory>/<stem><suffix>.<ext>`. */
  function CreateOutputPath(source: string, suffix: string): string {
    var name := LastComponent(source);
    Directory(source) + Stem(name) + suffix + "." + Extension(name)
  }

  // ---------------------------------------------------------------------------

  lemma SplitPath(p: string)
    ensures p == Directory(p) + LastComponent(p)
    ensures Free(LastComponent(p), '/')
    ensures Directory(p) == [] || Directory(p)[|Directory(p)| - 1] == '/'
  {
    var k := LastIndexOf(p, '/');
    assert forall i :: 0 <= i < |LastComponent(p)| ==> LastComponent(p)[i] == p[k + 1 + i];
  }

  lemma FreeConcat(a: string, b: string, c: char)
    requires Free(a, c) && Free(b, c)
    ensures Free(a + b, c)
  {
    forall i | 0 <= i < |a + b| ensures (a + b)[i] != c {
      if i >= |a| {
        assert (a + b)[i] == b[i - |a|];
      }
    }
  }

  /** The last `c` is the one with no `c` after it. */
  lemma LastIndexOfUnique(s: string, c: char, k: int)
    requires -1 <= k < |s| && (k >= 0 ==> s[k] == c)
    requires forall i :: k < i < |s| ==> s[i] != c
    ensures LastIndexOf(s, c) == k
  {
  }

  /** Joining a directory with a '/'-free name splits back into the two. */
  lemma JoinSplit(dir: string, name: string)
    requires dir == [] || dir[|dir| - 1] == '/'
    requires Free(name, '/')
    ensures Directory(dir + name) == dir && LastComponent(dir + name) == name
  {
    var s := dir + name;
    var k := |dir| - 1;
    forall i | k < i < |s| ensures s[i] != '/' {
      assert s[i] == name[i - |dir|];
    }
    LastIndexOfUnique(s, '/', k);
    assert s[..k + 1] == dir;
    assert s[k + 1..] == name;
  }

  lemma StemAndExtension(name: string)
    ensures Extension(name) == "" ==> Stem(name) == name
    ensures Extension(name) != "" ==>
      name == Stem(name) + "." + Extension(name) && Stem(name) != "" && Free(Extension(name), '.')
    ensures Free(name, '/') ==> Free(Stem(name), '/') && Free(Extension(name), '/')
  {
    var d := ExtensionDot(name);
    if d != -1 {
      assert name == name[..d] + [name[d]] + name[d + 1..];
      forall i | 0 <= i < |Extension(name)| ensures Extension(name)[i] != '.' {
        assert Extension(name)[i] == name[d + 1 + i];
      }
    }
  }

  /** The output lies in the source's directory and is named `<stem><suffix>.<ext>`. */
  lemma {:induction false} OutputName(source: string, suffix: string)
    requires Free(suffix, '/')
    ensures var name := LastComponent(source);
      Directory(CreateOutputPath(source, suffix)) == Directory(source) &&
      LastComponent(CreateOutputPath(source, suffix)) == Stem(name) + suffix + "." + Extension(name)
  {
    var name := LastComponent(source);
    var dir := Directory(source);
    var newName := Stem(name) + suffix + "." + Extension(name);
    assert Free(newName, '/') by {
      SplitPath(source);
      StemAndExtension(name);
      FreeConcat(Stem(name), suffix, '/');
      FreeConcat(Stem(name) + suffix, ".", '/');
      FreeConcat(Stem(name) + suffix + ".", Extension(name), '/');
    }
    assert dir == [] || dir[|dir| - 1] == '/' by {
      SplitPath(source);
    }
    assert CreateOutputPath(source, suffix) == dir + newName;
    JoinSplit(dir, newName);
  }

  /** The output keeps the source's directory, and its name never equals the source's. */
  lemma OutputDiffersFromSource(source: string, suffix: string)
    requires suffix != "" && Free(suffix, '/')
    ensures Directory(CreateOutputPath(source, suffix)) == Directory(source)
    ensures LastComponent(CreateOutputPath(source, suffix)) != LastComponent(source)
    ensures CreateOutputPath(source, suffix) != source
  {
    var name := LastComponent(source);
    OutputName(source, suffix);
    StemAndExtension(name);
    assert |LastComponent(CreateOutputPath(source, suffix))| > |name|;
  }

  /** A source without extension gets a name ending in a bare '.'. */
  lemma EmptyExtensionTrailingDot(source: string, suffix: string)
    requires Free(suffix, '/') && Extension(LastComponent(source)) == ""
    ensures LastComponent(CreateOutputPath(source, suffix)) == LastComponent(source) + suffix + "."
  {
    OutputName(source, suffix);
    StemAndExtension(LastComponent(source));
  }

  /** Applying `createOutputURL` to its own output stacks the suffix: it is not idempotent. */
  lemma {:induction false} OutputStacksSuffix(source: string, suffix: string)
    requires suffix != "" && Free(suffix, '/') && Free(suffix, '.')
    requires Extension(LastComponent(source)) != ""
    ensures var name := LastComponent(source);
      LastComponent(CreateOutputPath(CreateOutputPath(source, suffix), suffix)) ==
        Stem(name) + suffix + suffix + "." + Extension(name)
    ensures CreateOutputPath(CreateOutputPath(source, suffix), suffix) != CreateOutputPath(source, suffix)
  {
    var name := LastComponent(source);
    var stem, ext := Stem(name), Extension(name);
    var once := CreateOutputPath(source, suffix);
    OutputName(source, suffix);
    StemAndExtension(name);
    assert LastComponent(once) == (stem + suffix) + "." + ext;
    SplitsAtDot(stem + suffix, ext);
    OutputName(once, suffix);
    OutputDiffersFromSource(once, suffix);
  }

  /** A name `<head>.<ext>` with a dot-free, non-empty extension splits at that dot. */
  lemma SplitsAtDot(head: string, ext: string)
    requires head != "" && ext != "" && Free(ext, '.')
    ensures Stem(head + "." + ext) == head && Extension(head + "." + ext) == ext
  {
    var name := head + "." + ext;
    var k := |head|;
    assert name[k] == '.';
    forall i | k < i < |name| ensures name[i] != '.' {
      assert name[i] == ext[i - k - 1];
    }
    LastIndexOfUnique(name, '.', k);
    assert name[k + 1..] == ext;
    assert name[..k] == head;
  }
}
