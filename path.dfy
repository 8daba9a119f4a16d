/**
  Path helpers of path/path.go. The operating system's separator (`os.PathSeparator`) is a
  parameter `osSep`; the functions handed to `Convert` and the `filepath.Join` used by
  `Join` are function parameters about which nothing is assumed.
 */
module Path {
  import Strings

  /** `os.IsPathSeparator` on an OS whose separator is `osSep` (Windows also accepts '/'). */
  predicate IsPathSeparator(osSep: char, c: char) {
    c == osSep || (osSep == '\\' && c == '/')
  }

  /** The guard of path/path.go:12 and :35. */
  predicate KnownOs(osSep: char) {
    IsPathSeparator(osSep, '/') || IsPathSeparator(osSep, '\\')
  }

  /** Every `sep` becomes the OS separator. */
  function ToOsSeparator(osSep: char, sep: char, path: string): (r: string)
    ensures |r| == |path|
    ensures forall i :: 0 <= i < |path| ==> r[i] == if path[i] == sep then osSep else path[i]
  {
    Strings.ReplaceCharAt(path, sep, osSep);
    Strings.ReplaceAll(path, [sep], [osSep])
  }

  /** Every OS separator becomes `sep`. */
  function FromOsSeparator(osSep: char, sep: char, path: string): (r: string)
    ensures |r| == |path|
    ensures forall i :: 0 <= i < |path| ==> r[i] == if path[i] == osSep then sep else path[i]
  {
    Strings.ReplaceCharAt(path, osSep, sep);
    Strings.ReplaceAll(path, [osSep], [sep])
  }

  /** With different separators, no given separator survives `ToOsSeparator`. */
  lemma ToOsRemovesSeparator(osSep: char, sep: char, path: string)
    requires osSep != sep
    ensures sep !in ToOsSeparator(osSep, sep, path)
  {
    var r := ToOsSeparator(osSep, sep, path);
    forall i | 0 <= i < |r|
      ensures r[i] != sep
    {
    }
  }

  /** `FromOsSeparator` undoes `ToOsSeparator` on a path free of OS separators. */
  lemma FromToRoundTrip(osSep: char, sep: char, path: string)
    requires osSep !in path
    ensures FromOsSeparator(osSep, sep, ToOsSeparator(osSep, sep, path)) == path
  {
    var r := FromOsSeparator(osSep, sep, ToOsSeparator(osSep, sep, path));
    assert |r| == |path|;
    forall i | 0 <= i < |path|
      ensures r[i] == path[i]
    {
      assert path[i] != osSep;
    }
  }

  datatype ConvertResult = Converted(path: string) | InvalidSeparator(sep: char)

  /**
    `Convert`: run `osFn` on the path in OS form and translate the answer back into
    the caller's separator; with the OS separator itself, `osFn` runs on the path directly.
   */
  function Convert(osSep: char, sep: char, path: string, osFn: string -> string): (r: ConvertResult)
    ensures sep == osSep ==> r == Converted(osFn(path))
    ensures sep != osSep && !KnownOs(osSep) ==> r == InvalidSeparator(sep)
    ensures sep != osSep && KnownOs(osSep) ==>
              r == Converted(FromOsSeparator(osSep, sep, osFn(ToOsSeparator(osSep, sep, path))))
  {
    if osSep != sep then
      if KnownOs(osSep) then
        Converted(FromOsSeparator(osSep, sep, osFn(ToOsSeparator(osSep, sep, path))))
      else
        InvalidSeparator(sep)
    else
      Converted(osFn(path))
  }

  /** With different separators the converted path is in the caller's form: no OS separator. */
  lemma ConvertInCallerForm(osSep: char, sep: char, path: string, osFn: string -> string)
    requires sep != osSep && KnownOs(osSep)
    ensures Convert(osSep, sep, path, osFn).Converted?
    ensures osSep !in Convert(osSep, sep, path, osFn).path
  {
    var r := Convert(osSep, sep, path, osFn).path;
    forall i | 0 <= i < |r|
      ensures r[i] != osSep
    {
    }
  }

  /** Converting with a function that leaves its argument alone changes nothing. */
  lemma ConvertIdentity(osSep: char, sep: char, path: string)
    requires KnownOs(osSep) && osSep !in path
    ensures Convert(osSep, sep, path, s => s) == Converted(path)
  {
    if sep != osSep {
      FromToRoundTrip(osSep, sep, path);
    }
  }

  function Repeat(c: char, n: nat): (r: string)
    ensures |r| == n && forall i :: 0 <= i < n ==> r[i] == c
  {
    if n == 0 then [] else [c] + Repeat(c, n - 1)
  }

  /** The equal-separator branch of `Join`: join with one separator, then halve doubled ones. */
  function JoinCollapsing(sep: char, parts: seq<string>): string {
    Strings.ReplaceAll(Strings.Join(parts, [sep]), [sep, sep], [sep])
  }

  /** No separator is directly followed by another. */
  predicate NoDoubled(s: string, c: char) {
    forall i :: 0 <= i < |s| - 1 ==> !(s[i] == c && s[i + 1] == c)
  }

  lemma {:induction false} NoDoubledNotOccurs(s: string, c: char)
    requires NoDoubled(s, c)
    ensures !Strings.Occurs(s, [c, c])
    decreases |s|
  {
    if |s| > 0 {
      assert NoDoubled(s[1..], c) by {
        forall i | 0 <= i < |s[1..]| - 1
          ensures !(s[1..][i] == c && s[1..][i + 1] == c)
        {
          assert s[1..][i] == s[i + 1] && s[1..][i + 1] == s[i + 2];
        }
      }
      NoDoubledNotOccurs(s[1..], c);
      if |s| >= 2 {
        assert !(s[0] == c && s[1] == c);
        assert s[..2] == [s[0], s[1]];
      }
    }
  }

  predicate PlainParts(parts: seq<string>, c: char) {
    forall k :: 0 <= k < |parts| ==> |parts[k]| > 0 && c !in parts[k]
  }

  lemma {:induction false} JoinPlainNoDoubled(parts: seq<string>, c: char)
    requires PlainParts(parts, c)
    ensures NoDoubled(Strings.Join(parts, [c]), c)
    ensures |parts| > 0 ==> |Strings.Join(parts, [c])| > 0 && Strings.Join(parts, [c])[0] != c
    decreases |parts|
  {
    if |parts| > 1 {
      var p := parts[0];
      JoinPlainNoDoubled(parts[1..], c);
      var j := Strings.Join(parts[1..], [c]);
      var s := p + [c] + j;
      assert Strings.Join(parts, [c]) == s;
      forall i | 0 <= i < |s| - 1
        ensures !(s[i] == c && s[i + 1] == c)
      {
        if i < |p| {
          assert s[i] == p[i];
        } else if i == |p| {
          assert s[i + 1] == j[0];
        } else {
          assert s[i] == j[i - |p| - 1] && s[i + 1] == j[i - |p|];
        }
      }
      assert s[0] == p[0];
    } else if |parts| == 1 {
      var p := parts[0];
      forall i | 0 <= i < |p| - 1
        ensures !(p[i] == c && p[i + 1] == c)
      {
        assert p[i] in p;
      }
      assert p[0] in p;
    }
  }

  /** For non-empty parts without separators, `Join` puts exactly one separator between parts. */
  lemma JoinPlainParts(sep: char, parts: seq<string>)
    requires PlainParts(parts, sep)
    ensures JoinCollapsing(sep, parts) == Strings.Join(parts, [sep])
  {
    JoinPlainNoDoubled(parts, sep);
    NoDoubledNotOccurs(Strings.Join(parts, [sep]), sep);
    Strings.ReplaceAllAbsent(Strings.Join(parts, [sep]), [sep, sep], [sep]);
  }

  /** The collapsing pass is a single one: a run of n separators shrinks to ceil(n/2), not to one. */
  lemma {:induction false} CollapseRun(sep: char, n: nat)
    ensures Strings.ReplaceAll(Repeat(sep, n), [sep, sep], [sep]) == Repeat(sep, (n + 1) / 2)
    decreases n
  {
    var s := Repeat(sep, n);
    if n == 1 {
      assert !Strings.StartsWith(s, [sep, sep]);
      assert s[1..] == [];
    } else if n >= 2 {
      assert s[..2] == [sep, sep];
      assert s[2..] == Repeat(sep, n - 2);
      CollapseRun(sep, n - 2);
      assert [sep] + Repeat(sep, (n - 1) / 2) == Repeat(sep, (n + 1) / 2);
    }
  }

  /**
    `Join(sep, pathParts...)`. With a separator other than the OS one, every element of
    `pathParts` is rewritten in place to OS form and the parts are joined by `filepathJoin`
    (standing for `filepath.Join`); otherwise the parts are joined by `JoinCollapsing`.
   */
  method Join(osSep: char, sep: char, pathParts: array<string>, filepathJoin: seq<string> -> string)
    returns (r: string)
    modifies pathParts
    ensures osSep != sep && KnownOs(osSep) ==>
              |pathParts[..]| == |old(pathParts[..])| &&
              (forall i :: 0 <= i < pathParts.Length ==>
                 pathParts[i] == ToOsSeparator(osSep, sep, old(pathParts[i]))) &&
              r == FromOsSeparator(osSep, sep, filepathJoin(pathParts[..]))
    ensures !(osSep != sep && KnownOs(osSep)) ==>
              pathParts[..] == old(pathParts[..]) && r == JoinCollapsing(sep, pathParts[..])
  {
    if osSep != sep && KnownOs(osSep) {
      var i := 0;
      while i < pathParts.Length
        invariant 0 <= i <= pathParts.Length
        invariant forall k :: 0 <= k < i ==> pathParts[k] == ToOsSeparator(osSep, sep, old(pathParts[k]))
        invariant forall k :: i <= k < pathParts.Length ==> pathParts[k] == old(pathParts[k])
      {
        pathParts[i] := ToOsSeparator(osSep, sep, pathParts[i]);
        i := i + 1;
      }
      return FromOsSeparator(osSep, sep, filepathJoin(pathParts[..]));
    }
    r := JoinCollapsing(sep, pathParts[..]);
  }
}
