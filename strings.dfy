/** The two framework string helpers the stack resolver relies on: taking the
    file-name part of a path, and ordinal case-insensitive equality. */
module Strings {

  /** Directory separators recognised when a path is split (a fixed set). */
  predicate IsSeparator(c: char) {
    c == '/' || c == '\\'
  }

  predicate NoSeparator(s: string) {
    forall k :: 0 <= k < |s| ==> !IsSeparator(s[k])
  }

  /** `Path.GetFileName(path)`: the part of `path` after its last directory
      separator. */
  function GetFileName(path: string): string {
    if path == [] || IsSeparator(path[|path| - 1]) then []
    else GetFileName(path[..|path| - 1]) + [path[|path| - 1]]
  }

  /** The file name is a suffix of the path. */
  lemma {:induction false} GetFileNameIsSuffix(path: string)
    ensures |GetFileName(path)| <= |path|
    ensures GetFileName(path) == path[|path| - |GetFileName(path)|..]
    decreases |path|
  {
    if path != [] && !IsSeparator(path[|path| - 1]) {
      var init, last := path[..|path| - 1], path[|path| - 1];
      GetFileNameIsSuffix(init);
      var name := GetFileName(init);
      var n := |name|;
      assert GetFileName(path) == name + [last];
      assert name == init[|init| - n..];
      assert path[|path| - 1 - n..] == init[|init| - n..] + [last];
    }
  }

  /** The file name holds no separator. */
  lemma {:induction false} GetFileNameHasNoSeparator(path: string)
    ensures NoSeparator(GetFileName(path))
    decreases |path|
  {
    if path != [] && !IsSeparator(path[|path| - 1]) {
      var init, last := path[..|path| - 1], path[|path| - 1];
      GetFileNameHasNoSeparator(init);
      var name := GetFileName(init);
      assert GetFileName(path) == name + [last];
      forall k | 0 <= k < |name| + 1
        ensures !IsSeparator((name + [last])[k])
      {
        if k < |name| {
          assert (name + [last])[k] == name[k];
        }
      }
    }
  }

  /** The file name is all of the path or follows a separator. */
  lemma {:induction false} GetFileNameFollowsSeparator(path: string)
    ensures |GetFileName(path)| < |path| ==> IsSeparator(path[|path| - |GetFileName(path)| - 1])
    decreases |path|
  {
    if path != [] && !IsSeparator(path[|path| - 1]) {
      var init := path[..|path| - 1];
      GetFileNameFollowsSeparator(init);
      GetFileNameIsSuffix(init);
      var n := |GetFileName(init)|;
      assert |GetFileName(path)| == n + 1;
      if n + 1 < |path| {
        assert path[|path| - n - 2] == init[|init| - n - 1];
      }
    }
  }

  /** The file name is the longest separator-free suffix of the path: a
      suffix, holding no separator, and either all of the path or preceded by
      a separator. */
  lemma {:induction false} GetFileNameIsLastComponent(path: string)
    ensures |GetFileName(path)| <= |path|
    ensures GetFileName(path) == path[|path| - |GetFileName(path)|..]
    ensures NoSeparator(GetFileName(path))
    ensures |GetFileName(path)| < |path| ==> IsSeparator(path[|path| - |GetFileName(path)| - 1])
  {
    GetFileNameIsSuffix(path);
    GetFileNameHasNoSeparator(path);
    GetFileNameFollowsSeparator(path);
  }

  /** Appending a separator-free tail to a path appends it to the file name. */
  lemma {:induction false} GetFileNameAppend(path: string, tail: string)
    requires NoSeparator(tail)
    ensures GetFileName(path + tail) == GetFileName(path) + tail
    decreases |tail|
  {
    if tail == [] {
      assert path + tail == path;
    } else {
      var init := tail[..|tail| - 1];
      assert (path + tail)[..|path + tail| - 1] == path + init;
      GetFileNameAppend(path, init);
      assert init + [tail[|tail| - 1]] == tail;
    }
  }

  /** Invariant-culture upper-casing, restricted to ASCII letters. */
  function ToUpperAscii(c: char): char {
    if 'a' <= c <= 'z' then (c as int - 32) as char else c
  }

  /** `string.Equals(a, b, StringComparison.OrdinalIgnoreCase)`: equal
      lengths, and equal characters once upper-cased. */
  predicate EqualsIgnoreCase(a: string, b: string) {
    |a| == |b| &&
    (a == [] || (ToUpperAscii(a[0]) == ToUpperAscii(b[0]) && EqualsIgnoreCase(a[1..], b[1..])))
  }

  /** Ignore-case equality is position-wise equality of the upper-cased
      characters. */
  lemma {:induction false} EqualsIgnoreCaseAt(a: string, b: string)
    ensures EqualsIgnoreCase(a, b) <==>
      |a| == |b| && forall k :: 0 <= k < |a| ==> ToUpperAscii(a[k]) == ToUpperAscii(b[k])
  {
    if a != [] && |a| == |b| {
      EqualsIgnoreCaseAt(a[1..], b[1..]);
      if forall k :: 0 <= k < |a| ==> ToUpperAscii(a[k]) == ToUpperAscii(b[k]) {
        assert forall k :: 0 <= k < |a| - 1 ==> ToUpperAscii(a[1..][k]) == ToUpperAscii(b[1..][k]) by {
          forall k | 0 <= k < |a| - 1 ensures ToUpperAscii(a[1..][k]) == ToUpperAscii(b[1..][k]) {
            assert a[1..][k] == a[k + 1] && b[1..][k] == b[k + 1];
          }
        }
      }
    }
  }

  /** Ignore-case equality is an equivalence relation. */
  lemma EqualsIgnoreCaseIsEquivalence(a: string, b: string, c: string)
    ensures EqualsIgnoreCase(a, a)
    ensures EqualsIgnoreCase(a, b) ==> EqualsIgnoreCase(b, a)
    ensures EqualsIgnoreCase(a, b) && EqualsIgnoreCase(b, c) ==> EqualsIgnoreCase(a, c)
  {
    EqualsIgnoreCaseAt(a, a);
    EqualsIgnoreCaseAt(a, b);
    EqualsIgnoreCaseAt(b, a);
    EqualsIgnoreCaseAt(b, c);
    EqualsIgnoreCaseAt(a, c);
  }
}
