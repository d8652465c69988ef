// Path-name helpers of the file-system utilities: the separator, filename
// extensions and the directory-by-directory walk that creates a path.
module Filesys {
  import opened Wrappers
  import UtilsCommon

  function GetPathSeparator(): (s: string)
    ensures |s| == 1 && s[0] == '/'
  {
    "/"
  }

  /** std::string::find_last_of for one character. */
  function FindLastOf(s: string, c: char): (r: Option<nat>)
    ensures r.None? <==> c !in s
    ensures r.Some? ==> r.value < |s| && s[r.value] == c && c !in s[r.value + 1..]
  {
    if |s| == 0 then None
    else if s[|s| - 1] == c then Some(|s| - 1)
    else
      var r := FindLastOf(s[..|s| - 1], c);
      assert r.Some? ==> s[r.value + 1..] == s[..|s| - 1][r.value + 1..] + [s[|s| - 1]];
      assert r.None? ==> s == s[..|s| - 1] + [s[|s| - 1]];
      r
  }

  function RemoveFilenameExtension(filename: string): (r: string)
  {
    match FindLastOf(filename, '.')
    case None => filename
    case Some(lastDot) => filename[..lastDot]
  }

  /** The extension from the last dot, with or without the dot itself. The
      source's character count runs to the end of the name either way. */
  function GetFilenameExtension(filename: string, includeDot: bool): (r: string)
  {
    match FindLastOf(filename, '.')
    case None => ""
    case Some(lastDot) => if includeDot then filename[lastDot..] else filename[lastDot + 1..]
  }

  /** Without a dot the name is its own stem; otherwise the stem stops right
      before the last dot. */
  lemma RemoveExtensionShape(filename: string)
    ensures var r := RemoveFilenameExtension(filename);
      && r == filename[..|r|]
      && ('.' !in filename <==> r == filename)
      && ('.' in filename ==> filename[|r|] == '.' && '.' !in filename[|r| + 1..])
  {
  }

  /** The extension holds no dot beyond its leading one; a name without a dot
      has an empty extension, and with a dot the dotted extension is the
      undotted one behind a '.'. */
  lemma ExtensionShape(filename: string)
    ensures '.' !in GetFilenameExtension(filename, false)
    ensures '.' !in filename ==> GetFilenameExtension(filename, true) == "" == GetFilenameExtension(filename, false)
    ensures '.' in filename ==> var e := GetFilenameExtension(filename, true);
      |e| >= 1 && e[0] == '.' && e[1..] == GetFilenameExtension(filename, false)
  {
  }

  /** Stem and dotted extension put back together give the name. */
  lemma StemPlusExtension(filename: string)
    ensures RemoveFilenameExtension(filename) + GetFilenameExtension(filename, true) == filename
  {
    match FindLastOf(filename, '.')
    case None =>
    case Some(lastDot) =>
      assert filename == filename[..lastDot] + filename[lastDot..];
  }

  // ---------------------------------------------------------------------
  // createPath
  // ---------------------------------------------------------------------

  predicate IsSeparator(c: char)
  {
    c == '/' || c == '\\'
  }

  /** The characters of `s` before its first NUL, as c_str() hands them on. */
  function CText(s: string): (t: string)
    ensures |t| <= |s| && t == s[..|t|] && '\0' !in t
    ensures |t| == |s| || s[|t|] == '\0'
  {
    if |s| == 0 || s[0] == '\0' then "" else [s[0]] + CText(s[1..])
  }

  /** Both separators written as '/'. */
  function Normalized(s: string): (t: string)
    ensures |t| == |s|
    ensures forall i :: 0 <= i < |s| ==> t[i] == (if IsSeparator(s[i]) then '/' else s[i])
  {
    seq(|s|, i requires 0 <= i < |s| => if IsSeparator(s[i]) then '/' else s[i])
  }

  /** The directories createPath asks for while walking the first n characters
      of `text`: at every separator, everything before it, normalized. */
  function DirectoryPrefixes(text: string, n: nat): (ps: seq<string>)
    requires n <= |text|
  {
    if n == 0 then []
    else DirectoryPrefixes(text, n - 1) + (if IsSeparator(text[n - 1]) then [Normalized(text[..n - 1])] else [])
  }

  /** Each requested directory ends right before a separator of the path, so
      the component after the last separator is never created. */
  lemma {:induction false} PrefixesEndAtSeparators(text: string, n: nat)
    requires n <= |text|
    ensures forall p :: p in DirectoryPrefixes(text, n) ==>
      |p| < n && IsSeparator(text[|p|]) && p == Normalized(text[..|p|])
  {
    if n > 0 {
      PrefixesEndAtSeparators(text, n - 1);
    }
  }

  /**
   * The buffer holds at most MaxTempStringLen - 1 characters of the path and
   * is zero-filled first, so a terminator always follows them. Each separator
   * is cut to a NUL, the prefix before it handed to `createDirectory` (the
   * file system, given as the outcome of each request) and then rewritten as
   * '/'. Returns whether every request succeeded and the requests made.
   */
  method CreatePath(path: string, createDirectory: string -> bool) returns (ok: bool, requests: seq<string>)
    requires 0 < |path| < UtilsCommon.MaxTempStringLen
    ensures WalkOutcome(DirectoryPrefixes(CText(path), |CText(path)|), createDirectory, ok, requests)
  {
    var text := CText(path);
    var dirPath := CopyToBuffer(text);
    var p := 0;
    requests := [];
    while dirPath[p] != '\0'
      invariant 0 <= p <= |text| && dirPath.Length == UtilsCommon.MaxTempStringLen
      invariant dirPath[..] == Buffer(text, p, dirPath.Length)
      invariant requests == DirectoryPrefixes(text, p)
      invariant forall q :: q in requests ==> createDirectory(q)
      decreases |text| - p
    {
      BufferAt(text, p, dirPath.Length);
      var failed;
      failed, requests := WalkStep(dirPath, text, p, createDirectory, requests);
      if failed {
        return false, requests;
      }
      p := p + 1;
    }
    BufferAt(text, p, dirPath.Length);
    ok := true;
    PrefixesGrow(text, p, |text|);
  }

  /** The loop body at character p: a separator is cut to NUL, the prefix
      requested, and the separator written back as '/'. */
  method WalkStep(dirPath: array<char>, text: string, p: nat, createDirectory: string -> bool,
                  requests: seq<string>) returns (failed: bool, requests': seq<string>)
    requires p < |text| < dirPath.Length && '\0' !in text
    requires dirPath[..] == Buffer(text, p, dirPath.Length)
    requires requests == DirectoryPrefixes(text, p)
    requires forall q :: q in requests ==> createDirectory(q)
    modifies dirPath
    ensures !failed ==> dirPath[..] == Buffer(text, p + 1, dirPath.Length)
    ensures !failed ==> requests' == DirectoryPrefixes(text, p + 1)
    ensures !failed ==> forall q :: q in requests' ==> createDirectory(q)
    ensures failed ==> WalkOutcome(DirectoryPrefixes(text, |text|), createDirectory, false, requests')
  {
    BufferAt(text, p, dirPath.Length);
    BufferStep(text, p, dirPath.Length);
    requests' := requests;
    if dirPath[p] == '/' || dirPath[p] == '\\' {
      dirPath[p] := '\0';
      RequestAtSeparator(dirPath[..], text, p);
      var dir := CText(dirPath[..]);
      requests' := requests + [dir];
      if !createDirectory(dir) {
        FailedWalk(text, p + 1, createDirectory, requests');
        return true, requests';
      }
      dirPath[p] := '/';
    }
    failed := false;
  }

  /** The requests made are the first ones of `all`, every one but the last
      succeeded, and the walk reports success exactly when it made them all
      and all succeeded; a failure is the last request's. */
  predicate WalkOutcome(all: seq<string>, createDirectory: string -> bool, ok: bool, requests: seq<string>)
  {
    && |requests| <= |all| && requests == all[..|requests|]
    && (forall i :: 0 <= i < |requests| - 1 ==> createDirectory(requests[i]))
    && (ok <==> requests == all && forall p :: p in requests ==> createDirectory(p))
    && (!ok ==> |requests| > 0 && !createDirectory(requests[|requests| - 1]))
  }

  lemma FailedWalk(text: string, n: nat, createDirectory: string -> bool, requests: seq<string>)
    requires 0 < n <= |text| && requests == DirectoryPrefixes(text, n) && |requests| > 0
    requires forall i :: 0 <= i < |requests| - 1 ==> createDirectory(requests[i])
    requires !createDirectory(requests[|requests| - 1])
    ensures WalkOutcome(DirectoryPrefixes(text, |text|), createDirectory, false, requests)
  {
    PrefixesGrow(text, n, |text|);
  }

  /** strncpy(dirPath, path.c_str(), MaxTempStringLen - 1) into a zero-filled
      buffer of MaxTempStringLen characters. */
  method CopyToBuffer(text: string) returns (dirPath: array<char>)
    requires |text| < UtilsCommon.MaxTempStringLen
    ensures fresh(dirPath) && dirPath.Length == UtilsCommon.MaxTempStringLen
    ensures dirPath[..] == Buffer(text, 0, dirPath.Length)
  {
    dirPath := new char[UtilsCommon.MaxTempStringLen](_ => '\0');
    var k := 0;
    while k < |text|
      invariant 0 <= k <= |text|
      invariant forall j :: 0 <= j < k ==> dirPath[j] == text[j]
      invariant forall j :: k <= j < dirPath.Length ==> dirPath[j] == '\0'
    {
      dirPath[k] := text[k];
      k := k + 1;
    }
    assert dirPath[..] == Buffer(text, 0, dirPath.Length);
  }

  /** The buffer after `p` characters of the walk: those normalized, the rest
      of the text as copied, then the zero fill. */
  function Buffer(text: string, p: nat, len: nat): (b: string)
    requires p <= |text| <= len
    ensures |b| == len
  {
    Normalized(text[..p]) + text[p..] + seq(len - |text|, _ => '\0')
  }

  lemma BufferAt(text: string, p: nat, len: nat)
    requires p <= |text| < len
    ensures Buffer(text, p, len)[p] == if p < |text| then text[p] else '\0'
  {
  }

  /** One step of the walk rewrites at most the character at p. */
  lemma BufferStep(text: string, p: nat, len: nat)
    requires p < |text| <= len
    ensures Buffer(text, p + 1, len) == Buffer(text, p, len)[p := if IsSeparator(text[p]) then '/' else text[p]]
  {
    var a := Buffer(text, p + 1, len);
    var b := Buffer(text, p, len)[p := if IsSeparator(text[p]) then '/' else text[p]];
    forall j | 0 <= j < len
      ensures a[j] == b[j]
    {
      if j < p {
        assert a[j] == Normalized(text[..p + 1])[j] && b[j] == Normalized(text[..p])[j];
      } else if j == p {
        assert a[j] == Normalized(text[..p + 1])[j];
      }
    }
  }

  /** The cells strncpy writes when copying `text` with count n into a
      buffer nobody initialized: the characters, then NULs up to the count. */
  function StrncpyCells(text: string, n: nat): (w: string)
    ensures |w| == n
    ensures forall i :: 0 <= i < n ==> w[i] == if i < |text| then text[i] else '\0'
  {
    if |text| >= n then text[..n] else text + seq(n - |text|, _ => '\0')
  }

  /** A path of MaxTempStringLen - 1 characters passes the length check, yet
      strncpy fills all the cells it writes with non-NUL characters, so the
      walk's terminator would be the one cell of the stack buffer left
      unwritten. */
  lemma LongPathUnterminated(path: string)
    requires |path| == UtilsCommon.MaxTempStringLen - 1 && '\0' !in path
    ensures 0 < |path| < UtilsCommon.MaxTempStringLen
    ensures '\0' !in StrncpyCells(path, UtilsCommon.MaxTempStringLen - 1)
  {
    var w := StrncpyCells(path, UtilsCommon.MaxTempStringLen - 1);
    forall i | 0 <= i < |w|
      ensures w[i] != '\0'
    {
      assert path[i] in path;
    }
  }

  /** In the zero-filled buffer the same path is terminated right after it. */
  lemma LongPathTerminated(path: string)
    requires |path| == UtilsCommon.MaxTempStringLen - 1 && '\0' !in path
    ensures CText(path) == path
    ensures Buffer(path, 0, UtilsCommon.MaxTempStringLen)[|path|] == '\0'
  {
    BufferAt(path, 0, UtilsCommon.MaxTempStringLen);
  }

  /** With the separator at p cut to NUL, the buffer reads as the normalized
      text before it. */
  lemma RequestAtSeparator(a: string, text: string, p: nat)
    requires p < |text| < |a| && '\0' !in text
    requires a == Buffer(text, p, |a|)[p := '\0']
    ensures CText(a) == Normalized(text[..p])
  {
    forall j | 0 <= j < p
      ensures a[j] != '\0'
    {
      assert a[j] == Normalized(text[..p])[j];
      assert text[j] in text;
    }
    CTextAtTerminator(a, p);
    assert a[..p] == Normalized(text[..p]);
  }

  /** A buffer whose first NUL is at p reads as its first p characters. */
  lemma {:induction false} CTextAtTerminator(a: string, p: nat)
    requires p < |a| && a[p] == '\0' && forall j :: 0 <= j < p ==> a[j] != '\0'
    ensures CText(a) == a[..p]
    decreases p
  {
    if p > 0 {
      CTextAtTerminator(a[1..], p - 1);
      assert a[..p] == [a[0]] + a[1..][..p - 1];
    }
  }

  lemma {:induction false} PrefixesGrow(text: string, m: nat, n: nat)
    requires m <= n <= |text|
    ensures |DirectoryPrefixes(text, m)| <= |DirectoryPrefixes(text, n)|
    ensures DirectoryPrefixes(text, m) == DirectoryPrefixes(text, n)[..|DirectoryPrefixes(text, m)|]
    decreases n
  {
    if m < n {
      PrefixesGrow(text, m, n - 1);
    }
  }
}
