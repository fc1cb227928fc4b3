/**
 * Path strings of FastDelete.cpp and Backup/FastDeleteMS.cpp.
 *
 * A C string is modelled by the characters before its terminator, so a `Path`
 * never holds the terminator itself; `CharAt` reads past the end as NUL, which
 * lets the C tests below be written exactly as the source writes them.
 */
module Paths {
  type Path = seq<char>

  const NUL: char := '\0'
  /** Capacity, in characters, of the fixed `wildcard` and `fileName` buffers. */
  const MAX_PATH: nat := 260

  function CharAt(s: seq<char>, i: nat): (c: char) {
    if i < |s| then s[i] else NUL
  }

  predicate NoNul(s: seq<char>) {
    NUL !in s
  }

  predicate IsSeparator(c: char) {
    c == '\\' || c == '/'
  }

  predicate EndsWithSeparator(p: Path) {
    |p| > 0 && IsSeparator(p[|p| - 1])
  }

  /** The `.`/`..` test on a directory entry's name, character by character as in C. */
  predicate IsDotName(name: seq<char>) {
    CharAt(name, 0) == '.' &&
    (CharAt(name, 1) == NUL || (CharAt(name, 1) == '.' && CharAt(name, 2) == NUL))
  }

  lemma DotNameMeaning(name: seq<char>)
    requires NoNul(name)
    ensures IsDotName(name) <==> name == "." || name == ".."
  {
    if IsDotName(name) {
      assert |name| >= 1;
      if |name| == 1 {
        assert name == [name[0]];
      } else {
        assert name[1] == '.' && |name| == 2;
        assert name == [name[0], name[1]];
      }
    }
  }

  /** A root as queued: a separator is appended unless the root already ends in one. */
  function NormalizeRoot(directory: Path): (job: Path)
    requires |directory| > 0
    ensures EndsWithSeparator(job)
    ensures directory <= job && |job| <= |directory| + 1
    ensures job == directory <==> EndsWithSeparator(directory)
    ensures job != directory ==> job[|directory|] == '\\'
  {
    if IsSeparator(directory[|directory| - 1]) then directory else directory + ['\\']
  }

  /** The job queued for subdirectory `name` of `directory`. */
  function ChildJob(directory: Path, name: seq<char>): (job: Path)
    ensures directory <= job && |job| == |directory| + |name| + 1
    ensures job[|job| - 1] == '\\' && job[|directory|..|job| - 1] == name
  {
    directory + name + ['\\']
  }

  /** The wildcard `directory*` fits the MAX_PATH buffer with its terminator. */
  predicate WildcardFits(directory: Path) {
    |directory| + 2 <= MAX_PATH
  }

  /**
   * The path handed to DeleteFile: `directory + name`, unless the copy of
   * `name` overflowed the MAX_PATH buffer, in which case the buffer holds the
   * empty string after `directory` and so names the directory itself.
   */
  function FileName(directory: Path, name: seq<char>): (path: Path) {
    if |directory| + |name| + 1 <= MAX_PATH then directory + name else directory
  }

  /**
   * `_tcsnccmp(a, b, n) == 0`: the first `n` characters agree, where the
   * comparison stops early at a terminator common to both strings.
   */
  predicate StrnEqual(a: seq<char>, b: seq<char>, n: nat)
    decreases n
  {
    n == 0 ||
    (CharAt(a, 0) == CharAt(b, 0) &&
     (CharAt(a, 0) == NUL || StrnEqual(if |a| > 0 then a[1..] else a, if |b| > 0 then b[1..] else b, n - 1)))
  }

  /**
   * The `--keep-root` test for one root: the job's first `|directory| - 1`
   * characters (everything but its trailing separator) equal the root's, and
   * the root ends there or has exactly one more character, a backslash.
   */
  predicate MatchesRoot(directory: Path, root: Path)
    requires |directory| > 0
  {
    var n := |directory| - 1;
    StrnEqual(directory, root, n) &&
    (CharAt(root, n) == NUL || (CharAt(root, n) == '\\' && CharAt(root, n + 1) == NUL))
  }

  predicate IsProtected(roots: seq<Path>, directory: Path)
    requires |directory| > 0
  {
    exists i :: 0 <= i < |roots| && MatchesRoot(directory, roots[i])
  }

  lemma {:induction false} StrnEqualMeaning(a: seq<char>, b: seq<char>, n: nat)
    requires NoNul(a) && NoNul(b) && n <= |a|
    ensures StrnEqual(a, b, n) <==> n <= |b| && a[..n] == b[..n]
    decreases n
  {
    if n > 0 {
      var a', b' := a[1..], if |b| > 0 then b[1..] else b;
      assert NoNul(a') by { assert forall c :: c in a' ==> c in a; }
      assert NoNul(b') by { assert forall c :: c in b' ==> c in b; }
      StrnEqualMeaning(a', b', n - 1);
      if |b| > 0 {
        assert a[..n] == [a[0]] + a'[..n - 1];
        if n <= |b| {
          assert b[..n] == [b[0]] + b'[..n - 1];
        }
      } else {
        assert a[0] in a;
      }
    }
  }

  /**
   * For NUL-free strings the keep-root test holds exactly when the root is the
   * job without its trailing separator, or that followed by one backslash.
   */
  lemma MatchesRootMeaning(directory: Path, root: Path)
    requires |directory| > 0 && NoNul(directory) && NoNul(root)
    ensures MatchesRoot(directory, root) <==>
            var stem := directory[..|directory| - 1];
            root == stem || root == stem + ['\\']
  {
    var n := |directory| - 1;
    var stem := directory[..n];
    StrnEqualMeaning(directory, root, n);
    if MatchesRoot(directory, root) {
      if |root| == n {
        assert root == root[..n];
      } else {
        assert root[n] in root;
        assert |root| == n + 1;
        assert root == root[..n] + [root[n]];
      }
    }
    if root == stem + ['\\'] {
      assert root[..n] == stem;
    }
  }

  /**
   * A root is protected under `--keep-root` by its own job exactly when it
   * does not end in '/': normalisation keeps a trailing '/', and the match
   * accepts only a backslash or the end of the root after the compared prefix.
   */
  lemma RootProtectsOwnJob(root: Path)
    requires |root| > 0 && NoNul(root)
    ensures MatchesRoot(NormalizeRoot(root), root) <==> root[|root| - 1] != '/'
  {
    var job := NormalizeRoot(root);
    assert NoNul(job) by {
      if job != root { assert forall c :: c in job ==> c in root || c == '\\'; }
    }
    MatchesRootMeaning(job, root);
    var stem := job[..|job| - 1];
    if root[|root| - 1] == '/' {
      assert job == root;
      assert root != stem;
      assert root != stem + ['\\'];
    } else if root[|root| - 1] == '\\' {
      assert job == root && root == stem + ['\\'];
    } else {
      assert stem == root;
    }
  }

  /** `_tcscpy_s(dst + at, size, src)`: copies `src` and its terminator, or fails leaving an empty string. */
  method StringCopyS(dst: array<char>, at: nat, size: nat, src: seq<char>) returns (error: bool)
    requires 0 < size && at + size <= dst.Length
    modifies dst
    ensures error <==> |src| + 1 > size
    ensures !error ==> dst[..] == old(dst[..at]) + src + [NUL] + old(dst[at + |src| + 1..])
    ensures error ==> dst[..at] == old(dst[..at]) && dst[at] == NUL
  {
    if |src| + 1 > size {
      dst[at] := NUL;
      return true;
    }
    var i := 0;
    while i < |src|
      invariant 0 <= i <= |src|
      invariant forall k :: 0 <= k < dst.Length && !(at <= k < at + i) ==> dst[k] == old(dst[k])
      invariant forall k :: 0 <= k < i ==> dst[at + k] == src[k]
    {
      dst[at + i] := src[i];
      i := i + 1;
    }
    dst[at + |src|] := NUL;
    assert dst[..] == old(dst[..at]) + src + [NUL] + old(dst[at + |src| + 1..]) by {
      var r := old(dst[..at]) + src + [NUL] + old(dst[at + |src| + 1..]);
      assert |r| == dst.Length;
      forall k | 0 <= k < dst.Length ensures dst[k] == r[k] {
        if k < at {
        } else if k < at + |src| {
          assert dst[at + (k - at)] == src[k - at];
        } else if k == at + |src| {
        } else {
        }
      }
    }
    return false;
  }

  /** The root job buffer: the root copied with `_tcscpy_s`, a separator appended when needed. */
  method MakeRootParameter(directory: Path) returns (parameter: array<char>)
    requires |directory| > 0
    ensures parameter[..] == NormalizeRoot(directory) + [NUL]
  {
    var paramSize := |directory| + 1;
    var appendDirChar := directory[paramSize - 2] != '\\' && directory[paramSize - 2] != '/';
    if appendDirChar {
      paramSize := paramSize + 1;
    }
    parameter := new char[paramSize];
    var error := StringCopyS(parameter, 0, paramSize, directory);
    if appendDirChar {
      parameter[paramSize - 2] := '\\';
      parameter[paramSize - 1] := NUL;
      assert parameter[..] == directory + ['\\'] + [NUL] by {
        assert forall k :: 0 <= k < |directory| ==> parameter[k] == directory[k];
      }
    }
  }

  /** The child job buffer: `directory`, then `name`, then a backslash and the terminator. */
  method MakeChildParameter(directory: Path, name: seq<char>) returns (parameter: array<char>)
    ensures parameter[..] == ChildJob(directory, name) + [NUL]
  {
    var dirLen := |directory|;
    var paramSize := dirLen + |name| + 1 + 1;
    parameter := new char[paramSize];
    var error := StringCopyS(parameter, 0, dirLen + 1, directory);
    ghost var copied := parameter[..];
    assert copied[..dirLen] == directory;
    error := StringCopyS(parameter, dirLen, paramSize - dirLen, name);
    ghost var joined := parameter[..];
    assert joined[..paramSize - 2] == directory + name by {
      assert joined == copied[..dirLen] + name + [NUL] + copied[paramSize - 1..];
    }
    parameter[paramSize - 2] := '\\';
    parameter[paramSize - 1] := NUL;
    assert parameter[..] == joined[..paramSize - 2] + ['\\', NUL];
  }

  /** The `wildcard` buffer `directory*`, built in a MAX_PATH array by two checked copies. */
  method MakeWildcard(directory: Path) returns (ok: bool, wildcard: array<char>)
    ensures wildcard.Length == MAX_PATH
    ensures ok <==> WildcardFits(directory)
    ensures ok ==> wildcard[..|directory| + 2] == directory + ['*', NUL]
  {
    wildcard := new char[MAX_PATH];
    var error := StringCopyS(wildcard, 0, MAX_PATH, directory);
    if error {
      return false, wildcard;
    }
    var dirLen := |directory|;
    error := StringCopyS(wildcard, dirLen, MAX_PATH - dirLen, "*");
    if error {
      return false, wildcard;
    }
    ok := true;
  }

  /** The `fileName` buffer passed to DeleteFile: `directory` then an unchecked copy of `name`. */
  method MakeFileName(directory: Path, name: seq<char>) returns (fileName: Path)
    requires WildcardFits(directory)
    ensures fileName == FileName(directory, name)
    ensures directory <= fileName
  {
    var buffer := new char[MAX_PATH];
    var dirLen := |directory|;
    var i := 0;
    while i < dirLen
      invariant 0 <= i <= dirLen
      invariant buffer[..i] == directory[..i]
    {
      buffer[i] := directory[i];
      i := i + 1;
    }
    var error := StringCopyS(buffer, dirLen, MAX_PATH - dirLen, name);
    if error {
      fileName := buffer[..dirLen];
    } else {
      fileName := buffer[..dirLen + |name|];
      assert buffer[..dirLen + |name|] == directory + name by {
        assert buffer[..dirLen] == directory;
      }
    }
  }
}
