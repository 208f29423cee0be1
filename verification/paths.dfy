/** Strings, paths and the local wiki folder as the synchroniser sees them:
    JavaScript's default string order, `lastIndexOf`/`substring`, the path
    helpers `join`, `basename` and `extname`, and a read-only file tree. */
module Paths {
  import opened Seqs

  /** JavaScript's default `sort()` order on strings: by character code,
      a proper prefix first. */
  function LexLe(a: string, b: string): bool {
    if a == [] then true
    else if b == [] then false
    else if a[0] != b[0] then a[0] < b[0]
    else LexLe(a[1..], b[1..])
  }

  lemma {:induction false} LexLeTotal(a: string, b: string)
    ensures LexLe(a, b) || LexLe(b, a)
  {
    if a != [] && b != [] && a[0] == b[0] {
      LexLeTotal(a[1..], b[1..]);
    }
  }

  lemma {:induction false} LexLeTransitive(a: string, b: string, c: string)
    requires LexLe(a, b) && LexLe(b, c)
    ensures LexLe(a, c)
  {
    if a != [] && b != [] && c != [] && a[0] == b[0] && b[0] == c[0] {
      LexLeTransitive(a[1..], b[1..], c[1..]);
    }
  }

  lemma LexLeTotalPreorder()
    ensures TotalPreorder(LexLe)
  {
    forall a, b ensures LexLe(a, b) || LexLe(b, a) {
      LexLeTotal(a, b);
    }
    forall a, b, c | LexLe(a, b) && LexLe(b, c) ensures LexLe(a, c) {
      LexLeTransitive(a, b, c);
    }
  }

  /** `s.lastIndexOf(c)`: the last position of `c`, or -1. */
  function LastIndexOf(s: string, c: char): (r: int)
    ensures -1 <= r < |s|
    ensures r == -1 <==> c !in s
    ensures 0 <= r ==> s[r] == c && c !in s[r + 1..]
  {
    if s == [] then -1
    else if s[|s| - 1] == c then |s| - 1
    else
      var r := LastIndexOf(s[..|s| - 1], c);
      assert s == s[..|s| - 1] + [s[|s| - 1]];
      assert 0 <= r ==> s[r + 1..] == s[..|s| - 1][r + 1..] + [s[|s| - 1]];
      r
  }

  function Clamp(i: int, n: nat): nat {
    if i < 0 then 0 else if i > n then n else i
  }

  /** `s.substring(start, end)`: both bounds are clamped to [0, |s|] and
      swapped when out of order, so a negative bound reads as 0. */
  function Substring(s: string, start: int, end: int): string {
    var a, b := Clamp(start, |s|), Clamp(end, |s|);
    if a <= b then s[a..b] else s[b..a]
  }

  /** `substring` takes its bounds in either order, reads a negative bound
      as 0 and a bound past the end as the length, and between in-range
      ordered bounds is the plain slice. */
  lemma SubstringClamps(s: string, start: int, end: int)
    ensures Substring(s, start, end) == Substring(s, end, start)
    ensures 0 <= start <= end <= |s| ==> Substring(s, start, end) == s[start..end]
    ensures start < 0 ==> Substring(s, start, end) == Substring(s, 0, end)
    ensures end > |s| ==> Substring(s, start, end) == Substring(s, start, |s|)
    ensures |Substring(s, start, end)| <= |s|
  {
  }

  /** Template-string and `path.join` concatenation of a folder and an entry. */
  function Join(dir: string, name: string): string {
    dir + "/" + name
  }

  /** `path.basename`: what follows the last '/'. */
  function Basename(p: string): (r: string)
    ensures '/' !in r
    ensures |r| <= |p| && r == p[|p| - |r|..]
  {
    p[LastIndexOf(p, '/') + 1..]
  }

  /** The base name is everything after the last '/': it has no '/' and,
      unless it is the whole path, a '/' comes right before it. */
  lemma BasenameAfterSlash(p: string)
    ensures var r := Basename(p);
            '/' !in r && r == p[|p| - |r|..] && (|r| < |p| ==> p[|p| - |r| - 1] == '/')
  {
  }

  lemma BasenameOfJoin(dir: string, name: string)
    requires '/' !in name
    ensures Basename(Join(dir, name)) == name
  {
    var p := Join(dir, name);
    var k := LastIndexOf(p, '/');
    assert p[|dir|] == '/';
    assert p[|dir| + 1..] == name;
  }

  /** `path.extname`: from the last '.' of the base name, except that a
      leading dot (a dot-file such as ".md") and the name ".." have none. */
  function Extname(p: string): string {
    Extension(Basename(p))
  }

  /** The extension of a base name. */
  function Extension(b: string): string {
    var d := LastIndexOf(b, '.');
    if d <= 0 || b == ".." then "" else b[d..]
  }

  /** A path has no extension exactly when its base name is ".." or has
      no '.' after its first character; otherwise the extension is the
      base name's suffix from its last '.', with something before it. */
  lemma ExtnameMeaning(p: string)
    ensures var b, r := Basename(p), Extname(p);
            r == "" <==> b == ".." || forall k :: 0 < k < |b| ==> b[k] != '.'
    ensures var b, r := Basename(p), Extname(p);
            r != "" ==> r[0] == '.' && '.' !in r[1..] && |r| < |b| && r == b[|b| - |r|..]
  {
    ExtensionMeaning(Basename(p));
  }

  lemma ExtensionMeaning(b: string)
    ensures var r := Extension(b);
            r == "" <==> b == ".." || forall k :: 0 < k < |b| ==> b[k] != '.'
    ensures var r := Extension(b);
            r != "" ==> r[0] == '.' && '.' !in r[1..] && |r| < |b| && r == b[|b| - |r|..]
  {
    LastDot(b);
    var d := LastIndexOf(b, '.');
    if 0 < d && b != ".." {
      var r := b[d..];
      assert |b| - |r| == d;
      assert r[0] == '.' && r[1..] == b[d + 1..];
    }
  }

  /** The last '.' is at position 0 or absent exactly when no '.' follows
      the first character. */
  lemma LastDot(b: string)
    ensures LastIndexOf(b, '.') <= 0 <==> forall k :: 0 < k < |b| ==> b[k] != '.'
  {
    var d := LastIndexOf(b, '.');
    forall k | 0 < k < |b| && b[k] == '.' ensures d >= k {
      assert b[k] in b;
    }
  }

  predicate IsMarkdown(p: string) {
    Extname(p) == ".md"
  }

  /** The last occurrence is the one with no occurrence after it. */
  lemma {:induction false} LastIndexOfAt(s: string, c: char, k: nat)
    requires k < |s| && s[k] == c && c !in s[k + 1..]
    ensures LastIndexOf(s, c) == k
  {
    if k < |s| - 1 {
      var n := |s| - 1;
      assert s[n] == s[k + 1..][n - k - 1];
      var after := s[k + 1..];
      assert s[..n][k + 1..] == after[..|after| - 1];
      assert c !in after[..|after| - 1];
      LastIndexOfAt(s[..n], c, k);
    }
  }

  /** A path is a Markdown document exactly when its base name ends in ".md"
      and has something before that suffix. */
  lemma IsMarkdownBySuffix(p: string)
    ensures var b := Basename(p);
            IsMarkdown(p) <==> |b| > 3 && b[|b| - 3..] == ".md"
  {
    var b := Basename(p);
    if |b| > 3 && b[|b| - 3..] == ".md" {
      SuffixMarkdown(p, b);
    }
    if IsMarkdown(p) {
      MarkdownSuffix(p, b);
    }
  }

  lemma SuffixMarkdown(p: string, b: string)
    requires b == Basename(p) && |b| > 3 && b[|b| - 3..] == ".md"
    ensures IsMarkdown(p)
  {
    var n := |b| - 3;
    assert b[n] == '.' && b[n + 1..] == "md";
    LastIndexOfAt(b, '.', n);
    assert b != "..";
  }

  lemma MarkdownSuffix(p: string, b: string)
    requires b == Basename(p) && IsMarkdown(p)
    ensures |b| > 3 && b[|b| - 3..] == ".md"
  {
    ExtensionMeaning(b);
  }

  /** The local wiki: each folder's entry names, and each file's text. */
  datatype FileSystem = FileSystem(dirs: map<string, seq<string>>, files: map<string, string>)

  /** What a real directory tree guarantees: an entry is a plain name, and
      it names either a folder or a file, never both. */
  ghost predicate WellFormed(fs: FileSystem) {
    && fs.dirs.Keys !! fs.files.Keys
    && forall d, e :: d in fs.dirs && e in fs.dirs[d] ==>
         e != "" && '/' !in e && (Join(d, e) in fs.dirs || Join(d, e) in fs.files)
  }

  /** The text of each path, in order (`readFileSync`). */
  function Read(files: map<string, string>, paths: seq<string>): (r: seq<string>)
    requires forall p :: p in paths ==> p in files
    ensures |r| == |paths| && forall k {:trigger r[k]} :: 0 <= k < |paths| ==> r[k] == files[paths[k]]
  {
    seq(|paths|, k requires 0 <= k < |paths| => files[paths[k]])
  }

  /** `readdirSync(dir).map(entry => path.join(dir, entry))`: the paths of a
      folder's entries, in listing order. */
  function Entries(fs: FileSystem, dir: string): (r: seq<string>)
    requires dir in fs.dirs
    ensures |r| == |fs.dirs[dir]|
    ensures forall k {:trigger fs.dirs[dir][k]} :: 0 <= k < |r| ==> r[k] == Join(dir, fs.dirs[dir][k])
  {
    Map(fs.dirs[dir], e => Join(dir, e))
  }

  /** The same paths, then `.sort()`ed. */
  function Listing(fs: FileSystem, dir: string): seq<string>
    requires dir in fs.dirs
  {
    SortBy(Entries(fs, dir), LexLe)
  }
}
