/**
 * The HLS manifest rewriter of the recorded-video download page (`formatTsUrl`).
 * A playlist (RFC 8216, section 4) is split into lines; tag and blank lines are kept,
 * root-relative segment lines get the fixed media origin, every other line gets the
 * directory of the playlist's own URL.
 */
module ManifestRewriter {

  /** The origin put in front of root-relative segment lines; the line keeps its own '/'. */
  const Origin: string := "https://ts.48.cn/"

  // ---------------------------------------------------------------------------
  // Strings: JavaScript's `split('\n')`, `join('\n')` and character searches

  /** `s.split('\n')`: the pieces between newlines; an empty string gives one empty piece. */
  function Split(s: string): (lines: seq<string>)
    ensures |lines| >= 1
    ensures forall i :: 0 <= i < |lines| ==> '\n' !in lines[i]
    decreases |s|
  {
    if s == [] then [[]]
    else
      var rest := Split(s[1..]);
      if s[0] == '\n' then [[]] + rest
      else [[s[0]] + rest[0]] + rest[1..]
  }

  /** `lines.join('\n')`. */
  function Join(lines: seq<string>): string
  {
    if |lines| == 0 then []
    else if |lines| == 1 then lines[0]
    else lines[0] + "\n" + Join(lines[1..])
  }

  /** Joining the pieces of a split gives the text back. */
  lemma {:induction false} JoinSplit(s: string)
    ensures Join(Split(s)) == s
    decreases |s|
  {
    if s != [] {
      var rest := Split(s[1..]);
      JoinSplit(s[1..]);
      if s[0] == '\n' {
        assert Split(s) == [[]] + rest;
        assert Join(Split(s)) == [] + "\n" + Join(rest);
      } else if |rest| == 1 {
        assert Split(s) == [[s[0]] + rest[0]];
      } else {
        assert Split(s) == [[s[0]] + rest[0]] + rest[1..];
        assert Join(rest) == rest[0] + "\n" + Join(rest[1..]);
        assert ([[s[0]] + rest[0]] + rest[1..])[1..] == rest[1..];
      }
    }
  }

  /** A piece without newlines in front of a newline is split off whole. */
  lemma {:induction false} SplitPiece(a: string, t: string)
    requires '\n' !in a
    ensures Split(a + "\n" + t) == [a] + Split(t)
    ensures Split(a) == [a]
    decreases |a|
  {
    if a == [] {
      assert a + "\n" + t == "\n" + t;
      assert ("\n" + t)[1..] == t;
    } else {
      SplitPiece(a[1..], t);
      assert (a + "\n" + t)[1..] == a[1..] + "\n" + t;
      assert [a[0]] + a[1..] == a;
    }
  }

  /** Splitting a join of newline-free pieces gives the pieces back. */
  lemma {:induction false} SplitJoin(lines: seq<string>)
    requires |lines| >= 1
    requires forall i :: 0 <= i < |lines| ==> '\n' !in lines[i]
    ensures Split(Join(lines)) == lines
    decreases |lines|
  {
    if |lines| == 1 {
      SplitPiece(lines[0], []);
    } else {
      SplitJoin(lines[1..]);
      SplitPiece(lines[0], Join(lines[1..]));
      assert [lines[0]] + lines[1..] == lines;
    }
  }

  /** The first index of `c` in `s`, or -1 when `s` has none. */
  function FirstIndex(s: string, c: char): (i: int)
    ensures -1 <= i < |s|
    ensures 0 <= i ==> s[i] == c && c !in s[..i]
    ensures i == -1 <==> c !in s
  {
    if s == [] then -1
    else if s[0] == c then 0
    else
      var j := FirstIndex(s[1..], c);
      assert s == [s[0]] + s[1..];
      if j == -1 then -1
      else
        assert s[..j + 1] == [s[0]] + s[1..][..j];
        j + 1
  }

  /** The last index of `c` in `s`, or -1 when `s` has none. */
  function LastIndex(s: string, c: char): (i: int)
    ensures -1 <= i < |s|
    ensures 0 <= i ==> s[i] == c && c !in s[i + 1..]
    ensures i == -1 <==> c !in s
  {
    if s == [] then -1
    else if s[|s| - 1] == c then |s| - 1
    else
      assert s == s[..|s| - 1] + [s[|s| - 1]];
      var j := LastIndex(s[..|s| - 1], c);
      if j >= 0 then
        assert s[j + 1..] == s[..|s| - 1][j + 1..] + [s[|s| - 1]];
        j
      else j
  }

  // ---------------------------------------------------------------------------
  // The directory of the playlist

  /** `url.split(/\?/)[0]`: everything before the first '?'. */
  function StripQuery(url: string): (p: string)
    ensures '?' !in p
    ensures |p| <= |url| && p == url[..|p|]
    ensures '?' !in url ==> p == url
    ensures '?' in url ==> url[|p|] == '?'
  {
    var i := FirstIndex(url, '?');
    if i < 0 then url else url[..i]
  }

  /**
   * The playlist's directory: the query-stripped URL with `.replace(/\/[^/]+$/, '')`
   * applied, that is, a final '/' and the non-empty, slash-free tail after it removed.
   */
  function Directory(url: string): (d: string)
    ensures '?' !in d
    ensures |d| <= |url| && d == url[..|d|]
    ensures var p := StripQuery(url);
      d == p || (|d| + 1 < |p| && p[|d|] == '/' && '/' !in p[|d| + 1..])
    ensures var p := StripQuery(url);
      ('/' !in p || (|p| > 0 && p[|p| - 1] == '/')) ==> d == p
    ensures var p := StripQuery(url);
      ('/' in p && p[|p| - 1] != '/') ==> d != p
  {
    var p := StripQuery(url);
    var j := LastIndex(p, '/');
    if 0 <= j < |p| - 1 then p[..j] else p
  }

  // ---------------------------------------------------------------------------
  // The rewrite

  /** One line of the playlist, rewritten against the directory `dir`. */
  function RewriteLine(line: string, dir: string): string
  {
    if (|line| > 0 && line[0] == '#') || line == "" then line
    else if line[0] == '/' then Origin + line
    else dir + "/" + line
  }

  /** Every line rewritten, in order. */
  function RewriteAll(lines: seq<string>, dir: string): (out: seq<string>)
    ensures |out| == |lines|
    ensures forall i :: 0 <= i < |lines| ==> out[i] == RewriteLine(lines[i], dir)
  {
    if lines == [] then [] else [RewriteLine(lines[0], dir)] + RewriteAll(lines[1..], dir)
  }

  /** The manifest text `formatTsUrl` produces. */
  function Formatted(data: string, m3u8Url: string): string
  {
    Join(RewriteAll(Split(data), Directory(m3u8Url)))
  }

  /**
   * The rewrite keeps the line structure: when the URL holds no newline, the output has as
   * many lines as the input, and line i of the output is line i of the input rewritten.
   */
  lemma FormattedLines(data: string, m3u8Url: string)
    requires '\n' !in m3u8Url
    ensures |Split(Formatted(data, m3u8Url))| == |Split(data)|
    ensures forall i :: 0 <= i < |Split(data)| ==>
      Split(Formatted(data, m3u8Url))[i] == RewriteLine(Split(data)[i], Directory(m3u8Url))
  {
    var lines := Split(data);
    var dir := Directory(m3u8Url);
    var out := RewriteAll(lines, dir);
    assert '\n' !in dir by {
      forall k | 0 <= k < |dir| ensures dir[k] != '\n' {
        assert dir[k] == m3u8Url[k];
      }
    }
    forall i | 0 <= i < |out| ensures '\n' !in out[i] {
      RewriteLineNoNewline(lines[i], dir);
    }
    SplitJoin(out);
    assert Formatted(data, m3u8Url) == Join(out);
  }

  /** A rewritten line holds a newline only if the line or the directory does. */
  lemma RewriteLineNoNewline(line: string, dir: string)
    requires '\n' !in line && '\n' !in dir
    ensures '\n' !in RewriteLine(line, dir)
  {
    assert '\n' !in Origin;
  }

  /** `formatTsUrl(data, m3u8Url)`: one pass over the lines, pushing each rewritten line. */
  method FormatTsUrl(data: string, m3u8Url: string) returns (r: string)
    ensures r == Formatted(data, m3u8Url)
    ensures '\n' !in m3u8Url ==>
      (|Split(r)| == |Split(data)| &&
       forall i :: 0 <= i < |Split(data)| ==> Split(r)[i] == RewriteLine(Split(data)[i], Directory(m3u8Url)))
  {
    var dataArr := Split(data);
    var newStrArr: seq<string> := [];
    var m3u8Pathname := Directory(m3u8Url);
    for k := 0 to |dataArr|
      invariant |newStrArr| == k
      invariant forall i :: 0 <= i < k ==> newStrArr[i] == RewriteLine(dataArr[i], m3u8Pathname)
    {
      var item := dataArr[k];
      if (|item| > 0 && item[0] == '#') || item == "" {
        newStrArr := newStrArr + [item];
      } else if item[0] == '/' {
        newStrArr := newStrArr + [Origin + item];
      } else {
        newStrArr := newStrArr + [m3u8Pathname + "/" + item];
      }
    }
    assert newStrArr == RewriteAll(dataArr, m3u8Pathname);
    r := Join(newStrArr);
    if '\n' !in m3u8Url {
      FormattedLines(data, m3u8Url);
    }
  }

  // ---------------------------------------------------------------------------
  // Properties of single lines

  /**
   * Every line that is not a tag and not blank comes out as an absolute URL: it starts with
   * the fixed origin or with the manifest URL's own scheme followed by "://".
   */
  lemma RewrittenLineIsAbsolute(line: string, scheme: string, rest: string)
    requires '?' !in scheme
    requires line != "" && line[0] != '#'
    ensures var r := RewriteLine(line, Directory(scheme + "://" + rest));
      (|r| >= |Origin| && r[..|Origin|] == Origin) ||
      (|r| >= |scheme| + 3 && r[..|scheme| + 3] == scheme + "://")
  {
    var head := scheme + "://";
    var d := Directory(scheme + "://" + rest);
    DirectoryKeepsScheme(scheme, rest);
    if line[0] != '/' {
      var r := d + "/" + line;
      if d == scheme + ":/" {
        assert r[..|head|] == d + "/";
      } else {
        assert r[..|head|] == d[..|head|];
      }
    }
  }

  /**
   * The directory of a URL with a scheme keeps the scheme and "://", except that removing
   * the last segment of `scheme://segment` leaves `scheme:/`.
   */
  lemma DirectoryKeepsScheme(scheme: string, rest: string)
    requires '?' !in scheme
    ensures var head, d := scheme + "://", Directory(scheme + "://" + rest);
      (|d| >= |head| && d[..|head|] == head) || d == scheme + ":/"
  {
    var url := scheme + "://" + rest;
    var head := scheme + "://";
    assert url[..|head|] == head;
    var p := StripQuery(url);
    var d := Directory(url);
    assert '?' !in head;
    assert |p| >= |head|;
    assert p[..|head|] == head;
    if d != p {
      assert p[|d|] == '/' && '/' !in p[|d| + 1..];
      assert p[|scheme| + 2] == '/';
      assert |d| >= |scheme| + 2;
      if |d| == |scheme| + 2 {
        assert d == p[..|scheme| + 2] == scheme + ":/";
      } else {
        assert d[..|head|] == p[..|head|];
      }
    }
  }

  /** Every rewritten line ends with the line it came from: nothing of a line is lost. */
  lemma RewriteLineKeepsLine(line: string, dir: string)
    ensures var r := RewriteLine(line, dir);
      |r| >= |line| && r[|r| - |line|..] == line
  {
  }

  /** Rewriting is not idempotent: rewriting an already rewritten manifest rewrites it again. */
  lemma RewriteNotIdempotent(dir: string)
    ensures RewriteLine(RewriteLine("/abs/seg1.ts", dir), dir) != RewriteLine("/abs/seg1.ts", dir)
  {
    var once := RewriteLine("/abs/seg1.ts", dir);
    assert once == Origin + "/abs/seg1.ts";
    assert once[0] == 'h';
    var twice := RewriteLine(once, dir);
    assert twice == dir + "/" + once;
    assert |twice| > |once|;
  }

  // ---------------------------------------------------------------------------
  // Examples

  /**
   * The directory of a playlist URL `dir/file?query` (or `dir/file`) is `dir`: the query
   * goes first, then the file name.
   */
  lemma DirectoryOfFile(dir: string, file: string, query: string)
    requires '?' !in dir && '?' !in file && '/' !in file && file != ""
    requires query == "" || query[0] == '?'
    ensures Directory(dir + "/" + file + query) == dir
  {
    var path := dir + "/" + file;
    var url := path + query;
    assert url[..|path|] == path;
    if query != "" {
      FirstIndexAt(url, '?', |path|);
    } else {
      assert url == path;
    }
    assert StripQuery(url) == path;
    assert path[|dir| + 1..] == file;
    LastIndexAt(path, '/', |dir|);
    assert path[..|dir|] == dir;
  }

  /**
   * Examples, for a playlist `a.m3u8?x=1` in any directory (for instance
   * `https://example.com/path/to`): a relative segment, a root-relative segment, a tag line.
   */
  lemma Examples(dir: string, url: string)
    requires '?' !in dir && url == dir + "/a.m3u8?x=1"
    ensures RewriteLine("seg0.ts", Directory(url)) == dir + "/seg0.ts"
    ensures RewriteLine("/abs/seg1.ts", Directory(url)) == "https://ts.48.cn//abs/seg1.ts"
    ensures RewriteLine("#EXTINF:10,", Directory(url)) == "#EXTINF:10,"
  {
    assert url == dir + "/" + "a.m3u8" + "?x=1";
    DirectoryOfFile(dir, "a.m3u8", "?x=1");
    LineExamples(Directory(url));
  }

  /** The three example lines against an arbitrary directory `d`. */
  lemma LineExamples(d: string)
    ensures RewriteLine("seg0.ts", d) == d + "/seg0.ts"
    ensures RewriteLine("/abs/seg1.ts", d) == "https://ts.48.cn//abs/seg1.ts"
    ensures RewriteLine("#EXTINF:10,", d) == "#EXTINF:10,"
  {
  }

  /** The first occurrence of `c` is found. */
  lemma FirstIndexAt(s: string, c: char, i: nat)
    requires i < |s| && s[i] == c && c !in s[..i]
    ensures FirstIndex(s, c) == i
  {
  }

  /** The last occurrence of `c` is found. */
  lemma LastIndexAt(s: string, c: char, i: nat)
    requires i < |s| && s[i] == c && c !in s[i + 1..]
    ensures LastIndex(s, c) == i
  {
  }
}
