/**
 * `URL.resolveRelative` and `URL.toString` on a URL's parts held as
 * strings.  A relative path is resolved by splitting both paths at `/`,
 * walking the new path's segments over the old one's (`.` and `..` each
 * drop the last segment, anything else is appended) and joining again.
 */
module Urls {
  import Compiler
  import Js

  // ---------------------------------------------------------------- split and join

  /** `split(sep)` for a one-character separator: the pieces between separators, at least one. */
  function Split(s: string, sep: char): (r: seq<string>)
    ensures |r| >= 1 && forall k | 0 <= k < |r| :: sep !in r[k]
    decreases |s|
  {
    if |s| == 0 then [""]
    else
      var rest := Split(s[1..], sep);
      if s[0] == sep then [""] + rest else [[s[0]] + rest[0]] + rest[1..]
  }

  /** `join(sep)`. */
  function Join(parts: seq<string>, sep: char): string
    decreases |parts|
  {
    if |parts| == 0 then ""
    else if |parts| == 1 then parts[0]
    else parts[0] + [sep] + Join(parts[1..], sep)
  }

  lemma JoinCons(x: string, rest: seq<string>, sep: char)
    requires |rest| >= 1
    ensures Join([x] + rest, sep) == x + [sep] + Join(rest, sep)
  {
    assert ([x] + rest)[1..] == rest;
  }

  /** Putting a character in front of the first piece puts it in front of the joined text. */
  lemma JoinFirstChar(c: char, p0: string, tail: seq<string>, sep: char)
    ensures Join([[c] + p0] + tail, sep) == [c] + Join([p0] + tail, sep)
  {
    if |tail| > 0 {
      JoinCons([c] + p0, tail, sep);
      JoinCons(p0, tail, sep);
    }
  }

  /** Joining the pieces of a split gives the text back. */
  lemma {:induction false} JoinSplit(s: string, sep: char)
    ensures Join(Split(s, sep), sep) == s
    decreases |s|
  {
    if |s| > 0 {
      var rest := Split(s[1..], sep);
      JoinSplit(s[1..], sep);
      if s[0] == sep {
        JoinCons("", rest, sep);
        assert s == [sep] + s[1..];
      } else {
        assert rest == [rest[0]] + rest[1..];
        JoinFirstChar(s[0], rest[0], rest[1..], sep);
        assert s == [s[0]] + s[1..];
      }
    }
  }

  /** A piece without the separator is split off whole. */
  lemma {:induction false} SplitPlain(x: string, sep: char)
    requires sep !in x
    ensures Split(x, sep) == [x]
    decreases |x|
  {
    if |x| > 0 {
      assert sep !in x[1..];
      SplitPlain(x[1..], sep);
      assert x == [x[0]] + x[1..];
    }
  }

  /** Splitting stops at the first separator. */
  lemma {:induction false} SplitAtSeparator(x: string, y: string, sep: char)
    requires sep !in x
    ensures Split(x + [sep] + y, sep) == [x] + Split(y, sep)
    decreases |x|
  {
    if |x| == 0 {
      assert x + [sep] + y == [sep] + y;
      assert ([sep] + y)[1..] == y;
    } else {
      var s := x + [sep] + y;
      assert s[0] == x[0] && s[1..] == x[1..] + [sep] + y;
      assert sep !in x[1..];
      SplitAtSeparator(x[1..], y, sep);
      assert [x[0]] + x[1..] == x;
    }
  }

  /** Splitting pieces joined with a separator none of them holds gives the pieces back. */
  lemma {:induction false} SplitJoin(parts: seq<string>, sep: char)
    requires |parts| >= 1 && forall k | 0 <= k < |parts| :: sep !in parts[k]
    ensures Split(Join(parts, sep), sep) == parts
    decreases |parts|
  {
    if |parts| == 1 {
      SplitPlain(parts[0], sep);
    } else {
      SplitJoin(parts[1..], sep);
      SplitAtSeparator(parts[0], Join(parts[1..], sep), sep);
      assert parts == [parts[0]] + parts[1..];
    }
  }

  // ---------------------------------------------------------------- resolveRelative

  /** `splice(length - 1, 1)`: the last segment dropped, nothing on an empty list. */
  function DropLast(a: seq<string>): seq<string> {
    if |a| == 0 then a else a[..|a| - 1]
  }

  /** The loop over the new path's segments: `.` and `..` drop the last segment, anything else is appended. */
  function Walk(a: seq<string>, b: seq<string>): seq<string>
    decreases |b|
  {
    if |b| == 0 then a
    else Walk(if b[0] == ".." || b[0] == "." then DropLast(a) else a + [b[0]], b[1..])
  }

  /**
   * The path `resolveRelative` gives the new URL.  A path starting with
   * `/` is kept.  Otherwise, as written, only a leading `..` drops the old
   * path's file name before the walk, so a plain relative name lands
   * inside it; as corrected, every relative path but one led by `.`
   * (which drops the file name itself) is walked from the old path's
   * directory.
   */
  function ResolvedPath(b: Compiler.Build, oldPath: string, newPath: string): string {
    if |newPath| > 0 && newPath[0] == '/' then newPath
    else
      var olds := Split(oldPath, '/');
      var news := Split(newPath, '/');
      var start := if news[0] == ".." || (b.Corrected? && news[0] != ".") then DropLast(olds) else olds;
      Join(Walk(start, news), '/')
  }

  /** `URL.resolveRelative(old, new)` on the two paths. */
  method ResolveRelative(b: Compiler.Build, oldPath: string, newPath: string) returns (path: string)
    ensures path == ResolvedPath(b, oldPath, newPath)
  {
    if |newPath| > 0 && newPath[0] == '/' {
      return newPath;
    }
    var a := Split(oldPath, '/');
    var segs := Split(newPath, '/');
    if segs[0] == ".." || (b.Corrected? && segs[0] != ".") {
      a := DropLast(a);
    }
    ghost var target := Walk(a, segs);
    var i := 0;
    while i < |segs|
      invariant i <= |segs| && Walk(a, segs[i..]) == target
    {
      assert segs[i..][1..] == segs[i + 1..];
      if segs[i] == ".." || segs[i] == "." {
        a := DropLast(a);
      } else {
        a := a + [segs[i]];
      }
      i := i + 1;
    }
    path := Join(a, '/');
  }

  /** A segment that names something: not empty, not `.` or `..`, no `/`. */
  predicate Name(s: string) {
    s != "" && s != "." && s != ".." && '/' !in s
  }

  /** Walking plain names appends them. */
  lemma {:induction false} WalkNames(a: seq<string>, names: seq<string>)
    requires forall k | 0 <= k < |names| :: Name(names[k])
    ensures Walk(a, names) == a + names
    decreases |names|
  {
    if |names| > 0 {
      WalkNames(a + [names[0]], names[1..]);
      assert (a + [names[0]]) + names[1..] == a + names;
    }
  }

  /** A joined path of names starts with its first name, so not with `/`. */
  lemma JoinedNamesRelative(names: seq<string>)
    requires |names| >= 1 && Name(names[0])
    ensures var p := Join(names, '/'); |p| > 0 && p[0] == names[0][0]
  {
    if |names| > 1 {
      JoinCons(names[0], names[1..], '/');
      assert names == [names[0]] + names[1..];
    }
  }

  /** The old path as directory segments and a file name, and the new one as names. */
  predicate Layout(dir: seq<string>, file: string, names: seq<string>) {
    (forall k | 0 <= k < |dir| :: '/' !in dir[k]) && '/' !in file
    && |names| >= 1 && forall k | 0 <= k < |names| :: Name(names[k])
  }

  /**
   * As written: a relative path of plain names is put after the old
   * path's file name, so `d.css` against `/a/b/c.css` gives
   * `/a/b/c.css/d.css`.
   */
  lemma NamesAfterFileAsWritten(dir: seq<string>, file: string, names: seq<string>)
    requires Layout(dir, file, names)
    ensures ResolvedPath(Compiler.AsWritten, Join(dir + [file], '/'), Join(names, '/')) == Join(dir + [file] + names, '/')
  {
    SplitJoin(dir + [file], '/');
    SplitJoin(names, '/');
    JoinedNamesRelative(names);
    WalkNames(dir + [file], names);
  }

  /** As corrected: a relative path of plain names is resolved in the old path's directory. */
  lemma NamesInDirectory(dir: seq<string>, file: string, names: seq<string>)
    requires Layout(dir, file, names)
    ensures ResolvedPath(Compiler.Corrected, Join(dir + [file], '/'), Join(names, '/')) == Join(dir + names, '/')
  {
    SplitJoin(dir + [file], '/');
    SplitJoin(names, '/');
    JoinedNamesRelative(names);
    assert DropLast(dir + [file]) == dir;
    WalkNames(dir, names);
  }

  /** A relative path led by `.` or `..` splits back into its segments and does not start with `/`. */
  lemma DotLed(dot: string, names: seq<string>)
    requires (dot == "." || dot == "..") && |names| >= 1 && forall k | 0 <= k < |names| :: Name(names[k])
    ensures var p := Join([dot] + names, '/'); Split(p, '/') == [dot] + names && |p| > 0 && p[0] == '.'
  {
    var segs := [dot] + names;
    assert '/' !in dot;
    assert forall k | 0 <= k < |segs| :: '/' !in segs[k] by {
      forall k | 0 <= k < |segs| ensures '/' !in segs[k] {
        if k > 0 {
          assert segs[k] == names[k - 1];
        }
      }
    }
    SplitJoin(segs, '/');
    JoinCons(dot, names, '/');
  }

  /** Either way, a leading `..` drops the file name and the directory it is in. */
  lemma ParentDirectory(b: Compiler.Build, dir: seq<string>, up: string, file: string, names: seq<string>)
    requires Layout(dir + [up], file, names)
    ensures ResolvedPath(b, Join(dir + [up, file], '/'), Join([".."] + names, '/')) == Join(dir + names, '/')
  {
    var olds := dir + [up, file];
    assert olds == (dir + [up]) + [file];
    SplitJoin(olds, '/');
    DotLed("..", names);
    assert DropLast(olds) == dir + [up];
    assert DropLast(dir + [up]) == dir;
    assert ([".."] + names)[1..] == names;
    WalkNames(dir, names);
  }

  /** A leading `./` resolves like the bare names, either way. */
  lemma CurrentDirectory(b: Compiler.Build, dir: seq<string>, file: string, names: seq<string>)
    requires Layout(dir, file, names)
    ensures ResolvedPath(b, Join(dir + [file], '/'), Join(["."] + names, '/')) == Join(dir + names, '/')
  {
    SplitJoin(dir + [file], '/');
    DotLed(".", names);
    assert DropLast(dir + [file]) == dir;
    assert (["."] + names)[1..] == names;
    WalkNames(dir, names);
  }

  // ---------------------------------------------------------------- toString

  /** The parts `toString` reads; an empty string or a zero port is absent. */
  datatype UrlParts = UrlParts(protocol: string, host: string, port: nat, path: string, query: string, hash: string)

  /** `protocol://host`, or the host alone, or nothing without a host. */
  function HostText(u: UrlParts): string {
    if u.host == "" then "" else (if u.protocol == "" then "" else u.protocol + "://") + u.host
  }

  /** The path with a `/` put in front when it lacks one. */
  function PathText(path: string): string {
    if path == "" then "" else (if path[0] == '/' then "" else "/") + path
  }

  /** The query with a `?` put in front when it lacks one. */
  function QueryText(query: string): string {
    if query == "" then "" else (if query[0] == '?' then "" else "?") + query
  }

  /** `toString()`: the present parts, in order, with their separators. */
  function UrlText(u: UrlParts): string {
    HostText(u) + (if u.port == 0 then "" else ":" + Js.DecimalText(u.port))
    + PathText(u.path) + QueryText(u.query) + (if u.hash == "" then "" else "#" + u.hash)
  }

  /** A path is written with exactly one leading `/`, whether or not it carries one. */
  lemma PathMarkOnce(path: string)
    ensures path != "" ==> |PathText(path)| > 0 && PathText(path)[0] == '/'
    ensures path != "" && path[0] != '/' ==> PathText(path) == PathText("/" + path)
  {
  }

  /** A query is written with exactly one leading `?`, whether or not it carries one. */
  lemma QueryMarkOnce(query: string)
    ensures query != "" ==> |QueryText(query)| > 0 && QueryText(query)[0] == '?'
    ensures query != "" && query[0] != '?' ==> QueryText(query) == QueryText("?" + query)
  {
  }

  /**
   * The text does not depend on whether the path carries its leading `/`
   * or the query its leading `?`: both are written once.
   */
  lemma LeadingMarksOnce(u: UrlParts)
    ensures u.path != "" && u.path[0] != '/' ==> UrlText(u) == UrlText(u.(path := "/" + u.path))
    ensures u.query != "" && u.query[0] != '?' ==> UrlText(u) == UrlText(u.(query := "?" + u.query))
  {
    PathMarkOnce(u.path);
    QueryMarkOnce(u.query);
  }
}
