/** The two POSIX path functions of Node.js the backend relies on: `path.extname`, which gives a
    stored upload its extension, and `path.join`, which builds attachment URLs. */
module NodePath {
  import opened JsText

  /** The index of the last `c` in `s`, if any. */
  function LastIndex(s: string, c: char): (r: Option<nat>)
    ensures r.Some? ==> r.value < |s| && s[r.value] == c && forall j :: r.value < j < |s| ==> s[j] != c
    ensures r.None? ==> forall j :: 0 <= j < |s| ==> s[j] != c
  {
    if s == [] then None
    else if s[|s| - 1] == c then Some(|s| - 1)
    else LastIndex(s[..|s| - 1], c)
  }

  function StripTrailingSlashes(p: string): (q: string)
    ensures q <= p
    ensures q == [] || q[|q| - 1] != '/'
  {
    if p != [] && p[|p| - 1] == '/' then StripTrailingSlashes(p[..|p| - 1]) else p
  }

  /** The last component of `p`, trailing slashes ignored. */
  function BaseName(p: string): (b: string)
    ensures forall j :: 0 <= j < |b| ==> b[j] != '/'
  {
    var q := StripTrailingSlashes(p);
    match LastIndex(q, '/')
    case None => q
    case Some(i) => q[i + 1..]
  }

  /** `path.extname(p)`: the base name from its last `.` on. There is none when the base name has
      no `.`, when its only `.` opens it (`.bashrc`), and for `..`. */
  function ExtName(p: string): (e: string)
    ensures e == [] || e[0] == '.'
    ensures forall j :: 0 <= j < |e| ==> e[j] != '/' && (j > 0 ==> e[j] != '.')
  {
    var b := BaseName(p);
    match LastIndex(b, '.')
    case None => ""
    case Some(d) => if d == 0 || b == ".." then "" else b[d..]
  }

  /** A name `stem.word` with no directory part has extension `.word`. */
  lemma ExtNameOf(stem: string, word: string)
    requires stem != [] && stem != "."
    requires forall j :: 0 <= j < |stem| ==> stem[j] != '/'
    requires forall j :: 0 <= j < |word| ==> word[j] != '/' && word[j] != '.'
    ensures ExtName(stem + "." + word) == "." + word
  {
    var p := stem + "." + word;
    assert p[|p| - 1] != '/';
    assert StripTrailingSlashes(p) == p;
    assert LastIndex(p, '/').None?;
    assert p[|stem|] == '.';
    assert LastIndex(p, '.') == Some(|stem|);
    assert p[|stem|..] == "." + word;
  }

  /** A base name without any `.` has no extension. */
  lemma ExtNameNone(name: string)
    requires forall j :: 0 <= j < |name| ==> name[j] != '/' && name[j] != '.'
    ensures ExtName(name) == ""
  {
    assert StripTrailingSlashes(name) == name;
  }

  /** A path segment that `path.join` keeps as it is. */
  predicate PlainSegment(s: string)
  {
    s != [] && s != "." && s != ".." && forall j :: 0 <= j < |s| ==> s[j] != '/'
  }

  function NonEmpty(args: seq<string>): (r: seq<string>)
    ensures forall k :: 0 <= k < |r| ==> r[k] != ""
  {
    if args == [] then []
    else if args[0] == "" then NonEmpty(args[1..])
    else [args[0]] + NonEmpty(args[1..])
  }

  /** One segment of `normalizeString`: empty and `.` segments vanish, `..` removes the segment
      before it, or is kept when there is none (or only `..`s) and the path may climb. */
  function Step(stack: seq<string>, seg: string, aboveRoot: bool): seq<string>
  {
    if seg == "" || seg == "." then stack
    else if seg == ".." then
      if stack != [] && stack[|stack| - 1] != ".." then stack[..|stack| - 1]
      else if aboveRoot then stack + [".."]
      else stack
    else stack + [seg]
  }

  function Resolve(stack: seq<string>, segs: seq<string>, aboveRoot: bool): seq<string>
    decreases |segs|
  {
    if segs == [] then stack else Resolve(Step(stack, segs[0], aboveRoot), segs[1..], aboveRoot)
  }

  /** The resolved segments `body` of a path written back: a leading `/` for an absolute path, a
      trailing one kept, and `.` for a relative path that resolves to nothing. */
  function Decorate(body: string, absolute: bool, trailing: bool): string
  {
    if body == "" then (if absolute then "/" else if trailing then "./" else ".")
    else (if absolute then "/" else "") + body + (if trailing then "/" else "")
  }

  /** `path.normalize(p)` for a non-empty POSIX path. */
  function Normalize(p: string): string
    requires p != []
  {
    var absolute := p[0] == '/';
    Decorate(Join(Resolve([], Split(p, {'/'}), !absolute), "/"), absolute, p[|p| - 1] == '/')
  }

  /** `path.join(...args)`: the non-empty arguments joined with `/`, then normalized. */
  function PathJoin(args: seq<string>): string
  {
    var joined := Join(NonEmpty(args), "/");
    if joined == "" then "." else Normalize(joined)
  }

  lemma {:induction false} ResolvePlain(stack: seq<string>, segs: seq<string>, aboveRoot: bool)
    requires forall k :: 0 <= k < |segs| ==> PlainSegment(segs[k])
    ensures Resolve(stack, segs, aboveRoot) == stack + segs
    decreases |segs|
  {
    if segs != [] {
      ResolvePlain(stack + [segs[0]], segs[1..], aboveRoot);
      assert stack + [segs[0]] + segs[1..] == stack + segs;
    } else {
      assert stack + segs == stack;
    }
  }

  lemma {:induction false} NonEmptyPlain(args: seq<string>)
    requires forall k :: 0 <= k < |args| ==> PlainSegment(args[k])
    ensures NonEmpty(args) == args
  {
    if args != [] {
      NonEmptyPlain(args[1..]);
      assert [args[0]] + args[1..] == args;
    }
  }

  /** The first and last characters of a join of non-empty parts are those of its first and last
      parts. */
  lemma {:induction false} JoinEnds(parts: seq<string>, sep: string)
    requires |parts| > 0 && forall k :: 0 <= k < |parts| ==> parts[k] != []
    ensures Join(parts, sep) != []
    ensures Join(parts, sep)[0] == parts[0][0]
    ensures var j := Join(parts, sep); j[|j| - 1] == parts[|parts| - 1][|parts[|parts| - 1]| - 1]
  {
    if |parts| > 1 {
      JoinEnds(parts[1..], sep);
    }
  }

  /** A join of plain segments neither starts nor ends with `/`. */
  lemma JoinPlainEnds(args: seq<string>)
    requires |args| > 0 && forall k :: 0 <= k < |args| ==> PlainSegment(args[k])
    ensures var j := Join(args, "/"); j != [] && j[0] != '/' && j[|j| - 1] != '/'
  {
    var last := args[|args| - 1];
    assert PlainSegment(args[0]) && PlainSegment(last);
    assert args[0][0] != '/' && last[|last| - 1] != '/';
    JoinEnds(args, "/");
  }

  /** A relative path without a trailing `/` whose segments resolve to themselves is normal. */
  lemma NormalizeUnchanged(j: string)
    requires j != [] && j[0] != '/' && j[|j| - 1] != '/'
    requires Join(Resolve([], Split(j, {'/'}), true), "/") == j
    ensures Normalize(j) == j
  {
    assert Normalize(j) == Decorate(j, false, false);
    assert "" + j + "" == j;
  }

  /** Joining plain segments is writing them one after the other with `/` between. */
  lemma PathJoinPlain(args: seq<string>)
    requires |args| > 0 && forall k :: 0 <= k < |args| ==> PlainSegment(args[k])
    ensures PathJoin(args) == Join(args, "/")
  {
    var j := Join(args, "/");
    NonEmptyPlain(args);
    JoinPlainEnds(args);
    assert Join(Resolve([], Split(j, {'/'}), true), "/") == j by {
      SplitJoin(args, '/');
      ResolvePlain([], args, true);
      assert [] + args == args;
    }
    NormalizeUnchanged(j);
  }
}
