/** Lexical path containment (internal/fsapi/fsapi.go): the string test that resolve makes, and what
    it means on path segments. */
module FsPath {

  // ----- segments -----------------------------------------------------------

  /** The pieces between slashes. */
  function Split(s: string): (r: seq<string>)
    ensures r != []
    ensures forall x | x in r :: '/' !in x
  {
    if s == "" then [""]
    else
      Prepend(s[0], Split(s[1..]))
  }

  /** One segment of a lexical walk. */
  function Enter(at: seq<string>, x: string): seq<string> {
    if x == "" || x == "." then at
    else if x == ".." then if at == [] then at else at[..|at| - 1]
    else at + [x]
  }

  function Walk(at: seq<string>, xs: seq<string>): seq<string>
    decreases |xs|
  {
    if xs == [] then at else Walk(Enter(at, xs[0]), xs[1..])
  }

  function Path(xs: seq<string>): string {
    if xs == [] then "" else "/" + xs[0] + Path(xs[1..])
  }

  function Render(xs: seq<string>): string {
    if xs == [] then "/" else Path(xs)
  }

  /** filepath.Clean of an absolute path. */
  function Clean(path: string): string {
    Render(Walk([], Split(path)))
  }

  /** Where an absolute path leads. */
  function Place(path: string): seq<string> {
    Walk([], Split(path))
  }

  predicate Plain(xs: seq<string>) {
    forall x | x in xs :: x != "" && x != "." && x != ".." && '/' !in x
  }

  lemma {:induction false} WalkPlain(at: seq<string>, xs: seq<string>)
    requires Plain(at) && forall x | x in xs :: '/' !in x
    ensures Plain(Walk(at, xs))
    decreases |xs|
  {
    if xs != [] {
      WalkPlain(Enter(at, xs[0]), xs[1..]);
    }
  }

  lemma {:induction false} WalkAppend(at: seq<string>, xs: seq<string>, ys: seq<string>)
    ensures Walk(at, xs + ys) == Walk(Walk(at, xs), ys)
    decreases |xs|
  {
    if xs == [] {
      assert xs + ys == ys;
    } else {
      assert (xs + ys)[1..] == xs[1..] + ys;
      WalkAppend(Enter(at, xs[0]), xs[1..], ys);
    }
  }

  lemma {:induction false} WalkOfPlain(at: seq<string>, xs: seq<string>)
    requires Plain(xs)
    ensures Walk(at, xs) == at + xs
    decreases |xs|
  {
    if xs == [] {
      assert at + xs == at;
    } else {
      assert xs[0] in xs;
      WalkOfPlain(at + [xs[0]], xs[1..]);
      assert at + [xs[0]] + xs[1..] == at + xs;
    }
  }

  /** One character in front of the pieces. */
  function Prepend(c: char, xs: seq<string>): seq<string>
    requires xs != []
  {
    if c == '/' then [""] + xs else [[c] + xs[0]] + xs[1..]
  }

  lemma PrependAppend(c: char, xs: seq<string>, ys: seq<string>)
    requires xs != []
    ensures Prepend(c, xs + ys) == Prepend(c, xs) + ys
  {
    assert (xs + ys)[0] == xs[0] && (xs + ys)[1..] == xs[1..] + ys;
  }

  lemma SplitCons(c: char, s: string)
    ensures Split([c] + s) == Prepend(c, Split(s))
  {
    assert ([c] + s)[1..] == s;
  }

  lemma {:induction false} SplitSlash(a: string, b: string)
    ensures Split(a + "/" + b) == Split(a) + Split(b)
    decreases |a|
  {
    hide Split, Prepend;
    if a == "" {
      assert "" + "/" + b == ['/'] + b;
      SplitCons('/', b);
      assert Split("") == [""] by { SplitEmpty(); }
      assert Prepend('/', Split(b)) == [""] + Split(b) by { PrependSlash(Split(b)); }
    } else {
      var c, t := a[0], a[1..];
      assert a == [c] + t;
      assert a + "/" + b == [c] + (t + "/" + b);
      SplitSlash(t, b);
      SplitCons(c, t + "/" + b);
      SplitCons(c, t);
      PrependAppend(c, Split(t), Split(b));
    }
  }

  lemma SplitEmpty()
    ensures Split("") == [""]
  {
  }

  lemma PrependSlash(xs: seq<string>)
    requires xs != []
    ensures Prepend('/', xs) == [""] + xs
  {
  }

  lemma {:induction false} SplitPlainName(x: string)
    requires '/' !in x
    ensures Split(x) == [x]
  {
    if x != "" {
      assert x == [x[0]] + x[1..];
      SplitPlainName(x[1..]);
      SplitCons(x[0], x[1..]);
      assert [x][1..] == [];
    }
  }

  lemma {:induction false} SplitPath(xs: seq<string>)
    requires Plain(xs)
    ensures Split(Path(xs)) == [""] + xs
    decreases |xs|
  {
    if xs == [] {
    } else {
      var n := |xs| - 1;
      PathSnoc(xs[..n], xs[n]);
      assert xs == xs[..n] + [xs[n]];
      assert xs[n] in xs;
      SplitPath(xs[..n]);
      SplitSlash(Path(xs[..n]), xs[n]);
      SplitPlainName(xs[n]);
      assert [""] + xs[..n] + [xs[n]] == [""] + xs;
    }
  }

  lemma {:induction false} PathSnoc(xs: seq<string>, x: string)
    ensures Path(xs + [x]) == Path(xs) + "/" + x
    decreases |xs|
  {
    if xs == [] {
      assert [x][1..] == [];
    } else {
      assert (xs + [x])[1..] == xs[1..] + [x];
      PathSnoc(xs[1..], x);
    }
  }

  /** A rendered place leads back to itself. */
  lemma PlaceOfRender(xs: seq<string>)
    requires Plain(xs)
    ensures Place(Render(xs)) == xs && Clean(Render(xs)) == Render(xs)
  {
    if xs == [] {
      assert Split("/") == [""] + Split("") by { assert "/"[1..] == ""; }
      assert Walk([], ["", ""]) == Walk([], [""]) by { assert ["", ""][1..] == [""]; }
    } else {
      SplitPath(xs);
      assert ([""] + xs)[1..] == xs;
      WalkOfPlain([], xs);
      assert [] + xs == xs;
    }
  }

  /** Joining leads on from the base. */
  lemma PlaceOfJoin(base: string, rel: string)
    ensures Place(base + "/" + rel) == Walk(Place(base), Split(rel))
  {
    SplitSlash(base, rel);
    WalkAppend([], Split(base), Split(rel));
  }

  // ----- prefixes -----------------------------------------------------------

  lemma InConcatenation(s: string, t: string, k: nat)
    ensures k < |s| ==> (s + t)[k] == s[k] && s[k] in s
  {
  }

  lemma FirstSlash(x: string, a: string, y: string, b: string)
    requires '/' !in x && '/' !in y
    requires a != "" && a[0] == '/' && b != "" && b[0] == '/'
    ensures x + a <= y + b <==> x == y && a <= b
  {
    if x + a <= y + b {
      assert (x + a)[|x|] == '/' && (y + b)[|y|] == '/';
      assert forall i | 0 <= i < |x| + |a| :: (x + a)[i] == (y + b)[i];
      InConcatenation(y, b, |x|);
      InConcatenation(x, a, |y|);
      assert (x + a)[..|x|] == x && (y + b)[..|y|] == y;
      assert x == y;
      assert (x + a)[|x|..] == a && (y + b)[|y|..] == b;
    }
  }

  lemma PathEndsInSlash(xs: seq<string>)
    ensures Path(xs) + "/" != "" && (Path(xs) + "/")[0] == '/'
  {
  }

  /** Comparing rendered paths with a slash behind them is comparing segments. */
  lemma {:induction false} PathPrefix(b: seq<string>, c: seq<string>)
    requires Plain(b) && Plain(c)
    ensures Path(b) + "/" <= Path(c) + "/" <==> b <= c
    decreases |b|
  {
    PathEndsInSlash(c);
    if b == [] {
    } else if c == [] {
      assert |Path(b) + "/"| > 1;
    } else {
      PathEndsInSlash(b[1..]);
      PathEndsInSlash(c[1..]);
      var p, q := Path(b[1..]) + "/", Path(c[1..]) + "/";
      assert b[0] in b && c[0] in c;
      FirstSlash(b[0], p, c[0], q);
      assert Plain(b[1..]) && Plain(c[1..]);
      PathPrefix(b[1..], c[1..]);
      Unfold(b, c, p, q);
    }
  }

  lemma ConsPrefix<T>(x: T, s: seq<T>, y: T, t: seq<T>)
    ensures [x] + s <= [y] + t <==> x == y && s <= t
  {
    assert ([x] + s)[1..] == s && ([y] + t)[1..] == t;
    if [x] + s <= [y] + t {
      assert [x] + s == ([y] + t)[..|s| + 1];
      assert ([x] + s)[0] == x && ([y] + t)[0] == y;
      assert s == ([x] + s)[1..] == t[..|s|];
    }
  }

  lemma PathCons(b: seq<string>)
    requires b != []
    ensures Path(b) + "/" == ['/'] + (b[0] + (Path(b[1..]) + "/"))
  {
    Regroup(b[0], Path(b[1..]));
  }

  lemma Regroup(x: string, rest: string)
    ensures "/" + x + rest + "/" == ['/'] + (x + (rest + "/"))
  {
  }

  lemma Unfold(b: seq<string>, c: seq<string>, p: string, q: string)
    requires b != [] && c != [] && p == Path(b[1..]) + "/" && q == Path(c[1..]) + "/"
    ensures Path(b) + "/" <= Path(c) + "/" <==> b[0] + p <= c[0] + q
    ensures b <= c <==> b[0] == c[0] && b[1..] <= c[1..]
  {
    PathCons(b);
    PathCons(c);
    hide Path;
    ConsPrefix('/', b[0] + p, '/', c[0] + q);
    assert b == [b[0]] + b[1..] && c == [c[0]] + c[1..];
    ConsPrefix(b[0], b[1..], c[0], c[1..]);
  }

  // ----- resolve ------------------------------------------------------------

  datatype Result = Ok(path: string) | BadRoot | BadPath | Escape

  /** unicode.IsSpace. */
  predicate IsSpace(c: char) {
    || c in "\t\n\r " || c == '\U{0B}' || c == '\U{0C}' || c == '\U{85}' || c == '\U{A0}' || c == '\U{1680}'
    || '\U{2000}' <= c <= '\U{200A}' || c == '\U{2028}' || c == '\U{2029}' || c == '\U{202F}' || c == '\U{205F}'
    || c == '\U{3000}'
  }

  function TrimLeft(s: string): string {
    if s != "" && IsSpace(s[0]) then TrimLeft(s[1..]) else s
  }

  function TrimRight(s: string): string
    decreases |s|
  {
    if s != "" && IsSpace(s[|s| - 1]) then TrimRight(s[..|s| - 1]) else s
  }

  /** The relative path as it is used: spaces trimmed, one leading slash dropped. */
  function Relative(rel: string): string {
    var t := TrimRight(TrimLeft(rel));
    if t != "" && t[0] == '/' then t[1..] else t
  }

  /** Root paths are absolute. */
  predicate Absolute(roots: map<string, string>) {
    forall root | root in roots :: roots[root] != "" && roots[root][0] == '/'
  }

  function Resolve(roots: map<string, string>, root: string, rel: string): Result
    requires Absolute(roots)
  {
    if root !in roots then BadRoot
    else
      var base := roots[root];
      var r := Relative(rel);
      if r == "" then Ok(base)
      else if '\0' in r then BadPath
      else
        var cand := Clean(Clean(base + "/" + r));
        var baseClean := Clean(base) + "/";
        if cand != Clean(base) && !(baseClean <= cand + "/") then Escape else Ok(cand)
  }

  lemma CandidateIsPlace(base: string, r: string)
    ensures Plain(Place(base)) && Plain(Walk(Place(base), Split(r)))
    ensures Clean(Clean(base + "/" + r)) == Render(Walk(Place(base), Split(r)))
  {
    WalkPlain([], Split(base));
    WalkPlain(Place(base), Split(r));
    PlaceOfJoin(base, r);
    PlaceOfRender(Walk(Place(base), Split(r)));
  }

  lemma PrefixTest(b: seq<string>, c: seq<string>)
    requires Plain(b) && Plain(c) && b != []
    ensures Render(c) == Render(b) || Render(b) + "/" <= Render(c) + "/" <==> b <= c
  {
    if c == [] {
      assert b[0] in b && |Render(b)| > 1;
      assert Render(c) + "/" == "//";
      assert (Render(b) + "/")[1] == b[0][0];
      assert b[0][0] in b[0];
    } else {
      PathPrefix(b, c);
      assert Render(c) == Render(b) ==> Render(b) + "/" <= Render(c) + "/";
    }
  }

  /** For every root but the file system's own, resolve succeeds if and only if the root is known,
      the path has no NUL, and where it leads from the base is at or below the base - whatever it
      visits on the way. It then returns that place: the base as it stands when there is no path, and
      else a path without a dot segment in it. */
  lemma Containment(roots: map<string, string>, root: string, rel: string)
    requires Absolute(roots) && (root in roots ==> Place(roots[root]) != [])
    ensures root !in roots ==> Resolve(roots, root, rel) == BadRoot
    ensures root in roots ==>
      var b := Place(roots[root]);
      var c := Walk(b, Split(Relative(rel)));
      var r := Resolve(roots, root, rel);
      && (r == BadPath <==> '\0' in Relative(rel))
      && (r.Ok? <==> '\0' !in Relative(rel) && b <= c)
      && (r.Ok? ==> Place(r.path) == c && r.path == (if Relative(rel) == "" then roots[root] else Render(c)))
      && Plain(c)
  {
    if root in roots {
      var base, r := roots[root], Relative(rel);
      CandidateIsPlace(base, r);
      var b, c := Place(base), Walk(Place(base), Split(r));
      PlaceOfRender(c);
      PrefixTest(b, c);
      if r == "" {
        assert [""][1..] == [];
        assert c == b;
      }
      hide Place, Walk, Render, Relative, Split;
      assert Clean(base) == Render(b) by { CleanIsPlace(base); }
    }
  }

  lemma CleanIsPlace(path: string)
    ensures Clean(path) == Render(Place(path))
  {
  }

  /** The file system's own root is the exception: with a second slash behind it, it is a prefix of
      nothing, and every path that leads anywhere is refused. */
  lemma RootItselfRefusesAll(roots: map<string, string>, root: string, rel: string)
    requires Absolute(roots) && root in roots && Place(roots[root]) == [] && Relative(rel) != "" && '\0' !in Relative(rel)
    ensures var c := Walk([], Split(Relative(rel)));
            Resolve(roots, root, rel) == if c == [] then Ok("/") else Escape
  {
    var r := Relative(rel);
    CandidateIsPlace(roots[root], r);
    var c := Walk([], Split(r));
    if c != [] {
      assert c[0] in c && c[0][0] in c[0];
      assert (Render(c) + "/")[1] == c[0][0];
      assert "/" + "/" == "//";
    }
  }

  /** A sibling whose name merely begins with the base's is outside it. */
  lemma SiblingIsOutside(b: seq<string>, x: string, more: string, rest: seq<string>)
    requires Plain(b + [x]) && more != "" && '/' !in more && Plain([x + more] + rest)
    ensures !(b + [x] <= b + [x + more] + rest)
    ensures !(Render(b + [x]) + "/" <= Render(b + [x + more] + rest) + "/")
  {
    var c := b + [x + more] + rest;
    assert c[|b|] == x + more && (b + [x])[|b|] == x;
    assert Plain(c) by {
      assert forall y | y in c :: y in b + [x] || y in [x + more] + rest;
    }
    PrefixTest(b + [x], c);
  }

  // ----- resolve on segments ------------------------------------------------

  /** Segments with slashes between them. */
  function Join(xs: seq<string>): string
    requires xs != []
  {
    if |xs| == 1 then xs[0] else xs[0] + "/" + Join(xs[1..])
  }

  lemma {:induction false} SplitJoin(xs: seq<string>)
    requires xs != [] && forall x | x in xs :: '/' !in x
    ensures Split(Join(xs)) == xs
    decreases |xs|
  {
    SplitPlainName(xs[0]);
    if |xs| > 1 {
      SplitJoin(xs[1..]);
      SplitSlash(xs[0], Join(xs[1..]));
      assert [xs[0]] + xs[1..] == xs;
    } else {
      assert xs == [xs[0]];
    }
  }

  /** Resolve sees of a path only where its segments lead. */
  lemma SameWalkSameResult(roots: map<string, string>, root: string, rel: string, other: string, xs: seq<string>, ys: seq<string>)
    requires Absolute(roots) && xs != [] && ys != []
    requires (forall x | x in xs :: '/' !in x) && (forall y | y in ys :: '/' !in y)
    requires Relative(rel) == Join(xs) != "" && Relative(other) == Join(ys) != ""
    requires '\0' !in Join(xs) && '\0' !in Join(ys)
    requires forall at :: Walk(at, xs) == Walk(at, ys)
    ensures Resolve(roots, root, rel) == Resolve(roots, root, other)
  {
    SplitJoin(xs);
    SplitJoin(ys);
    if root in roots {
      CandidateIsPlace(roots[root], Join(xs));
      CandidateIsPlace(roots[root], Join(ys));
    }
    hide Clean, Walk, Split, Join, Relative;
  }

  lemma Three(pre: seq<string>, mid: seq<string>, post: seq<string>, at: seq<string>)
    requires forall here :: Walk(here, mid) == here
    ensures Walk(at, pre + mid + post) == Walk(at, pre + post)
  {
    WalkAppend(at, pre + mid, post);
    WalkAppend(at, pre, mid);
    WalkAppend(at, pre, post);
  }

  /** A name and the ".." behind it cancel, wherever they stand in the path. */
  lemma ParentCancels(roots: map<string, string>, root: string, rel: string, other: string,
                      pre: seq<string>, x: string, post: seq<string>)
    requires Absolute(roots) && Plain([x]) && (forall y | y in pre + post :: '/' !in y) && pre + post != []
    requires Relative(rel) == Join(pre + [x, ".."] + post) != "" && Relative(other) == Join(pre + post) != ""
    requires '\0' !in Relative(rel) && '\0' !in Relative(other)
    ensures Resolve(roots, root, rel) == Resolve(roots, root, other)
  {
    forall here ensures Walk(here, [x, ".."]) == here {
      DownAndUp(here, x);
    }
    forall at ensures Walk(at, pre + [x, ".."] + post) == Walk(at, pre + post) {
      Three(pre, [x, ".."], post, at);
    }
    SameWalkSameResult(roots, root, rel, other, pre + [x, ".."] + post, pre + post);
  }

  lemma DownAndUp(at: seq<string>, x: string)
    requires Plain([x])
    ensures Walk(at, [x, ".."]) == at
  {
    assert x in [x];
    assert [x, ".."][1..] == [".."] && [".."][1..] == [];
    assert (at + [x])[..|at + [x]| - 1] == at;
  }

  /** An empty segment or "." changes nothing, wherever it stands. */
  lemma StandingStillChangesNothing(roots: map<string, string>, root: string, rel: string, other: string,
                                    pre: seq<string>, x: string, post: seq<string>)
    requires Absolute(roots) && (x == "" || x == ".") && (forall y | y in pre + post :: '/' !in y) && pre + post != []
    requires Relative(rel) == Join(pre + [x] + post) != "" && Relative(other) == Join(pre + post) != ""
    requires '\0' !in Relative(rel) && '\0' !in Relative(other)
    ensures Resolve(roots, root, rel) == Resolve(roots, root, other)
  {
    assert [x][1..] == [];
    assert forall here :: Walk(here, [x]) == here;
    forall at ensures Walk(at, pre + [x] + post) == Walk(at, pre + post) {
      Three(pre, [x], post, at);
    }
    SameWalkSameResult(roots, root, rel, other, pre + [x] + post, pre + post);
  }

  function Ups(n: nat): (xs: seq<string>)
    ensures |xs| == n && forall x | x in xs :: x == ".."
  {
    seq(n, _ => "..")
  }

  lemma {:induction false} WalkUp(at: seq<string>, n: nat)
    ensures Walk(at, Ups(n)) == if n <= |at| then at[..|at| - n] else []
    decreases n
  {
    if n == 0 {
      assert at[..|at|] == at;
    } else {
      assert Ups(n)[1..] == Ups(n - 1);
      WalkUp(Enter(at, ".."), n - 1);
    }
  }

  /** n times "..", then names: the path is accepted if and only if the names lead back down through
      the segments that were left - all of the base's when n is larger - and then it is the base
      without these, followed by the names. */
  lemma UpAndDown(roots: map<string, string>, root: string, rel: string, b: seq<string>, n: nat, names: seq<string>)
    requires Absolute(roots) && root in roots && Plain(b) && b != [] && roots[root] == Path(b)
    requires Plain(names) && n + |names| > 0
    requires Relative(rel) == Join(Ups(n) + names) != "" && '\0' !in Relative(rel)
    ensures var left := if n <= |b| then n else |b|;
            Resolve(roots, root, rel) == if b[|b| - left..] <= names then Ok(Path(b[..|b| - left] + names)) else Escape
  {
    var left := if n <= |b| then n else |b|;
    var c := b[..|b| - left] + names;
    WalkAppend(b, Ups(n), names);
    WalkUp(b, n);
    WalkOfPlain(b[..|b| - left], names);
    hide Walk;
    ResolveBelow(roots, root, rel, b, Ups(n) + names);
    hide *;
    BackThrough(b, left, names);
    if c != [] {
      RenderIsPath(c);
    }
  }

  lemma RenderIsPath(c: seq<string>)
    requires c != []
    ensures Render(c) == Path(c)
  {
  }

  lemma ResolveBelow(roots: map<string, string>, root: string, rel: string, b: seq<string>, xs: seq<string>)
    requires Absolute(roots) && root in roots && Plain(b) && b != [] && roots[root] == Path(b)
    requires xs != [] && (forall x | x in xs :: '/' !in x)
    requires Relative(rel) == Join(xs) != "" && '\0' !in Relative(rel)
    ensures Resolve(roots, root, rel) == if b <= Walk(b, xs) then Ok(Render(Walk(b, xs))) else Escape
  {
    SplitJoin(xs);
    PlaceOfRender(b);
    RenderIsPath(b);
    hide Place, Walk, Split, Clean, Join, Render, Path, Relative;
    Containment(roots, root, rel);
    NoOtherResult(roots, root, rel);
  }

  lemma NoOtherResult(roots: map<string, string>, root: string, rel: string)
    requires Absolute(roots) && root in roots
    ensures Resolve(roots, root, rel) != BadRoot
  {
    hide Clean, Relative;
  }

  lemma BackThrough(b: seq<string>, left: nat, names: seq<string>)
    requires left <= |b| && b != []
    ensures b <= b[..|b| - left] + names <==> b[|b| - left..] <= names
    ensures b <= b[..|b| - left] + names ==> b[..|b| - left] + names != []
  {
    var c := b[..|b| - left] + names;
    assert b == b[..|b| - left] + b[|b| - left..];
    if b <= c {
      assert c[|b| - left..] == names;
      assert c[..|b|][|b| - left..] == b[|b| - left..];
    }
    if b[|b| - left..] <= names {
      assert names == b[|b| - left..] + names[left..];
      assert c == b + names[left..];
    }
  }

  /** So ".." leaves every base. */
  lemma ParentEscapes(roots: map<string, string>, root: string, b: seq<string>)
    requires Absolute(roots) && root in roots && Plain(b) && b != [] && roots[root] == Path(b)
    ensures Resolve(roots, root, "..") == Escape
  {
    assert Ups(1) + [] == [".."];
    UpAndDown(roots, root, "..", b, 1, []);
    assert |b[|b| - 1..]| == 1;
  }

  /** What is used of a path: all between the spaces at its ends, less one slash in front. */
  lemma RelativeReads(rel: string) returns (i: nat, j: nat)
    ensures i <= j <= |rel| && (forall k | 0 <= k < i || j <= k < |rel| :: IsSpace(rel[k]))
    ensures i < j ==> !IsSpace(rel[i]) && !IsSpace(rel[j - 1])
    ensures Relative(rel) == if i < j && rel[i] == '/' then rel[i + 1..j] else rel[i..j]
  {
    i := TrimsLeft(rel);
    j := TrimsRight(rel[i..]);
    j := i + j;
    assert rel[i..][..j - i] == rel[i..j];
    if i < j {
      assert rel[i..j][1..] == rel[i + 1..j];
    }
  }

  lemma {:induction false} TrimsLeft(s: string) returns (i: nat)
    ensures i <= |s| && TrimLeft(s) == s[i..] && (forall k | 0 <= k < i :: IsSpace(s[k]))
    ensures i < |s| ==> !IsSpace(s[i])
  {
    if s != "" && IsSpace(s[0]) {
      i := TrimsLeft(s[1..]);
      assert s[1..][i..] == s[i + 1..];
      assert forall k | 1 <= k < i + 1 :: s[k] == s[1..][k - 1];
      i := i + 1;
    } else {
      i := 0;
    }
  }

  lemma {:induction false} TrimsRight(s: string) returns (j: nat)
    ensures j <= |s| && TrimRight(s) == s[..j] && (forall k | j <= k < |s| :: IsSpace(s[k]))
    ensures j > 0 ==> !IsSpace(s[j - 1])
    decreases |s|
  {
    j := |s|;
    if s != "" && IsSpace(s[|s| - 1]) {
      var t := s[..|s| - 1];
      j := TrimsRight(t);
      assert t[..j] == s[..j];
      assert forall k | j <= k < |t| :: s[k] == t[k];
    } else {
      assert s[..j] == s;
    }
  }
}
