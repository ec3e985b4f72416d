/** Extracting after rewriting gives the clones of the paths extracted before, in order. */
module CloneDisks {
  import opened Options
  import opened DomainXml

  // ── Occurrences in concatenations ─────────────────────────────────────────

  lemma AtLeft(a: string, x: string, p: string, j: nat)
    requires j + |p| <= |a|
    ensures At(a + x, p, j) <==> At(a, p, j)
  {
    assert (a + x)[j..j + |p|] == a[j..j + |p|];
  }

  lemma AtRight(a: string, x: string, p: string, j: nat)
    requires |a| <= j
    ensures At(a + x, p, j) <==> At(x, p, j - |a|)
  {
    if j + |p| <= |a + x| {
      assert (a + x)[j..j + |p|] == x[j - |a|..j - |a| + |p|];
    }
  }

  lemma FindIs(s: string, p: string, i: nat)
    requires At(s, p, i) && forall j :: 0 <= j < i ==> !At(s, p, j)
    ensures Find(s, p) == Some(i)
  {
    hide At;
  }

  /** What follows the first occurrence does not matter. */
  lemma FindLeft(a: string, x: string, p: string, i: nat)
    requires Find(a, p) == Some(i) && i + |p| <= |a|
    ensures Find(a + x, p) == Some(i)
  {
    hide At;
    AtLeft(a, x, p, i);
    forall j | 0 <= j < i ensures !At(a + x, p, j) {
      AtLeft(a, x, p, j);
    }
    FindIs(a + x, p, i);
  }

  lemma FindShrinks(a: string, x: string, p: string, i: nat)
    requires Find(a + x, p) == Some(i) && i + |p| <= |a|
    ensures Find(a, p) == Some(i)
  {
    hide At;
    AtLeft(a, x, p, i);
    forall j | 0 <= j < i ensures !At(a, p, j) {
      AtLeft(a, x, p, j);
    }
    FindIs(a, p, i);
  }

  /** Nothing found before `k`: the search is in the rest. */
  lemma FindRight(a: string, x: string, p: string)
    requires forall j :: 0 <= j < |a| ==> !At(a + x, p, j)
    ensures Find(a + x, p) == (match Find(x, p) case None => None case Some(i) => Some(|a| + i))
  {
    hide At;
    forall j | |a| <= j ensures At(a + x, p, j) <==> At(x, p, j - |a|) {
      AtRight(a, x, p, j);
    }
    match Find(x, p)
    case Some(i) => FindIs(a + x, p, |a| + i);
    case None =>
      forall j | |a| <= j ensures !At(a + x, p, j) {
        assert !At(x, p, j - |a|);
      }
  }

  lemma FindChar(u: string, b: string, q: char)
    requires q !in u && b != "" && b[0] == q
    ensures Find(u + b, [q]) == Some(|u|)
  {
    assert (u + b)[|u|] == q;
    assert (u + b)[|u|..|u| + 1] == [q];
    forall j | 0 <= j < |u| ensures !At(u + b, [q], j) {
      assert (u + b)[j..j + 1] == [u[j]];
    }
    FindIs(u + b, [q], |u|);
  }

  /** A text that ends with the first opening, a path, and its closing quote. */
  lemma NextPathIs(a: string, u: string, b: string, q: char)
    requires |a| >= |Opening(q)| && Find(a, Opening(q)) == Some(|a| - |Opening(q)|)
    requires q !in u && b != "" && b[0] == q
    ensures NextPath(a + u + b, q) == Some(Piece(a, u, b))
  {
    hide Find, Opening;
    assert a + u + b == a + (u + b);
    FindLeft(a, u + b, Opening(q), |a| - |Opening(q)|);
    var s := a + (u + b);
    Prefix(a, u + b);
    Prefix(u, b);
    FindChar(u, b, q);
    assert s[|a|..] == u + b;
  }

  // ── The same quote ────────────────────────────────────────────────────────

  /** A clone's path has no character that neither the path nor the name has, but the slash. */
  lemma CloneFree(path: string, name: string, c: char)
    requires c !in path && c !in name && c != '/'
    ensures c !in ClonePath(path, name)
  {
  }

  lemma FirstKept(s: string, q: char, name: string)
    requires s != ""
    ensures Rewritten(s, q, name) != "" && Rewritten(s, q, name)[0] == s[0]
  {
    hide Find;
  }

  /** In the same quote, the paths found after rewriting are the clones of those found before. */
  lemma {:induction false} SameQuote(s: string, q: char, name: string)
    requires q !in name && q != '/'
    ensures Paths(Rewritten(s, q, name), q) == ClonePaths(Paths(s, q), name)
    decreases |s|
  {
    hide Find, Opening, ClonePath, Paths, Rewritten;
    match NextPath(s, q)
    case None => NothingThere(s, q, name);
    case Some(p) =>
      hide NextPath;
      SameQuote(p.rest, q, name);
      Unfold(s, q, name, p);
      FirstKept(p.rest, q, name);
      CloneFree(p.path, name, q);
      PreEnds(s, q, p);
      var clone, rest := ClonePath(p.path, name), Rewritten(p.rest, q, name);
      NextPathIs(p.pre, clone, rest, q);
      Unfold(p.pre + clone + rest, q, name, Piece(p.pre, clone, rest));
      assert Paths(Rewritten(s, q, name), q) == [clone] + ClonePaths(Paths(p.rest, q), name);
  }

  lemma NothingThere(s: string, q: char, name: string)
    requires NextPath(s, q) == None
    ensures Rewritten(s, q, name) == s && Paths(s, q) == []
  {
  }

  lemma Unfold(s: string, q: char, name: string, p: Piece)
    requires NextPath(s, q) == Some(p)
    ensures s == p.pre + p.path + p.rest && |p.rest| < |s| && q !in p.path && p.rest != "" && p.rest[0] == q
    ensures Rewritten(s, q, name) == p.pre + ClonePath(p.path, name) + Rewritten(p.rest, q, name)
    ensures Paths(s, q) == [p.path] + Paths(p.rest, q)
  {
    hide Opening, ClonePath, Find;
  }

  lemma PreEnds(s: string, q: char, p: Piece)
    requires NextPath(s, q) == Some(p)
    ensures |p.pre| >= |Opening(q)| && Find(p.pre, Opening(q)) == Some(|p.pre| - |Opening(q)|)
  {
    hide Opening, Find;
    assert s == p.pre + (p.path + p.rest);
    FindShrinks(p.pre, p.path + p.rest, Opening(q), |p.pre| - |Opening(q)|);
  }

  // ── The other quote ───────────────────────────────────────────────────────

  ghost predicate Clean(paths: seq<string>) {
    forall p :: p in paths ==> '<' !in p
  }

  /** No path opens inside `u`, nor across its start. */
  ghost predicate Quiet(a: string, u: string, b: string, q: char) {
    forall i :: 0 <= i < |a| + |u| && |a| < i + |Opening(q)| ==> !At(a + u + b, Opening(q), i)
  }

  lemma QuietTail(a: string, u: string, b: string, q: char, e: nat)
    requires Quiet(a, u, b, q) && e <= |a|
    ensures Quiet(a[e..], u, b, q)
  {
    hide At, Opening;
    forall i | 0 <= i < |a| - e + |u| && |a| - e < i + |Opening(q)|
      ensures !At(a[e..] + u + b, Opening(q), i)
    {
      assert a + u + b == a[..e] + (a[e..] + u + b);
      AtRight(a[..e], a[e..] + u + b, Opening(q), i + e);
    }
  }

  lemma NextPathRight(a: string, b: string, q: char)
    requires forall j :: 0 <= j < |a| ==> !At(a + b, Opening(q), j)
    ensures NextPath(a + b, q) ==
      match NextPath(b, q) case None => None case Some(p) => Some(Piece(a + p.pre, p.path, p.rest))
  {
    hide Find, At, Opening;
    FindRight(a, b, Opening(q));
    match Find(b, Opening(q))
    case None =>
    case Some(i) =>
      Inside(b, Opening(q), i);
      var start := i + |Opening(q)|;
      assert (a + b)[|a| + start..] == b[start..];
      assert (a + b)[..|a| + start] == a + b[..start];
  }

  /** No path opens before `b`: the paths are those of `b`. */
  lemma PathsRight(a: string, b: string, q: char)
    requires forall j :: 0 <= j < |a| ==> !At(a + b, Opening(q), j)
    ensures Paths(a + b, q) == Paths(b, q)
  {
    hide NextPath, At, Opening;
    NextPathRight(a, b, q);
  }

  /** The first path of a text split at its opening, its closing quote and after. */
  lemma FirstPath(s: string, a: string, i: nat, t: string, e: nat, q: char)
    requires Find(a, Opening(q)) == Some(i) && i + |Opening(q)| <= |a|
    requires s == a[..i + |Opening(q)|] + t && e < |t| && t[e] == q && q !in t[..e]
    ensures Paths(s, q) == [t[..e]] + Paths(t[e..], q)
  {
    hide Find, Opening, NextPath;
    var start := i + |Opening(q)|;
    assert a == a[..start] + a[start..];
    FindShrinks(a[..start], a[start..], Opening(q), i);
    assert s == a[..start] + t[..e] + t[e..];
    NextPathIs(a[..start], t[..e], t[e..], q);
  }

  /** An opening whose path is never closed. */
  lemma OpenPath(s: string, a: string, i: nat, t: string, q: char)
    requires Find(a, Opening(q)) == Some(i) && i + |Opening(q)| <= |a|
    requires s == a[..i + |Opening(q)|] + t && q !in t
    ensures Paths(s, q) == []
  {
    hide Find, Opening;
    var start := i + |Opening(q)|;
    assert a == a[..start] + a[start..];
    FindShrinks(a[..start], a[start..], Opening(q), i);
    FindLeft(a[..start], t, Opening(q), i);
    assert s[start..] == t;
    CharMissing(t, q);
  }

  lemma CharMissing(t: string, q: char)
    requires q !in t
    ensures Find(t, [q]) == None
  {
    match Find(t, [q])
    case None =>
    case Some(i) => NotBefore(t, q, i);
  }

  lemma NoOpening(a: string, u: string, b: string, q: char)
    requires Find(a, Opening(q)) == None && Quiet(a, u, b, q)
    ensures Paths(a + u + b, q) == Paths(b, q)
  {
    hide Find, At, Opening, Paths;
    forall j | 0 <= j < |a + u| ensures !At(a + u + b, Opening(q), j) {
      if j + |Opening(q)| <= |a| {
        assert a + u + b == a + (u + b);
        AtLeft(a, u + b, Opening(q), j);
        assert !At(a, Opening(q), j);
      }
    }
    PathsRight(a + u, b, q);
  }

  /** A path open where `u` starts would take the angle bracket in. */
  lemma PathCrosses(s: string, a: string, i: nat, t: string, w: string, q: char)
    requires Find(a, Opening(q)) == Some(i) && i + |Opening(q)| <= |a|
    requires s == a[..i + |Opening(q)|] + (t + w) && q !in t && q in w && w[0] == '<' && q != '<'
    ensures !Clean(Paths(s, q))
  {
    hide Find, Opening, Paths;
    var k := FirstIndex(w, q);
    assert (t + w)[..|t| + k] == t + w[..k];
    FirstPath(s, a, i, t + w, |t| + k, q);
    var path := t + w[..k];
    assert path[|t|] == '<';
    assert path in Paths(s, q);
  }

  lemma {:induction false} FirstIndex(w: string, q: char) returns (k: nat)
    requires q in w
    ensures k < |w| && w[k] == q && q !in w[..k]
  {
    if w[0] == q { return 0; }
    k := FirstIndex(w[1..], q);
    k := k + 1;
    assert w[..k] == [w[0]] + w[1..][..k - 1];
  }

  /** A piece of text can be exchanged without effect on the paths when none opens in it and none runs into it. */
  lemma {:induction false} Exchange(a: string, u: string, v: string, b: string, q: char)
    requires u != "" && u[0] == '<' && q != '<' && (q in v ==> q in u)
    requires Quiet(a, u, b, q) && Quiet(a, v, b, q)
    requires Clean(Paths(a + u + b, q))
    ensures Paths(a + v + b, q) == Paths(a + u + b, q)
    decreases |a|
  {
    hide Find, Opening, Paths, Quiet, Clean;
    match Find(a, Opening(q))
    case None =>
      NoOpening(a, u, b, q);
      NoOpening(a, v, b, q);
    case Some(i) =>
      Inside(a, Opening(q), i);
      var start := i + |Opening(q)|;
      var t := a[start..];
      assert a + u + b == a[..start] + (t + (u + b));
      assert a + v + b == a[..start] + (t + (v + b));
      if q in t {
        var e := FirstIndex(t, q);
        ExchangeAfter(a, u, v, b, q, i, e);
        Exchange(t[e..], u, v, b, q);
      } else if q in u + b {
        PathCrosses(a + u + b, a, i, t, u + b, q);
      } else {
        OpenPath(a + u + b, a, i, t + (u + b), q);
        OpenPath(a + v + b, a, i, t + (v + b), q);
      }
  }

  lemma ExchangeAfter(a: string, u: string, v: string, b: string, q: char, i: nat, e: nat)
    requires Find(a, Opening(q)) == Some(i) && i + |Opening(q)| <= |a|
    requires Quiet(a, u, b, q) && Quiet(a, v, b, q) && Clean(Paths(a + u + b, q))
    requires var t := a[i + |Opening(q)|..]; e < |t| && t[e] == q && q !in t[..e]
    ensures var t := a[i + |Opening(q)|..];
      Quiet(t[e..], u, b, q) && Quiet(t[e..], v, b, q) && Clean(Paths(t[e..] + u + b, q)) &&
      Paths(a + u + b, q) == [t[..e]] + Paths(t[e..] + u + b, q) &&
      Paths(a + v + b, q) == [t[..e]] + Paths(t[e..] + v + b, q)
  {
    hide Find, Opening, Paths, Quiet;
    var start := i + |Opening(q)|;
    var t := a[start..];
    assert a[start + e..] == t[e..];
    QuietTail(a, u, b, q, start + e);
    QuietTail(a, v, b, q, start + e);
    PathAhead(a, t, u + b, q, i, e);
    PathAhead(a, t, v + b, q, i, e);
    assert a + (u + b) == a + u + b && a + (v + b) == a + v + b;
    assert t[e..] + (u + b) == t[e..] + u + b && t[e..] + (v + b) == t[e..] + v + b;
    var rest := Paths(t[e..] + u + b, q);
    assert forall p :: p in rest ==> p in [t[..e]] + rest;
  }

  lemma PathAhead(a: string, t: string, w: string, q: char, i: nat, e: nat)
    requires Find(a, Opening(q)) == Some(i) && i + |Opening(q)| <= |a| && t == a[i + |Opening(q)|..]
    requires e < |t| && t[e] == q && q !in t[..e]
    ensures Paths(a + w, q) == [t[..e]] + Paths(t[e..] + w, q)
  {
    hide Find, Opening, Paths;
    assert a + w == a[..i + |Opening(q)|] + (t + w);
    assert (t + w)[..e] == t[..e] && (t + w)[e..] == t[e..] + w;
    FirstPath(a + w, a, i, t + w, e, q);
  }

  lemma OpeningShape(q: char)
    ensures |Opening(q)| == 14 && Opening(q)[0] == '<' && Opening(q)[13] == q
    ensures q != '<' ==> '<' !in Opening(q)[1..]
    ensures forall c :: c in Opening(q)[..13] ==> c != '\'' && c != '"' && c != '>'
  {
  }

  /** An opening that starts before `u` would have to contain its first bracket. */
  lemma OpeningStops(s: string, q: char, i: nat, k: nat)
    requires q != '<' && i < k < i + |Opening(q)| && k < |s| && s[k] == '<'
    ensures !At(s, Opening(q), i)
  {
    OpeningShape(q);
    hide Opening;
    assert Opening(q)[1..][k - i - 1] == Opening(q)[k - i];
    Mismatch(s, Opening(q), i, k - i);
  }

  lemma Mismatch(s: string, p: string, i: nat, k: nat)
    requires k < |p| && (i + k < |s| ==> s[i + k] != p[k])
    ensures !At(s, p, i)
  {
    if i + |p| <= |s| {
      assert s[i..i + |p|][k] == s[i + k];
    }
  }

  lemma QuietPath(a: string, path: string, b: string, q: char, other: char)
    requires '<' !in path && q != other && q != '<' && other != '<'
    ensures Quiet(a, Opening(q) + path, b, other)
  {
    OpeningShape(q);
    OpeningShape(other);
    hide Opening;
    var u := Opening(q) + path;
    var s := a + u + b;
    forall i | 0 <= i < |a| + |u| && |a| < i + |Opening(other)| ensures !At(s, Opening(other), i) {
      if i < |a| {
        OpeningStops(s, other, i, |a|);
      } else if i == |a| {
        assert s[i + 13] == u[13];
        Mismatch(s, Opening(other), i, 13);
      } else {
        assert s[i] == u[i - |a|];
        assert s[i] != '<' by { assert i - |a| >= 14 || u[i - |a|] == Opening(q)[1..][i - |a| - 1]; }
        Mismatch(s, Opening(other), i, 0);
      }
    }
  }

  predicate Quote(q: char) {
    q == '\'' || q == '"'
  }

  predicate PlainName(name: string) {
    '\'' !in name && '"' !in name && '<' !in name
  }

  lemma OneExchange(ctx: string, p: Piece, q: char, other: char, name: string)
    requires Quote(q) && Quote(other) && q != other && PlainName(name) && '<' !in p.path
    requires |p.pre| >= |Opening(q)| && At(p.pre, Opening(q), |p.pre| - |Opening(q)|)
    requires Clean(Paths(ctx + p.pre + p.path + p.rest, other))
    ensures Paths(ctx + p.pre + ClonePath(p.path, name) + p.rest, other) == Paths(ctx + p.pre + p.path + p.rest, other)
  {
    OpeningShape(q);
    hide Opening, Paths, ClonePath, Quiet, Clean;
    var cut := |p.pre| - |Opening(q)|;
    assert p.pre == p.pre[..cut] + Opening(q);
    var a := ctx + p.pre[..cut];
    var clone := ClonePath(p.path, name);
    CloneFree(p.path, name, '<');
    if other !in p.path { CloneFree(p.path, name, other); }
    QuietPath(a, p.path, p.rest, q, other);
    QuietPath(a, clone, p.rest, q, other);
    assert other !in Opening(q) by { OtherNotInOpening(q, other); }
    assert ctx + p.pre + p.path + p.rest == a + (Opening(q) + p.path) + p.rest;
    assert ctx + p.pre + clone + p.rest == a + (Opening(q) + clone) + p.rest;
    Exchange(a, Opening(q) + p.path, Opening(q) + clone, p.rest, other);
  }

  lemma OtherNotInOpening(q: char, other: char)
    requires Quote(q) && Quote(other) && q != other
    ensures other !in Opening(q)
  {
  }

  /** Rewriting in one kind of quote leaves the paths in the other as they were, in any context. */
  lemma {:induction false} OtherQuote(ctx: string, s: string, q: char, other: char, name: string)
    requires Quote(q) && Quote(other) && q != other && PlainName(name)
    requires Clean(Paths(s, q)) && Clean(Paths(ctx + s, other))
    ensures Paths(ctx + Rewritten(s, q, name), other) == Paths(ctx + s, other)
    decreases |s|
  {
    hide NextPath, Paths, Rewritten, Clean, Opening, ClonePath;
    match NextPath(s, q)
    case None => NothingThere(s, q, name);
    case Some(p) =>
      CleanHead(s, q, name, p);
      var clone := ClonePath(p.path, name);
      assert ctx + s == ctx + p.pre + p.path + p.rest;
      OneExchange(ctx, p, q, other, name);
      OtherQuote(ctx + p.pre + clone, p.rest, q, other, name);
      assert ctx + (p.pre + clone + Rewritten(p.rest, q, name)) == ctx + p.pre + clone + Rewritten(p.rest, q, name);
  }

  lemma CleanHead(s: string, q: char, name: string, p: Piece)
    requires NextPath(s, q) == Some(p) && Clean(Paths(s, q))
    ensures '<' !in p.path && Clean(Paths(p.rest, q)) && |p.rest| < |s| && s == p.pre + p.path + p.rest
    ensures Rewritten(s, q, name) == p.pre + ClonePath(p.path, name) + Rewritten(p.rest, q, name)
    ensures |p.pre| >= |Opening(q)| && At(p.pre, Opening(q), |p.pre| - |Opening(q)|)
  {
    hide Opening, ClonePath, Find;
    assert p.path in Paths(s, q);
    assert forall x :: x in Paths(p.rest, q) ==> x in Paths(s, q);
    assert s == p.pre + (p.path + p.rest);
    AtLeft(p.pre, p.path + p.rest, Opening(q), |p.pre| - |Opening(q)|);
  }

  lemma CleanClones(paths: seq<string>, name: string)
    requires Clean(paths) && PlainName(name)
    ensures Clean(ClonePaths(paths, name))
  {
    hide ClonePath;
    var clones := ClonePaths(paths, name);
    forall p | p in clones ensures '<' !in p {
      var i :| 0 <= i < |clones| && clones[i] == p;
      CloneFree(paths[i], name, '<');
    }
  }

  lemma Nothing(s: string)
    ensures "" + s == s
  {
  }

  /** After rewriting, the extractor finds the clone of every path it found before, in the same order. */
  lemma RewriteThenExtract(xml: string, name: string)
    requires PlainName(name) && Clean(DiskPaths(xml))
    ensures DiskPaths(RewrittenDisks(xml, name)) == ClonePaths(DiskPaths(xml), name)
    ensures EmptyPath(xml, name) <==> "" in DiskPaths(xml)
  {
    hide Find, Paths, Rewritten, ClonePath;
    var single, double := Paths(xml, '\''), Paths(xml, '"');
    assert Clean(single) && Clean(double);
    var once := Rewritten(xml, '\'', name);
    SameQuote(xml, '\'', name);
    Nothing(xml);
    Nothing(once);
    OtherQuote("", xml, '\'', '"', name);
    CleanClones(single, name);
    var twice := Rewritten(once, '"', name);
    SameQuote(once, '"', name);
    OtherQuote("", once, '"', '\'', name);
    Nothing(twice);
  }

  // ── Everything else stays ─────────────────────────────────────────────────

  /** The text between the paths. */
  function Gaps(s: string, q: char): (r: seq<string>)
    ensures |r| == |Paths(s, q)| + 1
    decreases |s|
  {
    match NextPath(s, q)
    case None => [s]
    case Some(p) => [p.pre] + Gaps(p.rest, q)
  }

  /** Gaps and paths in turn. */
  function Weave(gaps: seq<string>, paths: seq<string>): string
    requires |gaps| == |paths| + 1
  {
    if paths == [] then gaps[0] else gaps[0] + paths[0] + Weave(gaps[1..], paths[1..])
  }

  /** The rewritten text has the gaps of the original and the clones' paths, in turn. */
  lemma {:induction false} OutsideUnchanged(s: string, q: char, name: string)
    ensures s == Weave(Gaps(s, q), Paths(s, q))
    ensures Rewritten(s, q, name) == Weave(Gaps(s, q), ClonePaths(Paths(s, q), name))
    decreases |s|
  {
    hide Find, Opening, ClonePath;
    match NextPath(s, q)
    case None =>
    case Some(p) =>
      OutsideUnchanged(p.rest, q, name);
      assert ClonePaths(Paths(s, q), name)[1..] == ClonePaths(Paths(p.rest, q), name);
  }

  // ── What a clone's path is ────────────────────────────────────────────────

  /** For a path with a directory: same directory, new base name, same extension from the last dot on. */
  lemma CloneShape(dir: string, base: string, ext: string, name: string)
    requires '/' !in base && '/' !in ext
    requires ext == "" || (ext[0] == '.' && '.' !in ext[1..])
    requires ext == "" ==> '.' !in base
    ensures SplitPath(dir + "/" + base + ext) == PathParts(dir, base, ext)
    ensures ClonePath(dir + "/" + base + ext, name) == dir + "/" + name + ext
  {
    var path := dir + "/" + base + ext;
    var file := base + ext;
    assert path == dir + "/" + file;
    assert path[|dir| + 1..] == file;
    LastIs(path, '/', |dir|);
    assert path[..|dir|] == dir;
    hide Last;
    if ext != "" {
      LastIs(file, '.', |base|);
    }
  }

  lemma LastIs(s: string, c: char, i: nat)
    requires i < |s| && s[i] == c && c !in s[i + 1..]
    ensures Last(s, c) == Some(i)
  {
    forall j | i < j < |s| ensures s[j] != c {
      assert s[i + 1..][j - i - 1] == s[j];
    }
    assert Last(s, c).Some?;
  }

  /** Without a slash the first character is taken for the directory's end and lost. */
  lemma NoSlash(path: string, name: string)
    requires path != "" && '/' !in path
    ensures SplitPath(path).dir == ""
    ensures SplitPath(path).base + SplitPath(path).ext == path[1..]
  {
    assert path[..0] == "";
  }

  // ── When two disks get one file ───────────────────────────────────────────

  lemma ExtensionInFile(path: string)
    requires path != ""
    ensures '/' !in SplitPath(path).ext
  {
    var slash := match Last(path, '/') case Some(i) => i case None => 0;
    var file := path[slash + 1..];
    forall k | 0 <= k < |file| ensures file[k] != '/' {
      assert file[k] == path[slash + 1 + k];
    }
    hide Last;
  }

  lemma DirectoryEnds(dir: string, rest: string)
    requires '/' !in rest
    ensures Last(dir + "/" + rest, '/') == Some(|dir|)
  {
    var s := dir + "/" + rest;
    assert s[|dir| + 1..] == rest;
    LastIs(s, '/', |dir|);
  }

  /** The clones of two disks are one file exactly when directory and extension are the same, whatever their names. */
  lemma ClonesCollideExactly(p: string, q: string, name: string)
    requires p != "" && q != "" && '/' !in name
    ensures ClonePath(p, name) == ClonePath(q, name) <==>
      SplitPath(p).dir == SplitPath(q).dir && SplitPath(p).ext == SplitPath(q).ext
  {
    ExtensionInFile(p);
    ExtensionInFile(q);
    hide SplitPath, Last;
    var a, b := SplitPath(p), SplitPath(q);
    if ClonePath(p, name) == ClonePath(q, name) {
      EndsDecide(a.dir, a.ext, b.dir, b.ext, name);
    }
  }

  lemma EndsDecide(a: string, x: string, b: string, y: string, name: string)
    requires '/' !in name && '/' !in x && '/' !in y && a + "/" + name + x == b + "/" + name + y
    ensures a == b && x == y
  {
    hide Last;
    assert a + "/" + name + x == a + "/" + (name + x) && b + "/" + name + y == b + "/" + (name + y);
    DirectoryEnds(a, name + x);
    DirectoryEnds(b, name + y);
    SameEnds(a, name + x, b, name + y);
    assert (name + x)[|name|..] == x && (name + y)[|name|..] == y;
  }

  lemma SameEnds(a: string, x: string, b: string, y: string)
    requires a + "/" + x == b + "/" + y && |a| == |b|
    ensures a == b && x == y
  {
    var s := a + "/" + x;
    assert s[..|a|] == a && s[|a| + 1..] == x && (b + "/" + y)[..|a|] == b && (b + "/" + y)[|a| + 1..] == y;
  }

  ghost predicate AllDistinct(paths: seq<string>) {
    forall i, j :: 0 <= i < j < |paths| ==> paths[i] != paths[j]
  }

  /** No two of these are in one directory with one extension. */
  ghost predicate ToldApart(paths: seq<string>)
    requires "" !in paths
  {
    forall i, j :: 0 <= i < j < |paths| ==>
      SplitPath(paths[i]).dir != SplitPath(paths[j]).dir || SplitPath(paths[i]).ext != SplitPath(paths[j]).ext
  }

  /** A template's disks get files of their own exactly when no two share both directory and extension. */
  lemma ClonesDistinctExactly(paths: seq<string>, name: string)
    requires "" !in paths && '/' !in name
    ensures AllDistinct(ClonePaths(paths, name)) <==> ToldApart(paths)
  {
    hide ClonePath, SplitPath;
    var clones := ClonePaths(paths, name);
    forall i, j | 0 <= i < j < |paths|
      ensures clones[i] == clones[j] <==>
        SplitPath(paths[i]).dir == SplitPath(paths[j]).dir && SplitPath(paths[i]).ext == SplitPath(paths[j]).ext
    {
      assert paths[i] in paths && paths[j] in paths;
      ClonesCollideExactly(paths[i], paths[j], name);
    }
  }

  // ── In the document's own words ───────────────────────────────────────────

  /** A tag that begins as nothing inside it does is found where it first stands. */
  lemma FoundFirst(a: string, p: string, b: string)
    requires p != "" && p[0] !in p[1..] && Find(a, p) == None
    ensures Find(a + p + b, p) == Some(|a|)
  {
    hide Find;
    var s := a + p + b;
    assert s[|a|..|a| + |p|] == p;
    forall j | 0 <= j < |a| ensures !At(s, p, j) {
      if j + |p| <= |a| {
        assert s == a + (p + b);
        AtLeft(a, p + b, p, j);
        FindNone(a, p, j);
      } else {
        assert s[|a|] == p[0] && p[|a| - j] == p[1..][|a| - j - 1];
        Mismatch(s, p, j, |a| - j);
      }
    }
    FindIs(s, p, |a|);
  }

  lemma FindNone(a: string, p: string, j: nat)
    requires Find(a, p) == None
    ensures !At(a, p, j)
  {
  }

  lemma SourceTag(q: char)
    requires Quote(q)
    ensures Opening(q) == "<source file=" + [q] && Opening(q)[0] !in Opening(q)[1..]
  {
  }

  /** The file of the first disk element is the first path. */
  lemma DiskFound(a: string, path: string, b: string, q: char)
    requires Quote(q) && q !in path && Find(a, "<source file=" + [q]) == None
    ensures Paths(a + "<source file=" + [q] + path + [q] + b, q) == [path] + Paths([q] + b, q)
  {
    hide Find, Opening, NextPath;
    SourceTag(q);
    var p := Opening(q);
    FoundFirst(a, p, "");
    assert a + p + "" == a + p;
    var s := a + "<source file=" + [q] + path + [q] + b;
    assert s == (a + p) + path + ([q] + b);
    NextPathIs(a + p, path, [q] + b, q);
    Unfold(s, q, "", Piece(a + p, path, [q] + b));
  }

  /** Both kinds of quote, single ones first. */
  lemma DiskPathsAre(xml: string)
    ensures DiskPaths(xml) == Paths(xml, '\'') + Paths(xml, '"')
  {
  }
}
