/**
 Cloning a libvirt domain by text: the disk paths of its XML are found and replaced in a string
 whose length changes on the way, once for each kind of quote.
 */
module DomainXml {
  import opened Options

  // ── Searching ─────────────────────────────────────────────────────────────

  predicate At(s: string, p: string, i: nat) {
    i + |p| <= |s| && s[i..i + |p|] == p
  }

  function FindFrom(s: string, p: string, from: nat): (r: Option<nat>)
    requires from <= |s|
    ensures r.Some? ==> from <= r.value && At(s, p, r.value) && forall j :: from <= j < r.value ==> !At(s, p, j)
    ensures r.None? ==> forall j :: from <= j ==> !At(s, p, j)
    decreases |s| - from
  {
    if At(s, p, from) then Some(from)
    else if from == |s| then None
    else FindFrom(s, p, from + 1)
  }

  /** The first occurrence. */
  function Find(s: string, p: string): (r: Option<nat>)
    ensures r.Some? ==> At(s, p, r.value) && forall j :: 0 <= j < r.value ==> !At(s, p, j)
    ensures r.None? ==> forall j :: 0 <= j ==> !At(s, p, j)
  {
    FindFrom(s, p, 0)
  }

  function Last(s: string, c: char): (r: Option<nat>)
    ensures r.Some? ==> r.value < |s| && s[r.value] == c && forall j :: r.value < j < |s| ==> s[j] != c
    ensures r.None? ==> c !in s
  {
    if s == "" then None
    else if s[|s| - 1] == c then Some(|s| - 1)
    else Last(s[..|s| - 1], c)
  }

  // ── Paths ─────────────────────────────────────────────────────────────────

  datatype PathParts = PathParts(dir: string, base: string, ext: string)

  /** The directory, name and extension; a path without a slash loses its first character. */
  function SplitPath(path: string): PathParts
    requires path != ""
  {
    var slash := match Last(path, '/') case Some(i) => i case None => 0;
    var file := path[slash + 1..];
    match Last(file, '.')
    case Some(dot) => PathParts(path[..slash], file[..dot], file[dot..])
    case None => PathParts(path[..slash], file, "")
  }

  /** Where the clone's copy of a disk goes. */
  function ClonePath(path: string, name: string): string {
    if path == "" then "" else
    var parts := SplitPath(path);
    parts.dir + "/" + name + parts.ext
  }

  function ClonePaths(paths: seq<string>, name: string): (r: seq<string>)
    ensures |r| == |paths| && forall i :: 0 <= i < |paths| ==> r[i] == ClonePath(paths[i], name)
  {
    seq(|paths|, i requires 0 <= i < |paths| => ClonePath(paths[i], name))
  }

  // ── Scanning for disk sources ─────────────────────────────────────────────

  function Opening(q: char): string {
    "<source file=" + [q]
  }

  /** The text up to the path, the path, and the text from its closing quote on. */
  datatype Piece = Piece(pre: string, path: string, rest: string)

  function NextPath(s: string, q: char): (r: Option<Piece>)
    ensures r.Some? ==>
      var p := r.value;
      s == p.pre + p.path + p.rest && q !in p.path && p.rest != "" && p.rest[0] == q && |p.rest| < |s|
    ensures r.Some? ==> |r.value.pre| >= |Opening(q)| && Find(s, Opening(q)) == Some(|r.value.pre| - |Opening(q)|)
  {
    match Find(s, Opening(q))
    case None => None
    case Some(i) =>
      var start := i + |Opening(q)|;
      var t := s[start..];
      match Find(t, [q])
      case None => None
      case Some(e) =>
        NotBefore(t, q, e);
        assert s == s[..start] + t[..e] + t[e..];
        Some(Piece(s[..start], t[..e], t[e..]))
  }

  lemma NotBefore(s: string, q: char, e: nat)
    requires Find(s, [q]) == Some(e)
    ensures e < |s| && s[e] == q && q !in s[..e]
  {
    if q in s[..e] {
      var j :| 0 <= j < e && s[..e][j] == q;
      assert At(s, [q], j);
    }
  }

  /** The disk paths in one kind of quote, in order. */
  function Paths(s: string, q: char): seq<string>
    decreases |s|
  {
    match NextPath(s, q)
    case None => []
    case Some(p) => [p.path] + Paths(p.rest, q)
  }

  /** The text with every disk path in one kind of quote replaced by its clone's. */
  function Rewritten(s: string, q: char, name: string): string
    decreases |s|
  {
    match NextPath(s, q)
    case None => s
    case Some(p) => p.pre + ClonePath(p.path, name) + Rewritten(p.rest, q, name)
  }

  function DiskPaths(xml: string): seq<string> {
    Paths(xml, '\'') + Paths(xml, '"')
  }

  function RewrittenDisks(xml: string, name: string): string {
    Rewritten(Rewritten(xml, '\'', name), '"', name)
  }

  /** An empty path makes the splitter index past its end. */
  predicate EmptyPath(xml: string, name: string) {
    "" in Paths(xml, '\'') || "" in Paths(Rewritten(xml, '\'', name), '"')
  }

  /** What one turn of the scanning loops finds: where the path starts and how long it is. */
  function NextSpan(s: string, q: char): (r: Option<(nat, nat)>)
    ensures r.Some? ==> r.value.0 + r.value.1 < |s| && r.value.0 > 0
  {
    match NextPath(s, q)
    case None => None
    case Some(p) => Some((|p.pre|, |p.path|))
  }

  lemma SpanMissing(s: string, q: char, name: string)
    requires NextSpan(s, q).None?
    ensures Paths(s, q) == [] && Rewritten(s, q, name) == s
  {
    hide Find;
  }

  lemma SpanFound(s: string, q: char, name: string)
    requires NextSpan(s, q).Some?
    ensures var (start, n) := NextSpan(s, q).value;
      && Paths(s, q) == [s[start..][..n]] + Paths(s[start..][n..], q)
      && Rewritten(s, q, name) == s[..start] + ClonePath(s[start..][..n], name) + Rewritten(s[start..][n..], q, name)
  {
    hide Find, ClonePath, Opening;
    var p := NextPath(s, q).value;
    var start, n := |p.pre|, |p.path|;
    assert s[..start] == p.pre && s[start..] == p.path + p.rest;
    assert s[start..][..n] == p.path && s[start..][n..] == p.rest;
  }

  /** The search of the loops, from `pos` on: for the opening, and then for the closing quote. */
  method FindPath(text: string, pos: nat, q: char) returns (r: Option<(nat, nat)>)
    requires pos <= |text|
    ensures r.Some? <==> NextSpan(text[pos..], q).Some?
    ensures r.Some? ==> pos <= r.value.0 && r.value.0 + r.value.1 < |text|
    ensures r.Some? ==> r.value == (pos + NextSpan(text[pos..], q).value.0, NextSpan(text[pos..], q).value.1)
  {
    hide Find, Opening, NextSpan;
    ghost var s := text[pos..];
    var pat := Opening(q);
    var found := Find(text[pos..], pat);
    if found.None? {
      NoSpan(s, q);
      return None;
    }
    Inside(s, pat, found.value);
    var start := pos + found.value + |pat|;
    Slices(text, pos, found.value + |pat|);
    var end := Find(text[start..], [q]);
    if end.None? {
      NoSpan(s, q);
      return None;
    }
    SpanIs(s, q, found.value, end.value);
    return Some((start, end.value));
  }

  lemma NoSpan(s: string, q: char)
    requires Find(s, Opening(q)).None? ||
      var i := Find(s, Opening(q)).value; i + |Opening(q)| <= |s| && Find(s[i + |Opening(q)|..], [q]).None?
    ensures NextSpan(s, q) == None
  {
    hide Find;
  }

  lemma SpanIs(s: string, q: char, i: nat, e: nat)
    requires Find(s, Opening(q)) == Some(i) && i + |Opening(q)| <= |s|
    requires Find(s[i + |Opening(q)|..], [q]) == Some(e)
    ensures NextSpan(s, q) == Some((i + |Opening(q)|, e))
  {
    hide Find;
    NotBefore(s[i + |Opening(q)|..], q, e);
  }

  method ExtractQuoted(xml: string, q: char) returns (paths: seq<string>)
    ensures paths == Paths(xml, q)
  {
    hide Find, Opening, Paths, NextSpan, Rewritten, ClonePath;
    paths := [];
    var pos := 0;
    ghost var left := xml;
    while true
      invariant 0 <= pos <= |xml| && left == xml[pos..]
      invariant Paths(xml, q) == paths + Paths(left, q)
      decreases |left|
    {
      var span := FindPath(xml, pos, q);
      if span.None? {
        SpanMissing(left, q, "");
        break;
      }
      var (start, n) := span.value;
      SpanFound(left, q, "");
      Slices(xml, pos, start - pos);
      Slices(xml, start, n);
      paths := paths + [xml[start..start + n]];
      pos := start + n;
      left := xml[pos..];
    }
  }

  lemma Inside(s: string, p: string, i: nat)
    requires Find(s, p) == Some(i)
    ensures i + |p| <= |s|
  {
  }

  lemma Slices(s: string, i: nat, k: nat)
    requires i + k <= |s|
    ensures s[i..][..k] == s[i..i + k] && s[i..][k..] == s[i + k..]
  {
  }

  method ExtractDiskPaths(xml: string) returns (paths: seq<string>)
    ensures paths == DiskPaths(xml)
  {
    var single := ExtractQuoted(xml, '\'');
    var double := ExtractQuoted(xml, '"');
    paths := single + double;
  }

  /** Replaces in place the paths in one kind of quote; None stands for the panic on an empty path. */
  method RewriteQuoted(xml: string, q: char, name: string) returns (r: Option<string>)
    ensures r == if "" in Paths(xml, q) then None else Some(Rewritten(xml, q, name))
  {
    hide Find, Opening, SplitPath, Paths, Rewritten, NextSpan;
    var out := xml;
    var search := 0;
    ghost var left := xml;
    assert out[..search] + Rewritten(left, q, name) == Rewritten(xml, q, name);
    while true
      invariant 0 <= search <= |out| && out[search..] == left
      invariant Rewritten(xml, q, name) == out[..search] + Rewritten(left, q, name)
      invariant "" in Paths(xml, q) <==> "" in Paths(left, q)
      decreases |left|
    {
      var span := FindPath(out, search, q);
      if span.None? {
        SpanMissing(left, q, name);
        assert out == out[..search] + left;
        break;
      }
      var (abs, n) := span.value;
      SpanFound(left, q, name);
      Slices(out, search, abs - search);
      Slices(out, abs, n);
      var path := out[abs..abs + n];
      if path == "" { return None; }
      var parts := SplitPath(path);
      var newPath := parts.dir + "/" + name + parts.ext;
      assert out[..abs] == out[..search] + left[..abs - search];
      left := out[abs + n..];
      ghost var head := out[..abs] + newPath;
      assert Rewritten(xml, q, name) == head + Rewritten(left, q, name);
      out := out[..abs] + newPath + out[abs + n..];
      search := abs + |newPath|;
      Prefix(head, left);
    }
    r := Some(out);
  }

  lemma Prefix(a: string, b: string)
    ensures (a + b)[..|a|] == a && (a + b)[|a|..] == b
  {
  }

  method RewriteDiskPaths(xml: string, name: string) returns (r: Option<string>)
    ensures r == if EmptyPath(xml, name) then None else Some(RewrittenDisks(xml, name))
  {
    r := RewriteQuoted(xml, '\'', name);
    if r.Some? {
      r := RewriteQuoted(r.value, '"', name);
    }
  }
}
