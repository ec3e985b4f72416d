/**
 The whole clone of a domain's XML: new name, no uuid, new disk paths; and why the paths it names
 are those under which the volumes were cloned from the template's own XML.
 */
module DomainClone {
  import opened Options
  import opened DomainXml
  import opened CloneDisks

  /** `Refused` is the error for a text without a name, `Panics` an index out of order or an empty path. */
  datatype Outcome = Done(xml: string) | Refused | Panics

  function Renamed(xml: string, name: string): Outcome {
    match (Find(xml, "<name>"), Find(xml, "</name>"))
    case (Some(s), Some(e)) =>
      if e < s + 6 || |xml| < s + 6 then Panics
      else Done(xml[..s + 6] + name + xml[e..])
    case _ => Refused
  }

  /** Where the uuid element starts and where the text goes on after it. */
  function UuidSpan(xml: string): (r: Option<(nat, nat)>)
    ensures r.Some? ==> r.value.0 < r.value.1 <= |xml|
  {
    match Find(xml, "<uuid>")
    case None => None
    case Some(s) =>
      match Find(xml[s..], "</uuid>")
      case None => None
      case Some(e) =>
        var end := s + e + 7;
        Some((s, if end < |xml| && xml[end] == '\n' then end + 1 else end))
  }

  function WithoutUuid(xml: string): string {
    match UuidSpan(xml)
    case None => xml
    case Some(span) => xml[..span.0] + xml[span.1..]
  }

  method RewriteDomainXml(xml: string, name: string) returns (r: Outcome)
    ensures r ==
      match Renamed(xml, name)
      case Done(named) =>
        var out := WithoutUuid(named);
        if EmptyPath(out, name) then Panics else Done(RewrittenDisks(out, name))
      case o => o
  {
    hide Find, EmptyPath, RewrittenDisks;
    var out := xml;
    var s := Find(out, "<name>");
    var e := Find(out, "</name>");
    if s.None? || e.None? {
      return Refused;
    }
    Inside(out, "<name>", s.value);
    Inside(out, "</name>", e.value);
    if e.value < s.value + 6 {
      return Panics;
    }
    out := out[..s.value + 6] + name + out[e.value..];
    var u := Find(out, "<uuid>");
    if u.Some? {
      Inside(out, "<uuid>", u.value);
      var f := Find(out[u.value..], "</uuid>");
      if f.Some? {
        Inside(out[u.value..], "</uuid>", f.value);
        var end := u.value + f.value + 7;
        var trim := if end < |out| && out[end] == '\n' then end + 1 else end;
        out := out[..u.value] + out[trim..];
      }
    }
    var rewritten := RewriteDiskPaths(out, name);
    r := if rewritten.None? then Panics else Done(rewritten.value);
  }

  /** The destinations of the volumes that the cloner creates, from the template's text. */
  method CloneTargets(xml: string, name: string) returns (r: Option<seq<string>>)
    ensures r == if "" in DiskPaths(xml) then None else Some(ClonePaths(DiskPaths(xml), name))
  {
    hide SplitPath, DiskPaths;
    var paths := ExtractDiskPaths(xml);
    var targets := [];
    for i := 0 to |paths|
      invariant targets == ClonePaths(paths, name)[..i]
      invariant "" !in paths[..i]
    {
      if paths[i] == "" {
        return None;
      }
      var parts := SplitPath(paths[i]);
      assert parts.dir + "/" + name + parts.ext == ClonePath(paths[i], name);
      targets := targets + [parts.dir + "/" + name + parts.ext];
    }
    assert paths[..|paths|] == paths && ClonePaths(paths, name)[..|paths|] == ClonePaths(paths, name);
    r := Some(targets);
  }

  // ── Edits that leave the paths alone ──────────────────────────────────────

  /** The name element, if it comes in order, holds text only. */
  predicate ProperName(xml: string) {
    match (Find(xml, "<name>"), Find(xml, "</name>"))
    case (Some(s), Some(e)) => s + 6 <= e <= |xml| && '<' !in xml[s + 6..e]
    case _ => true
  }

  /** Every tag begun in `a` ends in it. */
  ghost predicate TagsEnd(a: string) {
    forall i :: 0 <= i < |a| && a[i] == '<' ==> exists j :: i < j < |a| && a[j] == '>'
  }

  /** The uuid element holds text only and stands outside other tags. */
  ghost predicate ProperUuid(xml: string) {
    match UuidSpan(xml)
    case None => true
    case Some(span) =>
      TagsEnd(xml[..span.0]) && forall i :: span.0 < i < span.1 && xml[i] == '<' ==> i + 1 < |xml| && xml[i + 1] == '/'
  }

  /** Text after a tag whose name does not begin as a disk source's is quiet. */
  lemma QuietElement(a: string, u: string, b: string, q: char)
    requires Quote(q) && |u| >= 2 && u[0] == '<' && u[1] != 's'
    requires forall i :: 0 < i < |u| && u[i] == '<' ==> |a| + i + 1 < |a + u + b| && (a + u + b)[|a| + i + 1] == '/'
    ensures Quiet(a, u, b, q)
  {
    var s := a + u + b;
    OpeningShape(q);
    OpeningSecond(q);
    hide Opening;
    forall i | 0 <= i < |a| + |u| && |a| < i + |Opening(q)| ensures !At(s, Opening(q), i) {
      if i < |a| {
        OpeningStops(s, q, i, |a|);
      } else {
        assert s[i] == u[i - |a|];
        Mismatch(s, Opening(q), i, if s[i] == '<' then 1 else 0);
      }
    }
  }

  lemma OpeningSecond(q: char)
    ensures Opening(q)[1] == 's'
  {
  }

  lemma QuietJoin(a: string, b: string, q: char)
    requires Quote(q) && TagsEnd(a)
    ensures Quiet(a, "", b, q)
  {
    OpeningShape(q);
    hide Opening;
    var s := a + "" + b;
    forall i | 0 <= i < |a| && |a| < i + |Opening(q)| ensures !At(s, Opening(q), i) {
      if a[i] == '<' {
        var j :| i < j < |a| && a[j] == '>';
        assert Opening(q)[j - i] == Opening(q)[..13][j - i];
        assert Opening(q)[..13][j - i] in Opening(q)[..13];
        Mismatch(s, Opening(q), i, j - i);
      } else {
        Mismatch(s, Opening(q), i, 0);
      }
    }
  }

  lemma NamePieces(xml: string, name: string) returns (a: string, text: string, b: string)
    requires ProperName(xml) && Renamed(xml, name).Done?
    ensures xml == a + ("<name>" + text) + b && '<' !in text
    ensures Renamed(xml, name).xml == a + ("<name>" + name) + b
  {
    hide Find;
    var s, e := Find(xml, "<name>").value, Find(xml, "</name>").value;
    a, text, b := xml[..s], xml[s + 6..e], xml[e..];
    assert xml[s..s + 6] == "<name>";
  }

  /** Renaming leaves the paths in either quote. */
  lemma RenameKeepsPaths(xml: string, name: string, q: char)
    requires Quote(q) && PlainName(name) && ProperName(xml) && Renamed(xml, name).Done?
    requires Clean(Paths(xml, q))
    ensures Paths(Renamed(xml, name).xml, q) == Paths(xml, q)
  {
    hide Paths, Clean, Quiet, Find;
    var a, text, b := NamePieces(xml, name);
    QuietElement(a, "<name>" + text, b, q);
    QuietElement(a, "<name>" + name, b, q);
    Exchange(a, "<name>" + text, "<name>" + name, b, q);
  }

  lemma UuidKeepsPaths(xml: string, q: char)
    requires Quote(q) && ProperUuid(xml) && Clean(Paths(xml, q))
    ensures Paths(WithoutUuid(xml), q) == Paths(xml, q)
  {
    hide Paths, Clean, Quiet, Find, TagsEnd;
    match UuidSpan(xml)
    case None =>
    case Some(span) =>
      var a, u, b := xml[..span.0], xml[span.0..span.1], xml[span.1..];
      UuidStarts(xml);
      assert xml == a + u + b;
      QuietElement(a, u, b, q);
      QuietJoin(a, b, q);
      Exchange(a, u, "", b, q);
      assert a + "" + b == a + b;
  }

  lemma UuidStarts(xml: string)
    requires UuidSpan(xml).Some?
    ensures var s := UuidSpan(xml).value.0;
      s + 7 <= UuidSpan(xml).value.1 && xml[s] == '<' && xml[s + 1] == 'u'
  {
    hide Find;
    var s := UuidSpan(xml).value.0;
    assert xml[s..s + 6] == "<uuid>";
  }

  /**
   The disks named in the clone's XML are exactly the files made by the cloner from the template's
   XML, in order.
   */
  lemma CloneAgrees(xml: string, name: string)
    requires PlainName(name) && Clean(DiskPaths(xml)) && ProperName(xml)
    requires Renamed(xml, name).Done? && ProperUuid(Renamed(xml, name).xml)
    ensures var out := WithoutUuid(Renamed(xml, name).xml);
      DiskPaths(RewrittenDisks(out, name)) == ClonePaths(DiskPaths(xml), name) &&
      (EmptyPath(out, name) <==> "" in DiskPaths(xml))
  {
    hide Find, Paths, Renamed, WithoutUuid, RewrittenDisks, ProperName, ProperUuid, EmptyPath;
    var named := Renamed(xml, name).xml;
    assert Clean(Paths(xml, '\'')) && Clean(Paths(xml, '"'));
    RenameKeepsPaths(xml, name, '\'');
    RenameKeepsPaths(xml, name, '"');
    UuidKeepsPaths(named, '\'');
    UuidKeepsPaths(named, '"');
    RewriteThenExtract(WithoutUuid(named), name);
  }

  // ── In the document's own words ───────────────────────────────────────────

  lemma TagShapes()
    ensures '<' !in "<name>"[1..] && '<' !in "</name>"[1..] && '<' !in "<uuid>"[1..] && '<' !in "</uuid>"[1..]
  {
  }

  /** Text with an opening tag of another kind at its start, and none after, has no closing tag. */
  lemma NoClosing(open: string, text: string, close: string)
    requires |open| >= 2 && |close| >= 2 && open[0] == '<' && open[1] != '/' && close[0] == '<' && close[1] == '/'
    requires '<' !in open[1..] && '<' !in text
    ensures Find(open + text, close) == None
  {
    hide Find;
    var s := open + text;
    forall j: nat ensures !At(s, close, j) {
      if j < |s| && j > 0 {
        assert s[j] != '<' by { if j < |open| { assert s[j] == open[1..][j - 1]; } else { assert s[j] == text[j - |open|]; } }
        Mismatch(s, close, j, 0);
      } else if j == 0 {
        Mismatch(s, close, 0, 1);
      }
    }
    NeverFound(s, close);
  }

  lemma NeverFound(s: string, p: string)
    requires forall j: nat :: !At(s, p, j)
    ensures Find(s, p) == None
  {
    hide At;
  }

  lemma Regroup(a: string, open: string, text: string, close: string, b: string)
    ensures a + open + text + close + b == a + open + (text + close + b)
    ensures a + open + text + close + b == (a + (open + text)) + close + b
    ensures (a + open + text + close + b)[|a|..] == (open + text) + close + b
  {
    var s := a + open + text + close + b;
    assert s == a + ((open + text) + close + b);
  }

  /** The text of the first name element becomes the new name, and nothing else changes. */
  lemma NameReplaced(a: string, was: string, b: string, name: string)
    requires Find(a, "<name>") == None && Find(a, "</name>") == None && '<' !in was
    ensures Renamed(a + "<name>" + was + "</name>" + b, name) == Done(a + "<name>" + name + "</name>" + b)
  {
    hide Find;
    TagShapes();
    var xml := a + "<name>" + was + "</name>" + b;
    Regroup(a, "<name>", was, "</name>", b);
    FoundFirst(a, "<name>", was + "</name>" + b);
    NoClosing("<name>", was, "</name>");
    NoClosingAfter(a, "<name>" + was, "</name>");
    FoundFirst(a + ("<name>" + was), "</name>", b);
    var s, e := |a|, |a + ("<name>" + was)|;
    assert xml[..s + 6] == a + "<name>" && xml[e..] == "</name>" + b;
    RenamedIs(xml, name, s, e);
  }

  lemma RenamedIs(xml: string, name: string, s: nat, e: nat)
    requires Find(xml, "<name>") == Some(s) && Find(xml, "</name>") == Some(e) && s + 6 <= e <= |xml|
    ensures Renamed(xml, name) == Done(xml[..s + 6] + name + xml[e..])
  {
    hide Find;
  }

  /** A closing tag is in neither part, and cannot reach over from the first into an opening bracket. */
  lemma NoClosingAfter(a: string, t: string, close: string)
    requires Find(a, close) == None && Find(t, close) == None
    requires close != "" && '<' !in close[1..] && t != "" && t[0] == '<'
    ensures Find(a + t, close) == None
  {
    hide Find;
    forall j: nat ensures !At(a + t, close, j) {
      if j + |close| <= |a| {
        AtLeft(a, t, close, j);
        FindNone(a, close, j);
      } else if j >= |a| {
        AtRight(a, t, close, j);
        FindNone(t, close, j - |a|);
      } else {
        assert close[|a| - j] == close[1..][|a| - j - 1];
        Mismatch(a + t, close, j, |a| - j);
      }
    }
    NeverFound(a + t, close);
  }

  /** The first uuid element goes, with the line end after it, and nothing else changes. */
  lemma UuidGone(a: string, uuid: string, b: string)
    requires Find(a, "<uuid>") == None && '<' !in uuid
    ensures WithoutUuid(a + "<uuid>" + uuid + "</uuid>" + b) == a + if b != "" && b[0] == '\n' then b[1..] else b
  {
    hide Find;
    TagShapes();
    var xml := a + "<uuid>" + uuid + "</uuid>" + b;
    Regroup(a, "<uuid>", uuid, "</uuid>", b);
    FoundFirst(a, "<uuid>", uuid + "</uuid>" + b);
    NoClosing("<uuid>", uuid, "</uuid>");
    FoundFirst("<uuid>" + uuid, "</uuid>", b);
    var e := |"<uuid>" + uuid|;
    UuidSpanIs(xml, |a|, e);
    var end := |a| + e + 7;
    assert xml[..|a|] == a && xml[end..] == b;
    if b != "" && b[0] == '\n' {
      assert xml[end] == b[0] && xml[end + 1..] == b[1..];
    } else if b != "" {
      assert xml[end] == b[0];
    }
  }

  lemma UuidSpanIs(xml: string, s: nat, e: nat)
    requires Find(xml, "<uuid>") == Some(s) && s <= |xml| && Find(xml[s..], "</uuid>") == Some(e)
    ensures var end := s + e + 7;
      end <= |xml| && UuidSpan(xml) == Some((s, if end < |xml| && xml[end] == '\n' then end + 1 else end))
  {
    Inside(xml[s..], "</uuid>", e);
    hide Find;
  }

  // ── The broker's own copy ─────────────────────────────────────────────────

  /** The broker looks for the end of the name after its start only. */
  function BrokerRenamed(xml: string, name: string): Outcome {
    match Find(xml, "<name>")
    case None => Refused
    case Some(s) =>
      if |xml| < s + 6 then Refused else
      match Find(xml[s + 6..], "</name>")
      case None => Refused
      case Some(e) => if |xml| < s + 6 + e then Refused else Done(xml[..s + 6] + name + xml[s + 6 + e..])
  }

  /** The two copies of the renaming differ exactly where the host agent's panics: a closing tag before the opening one. */
  lemma CopiesAgree(xml: string, name: string)
    ensures BrokerRenamed(xml, name) == Renamed(xml, name) <==> Renamed(xml, name) != Panics
    ensures BrokerRenamed(xml, name) != Panics
  {
    hide At;
    match Find(xml, "<name>")
    case None =>
    case Some(s) =>
      Inside(xml, "<name>", s);
      forall j | s + 6 <= j ensures At(xml, "</name>", j) <==> At(xml[s + 6..], "</name>", j - (s + 6)) {
        assert xml == xml[..s + 6] + xml[s + 6..];
        AtRight(xml[..s + 6], xml[s + 6..], "</name>", j);
      }
      match Find(xml, "</name>")
      case None => NoneAfter(xml, s + 6);
      case Some(e) =>
        Inside(xml, "</name>", e);
        if e >= s + 6 {
          var t := xml[s + 6..];
          forall j | 0 <= j < e - (s + 6) ensures !At(t, "</name>", j) {
            assert !At(xml, "</name>", j + (s + 6));
          }
          FindIs(t, "</name>", e - (s + 6));
        }
  }

  lemma NoneAfter(xml: string, n: nat)
    requires n <= |xml| && Find(xml, "</name>") == None
    ensures Find(xml[n..], "</name>") == None
  {
    hide At;
    assert xml == xml[..n] + xml[n..];
    forall j: nat ensures !At(xml[n..], "</name>", j) {
      AtRight(xml[..n], xml[n..], "</name>", j + n);
    }
  }
}
