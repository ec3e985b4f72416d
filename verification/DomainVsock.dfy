/** Setting the vsock CID in a domain's XML, over whatever element it already has. */
module DomainVsock {
  import opened Options
  import opened DomainXml
  import opened CloneDisks

  function Digit(n: nat): char
    requires n < 10
  {
    '0' + n as char
  }

  function Decimal(n: nat): (r: string)
    ensures forall i :: 0 <= i < |r| ==> '0' <= r[i] <= '9'
  {
    if n < 10 then [Digit(n)] else Decimal(n / 10) + [Digit(n % 10)]
  }

  function Before(): string { " model='virtio'>\n      " }
  function Address(cid: nat): string { "<cid auto='no' address='" + Decimal(cid) + "'/>\n    " }

  /** The element from its opening bracket on. */
  function Core(cid: nat): string {
    "<vsock" + (Before() + Address(cid)) + "</vsock>"
  }

  function Element(cid: nat): string {
    "    " + Core(cid)
  }

  function Inserted(xml: string, cid: nat): Option<string> {
    match Find(xml, "</devices>")
    case Some(pos) => if pos <= |xml| then Some(xml[..pos] + (Element(cid) + "\n  ") + xml[pos..]) else None
    case None => None
  }

  /** None for a text without a place for devices. */
  function SetVsock(xml: string, cid: nat): Option<string> {
    match Find(xml, "<vsock")
    case None => Inserted(xml, cid)
    case Some(s) =>
      match Find(xml[s..], "</vsock>")
      case None => Inserted(xml, cid)
      case Some(re) => Some(xml[..s] + Element(cid) + xml[s + re + 8..])
  }

  method SetVsockInXml(xml: string, cid: nat) returns (r: Option<string>)
    ensures r == SetVsock(xml, cid)
  {
    hide Find, Element;
    var elem := Element(cid);
    var out := xml;
    var s := Find(out, "<vsock");
    if s.Some? {
      Inside(out, "<vsock", s.value);
      var re := Find(out[s.value..], "</vsock>");
      if re.Some? {
        Inside(out[s.value..], "</vsock>", re.value);
        out := out[..s.value] + elem + out[s.value + re.value + 8..];
        return Some(out);
      }
    }
    var pos := Find(out, "</devices>");
    if pos.Some? {
      Inside(out, "</devices>", pos.value);
      out := out[..pos.value] + (elem + "\n  ") + out[pos.value..];
      return Some(out);
    }
    return None;
  }

  // ── Where the element is found again ──────────────────────────────────────

  lemma BeforeShape()
    ensures forall i :: 0 <= i < |Before()| ==> Before()[i] != '<'
  {
  }

  lemma AddressShape(cid: nat)
    ensures |Address(cid)| > 1 && Address(cid)[1] == 'c'
    ensures forall i :: 0 < i < |Address(cid)| ==> Address(cid)[i] != '<'
  {
    var d := Decimal(cid);
    var head, tail := "<cid auto='no' address='", "'/>\n    ";
    assert forall i :: 0 < i < |head| ==> head[i] != '<';
    assert forall i :: 0 <= i < |tail| ==> tail[i] != '<';
    hide Decimal;
    assert Address(cid) == head + d + tail;
  }

  /** The closing tag is found at the end of the element and not before. */
  lemma CoreCloses(cid: nat, b: string)
    ensures Find(Core(cid) + b, "</vsock>") == Some(|Core(cid)| - 8)
  {
    BeforeShape();
    AddressShape(cid);
    hide Before, Address, Find;
    var s := Core(cid) + b;
    var open := "<vsock" + (Before() + Address(cid));
    var end := |open|;
    assert s == open + ("</vsock>" + b);
    assert s[end..end + 8] == "</vsock>";
    forall j | 0 <= j < end ensures !At(s, "</vsock>", j) {
      assert s[j] == open[j];
      Mismatch(s, "</vsock>", j, if s[j] == '<' then 1 else 0);
    }
    FindIs(s, "</vsock>", end);
  }

  /** After text without an opening tag, the element set is the first one. */
  lemma ElementFirst(a: string, cid: nat, b: string)
    requires forall j: nat :: !At(a, "<vsock", j)
    ensures Find(a + Element(cid) + b, "<vsock") == Some(|a| + 4)
  {
    hide Before, Address, Find;
    var s := a + Element(cid) + b;
    assert s == a + ("    " + ("<vsock" + (Before() + Address(cid)) + "</vsock>" + b));
    assert s[|a| + 4..|a| + 10] == "<vsock";
    forall j | 0 <= j < |a| + 4 ensures !At(s, "<vsock", j) {
      if j + 6 <= |a| {
        assert s == a + (Element(cid) + b);
        AtLeft(a, Element(cid) + b, "<vsock", j);
      } else if j < |a| {
        Mismatch(s, "<vsock", j, |a| - j);
      } else {
        Mismatch(s, "<vsock", j, 0);
      }
    }
    FindIs(s, "<vsock", |a| + 4);
  }

  /** The opening tag of some vsock element has no closing tag after it and stands before the place for devices. */
  predicate Swallows(xml: string) {
    match (Find(xml, "<vsock"), Find(xml, "</devices>"))
    case (Some(s), Some(pos)) => s < pos && s <= |xml| && Find(xml[s..], "</vsock>").None?
    case _ => false
  }

  /** What stood between the two parts: an element up to its closing tag, or nothing before the place for devices. */
  ghost predicate Replaced(xml: string, a: string, b: string) {
    (exists e :: xml == a + ("<vsock" + e + "</vsock>") + b) ||
    (exists rest :: xml == a + ("</devices>" + rest) && b == "\n  " + ("</devices>" + rest))
  }

  lemma SetSplits(xml: string, cid: nat) returns (a: string, b: string)
    requires !Swallows(xml) && SetVsock(xml, cid).Some?
    ensures forall j: nat :: !At(a, "<vsock", j)
    ensures forall c :: SetVsock(xml, c) == Some(a + Element(c) + b)
    ensures Replaced(xml, a, b)
  {
    hide Find, Element, At, Replaced;
    var s := Find(xml, "<vsock");
    if s.Some? { Inside(xml, "<vsock", s.value); }
    if s.Some? && Find(xml[s.value..], "</vsock>").Some? {
      var re := Find(xml[s.value..], "</vsock>").value;
      Inside(xml[s.value..], "</vsock>", re);
      a, b := xml[..s.value], xml[s.value + re + 8..];
      ElementReplaced(xml, s.value, re);
    } else {
      var pos := Find(xml, "</devices>").value;
      Inside(xml, "</devices>", pos);
      a, b := xml[..pos], "\n  " + xml[pos..];
      forall c ensures SetVsock(xml, c) == Some(a + Element(c) + b) {
        assert xml[..pos] + (Element(c) + "\n  ") + xml[pos..] == a + Element(c) + b;
      }
      PlaceFound(xml, pos);
    }
    forall j: nat ensures !At(a, "<vsock", j) {
      NoneBefore(xml, |a|, "<vsock", j);
    }
  }

  lemma ElementReplaced(xml: string, s: nat, re: nat)
    requires Find(xml, "<vsock") == Some(s) && s + 6 <= |xml|
    requires Find(xml[s..], "</vsock>") == Some(re) && s + re + 8 <= |xml|
    ensures Replaced(xml, xml[..s], xml[s + re + 8..])
  {
    hide Find;
    assert xml[s..s + 6] == "<vsock" && xml[s..][re..re + 8] == "</vsock>";
    assert xml[s..][re] == '<' && xml[s..][re + 1] == '/' by {
      assert xml[s..][re..re + 8][0] == '<' && xml[s..][re..re + 8][1] == '/';
    }
    forall i | 0 <= i < 6 ensures xml[s..][i] == "<vsock"[i] {
      assert xml[s..s + 6][i] == "<vsock"[i];
    }
    assert re >= 6;
    var e := xml[s + 6..s + re];
    assert xml == xml[..s] + ("<vsock" + e + "</vsock>") + xml[s + re + 8..];
  }

  lemma PlaceFound(xml: string, pos: nat)
    requires Find(xml, "</devices>") == Some(pos) && pos + 10 <= |xml|
    ensures Replaced(xml, xml[..pos], "\n  " + xml[pos..])
  {
    hide Find;
    assert xml[pos..pos + 10] == "</devices>";
    var rest := xml[pos + 10..];
    assert xml[pos..] == "</devices>" + rest;
    assert xml == xml[..pos] + ("</devices>" + rest);
  }

  lemma NoneBefore(xml: string, n: nat, p: string, j: nat)
    requires n <= |xml| && p != "" && (Find(xml, p).None? || Find(xml, p).value >= n)
    ensures !At(xml[..n], p, j)
  {
    hide Find;
    if j + |p| <= n {
      assert xml == xml[..n] + xml[n..];
      AtLeft(xml[..n], xml[n..], p, j);
    }
  }

  /** Unless an open element swallows it, setting a CID again replaces the first setting, only indented more. */
  lemma LastCidWins(xml: string, first: nat, second: nat) returns (a: string, b: string)
    requires !Swallows(xml) && SetVsock(xml, first).Some?
    ensures SetVsock(xml, first) == Some(a + Element(first) + b)
    ensures SetVsock(xml, second) == Some(a + Element(second) + b)
    ensures SetVsock(a + Element(first) + b, second) == Some(a + "    " + Element(second) + b)
    ensures Replaced(xml, a, b)
  {
    hide Find, At, Core, Replaced;
    a, b := SetSplits(xml, first);
    var x := a + Element(first) + b;
    ElementFirst(a, first, b);
    CoreCloses(first, b);
    assert x[|a| + 4..] == Core(first) + b;
    assert x[..|a| + 4] == a + "    ";
    assert x[|a| + 4 + (|Core(first)| - 8) + 8..] == b by { CoreLong(first); }
  }

  lemma CoreLong(cid: nat)
    ensures |Core(cid)| >= 8
  {
  }

  lemma CrossesNot(t: string, w: string, p: string, j: nat)
    requires j < |t| < j + |p| && w != "" && w[0] !in p
    ensures !At(t + w, p, j)
  {
    assert p[|t| - j] in p;
    Mismatch(t + w, p, j, |t| - j);
  }

  lemma ClosesAfter(t: string, cid: nat, b: string)
    requires Find(t, "</vsock>") == None
    ensures Find(t + Element(cid) + b, "</vsock>") == Some(|t| + |Element(cid)| - 8)
  {
    hide Find, Core;
    var u := t + "    ";
    var w := Core(cid) + b;
    assert t + Element(cid) + b == u + w;
    assert u + w == t + ("    " + w);
    forall j | 0 <= j < |u| ensures !At(u + w, "</vsock>", j) {
      if j + 8 <= |t| {
        AtLeft(t, "    " + w, "</vsock>", j);
      } else if j < |t| {
        CrossesNot(t, "    " + w, "</vsock>", j);
      } else {
        Mismatch(u + w, "</vsock>", j, 0);
      }
    }
    FindRight(u, w, "</vsock>");
    CoreCloses(cid, b);
  }

  /**
   With an open element before the place for devices, the second setting takes away everything from
   that element to the place: `t`, which the first setting had kept.
   */
  lemma OpenElementSwallows(xml: string, first: nat, second: nat) returns (h: string, t: string, b: string)
    requires Swallows(xml)
    ensures t != "" && xml == h + t + b
    ensures SetVsock(xml, first) == Some(h + t + Element(first) + ("\n  " + b))
    ensures SetVsock(h + t + Element(first) + ("\n  " + b), second) == Some(h + Element(second) + ("\n  " + b))
  {
    hide Find, Element, At, SetVsock;
    StraySet(xml, first);
    var s, pos := Find(xml, "<vsock").value, Find(xml, "</devices>").value;
    Inside(xml, "</devices>", pos);
    h, t, b := xml[..s], xml[s..pos], xml[pos..];
    var rest := "\n  " + b;
    var x := h + t + Element(first) + rest;
    assert xml[..pos] + (Element(first) + "\n  ") + xml[pos..] == x;
    OpenTagInside(xml, s, pos);
    assert xml[..pos] == h + t;
    assert x == (h + t) + (Element(first) + rest);
    FindLeft(h + t, Element(first) + rest, "<vsock", s);
    assert x[s..] == t + Element(first) + rest;
    NotInPart(xml[s..], pos - s, "</vsock>");
    assert xml[s..][..pos - s] == t;
    ClosesAfter(t, first, rest);
    ElementLong(first);
    assert x[s + (|t| + |Element(first)| - 8) + 8..] == rest;
    assert x[..s] == h;
    Replaces(x, s, |t| + |Element(first)| - 8, second);
  }

  lemma StraySet(xml: string, cid: nat)
    requires Swallows(xml)
    ensures SetVsock(xml, cid) == Inserted(xml, cid)
  {
    hide Find, Element;
  }

  lemma Replaces(x: string, s: nat, re: nat, cid: nat)
    requires Find(x, "<vsock") == Some(s) && s <= |x| && Find(x[s..], "</vsock>") == Some(re)
    ensures s + re + 8 <= |x|
    ensures SetVsock(x, cid) == Some(x[..s] + Element(cid) + x[s + re + 8..])
  {
    hide Find, Element;
    Inside(x[s..], "</vsock>", re);
  }

  lemma ElementLong(cid: nat)
    ensures |Element(cid)| >= 8
  {
    CoreLong(cid);
    hide Core;
  }

  lemma NotInPart(s: string, n: nat, p: string)
    requires n <= |s| && p != "" && Find(s, p) == None
    ensures Find(s[..n], p) == None
  {
    hide Find;
    match Find(s[..n], p)
    case None =>
    case Some(j) => NoneBefore(s, n, p, j);
  }

  lemma OpenTagInside(xml: string, s: nat, pos: nat)
    requires Find(xml, "<vsock") == Some(s) && Find(xml, "</devices>") == Some(pos) && s < pos <= |xml|
    ensures s + 6 <= pos && Find(xml[..pos], "<vsock") == Some(s)
  {
    hide Find;
    if pos < s + 6 {
      assert xml[pos..pos + 10][0] == '<';
      Mismatch(xml, "<vsock", s, pos - s);
    }
    assert xml == xml[..pos] + xml[pos..];
    FindShrinks(xml[..pos], xml[pos..], "<vsock", s);
  }

  // ── Reading the CID back ──────────────────────────────────────────────────

  predicate AllDigits(s: string) {
    s != "" && forall i :: 0 <= i < |s| ==> '0' <= s[i] <= '9'
  }

  /** The number that a string of digits denotes. */
  function ReadDecimal(s: string): nat
    requires forall i :: 0 <= i < |s| ==> '0' <= s[i] <= '9'
  {
    if s == "" then 0 else 10 * ReadDecimal(s[..|s| - 1]) + (s[|s| - 1] - '0') as nat
  }

  lemma {:induction false} DecimalReadBack(n: nat)
    ensures AllDigits(Decimal(n)) && ReadDecimal(Decimal(n)) == n
  {
    if n < 10 {
      assert Decimal(n)[..0] == "";
    } else {
      DecimalReadBack(n / 10);
      assert Decimal(n)[..|Decimal(n)| - 1] == Decimal(n / 10);
    }
  }

  /** The address of the first vsock element of a text, if it is a number. */
  function VsockAddress(xml: string): Option<nat> {
    match Find(xml, "<vsock")
    case None => None
    case Some(s) =>
      if s > |xml| then None else
      match Find(xml[s..], "address='")
      case None => None
      case Some(i) =>
        if s + i + 9 > |xml| then None else
        match Find(xml[s + i + 9..], "'")
        case None => None
        case Some(n) =>
          var digits := xml[s + i + 9..][..if n <= |xml| - (s + i + 9) then n else 0];
          if AllDigits(digits) then Some(ReadDecimal(digits)) else None
  }

  function BeforeAddress(): string {
    "<vsock" + Before() + "<cid auto='no' "
  }

  /** No letter a is followed by a d, nor ends the text. */
  ghost predicate NoAd(s: string) {
    forall i :: 0 <= i < |s| && s[i] == 'a' ==> i + 1 < |s| && s[i + 1] != 'd'
  }

  lemma NoAdJoin(s: string, t: string)
    requires NoAd(s) && NoAd(t)
    ensures NoAd(s + t)
  {
    forall i | 0 <= i < |s + t| && (s + t)[i] == 'a' ensures i + 1 < |s + t| && (s + t)[i + 1] != 'd' {
      if i < |s| { assert s[i] == 'a'; } else { assert t[i - |s|] == 'a'; }
    }
  }

  lemma BeforeShapes()
    ensures NoAd("<vsock") && NoAd(Before())
  {
  }

  lemma CidShape()
    ensures NoAd("<cid auto='no' ")
  {
    var s := "<cid auto='no' ";
    assert s[5] == 'a' && s[6] == 'u';
  }

  lemma BeforeAddressShape()
    ensures NoAd(BeforeAddress())
  {
    BeforeShapes();
    CidShape();
    hide NoAd, Before;
    NoAdJoin("<vsock", Before());
    NoAdJoin("<vsock" + Before(), "<cid auto='no' ");
  }

  lemma CoreParts(cid: nat, b: string)
    ensures Core(cid) + b == BeforeAddress() + ("address='" + (Decimal(cid) + ("'/>\n    </vsock>" + b)))
  {
    hide Decimal, Before;
    assert "<cid auto='no' address='" == "<cid auto='no' " + "address='";
    assert "'/>\n    " + "</vsock>" == "'/>\n    </vsock>";
    var d := Decimal(cid);
    assert Core(cid) == "<vsock" + (Before() + ("<cid auto='no' " + "address='" + d + "'/>\n    ")) + "</vsock>";
  }

  lemma AddressFound(cid: nat, b: string)
    ensures Find(Core(cid) + b, "address='") == Some(|BeforeAddress()|)
    ensures |BeforeAddress()| + 9 <= |Core(cid) + b|
    ensures (Core(cid) + b)[|BeforeAddress()| + 9..] == Decimal(cid) + ("'/>\n    </vsock>" + b)
  {
    CoreParts(cid, b);
    BeforeAddressShape();
    hide Find, BeforeAddress, Core, Decimal;
    var h := BeforeAddress();
    var tail := Decimal(cid) + ("'/>\n    </vsock>" + b);
    var s := h + ("address='" + tail);
    assert Core(cid) + b == s;
    assert s[|h|..|h| + 9] == "address='" && s[|h| + 9..] == tail;
    forall j | 0 <= j < |h| ensures !At(s, "address='", j) {
      assert s[j] == h[j];
      if h[j] == 'a' { assert s[j + 1] == h[j + 1]; }
      Mismatch(s, "address='", j, if s[j] == 'a' then 1 else 0);
    }
    FindIs(s, "address='", |h|);
  }

  /** Where no open element stands before it, the address in the result is the CID asked for. */
  lemma CidReadBack(xml: string, cid: nat)
    requires !Swallows(xml) && SetVsock(xml, cid).Some?
    ensures VsockAddress(SetVsock(xml, cid).value) == Some(cid)
  {
    var a, b := SetSplits(xml, cid);
    var x := a + Element(cid) + b;
    ElementFirst(a, cid, b);
    AddressFound(cid, b);
    DecimalReadBack(cid);
    var d, tail := Decimal(cid), "'/>\n    </vsock>" + b;
    hide Find, At, Core, Replaced, Decimal, SetVsock, Swallows, BeforeAddress, ReadDecimal;
    FindChar(d, tail, '\'');
    ReadsAddress(x, a, cid, b);
  }

  lemma ReadsAddress(x: string, a: string, cid: nat, b: string)
    requires x == a + Element(cid) + b && Find(x, "<vsock") == Some(|a| + 4)
    requires var d := Decimal(cid); var tail := "'/>\n    </vsock>" + b; var h := |BeforeAddress()|;
      && Find(Core(cid) + b, "address='") == Some(h) && h + 9 <= |Core(cid) + b|
      && (Core(cid) + b)[h + 9..] == d + tail && Find(d + tail, "'") == Some(|d|)
      && AllDigits(d) && ReadDecimal(d) == cid
    ensures VsockAddress(x) == Some(cid)
  {
    hide Find, Core, Decimal, BeforeAddress, ReadDecimal, AllDigits;
    var d, h := Decimal(cid), |BeforeAddress()|;
    var tail := "'/>\n    </vsock>" + b;
    assert x == a + "    " + (Core(cid) + b);
    assert x[|a| + 4..] == Core(cid) + b;
    assert x[|a| + 4 + h + 9..] == (Core(cid) + b)[h + 9..];
    assert (d + tail)[..|d|] == d;
  }

  /** Different CIDs give different texts. */
  lemma CidsTellApart(xml: string, c: nat, c': nat)
    requires !Swallows(xml) && SetVsock(xml, c).Some? && SetVsock(xml, c') == SetVsock(xml, c)
    ensures c == c'
  {
    hide VsockAddress, SetVsock, Swallows;
    CidReadBack(xml, c);
    CidReadBack(xml, c');
  }
}
