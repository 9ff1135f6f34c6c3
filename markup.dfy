/** Markup stripping, `remove_html` of clnews/utils.py and its copy
    `Event._remove_html` of clnews/news.py: `re.sub(r'<.*?>', '', s)`.

    The regular-expression engine scans left to right. At a `<` it looks for
    the first `>` after it; `.` does not match a newline, so the search fails
    at the first newline. On success the whole segment from `<` to `>` is
    deleted and the scan resumes after the `>`; on failure the `<` is kept
    and the scan moves one character on. */
module Markup {
  import opened Types

  /** Where a tag opened just before `u` would end: the index of the first
      `>` of `u`, provided no newline comes before it. */
  function Close(u: string): (r: Option<nat>)
    ensures r.Some? ==> r.value < |u| && u[r.value] == '>'
    ensures r.Some? ==> forall k :: 0 <= k < r.value ==> u[k] != '>' && u[k] != '\n'
    ensures r.None? ==> forall j :: 0 <= j < |u| && u[j] == '>' ==> '\n' in u[..j]
  {
    if u == [] then None
    else if u[0] == '>' then Some(0)
    else if u[0] == '\n' then
      assert forall j :: 0 < j <= |u| ==> u[..j][0] == '\n';
      None
    else
      match Close(u[1..])
      case Some(k) => Some(k + 1)
      case None =>
        assert forall j :: 0 < j <= |u| ==> u[..j] == [u[0]] + u[1..][..j - 1];
        None
  }

  /** `re.sub(r'<.*?>', '', s)`. */
  function RemoveHtml(s: string): (r: string)
    ensures |r| <= |s|
    decreases |s|
  {
    if s == [] then ""
    else if s[0] == '<' && Close(s[1..]).Some? then RemoveHtml(s[Close(s[1..]).value + 2..])
    else [s[0]] + RemoveHtml(s[1..])
  }

  /** A piece of the input as the engine sees it: a character it keeps, or
      a tag `<body>` it deletes. */
  datatype Piece = Kept(c: char) | Tag(body: string)

  /** The text the pieces were cut from. */
  function Source(ps: seq<Piece>): string
  {
    if ps == [] then ""
    else
      (match ps[0]
       case Kept(c) => [c]
       case Tag(b) => "<" + b + ">") + Source(ps[1..])
  }

  /** The characters that survive: the kept ones, in order. */
  function Visible(ps: seq<Piece>): string
  {
    if ps == [] then ""
    else (match ps[0] case Kept(c) => [c] case Tag(_) => "") + Visible(ps[1..])
  }

  /** The decomposition a left-to-right `<.*?>` scan produces: each tag runs
      from a `<` to the first `>` after it and holds no newline, and a `<` is
      kept only when no `>` follows it before the next newline. */
  ghost predicate Leftmost(ps: seq<Piece>)
  {
    ps == [] ||
    (&& (match ps[0]
         case Kept(c) => c == '<' ==> Close(Source(ps[1..])).None?
         case Tag(b) => '>' !in b && '\n' !in b)
     && Leftmost(ps[1..]))
  }

  /** The decomposition a left-to-right scan of `s` finds. */
  ghost function Scan(s: string): seq<Piece>
    decreases |s|
  {
    if s == [] then []
    else if s[0] == '<' && Close(s[1..]).Some? then
      var k := Close(s[1..]).value;
      [Tag(s[1..k + 1])] + Scan(s[k + 2..])
    else [Kept(s[0])] + Scan(s[1..])
  }

  /** The tag a scan cuts off the front of `s`: its body holds no `>` and
      no newline, and `s` is the tag followed by the rest. */
  lemma ScanTag(s: string, k: nat)
    requires |s| > 0 && s[0] == '<' && Close(s[1..]) == Some(k)
    ensures '>' !in s[1..k + 1] && '\n' !in s[1..k + 1]
    ensures s == "<" + s[1..k + 1] + ">" + s[k + 2..]
  {
    var b := s[1..k + 1];
    assert forall m :: 0 <= m < k ==> b[m] == s[1..][m];
  }

  lemma SourceFront(p: Piece, ps: seq<Piece>)
    ensures Source([p] + ps) == Source([p]) + Source(ps)
  {
    assert ([p] + ps)[1..] == ps;
    assert [p][1..] == [];
  }

  /** A tag cut off the front of a text, followed by a leftmost
      decomposition of the rest, decomposes the whole text. */
  lemma ScanTagStep(s: string, k: nat, ps: seq<Piece>)
    requires |s| > 0 && s[0] == '<' && Close(s[1..]) == Some(k)
    requires Source(ps) == s[k + 2..] && Leftmost(ps)
    ensures Source([Tag(s[1..k + 1])] + ps) == s
    ensures Leftmost([Tag(s[1..k + 1])] + ps)
  {
    ScanTag(s, k);
    SourceFront(Tag(s[1..k + 1]), ps);
    assert ([Tag(s[1..k + 1])] + ps)[1..] == ps;
  }

  /** A kept character followed by a leftmost decomposition of the rest
      decomposes the whole text. */
  lemma ScanKeptStep(s: string, ps: seq<Piece>)
    requires |s| > 0 && !(s[0] == '<' && Close(s[1..]).Some?)
    requires Source(ps) == s[1..] && Leftmost(ps)
    ensures Source([Kept(s[0])] + ps) == s
    ensures Leftmost([Kept(s[0])] + ps)
  {
    SourceFront(Kept(s[0]), ps);
    assert ([Kept(s[0])] + ps)[1..] == ps;
    assert s == [s[0]] + s[1..];
  }

  /** Every string has a leftmost decomposition: the one the scan finds. */
  lemma {:induction false} ScanDecomposes(s: string)
    ensures Source(Scan(s)) == s
    ensures Leftmost(Scan(s))
    decreases |s|
  {
    if s != [] {
      if s[0] == '<' && Close(s[1..]).Some? {
        var k := Close(s[1..]).value;
        ScanDecomposes(s[k + 2..]);
        ScanTagStep(s, k, Scan(s[k + 2..]));
      } else {
        ScanDecomposes(s[1..]);
        ScanKeptStep(s, Scan(s[1..]));
      }
    }
  }

  /** A character that does not open a tag is kept, and the scan goes on
      after it. */
  lemma RemoveHtmlKeepsChar(c: char, rest: string)
    requires c == '<' ==> Close(rest).None?
    ensures RemoveHtml([c] + rest) == [c] + RemoveHtml(rest)
  {
    assert ([c] + rest)[1..] == rest;
  }

  /** A tag body free of `>` and newlines ends exactly at the `>` after it. */
  lemma {:induction false} CloseAfterBody(b: string, rest: string)
    requires '>' !in b && '\n' !in b
    ensures Close(b + ">" + rest) == Some(|b|)
  {
    if b != [] {
      assert (b + ">" + rest)[1..] == b[1..] + ">" + rest;
      CloseAfterBody(b[1..], rest);
    }
  }

  /** The result is fully determined by the decomposition: stripping a text
      cut into leftmost pieces leaves exactly the kept characters. */
  lemma {:induction false} RemoveHtmlIsVisible(ps: seq<Piece>)
    requires Leftmost(ps)
    ensures RemoveHtml(Source(ps)) == Visible(ps)
  {
    if ps != [] {
      var rest := Source(ps[1..]);
      RemoveHtmlIsVisible(ps[1..]);
      match ps[0]
      case Kept(c) =>
        assert Source(ps) == [c] + rest;
        RemoveHtmlKeepsChar(c, rest);
      case Tag(b) =>
        assert Source(ps) == "<" + b + ">" + rest;
        RemoveHtmlDropsTag(b, rest);
    }
  }

  /** `remove_html` deletes exactly the tags of the leftmost decomposition of
      its input and keeps every other character, in order. */
  lemma RemoveHtmlKeepsVisible(s: string)
    ensures RemoveHtml(s) == Visible(Scan(s))
  {
    ScanDecomposes(s);
    RemoveHtmlIsVisible(Scan(s));
  }

  /** No tag is left in `t`: no `<` has a `>` after it on the same line. */
  ghost predicate Tagless(t: string)
  {
    forall i :: 0 <= i < |t| && t[i] == '<' ==> Close(t[i + 1..]).None?
  }

  /** `Tagless` in plain words: between a `<` and a later `>` there is
      always a newline. */
  lemma TaglessMeans(t: string)
    ensures Tagless(t) <==>
            forall i, j :: 0 <= i < j < |t| && t[i] == '<' && t[j] == '>' ==> '\n' in t[i + 1..j]
  {
    if Tagless(t) {
      forall i, j | 0 <= i < j < |t| && t[i] == '<' && t[j] == '>'
        ensures '\n' in t[i + 1..j]
      {
        var u := t[i + 1..];
        assert u[j - i - 1] == '>';
        assert u[..j - i - 1] == t[i + 1..j];
      }
    } else {
      var i :| 0 <= i < |t| && t[i] == '<' && Close(t[i + 1..]).Some?;
      var k := Close(t[i + 1..]).value;
      var j := i + 1 + k;
      assert t[j] == '>';
      assert forall m :: i + 1 <= m < j ==> t[m] == t[i + 1..][m - i - 1];
      assert '\n' !in t[i + 1..j];
    }
  }

  /** Stripping cannot create a closing `>` where the input had none before
      its first newline. */
  lemma {:induction false} CloseNoneKept(u: string)
    requires Close(u).None?
    ensures Close(RemoveHtml(u)).None?
    decreases |u|
  {
    if u != [] && u[0] != '\n' {
      assert Close(u[1..]).None?;
      CloseNoneKept(u[1..]);
      assert RemoveHtml(u) == [u[0]] + RemoveHtml(u[1..]);
      assert RemoveHtml(u)[1..] == RemoveHtml(u[1..]);
    }
  }

  /** No tag survives stripping: the output has no `<` followed by a `>`
      on the same line. */
  lemma {:induction false} RemoveHtmlTagless(s: string)
    ensures Tagless(RemoveHtml(s))
    decreases |s|
  {
    if s == [] {
    } else if s[0] == '<' && Close(s[1..]).Some? {
      RemoveHtmlTagless(s[Close(s[1..]).value + 2..]);
    } else {
      var rest := RemoveHtml(s[1..]);
      var r := [s[0]] + rest;
      RemoveHtmlTagless(s[1..]);
      if s[0] == '<' {
        CloseNoneKept(s[1..]);
      }
      forall i | 0 <= i < |r| && r[i] == '<'
        ensures Close(r[i + 1..]).None?
      {
        if i > 0 {
          assert r[i] == rest[i - 1] && r[i + 1..] == rest[i..];
        }
      }
    }
  }

  /** A text without tags is left as it is. */
  lemma {:induction false} TaglessUnchanged(t: string)
    requires Tagless(t)
    ensures RemoveHtml(t) == t
    decreases |t|
  {
    if t != [] {
      forall i | 0 <= i < |t| - 1 && t[1..][i] == '<'
        ensures Close(t[1..][i + 1..]).None?
      {
        assert t[1..][i + 1..] == t[i + 2..] && t[1..][i] == t[i + 1];
      }
      TaglessUnchanged(t[1..]);
    }
  }

  /** A tag anywhere in `t` makes the output strictly shorter. */
  lemma {:induction false} TagShortens(t: string, i: nat)
    requires i < |t| && t[i] == '<' && Close(t[i + 1..]).Some?
    ensures |RemoveHtml(t)| < |t|
    decreases |t|
  {
    if !(t[0] == '<' && Close(t[1..]).Some?) {
      assert i > 0;
      assert t[1..][i - 1] == '<' && t[1..][i..] == t[i + 1..];
      TagShortens(t[1..], i - 1);
    }
  }

  /** `remove_html` leaves a text unchanged exactly when it holds no tag. */
  lemma RemoveHtmlFixedIffTagless(t: string)
    ensures RemoveHtml(t) == t <==> Tagless(t)
  {
    if Tagless(t) {
      TaglessUnchanged(t);
    } else {
      var i :| 0 <= i < |t| && t[i] == '<' && Close(t[i + 1..]).Some?;
      TagShortens(t, i);
    }
  }

  /** Stripping twice is stripping once. */
  lemma RemoveHtmlIdempotent(s: string)
    ensures RemoveHtml(RemoveHtml(s)) == RemoveHtml(s)
  {
    RemoveHtmlTagless(s);
    TaglessUnchanged(RemoveHtml(s));
  }

  /** A text without any `<` is returned unchanged. */
  lemma RemoveHtmlWithoutOpen(s: string)
    requires '<' !in s
    ensures RemoveHtml(s) == s
  {
    TaglessUnchanged(s);
  }

  /** A tag at the front of the text is deleted whole. */
  lemma RemoveHtmlDropsTag(b: string, u: string)
    requires '>' !in b && '\n' !in b
    ensures RemoveHtml("<" + b + ">" + u) == RemoveHtml(u)
  {
    var s := "<" + b + ">" + u;
    assert s[1..] == b + ">" + u;
    CloseAfterBody(b, u);
    assert s[|b| + 2..] == u;
  }

  /** Text without `<` at the front is kept as it is. */
  lemma {:induction false} RemoveHtmlKeepsPlain(w: string, u: string)
    requires '<' !in w
    ensures RemoveHtml(w + u) == w + RemoveHtml(u)
  {
    if w == [] {
      assert w + u == u;
    } else {
      assert (w + u)[0] == w[0] && (w + u)[1..] == w[1..] + u;
      RemoveHtmlKeepsPlain(w[1..], u);
      assert [w[0]] + (w[1..] + RemoveHtml(u)) == w + RemoveHtml(u);
    }
  }

  /** The tags of the example below hold no `>` and no newline, and its text
      no `<`. */
  lemma ExampleParts()
    ensures '>' !in "div class\"class\"" && '\n' !in "div class\"class\""
    ensures '>' !in "img src=\"src\"/" && '\n' !in "img src=\"src\"/"
    ensures '>' !in "/div" && '\n' !in "/div"
    ensures '<' !in "test test test"
  {
  }

  /** The example cut into its tags and its text. */
  lemma ExampleCut()
    ensures "<div class\"class\">" + "test test test" + "<img src=\"src\"/>" + "</div>"
            == "<" + "div class\"class\"" + ">"
               + ("test test test" + ("<" + "img src=\"src\"/" + ">" + ("<" + "/div" + ">" + "")))
  {
  }

  /** The case the project's own test checks: markup around and inside a
      summary disappears, attributes and nested tags included. */
  lemma RemoveHtmlExample()
    ensures RemoveHtml("<div class\"class\">" + "test test test" + "<img src=\"src\"/>" + "</div>") == "test test test"
  {
    var div, img, end, words := "div class\"class\"", "img src=\"src\"/", "/div", "test test test";
    ExampleParts();
    ExampleCut();
    var t3 := "<" + end + ">" + "";
    var t2 := "<" + img + ">" + t3;
    var t1 := words + t2;
    RemoveHtmlDropsTag(end, "");
    RemoveHtmlDropsTag(img, t3);
    RemoveHtmlKeepsPlain(words, t2);
    RemoveHtmlDropsTag(div, t1);
    assert words + "" == words;
  }
}
