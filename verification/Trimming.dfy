/** The git adapter's comparison of manifests, which does not see white space around them. */
module Trimming {
  import opened Requests

  /** White space in the sense of unicode.IsSpace. */
  predicate IsSpace(c: char) {
    || '\U{0009}' <= c <= '\U{000D}' || c == ' ' || c == '\U{0085}' || c == '\U{00A0}' || c == '\U{1680}'
    || '\U{2000}' <= c <= '\U{200A}' || c in {'\U{2028}', '\U{2029}', '\U{202F}', '\U{205F}', '\U{3000}'}
  }

  function TrimLeft(s: string): string {
    if s != "" && IsSpace(s[0]) then TrimLeft(s[1..]) else s
  }

  function TrimRight(s: string): string {
    if s != "" && IsSpace(s[|s| - 1]) then TrimRight(s[..|s| - 1]) else s
  }

  function TrimSpace(s: string): string {
    TrimRight(TrimLeft(s))
  }

  /** The comparison of the caller's old instance with the file, blind to surrounding white space. */
  predicate Matches(r: Request, contents: Option<string>) {
    r.oldInstance.Some? ==>
      contents.Some? && TrimSpace(r.oldInstance.value.yaml) == TrimSpace(contents.value)
  }

  predicate Blank(s: string) {
    forall i :: 0 <= i < |s| ==> IsSpace(s[i])
  }

  lemma {:induction false} TrimLeftBlank(a: string, s: string)
    requires Blank(a)
    ensures TrimLeft(a + s) == TrimLeft(s)
  {
    if a == "" {
      assert a + s == s;
    } else {
      assert (a + s)[0] == a[0] && (a + s)[1..] == a[1..] + s;
      TrimLeftBlank(a[1..], s);
    }
  }

  lemma {:induction false} TrimRightBlank(s: string, b: string)
    requires Blank(b)
    ensures TrimRight(s + b) == TrimRight(s)
  {
    if b == "" {
      assert s + b == s;
    } else {
      var t := s + b;
      assert t[|t| - 1] == b[|b| - 1] && t[..|t| - 1] == s + b[..|b| - 1];
      TrimRightBlank(s, b[..|b| - 1]);
    }
  }

  lemma {:induction false} TrimLeftAppend(s: string, b: string)
    ensures TrimLeft(s) != "" ==> TrimLeft(s + b) == TrimLeft(s) + b
    ensures TrimLeft(s) == "" ==> Blank(s)
  {
    if s != "" {
      assert (s + b)[0] == s[0] && (s + b)[1..] == s[1..] + b;
      TrimLeftAppend(s[1..], b);
      if IsSpace(s[0]) && Blank(s[1..]) {
        assert forall i :: 1 <= i < |s| ==> s[i] == s[1..][i - 1];
      }
    }
  }

  /** The comparison does not see white space around a manifest. */
  lemma TrimSpaceIgnoresPadding(a: string, s: string, b: string)
    requires Blank(a) && Blank(b)
    ensures TrimSpace(a + s + b) == TrimSpace(s)
  {
    assert a + s + b == a + (s + b);
    TrimLeftBlank(a, s + b);
    TrimLeftAppend(s, b);
    if TrimLeft(s) == "" {
      TrimLeftBlank(s, b);
      TrimLeftBlank(b, "");
      assert b + "" == b;
    } else {
      TrimRightBlank(TrimLeft(s), b);
    }
  }

  lemma {:induction false} TrimLeftSplits(s: string) returns (a: string)
    ensures Blank(a) && s == a + TrimLeft(s)
  {
    a := "";
    if s != "" && IsSpace(s[0]) {
      a := TrimLeftSplits(s[1..]);
      a := [s[0]] + a;
    }
  }

  lemma {:induction false} TrimRightSplits(s: string) returns (b: string)
    ensures Blank(b) && s == TrimRight(s) + b
  {
    b := "";
    if s != "" && IsSpace(s[|s| - 1]) {
      b := TrimRightSplits(s[..|s| - 1]);
      b := b + [s[|s| - 1]];
    }
  }

  /** Only white space around a manifest is trimmed, so two that compare equal differ in nothing else. */
  lemma TrimSpaceSplits(s: string) returns (a: string, b: string)
    ensures Blank(a) && Blank(b) && s == a + TrimSpace(s) + b
  {
    a := TrimLeftSplits(s);
    b := TrimRightSplits(TrimLeft(s));
    assert a + TrimSpace(s) + b == a + (TrimSpace(s) + b);
  }

  // ------------------------------------------------------- what the comparison means

  /** The characters that count as white space. */
  const WHITE := "\t\n\U{000B}\U{000C}\r \U{0085}\U{00A0}\U{1680}\U{2000}\U{2001}\U{2002}\U{2003}\U{2004}\U{2005}\U{2006}\U{2007}\U{2008}\U{2009}\U{200A}\U{2028}\U{2029}\U{202F}\U{205F}\U{3000}"

  predicate AllWhite(s: string) {
    forall i :: 0 <= i < |s| ==> s[i] in WHITE
  }

  /** A text is another with white space around it. */
  ghost predicate Pads(core: string, s: string) {
    exists a, b :: AllWhite(a) && AllWhite(b) && s == a + core + b
  }

  ghost predicate SameUpToPadding(s: string, t: string) {
    exists core :: Pads(core, s) && Pads(core, t)
  }

  /** An old instance, if the caller sent one, is what is there, up to white space around it. */
  ghost predicate NamesCurrent(r: Request, contents: Option<string>) {
    r.oldInstance.Some? ==> contents.Some? && SameUpToPadding(r.oldInstance.value.yaml, contents.value)
  }

  lemma WhiteExactly(c: char)
    ensures IsSpace(c) <==> c in WHITE
  {
    if IsSpace(c) {
      var i := WhiteIndex(c);
      assert WHITE[i] == c;
    }
    if c in WHITE {
      var i :| 0 <= i < |WHITE| && WHITE[i] == c;
      assert |WHITE| == 25;
    }
  }

  function WhiteIndex(c: char): (i: nat)
    requires IsSpace(c)
    ensures i < |WHITE| && WHITE[i] == c
  {
    if c <= '\U{000D}' then (c as int) - 9
    else if c == ' ' then 5
    else if c == '\U{0085}' then 6
    else if c == '\U{00A0}' then 7
    else if c == '\U{1680}' then 8
    else if c <= '\U{200A}' then (c as int) - 0x2000 + 9
    else if c == '\U{2028}' then 20
    else if c == '\U{2029}' then 21
    else if c == '\U{202F}' then 22
    else if c == '\U{205F}' then 23
    else 24
  }

  lemma BlankIsWhite(s: string)
    ensures Blank(s) <==> AllWhite(s)
  {
    forall c ensures IsSpace(c) <==> c in WHITE {
      WhiteExactly(c);
    }
  }

  lemma PadsTrims(core: string, s: string)
    requires Pads(core, s)
    ensures TrimSpace(s) == TrimSpace(core)
  {
    var a, b :| AllWhite(a) && AllWhite(b) && s == a + core + b;
    BlankIsWhite(a);
    BlankIsWhite(b);
    TrimSpaceIgnoresPadding(a, core, b);
  }

  lemma TrimmedPads(s: string)
    ensures Pads(TrimSpace(s), s)
  {
    var a, b := TrimSpaceSplits(s);
    BlankIsWhite(a);
    BlankIsWhite(b);
  }

  /** Two texts trim alike exactly when they are one text with white space around it. */
  lemma SameTrimmedExactly(s: string, t: string)
    ensures TrimSpace(s) == TrimSpace(t) <==> SameUpToPadding(s, t)
  {
    TrimmedPads(s);
    TrimmedPads(t);
    if SameUpToPadding(s, t) {
      var core :| Pads(core, s) && Pads(core, t);
      PadsTrims(core, s);
      PadsTrims(core, t);
    }
  }

  /** A request passes the comparison exactly when the old instance it names, if any, is there up to white space around it. */
  lemma MatchesExactly(r: Request, contents: Option<string>)
    ensures Matches(r, contents) <==> NamesCurrent(r, contents)
  {
    if r.oldInstance.Some? && contents.Some? {
      SameTrimmedExactly(r.oldInstance.value.yaml, contents.value);
    }
  }
}
