/**
 * The KTA38 tag: a project whose description mentions "KTA38", in any
 * letter case, gets an engine icon beside its name. The description is
 * stripped of surrounding whitespace, line breaks (LF, CR) are removed,
 * the text is upper-cased and searched for the marker.
 */
module Tag {
  import opened Wrappers

  const Marker: string := "KTA38"

  /** The characters Python's `str.strip()` removes (those for which `isspace()` holds). */
  predicate IsSpace(c: char)
  {
    || c == ' ' || '\t' <= c <= '\r' || '\U{1c}' <= c <= '\U{1f}'
    || c == '\U{85}' || c == '\U{a0}' || c == '\U{1680}' || '\U{2000}' <= c <= '\U{200a}'
    || c == '\U{2028}' || c == '\U{2029}' || c == '\U{202f}' || c == '\U{205f}' || c == '\U{3000}'
  }

  predicate AllSpace(s: string)
  {
    forall k :: 0 <= k < |s| ==> IsSpace(s[k])
  }

  function StripLeft(s: string): (r: string)
    ensures |r| <= |s| && r == s[|s| - |r|..]
    ensures AllSpace(s[..|s| - |r|])
    ensures r != [] ==> !IsSpace(r[0])
  {
    if s != [] && IsSpace(s[0]) then
      var tail := s[1..];
      var r := StripLeft(tail);
      assert r == tail[|tail| - |r|..] == s[|s| - |r|..];
      assert s[..|s| - |r|] == [s[0]] + tail[..|tail| - |r|];
      r
    else s
  }

  function StripRight(s: string): (r: string)
    ensures |r| <= |s| && r == s[..|r|]
    ensures AllSpace(s[|r|..])
    ensures r != [] ==> !IsSpace(r[|r| - 1])
  {
    if s != [] && IsSpace(s[|s| - 1]) then
      var init := s[..|s| - 1];
      var r := StripRight(init);
      assert r == init[..|r|] == s[..|r|];
      assert s[|r|..] == init[|r|..] + [s[|s| - 1]];
      r
    else s
  }

  /** `str.strip()`: the text between the leading and the trailing whitespace. */
  function Strip(s: string): (r: string)
    ensures exists i, j :: 0 <= i <= j <= |s| && r == s[i..j] && AllSpace(s[..i]) && AllSpace(s[j..])
    ensures r != [] ==> !IsSpace(r[0]) && !IsSpace(r[|r| - 1])
  {
    StripShape(s);
    StripRight(StripLeft(s))
  }

  /** Stripping the left end, then the right end, leaves the slice between the whitespace. */
  lemma StripShape(s: string)
    ensures var r := StripRight(StripLeft(s));
      exists i, j :: 0 <= i <= j <= |s| && r == s[i..j] && AllSpace(s[..i]) && AllSpace(s[j..])
    ensures var r := StripRight(StripLeft(s));
      r != [] ==> !IsSpace(r[0]) && !IsSpace(r[|r| - 1])
  {
    var left := StripLeft(s);
    var r := StripRight(left);
    var i := |s| - |left|;
    assert r == s[i..i + |r|];
    assert r != [] ==> r[0] == left[0];
    assert AllSpace(s[i + |r|..]) by {
      assert s[i + |r|..] == left[|r|..];
    }
  }

  /** `s.replace(c, '')`. */
  function RemoveChar(s: string, c: char): (r: string)
    ensures |r| <= |s|
    ensures forall k :: 0 <= k < |r| ==> r[k] != c
  {
    if s == [] then []
    else
      var init := RemoveChar(s[..|s| - 1], c);
      if s[|s| - 1] == c then init else init + [s[|s| - 1]]
  }

  /** Upper-casing of one character (ASCII letters). */
  function UpperChar(c: char): char
  {
    if 'a' <= c <= 'z' then (c as int - 32) as char else c
  }

  function Upper(s: string): (r: string)
    ensures |r| == |s|
    ensures forall k :: 0 <= k < |s| ==> r[k] == UpperChar(s[k])
  {
    seq(|s|, k requires 0 <= k < |s| => UpperChar(s[k]))
  }

  /** `w` occurs in `s` starting at position `i`. */
  predicate OccursAt(s: string, w: string, i: int)
  {
    0 <= i && i + |w| <= |s| && s[i..i + |w|] == w
  }

  /** Python's `w in s` on strings. */
  predicate Contains(s: string, w: string)
  {
    exists i :: 0 <= i <= |s| && OccursAt(s, w, i)
  }

  /** The description text as the script prepares it; an absent description is "". */
  function DescriptionText(d: Option<string>): (r: string)
    ensures d.None? ==> r == ""
    ensures d.Some? ==> |r| <= |d.value|
    ensures forall k :: 0 <= k < |r| ==> r[k] != '\n' && r[k] != '\r'
  {
    match d
    case None => ""
    case Some(s) =>
      var once := RemoveChar(Strip(s), '\n');
      RemoveCharKeepsAbsent(once, '\r', '\n');
      RemoveChar(once, '\r')
  }

  /** Removing one character never brings in another that was absent. */
  lemma {:induction false} RemoveCharKeepsAbsent(s: string, c: char, e: char)
    requires forall k :: 0 <= k < |s| ==> s[k] != e
    ensures forall k :: 0 <= k < |RemoveChar(s, c)| ==> RemoveChar(s, c)[k] != e
  {
    if s != [] {
      RemoveCharKeepsAbsent(s[..|s| - 1], c, e);
    }
  }

  function HasMarker(d: Option<string>): bool
  {
    Contains(Upper(DescriptionText(d)), Marker)
  }

  /** The same preparation without the strip. */
  function Unbroken(s: string): string
  {
    Upper(RemoveChar(RemoveChar(s, '\n'), '\r'))
  }

  lemma {:induction false} RemoveCharConcat(a: string, b: string, c: char)
    ensures RemoveChar(a + b, c) == RemoveChar(a, c) + RemoveChar(b, c)
  {
    if b != [] {
      var init := b[..|b| - 1];
      assert (a + b)[..|a + b| - 1] == a + init;
      RemoveCharConcat(a, init, c);
    } else {
      assert a + b == a;
    }
  }

  lemma {:induction false} RemoveCharAbsent(s: string, c: char)
    requires forall k :: 0 <= k < |s| ==> s[k] != c
    ensures RemoveChar(s, c) == s
  {
    if s != [] {
      RemoveCharAbsent(s[..|s| - 1], c);
    }
  }

  lemma UpperConcat(a: string, b: string)
    ensures Upper(a + b) == Upper(a) + Upper(b)
  {
  }

  lemma {:induction false} RemoveCharKeepsSpace(s: string, c: char)
    requires AllSpace(s)
    ensures AllSpace(RemoveChar(s, c))
  {
    if s != [] {
      RemoveCharKeepsSpace(s[..|s| - 1], c);
    }
  }

  /** Removing characters from, or upper-casing, whitespace leaves whitespace. */
  lemma SpaceStaysSpace(s: string)
    requires AllSpace(s)
    ensures AllSpace(Unbroken(s))
  {
    RemoveCharKeepsSpace(s, '\n');
    RemoveCharKeepsSpace(RemoveChar(s, '\n'), '\r');
  }

  lemma UnbrokenConcat(a: string, b: string)
    ensures Unbroken(a + b) == Unbroken(a) + Unbroken(b)
  {
    RemoveCharConcat(a, b, '\n');
    RemoveCharConcat(RemoveChar(a, '\n'), RemoveChar(b, '\n'), '\r');
    UpperConcat(RemoveChar(RemoveChar(a, '\n'), '\r'), RemoveChar(RemoveChar(b, '\n'), '\r'));
  }

  /** A word that starts and ends with a non-space occurs in padded text iff it occurs in the text. */
  lemma ContainsPadded(a: string, m: string, b: string, w: string)
    requires AllSpace(a) && AllSpace(b)
    requires |w| > 0 && !IsSpace(w[0]) && !IsSpace(w[|w| - 1])
    ensures Contains(a + m + b, w) <==> Contains(m, w)
  {
    var s := a + m + b;
    if Contains(s, w) {
      var i :| 0 <= i <= |s| && OccursAt(s, w, i);
      assert 0 <= i && i + |w| <= |s| && s[i..i + |w|] == w;
      assert s[i] == w[0] by { assert s[i..i + |w|][0] == s[i]; }
      assert s[i + |w| - 1] == w[|w| - 1] by { assert s[i..i + |w|][|w| - 1] == s[i + |w| - 1]; }
      assert forall k :: 0 <= k < |a| ==> s[k] == a[k];
      assert forall k :: |a| + |m| <= k < |s| ==> s[k] == b[k - |a| - |m|];
      assert |a| <= i && i + |w| <= |a| + |m|;
      assert forall k :: |a| <= k < |a| + |m| ==> s[k] == m[k - |a|];
      assert m[i - |a|..i - |a| + |w|] == s[i..i + |w|];
      assert OccursAt(m, w, i - |a|);
    }
    if Contains(m, w) {
      var i :| 0 <= i <= |m| && OccursAt(m, w, i);
      assert 0 <= i && i + |w| <= |m| && m[i..i + |w|] == w;
      assert forall k :: |a| + i <= k < |a| + i + |w| ==> s[k] == m[k - |a|];
      assert s[|a| + i..|a| + i + |w|] == m[i..i + |w|];
      assert OccursAt(s, w, |a| + i);
    }
  }

  /** Stripping never decides the tag: the marker is found with or without it. */
  lemma HasMarkerIgnoresStrip(s: string)
    ensures HasMarker(Some(s)) <==> Contains(Unbroken(s), Marker)
  {
    var i, j :| 0 <= i <= j <= |s| && Strip(s) == s[i..j] && AllSpace(s[..i]) && AllSpace(s[j..]);
    assert s == s[..i] + s[i..j] + s[j..];
    UnbrokenConcat(s[..i] + s[i..j], s[j..]);
    UnbrokenConcat(s[..i], s[i..j]);
    SpaceStaysSpace(s[..i]);
    SpaceStaysSpace(s[j..]);
    ContainsPadded(Unbroken(s[..i]), Unbroken(s[i..j]), Unbroken(s[j..]), Marker);
  }

  /** Any spelling of the marker in any letter case tags the project. */
  lemma MarkerInAnyCase(s: string, w: string, i: int)
    requires OccursAt(s, w, i)
    requires Upper(w) == Marker
    ensures HasMarker(Some(s))
  {
    assert forall k :: 0 <= k < |w| ==> w[k] != '\n' && w[k] != '\r' by {
      forall k | 0 <= k < |w| ensures w[k] != '\n' && w[k] != '\r' {
        assert UpperChar(w[k]) == Marker[k];
      }
    }
    var pre, post := s[..i], s[i + |w|..];
    assert s == pre + w + post;
    UnbrokenConcat(pre + w, post);
    UnbrokenConcat(pre, w);
    RemoveCharAbsent(w, '\n');
    RemoveCharAbsent(w, '\r');
    var u := Unbroken(s);
    assert Unbroken(w) == Marker;
    assert OccursAt(u, Marker, |Unbroken(pre)|);
    HasMarkerIgnoresStrip(s);
  }

  /** Text made only of line breaks (LF and CR). */
  predicate AllBreaks(b: string)
  {
    forall k :: 0 <= k < |b| ==> b[k] == '\n' || b[k] == '\r'
  }

  lemma {:induction false} RemoveBreaks(b: string)
    requires AllBreaks(b)
    ensures forall k :: 0 <= k < |RemoveChar(b, '\n')| ==> RemoveChar(b, '\n')[k] == '\r'
    ensures RemoveChar(RemoveChar(b, '\n'), '\r') == []
  {
    if b != [] {
      RemoveBreaks(b[..|b| - 1]);
      var r := RemoveChar(b, '\n');
      assert forall k :: 0 <= k < |r| ==> r[k] == '\r';
      RemoveAllOf(r, '\r');
    }
  }

  lemma {:induction false} RemoveAllOf(s: string, c: char)
    requires forall k :: 0 <= k < |s| ==> s[k] == c
    ensures RemoveChar(s, c) == []
  {
    if s != [] {
      RemoveAllOf(s[..|s| - 1], c);
    }
  }

  /**
   * Line breaks are removed before the search, so the marker split by any run
   * of LF and CR characters, in any letter case, still tags the project.
   */
  lemma MarkerAcrossLineBreaks(pre: string, w1: string, b: string, w2: string, post: string)
    requires Upper(w1 + w2) == Marker
    requires AllBreaks(b)
    ensures HasMarker(Some(pre + w1 + b + w2 + post))
  {
    var w := w1 + w2;
    var joined := pre + w + post;
    assert joined[|pre|..|pre| + |w|] == w;
    MarkerInAnyCase(joined, w, |pre|);
    RejoinBroken(pre, w1, b, w2, post);
    SameUnbrokenSameTag(joined, pre + w1 + b + w2 + post);
  }

  /** Removing the breaks between the two halves gives the joined text. */
  lemma RejoinBroken(pre: string, w1: string, b: string, w2: string, post: string)
    requires AllBreaks(b)
    ensures Unbroken(pre + w1 + b + w2 + post) == Unbroken(pre + (w1 + w2) + post)
  {
    assert pre + w1 + b + w2 + post == (pre + w1) + b + (w2 + post);
    assert pre + (w1 + w2) + post == (pre + w1) + (w2 + post);
    BreaksVanish(pre + w1, b, w2 + post);
  }

  /** The tag depends only on the text once line breaks are removed. */
  lemma SameUnbrokenSameTag(s: string, t: string)
    requires Unbroken(s) == Unbroken(t)
    ensures HasMarker(Some(s)) == HasMarker(Some(t))
  {
    HasMarkerIgnoresStrip(s);
    HasMarkerIgnoresStrip(t);
  }

  /** Line breaks contribute nothing once LF and CR are removed. */
  lemma BreaksVanish(x: string, b: string, y: string)
    requires AllBreaks(b)
    ensures Unbroken(x + b + y) == Unbroken(x + y)
  {
    UnbrokenConcat(x + b, y);
    UnbrokenConcat(x, b);
    UnbrokenConcat(x, y);
    RemoveBreaks(b);
    assert Unbroken(b) == [];
  }

  /** A space inside the marker, or an absent description, gives no tag. */
  lemma NoMarker()
    ensures !HasMarker(Some("KTA 38"))
    ensures !HasMarker(None)
  {
    SpacedExample();
    SpacedHasNoMarker();
  }

  lemma SpacedHasNoMarker()
    ensures !Contains("KTA 38", Marker)
  {
    var t := "KTA 38";
    assert t[0..5][3] != Marker[3];
    assert t[1..6][0] != Marker[0];
  }

  lemma SpacedExample()
    ensures DescriptionText(Some("KTA 38")) == "KTA 38"
    ensures Upper("KTA 38") == "KTA 38"
  {
    UpperSpaced();
    SpacedStrip();
    SpacedNoBreaks();
  }

  lemma SpacedStrip()
    ensures Strip("KTA 38") == "KTA 38"
  {
    var t := "KTA 38";
    assert !IsSpace(t[0]) && !IsSpace(t[|t| - 1]);
    assert StripLeft(t) == t;
    assert StripRight(t) == t;
  }

  lemma SpacedNoBreaks()
    ensures RemoveChar("KTA 38", '\n') == "KTA 38"
    ensures RemoveChar("KTA 38", '\r') == "KTA 38"
  {
    RemoveCharAbsent("KTA 38", '\n');
    RemoveCharAbsent("KTA 38", '\r');
  }

  lemma UpperSpaced()
    ensures Upper("KTA 38") == "KTA 38"
  {
  }

}
