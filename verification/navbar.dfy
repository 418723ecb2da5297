/** The avatar fallback of the navigation bar: the initials of the user's
    display name. */
module Navbar {
  import opened Base
  import opened Text

  /** `n[0]` of one piece, where an empty piece gives `undefined`, which
      `join("")` renders as nothing. */
  function FirstChar(piece: string): string
  {
    if |piece| == 0 then "" else [piece[0]]
  }

  /** `.map((n) => n[0]).join("")`. */
  function Heads(pieces: seq<string>): (r: string)
    ensures |r| <= |pieces|
  {
    if |pieces| == 0 then "" else FirstChar(pieces[0]) + Heads(pieces[1..])
  }

  /** `getInitials`: "U" for a missing or empty name; otherwise the upper-cased
      first character of each space-separated piece. */
  function Initials(name: Option<string>): string
  {
    match name
    case None => "U"
    case Some(n) => if |n| == 0 then "U" else Upper(Heads(SplitOn(n, ' ')))
  }

  /** Reference reading of the same rule, without splitting: the characters
      that are not spaces and start the text or follow a space. `atStart`
      says whether the previous character was a space (or there was none). */
  function WordStarts(s: string, atStart: bool): string
  {
    if |s| == 0 then ""
    else (if atStart && s[0] != ' ' then [s[0]] else "") + WordStarts(s[1..], s[0] == ' ')
  }

  /** Taking the head of every piece of the split finds the word starts. */
  lemma {:induction false} HeadsOfSplitAreWordStarts(s: string)
    ensures Heads(SplitOn(s, ' ')) == WordStarts(s, true)
    ensures Heads(SplitOn(s, ' ')[1..]) == WordStarts(s, false)
    decreases |s|
  {
    if |s| > 0 {
      var rest := SplitOn(s[1..], ' ');
      HeadsOfSplitAreWordStarts(s[1..]);
      if s[0] == ' ' {
        var segs := [""] + rest;
        assert segs[1..] == rest;
      } else {
        var segs := [[s[0]] + rest[0]] + rest[1..];
        assert segs[1..] == rest[1..];
      }
    }
  }

  /** Word starts never include a space, and there are no more of them than
      characters. */
  lemma {:induction false} WordStartsShape(s: string, atStart: bool)
    ensures ' ' !in WordStarts(s, atStart)
    ensures |WordStarts(s, atStart)| <= |s|
  {
    if |s| > 0 {
      WordStartsShape(s[1..], s[0] == ' ');
    }
  }

  /** A name of spaces only has no word starts. */
  lemma {:induction false} SpacesHaveNoWordStarts(s: string, atStart: bool)
    requires forall i :: 0 <= i < |s| ==> s[i] == ' '
    ensures WordStarts(s, atStart) == ""
  {
    if |s| > 0 {
      SpacesHaveNoWordStarts(s[1..], true);
    }
  }

  /** What `getInitials` returns, read without the split: "U" for no name,
      otherwise the upper-cased first letters of the words, at most one per
      piece, never a space; a name of only spaces gives "", not "U". */
  lemma InitialsMeaning(name: Option<string>)
    ensures name.None? || name == Some("") ==> Initials(name) == "U"
    ensures name.Some? && name.value != "" ==>
      && Initials(name) == Upper(WordStarts(name.value, true))
      && |Initials(name)| <= |SplitOn(name.value, ' ')|
      && ' ' !in Initials(name)
    ensures name.Some? && name.value != "" && (forall i :: 0 <= i < |name.value| ==> name.value[i] == ' ') ==>
      Initials(name) == ""
  {
    if name.Some? && name.value != "" {
      var n := name.value;
      HeadsOfSplitAreWordStarts(n);
      WordStartsShape(n, true);
      var w := WordStarts(n, true);
      assert forall i :: 0 <= i < |w| ==> Upper(w)[i] == UpperChar(w[i]) && w[i] != ' ';
      if forall i :: 0 <= i < |n| ==> n[i] == ' ' {
        SpacesHaveNoWordStarts(n, true);
      }
    }
  }

  /** Initials are the first letters of the words in order: two words give
      their two first letters. */
  lemma TwoWords(a: string, b: string)
    requires |a| > 0 && |b| > 0 && ' ' !in a && ' ' !in b
    ensures Initials(Some(a + " " + b)) == Upper([a[0], b[0]])
  {
    SplitOnCons(a, ' ', b);
    SplitOnAbsent(b, ' ');
    var pieces := [a, b];
    assert " " == [' '];
    assert SplitOn(a + " " + b, ' ') == pieces;
    assert pieces[1..] == [b];
    assert [b][1..] == [];
    assert Heads([b]) == [b[0]];
    assert Heads(pieces) == [a[0]] + [b[0]];
  }
}
