/** String helpers with the meaning of the JavaScript built-ins the app uses:
    `String.prototype.split` on a one-character separator, `Array.join`,
    `startsWith`, `includes`, ASCII `toUpperCase`, and number-to-text. */
module Text {

  /** `s.split(c)`: the maximal pieces of `s` between occurrences of `c`.
      Leading, trailing and doubled separators yield empty pieces. */
  function SplitOn(s: string, c: char): (r: seq<string>)
    ensures |r| >= 1
    ensures forall i :: 0 <= i < |r| ==> c !in r[i]
    decreases |s|
  {
    if |s| == 0 then [""]
    else
      var rest := SplitOn(s[1..], c);
      if s[0] == c then [""] + rest
      else [[s[0]] + rest[0]] + rest[1..]
  }

  /** `segs.join(c)`. */
  function Join(segs: seq<string>, c: char): string
    requires |segs| >= 1
    decreases |segs|
  {
    if |segs| == 1 then segs[0] else segs[0] + [c] + Join(segs[1..], c)
  }

  /** Splitting and re-joining on the same separator gives back the input. */
  lemma {:induction false} JoinSplitOn(s: string, c: char)
    ensures Join(SplitOn(s, c), c) == s
    decreases |s|
  {
    if |s| > 0 {
      var rest := SplitOn(s[1..], c);
      JoinSplitOn(s[1..], c);
      if s[0] == c {
        assert ([""] + rest)[1..] == rest;
      } else if |rest| > 1 {
        var r := [[s[0]] + rest[0]] + rest[1..];
        assert r[1..] == rest[1..];
        assert Join(rest, c) == rest[0] + [c] + Join(rest[1..], c);
        assert s == [s[0]] + s[1..];
      } else {
        assert s == [s[0]] + s[1..];
      }
    }
  }

  /** A text without the separator is a single piece. */
  lemma {:induction false} SplitOnAbsent(s: string, c: char)
    requires c !in s
    ensures SplitOn(s, c) == [s]
    decreases |s|
  {
    if |s| > 0 {
      assert c !in s[1..] by {
        forall i | 0 <= i < |s[1..]|
          ensures s[1..][i] != c
        {
          assert s[1..][i] == s[i + 1];
        }
      }
      SplitOnAbsent(s[1..], c);
      assert s == [s[0]] + s[1..];
    }
  }

  /** A separator-free head followed by the separator splits off as one piece. */
  lemma {:induction false} SplitOnCons(a: string, c: char, b: string)
    requires c !in a
    ensures SplitOn(a + [c] + b, c) == [a] + SplitOn(b, c)
    decreases |a|
  {
    var s := a + [c] + b;
    if |a| == 0 {
      assert s[1..] == b;
    } else {
      assert s[1..] == a[1..] + [c] + b;
      assert c !in a[1..] by {
        forall i | 0 <= i < |a[1..]|
          ensures a[1..][i] != c
        {
          assert a[1..][i] == a[i + 1];
        }
      }
      SplitOnCons(a[1..], c, b);
      assert [a[0]] + a[1..] == a;
    }
  }

  /** `s.split(c).pop()`: the last piece. */
  function LastSegment(s: string, c: char): string
  {
    var segs := SplitOn(s, c);
    segs[|segs| - 1]
  }

  /** The last piece is the text after the final separator, or the whole text
      when there is no separator. */
  lemma {:induction false} LastSegmentIsTail(s: string, c: char)
    ensures |LastSegment(s, c)| <= |s|
    ensures s[|s| - |LastSegment(s, c)|..] == LastSegment(s, c)
    ensures c !in LastSegment(s, c)
    ensures |LastSegment(s, c)| == |s| || s[|s| - |LastSegment(s, c)| - 1] == c
    ensures c !in s ==> LastSegment(s, c) == s
    decreases |s|
  {
    if c !in s {
      SplitOnAbsent(s, c);
    } else {
      var rest := SplitOn(s[1..], c);
      var e := LastSegment(s, c);
      LastSegmentIsTail(s[1..], c);
      var e' := LastSegment(s[1..], c);
      assert s[1..][|s[1..]| - |e'|..] == s[|s| - |e'|..];
      if s[0] == c {
        assert e == e';
      } else if |rest| > 1 {
        assert e == e';
      } else {
        // a single piece after a non-separator head means `c !in s`
        JoinSplitOn(s[1..], c);
        assert false;
      }
    }
  }

  /** The last piece is whatever follows the final separator. */
  lemma {:induction false} LastSegmentAfterSeparator(a: string, c: char, t: string)
    requires c !in t
    ensures |SplitOn(a + [c] + t, c)| >= 2
    ensures LastSegment(a + [c] + t, c) == t
    decreases |a|
  {
    var s := a + [c] + t;
    if |a| == 0 {
      SplitOnCons(a, c, t);
      SplitOnAbsent(t, c);
    } else {
      assert s[1..] == a[1..] + [c] + t;
      LastSegmentAfterSeparator(a[1..], c, t);
    }
  }

  /** `s.startsWith(p)`. */
  predicate StartsWith(s: string, p: string)
  {
    |p| <= |s| && s[..|p|] == p
  }

  /** `t` occurs in `s` starting at position `i`. */
  predicate OccursAt(s: string, t: string, i: int)
  {
    0 <= i && i + |t| <= |s| && s[i..i + |t|] == t
  }

  /** `s.includes(t)`. */
  predicate Contains(s: string, t: string)
  {
    exists i | 0 <= i <= |s| - |t| :: OccursAt(s, t, i)
  }

  /** `toUpperCase` restricted to ASCII letters; other characters are kept. */
  function UpperChar(ch: char): (u: char)
    ensures ('a' <= ch <= 'z') ==> 'A' <= u <= 'Z'
    ensures !('a' <= ch <= 'z') ==> u == ch
  {
    if 'a' <= ch <= 'z' then (ch as int - 'a' as int + 'A' as int) as char else ch
  }

  function Upper(s: string): (r: string)
    ensures |r| == |s|
    ensures forall i :: 0 <= i < |s| ==> r[i] == UpperChar(s[i])
  {
    if |s| == 0 then "" else [UpperChar(s[0])] + Upper(s[1..])
  }

  /** Decimal text of a natural number, as `${n}` renders `Date.now()`. */
  function Decimal(n: nat): (r: string)
    ensures |r| >= 1
    ensures forall i :: 0 <= i < |r| ==> '0' <= r[i] <= '9'
  {
    var d := ('0' as int + n % 10) as char;
    if n < 10 then [d] else Decimal(n / 10) + [d]
  }

  /** The number a decimal text denotes. */
  function DigitsValue(s: string): int
  {
    if |s| == 0 then 0 else DigitsValue(s[..|s| - 1]) * 10 + (s[|s| - 1] as int - '0' as int)
  }

  /** Reading the decimal text back gives the number. */
  lemma {:induction false} DecimalValue(n: nat)
    ensures DigitsValue(Decimal(n)) == n
  {
    var r := Decimal(n);
    if n >= 10 {
      DecimalValue(n / 10);
      assert r[..|r| - 1] == Decimal(n / 10);
    }
  }
}
