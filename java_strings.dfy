/**
 * The three java.lang.String operations the weight prompt applies to a line
 * before it looks at it: trim(), toLowerCase() and split(" ").
 */
module JavaStrings {

  /** trim() removes every leading and trailing character at or below U+0020. */
  predicate IsTrimmable(c: char) {
    c <= ' '
  }

  /** Every character of t is one that trim() removes. */
  predicate AllTrimmable(t: string) {
    forall i :: 0 <= i < |t| ==> IsTrimmable(t[i])
  }

  /** The first index at or after i of a character that trim() keeps, or |s| when there is none. */
  function SkipLeading(s: string, i: nat): (k: nat)
    requires i <= |s|
    ensures i <= k <= |s|
    ensures AllTrimmable(s[i..k])
    ensures k == |s| || !IsTrimmable(s[k])
    decreases |s| - i
  {
    if i < |s| && IsTrimmable(s[i]) then SkipLeading(s, i + 1) else i
  }

  /** The end of s[i..j] once its trailing trimmable characters are dropped, never below i. */
  function SkipTrailing(s: string, i: nat, j: nat): (e: nat)
    requires i <= j <= |s|
    ensures i <= e <= j
    ensures AllTrimmable(s[e..j])
    ensures e == i || !IsTrimmable(s[e - 1])
    decreases j
  {
    if i < j && IsTrimmable(s[j - 1]) then
      var e := SkipTrailing(s, i, j - 1);
      assert forall m :: 0 <= m < j - 1 - e ==> s[e..j][m] == s[e..j - 1][m];
      e
    else j
  }

  /**
   * String.trim(): the part of s that starts at its first non-trimmable
   * character; only trimmable characters are dropped at either end, and the
   * result neither starts nor ends with one. A string of trimmable
   * characters only becomes empty.
   */
  function Trim(s: string): (r: string)
    ensures |r| <= |s|
    ensures r == [] || (!IsTrimmable(r[0]) && !IsTrimmable(r[|r| - 1]))
    ensures SkipLeading(s, 0) + |r| <= |s|
    ensures r == s[SkipLeading(s, 0)..SkipLeading(s, 0) + |r|]
    ensures AllTrimmable(s[..SkipLeading(s, 0)])
    ensures AllTrimmable(s[SkipLeading(s, 0) + |r|..])
    ensures r == [] <==> AllTrimmable(s)
  {
    var k := SkipLeading(s, 0);
    var e := SkipTrailing(s, k, |s|);
    assert s[0..k] == s[..k];
    assert s[e..|s|] == s[e..];
    AllTrimmableWhenEmpty(s, k, e);
    s[k..e]
  }

  /** The two dropped ends cover s exactly when nothing is kept. */
  lemma AllTrimmableWhenEmpty(s: string, k: nat, e: nat)
    requires k <= e <= |s|
    requires AllTrimmable(s[..k]) && AllTrimmable(s[e..])
    requires k == |s| || !IsTrimmable(s[k])
    ensures k == e <==> AllTrimmable(s)
  {
    if k == e {
      forall i | 0 <= i < |s|
        ensures IsTrimmable(s[i])
      {
        if i < k {
          assert s[..k][i] == s[i];
        } else {
          assert s[e..][i - e] == s[i];
        }
      }
    }
  }

  /** Lower-casing of one character; only the ASCII letters are mapped. */
  function LowerChar(c: char): (r: char)
    ensures r == ' ' <==> c == ' '
    ensures 'a' <= r <= 'z' <==> ('a' <= c <= 'z' || 'A' <= c <= 'Z')
    ensures !('A' <= c <= 'Z') ==> r == c
    ensures 'A' <= c <= 'Z' ==> r as int - c as int == 'a' as int - 'A' as int
  {
    if 'A' <= c <= 'Z' then (c as int - 'A' as int + 'a' as int) as char else c
  }

  /** String.toLowerCase(): every character is lower-cased in place. */
  function ToLowerCase(s: string): (r: string)
    ensures |r| == |s|
    ensures forall i :: 0 <= i < |s| ==> r[i] == LowerChar(s[i])
  {
    if s == [] then [] else [LowerChar(s[0])] + ToLowerCase(s[1..])
  }

  /** The number of occurrences of c in s. */
  function Count(s: string, c: char): (n: nat)
    ensures n <= |s|
  {
    if s == [] then 0 else (if s[0] == c then 1 else 0) + Count(s[1..], c)
  }

  /** A character occurs nowhere in s exactly when its count is zero. */
  lemma {:induction false} CountZero(s: string, c: char)
    ensures Count(s, c) == 0 <==> c !in s
  {
    if s != [] {
      CountZero(s[1..], c);
      assert s == [s[0]] + s[1..];
    }
  }

  /** Lower-casing neither creates nor removes a space. */
  lemma {:induction false} ToLowerCaseKeepsSpaces(s: string)
    ensures Count(ToLowerCase(s), ' ') == Count(s, ' ')
  {
    if s != [] {
      ToLowerCaseKeepsSpaces(s[1..]);
      assert ToLowerCase(s)[1..] == ToLowerCase(s[1..]);
    }
  }

  /**
   * Every field of s between occurrences of sep, empty ones included:
   * always one more field than there are separators.
   */
  function Pieces(s: string, sep: char): (r: seq<string>)
    ensures |r| == Count(s, sep) + 1
  {
    if s == [] then [[]]
    else
      var rest := Pieces(s[1..], sep);
      if s[0] == sep then [[]] + rest
      else [[s[0]] + rest[0]] + rest[1..]
  }

  /** The inverse of Pieces: the fields glued back with sep between them. */
  function Join(ps: seq<string>, sep: char): (s: string)
    requires |ps| >= 1
  {
    if |ps| == 1 then ps[0] else ps[0] + [sep] + Join(ps[1..], sep)
  }

  lemma {:induction false} JoinPieces(s: string, sep: char)
    ensures Join(Pieces(s, sep), sep) == s
  {
    if s != [] {
      var c, t := s[0], s[1..];
      assert s == [c] + t;
      var rest := Pieces(t, sep);
      JoinPieces(t, sep);
      if c == sep {
        assert Pieces(s, sep) == [[]] + rest;
        assert ([[]] + rest)[1..] == rest;
      } else {
        var r := [[c] + rest[0]] + rest[1..];
        assert Pieces(s, sep) == r;
        if |rest| > 1 {
          assert r[1..] == rest[1..];
          calc {
            Join(r, sep);
            ([c] + rest[0]) + [sep] + Join(rest[1..], sep);
            [c] + (rest[0] + [sep] + Join(rest[1..], sep));
            [c] + Join(rest, sep);
          }
        }
      }
    }
  }

  /** When s does not end with sep, its last field is not empty. */
  lemma {:induction false} LastPieceNotEmpty(s: string, sep: char)
    requires s != [] && s[|s| - 1] != sep
    ensures Pieces(s, sep)[|Pieces(s, sep)| - 1] != []
  {
    if |s| > 1 {
      assert s[1..][|s[1..]| - 1] == s[|s| - 1];
      LastPieceNotEmpty(s[1..], sep);
    }
  }

  /** ps without its trailing empty fields: only empty fields are dropped, and only at the end. */
  function DropTrailingEmpty(ps: seq<string>): (r: seq<string>)
    ensures |r| <= |ps| && r == ps[..|r|]
    ensures r == [] || r[|r| - 1] != []
    ensures forall i :: |r| <= i < |ps| ==> ps[i] == []
  {
    if ps != [] && ps[|ps| - 1] == [] then DropTrailingEmpty(ps[..|ps| - 1]) else ps
  }

  /**
   * String.split with a one-character separator and no limit: the string
   * itself when sep does not occur, otherwise its fields without the
   * trailing empty ones.
   */
  function Split(s: string, sep: char): (r: seq<string>)
    ensures sep !in s ==> r == [s]
    ensures sep in s ==> |r| <= |Pieces(s, sep)| && r == Pieces(s, sep)[..|r|] && (r == [] || r[|r| - 1] != [])
    ensures sep in s ==> forall i :: |r| <= i < |Pieces(s, sep)| ==> Pieces(s, sep)[i] == []
  {
    if sep !in s then [s] else DropTrailingEmpty(Pieces(s, sep))
  }

  /** A string that does not end with sep splits into one field per separator, plus one. */
  lemma SplitCount(s: string, sep: char)
    requires s == [] || s[|s| - 1] != sep
    ensures |Split(s, sep)| == Count(s, sep) + 1
    ensures sep in s ==> Split(s, sep) == Pieces(s, sep)
  {
    CountZero(s, sep);
    if sep in s {
      var ps := Pieces(s, sep);
      LastPieceNotEmpty(s, sep);
      assert Split(s, sep) == DropTrailingEmpty(ps);
      assert DropTrailingEmpty(ps) == ps;
    } else {
      assert Split(s, sep) == [s];
    }
  }

  /** With exactly one separator and no separator at the end, the two fields rebuild s. */
  lemma SplitPair(s: string, sep: char)
    requires s == [] || s[|s| - 1] != sep
    requires Count(s, sep) == 1
    ensures |Split(s, sep)| == 2
    ensures s == Split(s, sep)[0] + [sep] + Split(s, sep)[1]
    ensures Split(s, sep)[1] != []
  {
    SplitCount(s, sep);
    JoinPieces(s, sep);
    LastPieceNotEmpty(s, sep);
    var ps := Pieces(s, sep);
    assert Join(ps[1..], sep) == ps[1];
  }

  lemma {:induction false} PiecesWithoutSep(t: string, sep: char)
    requires sep !in t
    ensures Pieces(t, sep) == [t]
  {
    if t != [] {
      PiecesWithoutSep(t[1..], sep);
      assert t == [t[0]] + t[1..];
    }
  }

  lemma {:induction false} PiecesPrefixWithoutSep(a: string, t: string, sep: char)
    requires sep !in a
    ensures Pieces(a + t, sep) == [a + Pieces(t, sep)[0]] + Pieces(t, sep)[1..]
  {
    if a == [] {
      var pt := Pieces(t, sep);
      assert a + t == t;
      assert a + pt[0] == pt[0];
      assert pt == [pt[0]] + pt[1..];
    } else {
      var c, a' := a[0], a[1..];
      var s := a + t;
      assert c != sep;
      assert s[0] == c && s[1..] == a' + t;
      PiecesPrefixWithoutSep(a', t, sep);
      assert [c] + (a' + t) == s;
      PiecesCons(c, a' + t, sep);
      var pt := Pieces(t, sep);
      var rest := Pieces(a' + t, sep);
      assert rest[0] == a' + pt[0];
      assert rest[1..] == pt[1..];
      assert Pieces(s, sep) == [[c] + rest[0]] + rest[1..];
      assert [c] + (a' + pt[0]) == a + pt[0];
    }
  }

  /** One unfolding of Pieces for a string that starts with a non-separator. */
  lemma PiecesCons(c: char, t: string, sep: char)
    requires c != sep
    ensures Pieces([c] + t, sep) == [[c] + Pieces(t, sep)[0]] + Pieces(t, sep)[1..]
  {
    assert ([c] + t)[1..] == t;
  }

  /** The last character of a + sep + b: the last of b, or sep itself when b is empty. */
  lemma LastOfJoined(a: string, sep: char, b: string)
    ensures var s := a + [sep] + b;
      s[|s| - 1] == if b == [] then sep else b[|b| - 1]
  {
  }

  /** Splitting a + sep + b, where neither part holds sep and b is not empty, gives back the parts. */
  lemma SplitOfPair(a: string, b: string, sep: char)
    requires sep !in a && sep !in b && b != []
    ensures Split(a + [sep] + b, sep) == [a, b]
  {
    var s := a + [sep] + b;
    var t := [sep] + b;
    assert s == a + t;
    assert t[0] == sep && t[1..] == b;
    PiecesWithoutSep(b, sep);
    assert Pieces(t, sep) == [[]] + [b];
    PiecesPrefixWithoutSep(a, t, sep);
    assert a + [] == a;
    assert Pieces(s, sep) == [a, b];
    assert s[|a|] == sep;
    assert DropTrailingEmpty([a, b]) == [a, b];
  }
}
