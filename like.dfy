/**
 * PostgreSQL's LIKE and ILIKE (section 9.7.1 of the PostgreSQL manual): `%`
 * matches any run of characters, `_` exactly one character, and the default
 * escape character `\` makes the next pattern character literal. ILIKE
 * compares after case folding, here the ASCII fold.
 */
module Like {

  function FoldChar(c: char): char {
    if 'A' <= c <= 'Z' then (c as int + 32) as char else c
  }

  function Fold(s: string): (r: string)
    ensures |r| == |s| && forall i :: 0 <= i < |s| ==> r[i] == FoldChar(s[i])
  {
    seq(|s|, i requires 0 <= i < |s| => FoldChar(s[i]))
  }

  /** LIKE: does `text` match `pattern` as a whole? A trailing lone escape matches nothing. */
  function LikeMatch(pattern: string, text: string): bool
    decreases |pattern| + |text|
  {
    if pattern == [] then text == []
    else if pattern[0] == '%' then
      LikeMatch(pattern[1..], text) || (text != [] && LikeMatch(pattern, text[1..]))
    else if pattern[0] == '_' then
      text != [] && LikeMatch(pattern[1..], text[1..])
    else if pattern[0] == '\\' then
      |pattern| >= 2 && text != [] && text[0] == pattern[1] && LikeMatch(pattern[2..], text[1..])
    else
      text != [] && text[0] == pattern[0] && LikeMatch(pattern[1..], text[1..])
  }

  /** ILIKE: LIKE after folding both sides. */
  function ILike(pattern: string, text: string): bool {
    LikeMatch(Fold(pattern), Fold(text))
  }

  /** A pattern character with a special meaning. */
  predicate IsWild(c: char) {
    c == '%' || c == '_' || c == '\\'
  }

  /** A string with no wildcard or escape character: as a pattern it stands for itself. */
  predicate Literal(s: string) {
    forall i :: 0 <= i < |s| ==> !IsWild(s[i])
  }

  /** `t` occurs somewhere inside `s`. */
  predicate Contains(s: string, t: string) {
    exists i :: 0 <= i <= |s| && t <= s[i..]
  }

  lemma FoldAppend(a: string, b: string)
    ensures Fold(a + b) == Fold(a) + Fold(b)
  {
  }

  lemma FoldLiteral(s: string)
    ensures Literal(Fold(s)) == Literal(s)
  {
    assert forall i :: 0 <= i < |s| ==> (IsWild(Fold(s)[i]) <==> IsWild(s[i]));
  }

  /** `%` matches every text. */
  lemma {:induction false} PercentMatchesAll(text: string)
    ensures LikeMatch("%", text)
    decreases |text|
  {
    assert "%"[1..] == [];
    if text != [] {
      PercentMatchesAll(text[1..]);
    }
  }

  /** A literal pattern matches exactly itself. */
  lemma {:induction false} LiteralMatchesItself(x: string, text: string)
    requires Literal(x)
    ensures LikeMatch(x, text) <==> text == x
    decreases |x|
  {
    if x != [] {
      LiteralMatchesItself(x[1..], if text == [] then [] else text[1..]);
      if text != [] && text[0] == x[0] && text[1..] == x[1..] {
        assert text == [text[0]] + text[1..];
        assert x == [x[0]] + x[1..];
      }
    }
  }

  /** A literal followed by `%` matches exactly the texts that start with it. */
  lemma {:induction false} LiteralPrefix(x: string, text: string)
    requires Literal(x)
    ensures LikeMatch(x + "%", text) <==> x <= text
    decreases |x|
  {
    if x == [] {
      assert x + "%" == "%";
      PercentMatchesAll(text);
    } else {
      assert (x + "%")[0] == x[0];
      assert (x + "%")[1..] == x[1..] + "%";
      if text != [] {
        LiteralPrefix(x[1..], text[1..]);
        assert x <= text <==> (text[0] == x[0] && x[1..] <= text[1..]);
      }
    }
  }

  /** A leading `%` lets the rest of the pattern match any suffix of the text. */
  lemma {:induction false} LeadingPercent(p: string, text: string)
    ensures LikeMatch("%" + p, text) <==> exists i :: 0 <= i <= |text| && LikeMatch(p, text[i..])
    decreases |text|
  {
    var q := "%" + p;
    assert q[0] == '%' && q[1..] == p;
    if text == [] {
      assert text[0..] == text;
    } else {
      LeadingPercent(p, text[1..]);
      if LikeMatch(q, text) {
        if !LikeMatch(p, text) {
          var i :| 0 <= i <= |text[1..]| && LikeMatch(p, text[1..][i..]);
          assert text[1..][i..] == text[i + 1..];
        } else {
          assert text[0..] == text;
        }
      } else {
        forall i | 0 <= i <= |text| ensures !LikeMatch(p, text[i..]) {
          if i == 0 {
            assert text[0..] == text;
          } else {
            assert text[i..] == text[1..][i - 1..];
          }
        }
      }
    }
  }

  /** `%x%` for a literal `x` is a substring test. */
  lemma SurroundedLiteral(x: string, text: string)
    requires Literal(x)
    ensures LikeMatch("%" + x + "%", text) <==> Contains(text, x)
  {
    assert "%" + x + "%" == "%" + (x + "%");
    LeadingPercent(x + "%", text);
    forall i | 0 <= i <= |text| ensures LikeMatch(x + "%", text[i..]) <==> x <= text[i..] {
      LiteralPrefix(x, text[i..]);
    }
  }

  /** ILIKE '%x%' for a literal x: the folded text contains the folded x. */
  lemma ILikeSubstring(x: string, text: string)
    requires Literal(x)
    ensures ILike("%" + x + "%", text) <==> Contains(Fold(text), Fold(x))
  {
    FoldAppend("%" + x, "%");
    FoldAppend("%", x);
    assert Fold("%") == "%";
    FoldLiteral(x);
    SurroundedLiteral(Fold(x), Fold(text));
  }

  /** ILIKE 'x' for a literal x: equality up to case. */
  lemma ILikeExact(x: string, text: string)
    requires Literal(x)
    ensures ILike(x, text) <==> Fold(text) == Fold(x)
  {
    FoldLiteral(x);
    LiteralMatchesItself(Fold(x), Fold(text));
  }

  /** ILIKE '%%' matches every text. */
  lemma ILikeDoublePercent(text: string)
    ensures ILike("%%", text)
  {
    var e: string := [];
    assert Fold("%%") == "%%" == "%" + e + "%";
    assert Literal(e);
    SurroundedLiteral(e, Fold(text));
    assert e <= Fold(text)[0..];
  }

  /** A literal at the front of the pattern consumes the same characters at the front of the text. */
  lemma {:induction false} LiteralThen(x: string, p: string, s: string)
    requires Literal(x)
    ensures LikeMatch(x + p, x + s) <==> LikeMatch(p, s)
    decreases |x|
  {
    if x == [] {
      assert x + p == p && x + s == s;
    } else {
      assert (x + p)[0] == x[0] && (x + p)[1..] == x[1..] + p;
      assert (x + s)[0] == x[0] && (x + s)[1..] == x[1..] + s;
      LiteralThen(x[1..], p, s);
    }
  }

  /** `%x%y%` matches every text in which x occurs and y occurs after it. */
  lemma TwoWordsInOrder(x: string, y: string, u: string, w: string, z: string)
    requires Literal(x) && Literal(y)
    ensures LikeMatch("%" + x + "%" + y + "%", u + x + w + y + z)
  {
    var t := u + x + w + y + z;
    var rest := w + y + z;
    var p := x + ("%" + y + "%");
    assert "%" + x + "%" + y + "%" == "%" + p;
    LeadingPercent(p, t);
    assert t[|u|..] == x + rest;
    LiteralThen(x, "%" + y + "%", rest);
    SurroundedLiteral(y, rest);
    assert y <= rest[|w|..];
  }

  /** `x_y` matches x, then any one character, then y. */
  lemma OneCharBetween(x: string, y: string, c: char)
    requires Literal(x) && Literal(y)
    ensures LikeMatch(x + "_" + y, x + [c] + y)
  {
    assert x + "_" + y == x + ("_" + y);
    assert x + [c] + y == x + ([c] + y);
    LiteralThen(x, "_" + y, [c] + y);
    assert ("_" + y)[1..] == y && ([c] + y)[1..] == y;
    LiteralMatchesItself(y, y);
  }
}
