/**
 * The java.lang.String operations the cluster configuration parser relies on:
 * endsWith, replace(", ", " "), split(" ") and toUpperCase, stated over
 * `string`, with the specification helpers the properties need: `IsPrefix`
 * (a key starts with a path) and `Join` (the ", " separators a list's
 * toString writes, and the space-joined values the properties state). Dafny's `char` is a Unicode scalar value where Java's
 * is a UTF-16 code unit; every character these operations inspect is ASCII
 * (dots, spaces, commas, brackets, the section names), so the two agree here.
 */
module JavaText {

  /** `p` is a prefix of `s` (a specification predicate: the parser never calls startsWith). */
  predicate IsPrefix(p: string, s: string) {
    |p| <= |s| && s[..|p|] == p
  }

  /** `s.endsWith(".")`. */
  predicate EndsWithDot(s: string) {
    |s| > 0 && s[|s| - 1] == '.'
  }

  /** `s` ends in two dots in a row. */
  predicate EndsWithDoubleDot(s: string) {
    |s| >= 2 && s[|s| - 2] == '.' && s[|s| - 1] == '.'
  }

  lemma PrefixTransitive(a: string, b: string, c: string)
    requires IsPrefix(a, b) && IsPrefix(b, c)
    ensures IsPrefix(a, c)
  {
    assert c[..|a|] == c[..|b|][..|a|];
  }

  lemma PrefixOfConcat(a: string, b: string)
    ensures IsPrefix(a, a + b)
  {
    assert (a + b)[..|a|] == a;
  }

  /** The elements of `xs` with `sep` between neighbours. */
  function Join(sep: string, xs: seq<string>): string {
    if |xs| == 0 then ""
    else if |xs| == 1 then xs[0]
    else xs[0] + sep + Join(sep, xs[1..])
  }

  /** Joining one more element at the end adds the separator and that element. */
  lemma {:induction false} JoinSnoc(sep: string, xs: seq<string>, x: string)
    requires |xs| >= 1
    ensures Join(sep, xs + [x]) == Join(sep, xs) + sep + x
  {
    if |xs| == 1 {
      assert (xs + [x])[1..] == [x];
    } else {
      assert (xs + [x])[1..] == xs[1..] + [x];
      JoinSnoc(sep, xs[1..], x);
    }
  }

  /** `s` contains the two characters ", " next to each other. */
  predicate ContainsCommaSpace(s: string) {
    exists i :: 0 <= i < |s| - 1 && s[i] == ',' && s[i + 1] == ' '
  }

  /**
   * `s.replace(", ", " ")`: scanning from the left, every occurrence of ", "
   * that does not overlap an earlier one becomes a single space.
   */
  function ReplaceCommaSpace(s: string): (r: string)
    ensures |r| <= |s|
  {
    if |s| < 2 then s
    else if s[0] == ',' && s[1] == ' ' then " " + ReplaceCommaSpace(s[2..])
    else [s[0]] + ReplaceCommaSpace(s[1..])
  }

  lemma NoCommaSpaceInTail(e: string)
    requires |e| > 0 && !ContainsCommaSpace(e)
    ensures !ContainsCommaSpace(e[1..])
  {
  }

  /**
   * The replacement passes over a piece without ", " untouched, unless the
   * piece ends in a comma that the rest continues with a space.
   */
  lemma {:induction false} ReplacePassesPlainPiece(e: string, t: string)
    requires !ContainsCommaSpace(e)
    requires !(|e| > 0 && e[|e| - 1] == ',' && |t| > 0 && t[0] == ' ')
    ensures ReplaceCommaSpace(e + t) == e + ReplaceCommaSpace(t)
  {
    if |e| > 0 {
      var s := e + t;
      if |s| >= 2 {
        assert s[0] == e[0];
        assert !(s[0] == ',' && s[1] == ' ') by {
          if |e| >= 2 {
            assert s[1] == e[1];
            assert !(e[0] == ',' && e[1] == ' ');
          } else {
            assert s[1] == t[0];
          }
        }
        assert s[1..] == e[1..] + t;
        NoCommaSpaceInTail(e);
        ReplacePassesPlainPiece(e[1..], t);
        assert ReplaceCommaSpace(s) == [e[0]] + (e[1..] + ReplaceCommaSpace(t));
        assert e == [e[0]] + e[1..];
      } else {
        assert t == "" && e + t == e;
      }
    } else {
      assert e + t == t;
    }
  }

  /**
   * Replacing ", " by " " in a ", "-joined list gives the " "-joined list,
   * provided no element itself contains ", ".
   */
  lemma {:induction false} ReplaceTurnsCommaJoinIntoSpaceJoin(xs: seq<string>)
    requires forall i :: 0 <= i < |xs| ==> !ContainsCommaSpace(xs[i])
    ensures ReplaceCommaSpace(Join(", ", xs)) == Join(" ", xs)
  {
    if |xs| == 1 {
      ReplacePassesPlainPiece(xs[0], "");
      assert xs[0] + "" == xs[0];
    } else if |xs| > 1 {
      var rest := Join(", ", xs[1..]);
      assert Join(", ", xs) == xs[0] + (", " + rest);
      ReplacePassesPlainPiece(xs[0], ", " + rest);
      assert (", " + rest)[2..] == rest;
      ReplaceTurnsCommaJoinIntoSpaceJoin(xs[1..]);
    }
  }

  /** `s.split(" ", -1)`: the pieces between single spaces, empty pieces kept. */
  function Fields(s: string): (r: seq<string>)
    ensures |r| >= 1
  {
    if s == "" then [""]
    else if s[0] == ' ' then [""] + Fields(s[1..])
    else
      var f := Fields(s[1..]);
      [[s[0]] + f[0]] + f[1..]
  }

  /** `xs` without its trailing empty strings. */
  function DropTrailingEmpty(xs: seq<string>): (r: seq<string>)
    ensures r <= xs
    ensures r == [] || r[|r| - 1] != ""
    ensures forall i :: |r| <= i < |xs| ==> xs[i] == ""
  {
    if xs == [] || xs[|xs| - 1] != "" then xs
    else DropTrailingEmpty(xs[..|xs| - 1])
  }

  /**
   * `s.split(" ")`: a string without a space comes back whole (even the empty
   * string); otherwise the pieces between single spaces, in order, with the
   * trailing empty pieces removed and the leading ones kept.
   */
  function SplitOnSpace(s: string): seq<string> {
    if ' ' !in s then [s] else DropTrailingEmpty(Fields(s))
  }

  /** Gluing the fields back together with spaces gives the original string. */
  lemma {:induction false} JoinFields(s: string)
    ensures Join(" ", Fields(s)) == s
  {
    if s != "" {
      var f := Fields(s[1..]);
      JoinFields(s[1..]);
      if s[0] == ' ' {
        assert ([""] + f)[1..] == f;
      } else if |f| > 1 {
        var r := [[s[0]] + f[0]] + f[1..];
        assert r[1..] == f[1..];
        assert Join(" ", f) == f[0] + " " + Join(" ", f[1..]);
        assert s == [s[0]] + s[1..];
      } else {
        assert s == [s[0]] + s[1..];
      }
    }
  }

  /** Splitting a piece without spaces followed by `t` glues the piece onto t's first field. */
  lemma {:induction false} FieldsOfPlainPiece(q: string, t: string)
    requires ' ' !in q
    ensures Fields(q + t) == [q + Fields(t)[0]] + Fields(t)[1..]
  {
    if q != "" {
      assert (q + t)[0] == q[0] && (q + t)[1..] == q[1..] + t;
      FieldsOfPlainPiece(q[1..], t);
      assert [q[0]] + (q[1..] + Fields(t)[0]) == q + Fields(t)[0];
    } else {
      assert q + t == t;
      assert q + Fields(t)[0] == Fields(t)[0];
      assert Fields(t) == [Fields(t)[0]] + Fields(t)[1..];
    }
  }

  /** Splitting a space-joined list of space-free pieces gives the pieces back. */
  lemma {:induction false} FieldsOfJoin(qs: seq<string>)
    requires |qs| >= 1
    requires forall i :: 0 <= i < |qs| ==> ' ' !in qs[i]
    ensures Fields(Join(" ", qs)) == qs
  {
    if |qs| == 1 {
      FieldsOfPlainPiece(qs[0], "");
      assert qs[0] + "" == qs[0];
    } else {
      var rest := Join(" ", qs[1..]);
      assert Join(" ", qs) == qs[0] + (" " + rest);
      FieldsOfPlainPiece(qs[0], " " + rest);
      assert (" " + rest)[1..] == rest;
      FieldsOfJoin(qs[1..]);
      assert qs[0] + "" == qs[0];
    }
  }

  /**
   * The round trip the emitter depends on: split(" ") undoes joining with single spaces
   * for a non-empty list of non-empty, space-free names.
   */
  lemma SplitUndoesJoin(qs: seq<string>)
    requires |qs| >= 1
    requires forall i :: 0 <= i < |qs| ==> qs[i] != "" && ' ' !in qs[i]
    ensures SplitOnSpace(Join(" ", qs)) == qs
  {
    if |qs| > 1 {
      var j := Join(" ", qs);
      assert j == qs[0] + " " + Join(" ", qs[1..]);
      assert j[|qs[0]|] == ' ';
      FieldsOfJoin(qs);
    }
  }

  /** Character.toUpperCase restricted to ASCII letters. */
  function UpperChar(c: char): char {
    if 'a' <= c <= 'z' then (c as int - 32) as char else c
  }

  /** `s.toUpperCase()` for ASCII text. */
  function AsciiUpper(s: string): string {
    seq(|s|, i requires 0 <= i < |s| => UpperChar(s[i]))
  }
}
