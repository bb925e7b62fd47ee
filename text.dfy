/** String operations the portal relies on: splitting on a separator (the way
    `String.prototype.split` does), substring search (regular-expression alternation
    without anchors, SQL `ILIKE '%x%'`), ASCII lower-casing and the code-point order
    the store uses for `ORDER BY` on text columns. */
module Text {

  /** `s.split([sep])`: the maximal runs between separators, empty runs included. */
  function Split(s: string, sep: char): (fields: seq<string>)
    ensures |fields| >= 1
    ensures forall i :: 0 <= i < |fields| ==> sep !in fields[i]
  {
    if |s| == 0 then [""]
    else
      var rest := Split(s[1..], sep);
      if s[0] == sep then [""] + rest
      else [[s[0]] + rest[0]] + rest[1..]
  }

  /** `fields.join(sep)`. */
  function Join(fields: seq<string>, sep: char): string
    requires |fields| >= 1
  {
    if |fields| == 1 then fields[0] else fields[0] + [sep] + Join(fields[1..], sep)
  }

  lemma {:induction false} JoinConsHead(x: string, y: string, t: seq<string>, sep: char)
    ensures Join([x + y] + t, sep) == x + Join([y] + t, sep)
  {
    if |t| == 0 {
    } else {
      assert ([x + y] + t)[1..] == t;
      assert ([y] + t)[1..] == t;
    }
  }

  /** Joining the fields of a split gives back the original text. */
  lemma {:induction false} JoinSplit(s: string, sep: char)
    ensures Join(Split(s, sep), sep) == s
  {
    if |s| == 0 {
    } else {
      var rest := Split(s[1..], sep);
      JoinSplit(s[1..], sep);
      if s[0] == sep {
        assert ([""] + rest)[1..] == rest;
        assert s == [sep] + s[1..];
      } else {
        calc {
          Join(Split(s, sep), sep);
          Join([[s[0]] + rest[0]] + rest[1..], sep);
          { JoinConsHead([s[0]], rest[0], rest[1..], sep); }
          [s[0]] + Join([rest[0]] + rest[1..], sep);
          { assert [rest[0]] + rest[1..] == rest; }
          [s[0]] + s[1..];
          s;
        }
      }
    }
  }

  /** Text with no separator in front of a separator splits into that text first. */
  lemma {:induction false} SplitAfterWord(w: string, sep: char, s: string)
    requires sep !in w
    ensures Split(w + [sep] + s, sep) == [w] + Split(s, sep)
  {
    if |w| == 0 {
      assert w + [sep] + s == [sep] + s;
      assert ([sep] + s)[1..] == s;
    } else {
      assert (w + [sep] + s)[1..] == w[1..] + [sep] + s;
      SplitAfterWord(w[1..], sep, s);
      assert [w[0]] + w[1..] == w;
    }
  }

  /** A text without separators is a single field. */
  lemma {:induction false} SplitWord(w: string, sep: char)
    requires sep !in w
    ensures Split(w, sep) == [w]
  {
    if |w| > 0 {
      SplitWord(w[1..], sep);
      assert [w[0]] + w[1..] == w;
    }
  }

  predicate IsPrefix(p: string, s: string)
  {
    |p| <= |s| && s[..|p|] == p
  }

  /** `s` contains `needle` as a contiguous piece. */
  predicate Contains(s: string, needle: string)
    decreases |s|
  {
    IsPrefix(needle, s) || (|s| > 0 && Contains(s[1..], needle))
  }

  /** `needle` occurs in `s` starting at position `i`. */
  predicate OccursAt(s: string, needle: string, i: int)
  {
    0 <= i && i + |needle| <= |s| && s[i..i + |needle|] == needle
  }

  /** The recursive search agrees with the positional definition of a substring. */
  lemma {:induction false} ContainsAt(s: string, needle: string)
    ensures Contains(s, needle) <==> exists i :: OccursAt(s, needle, i)
  {
    if |s| == 0 {
      if Contains(s, needle) {
        assert OccursAt(s, needle, 0);
      }
    } else {
      ContainsAt(s[1..], needle);
      if Contains(s, needle) {
        if IsPrefix(needle, s) {
          assert OccursAt(s, needle, 0);
        } else {
          var i :| OccursAt(s[1..], needle, i);
          assert s[i + 1..i + 1 + |needle|] == s[1..][i..i + |needle|];
          assert OccursAt(s, needle, i + 1);
        }
      }
      if exists i :: OccursAt(s, needle, i) {
        var i :| OccursAt(s, needle, i);
        if i > 0 {
          assert s[1..][i - 1..i - 1 + |needle|] == s[i..i + |needle|];
          assert OccursAt(s[1..], needle, i - 1);
        } else {
          assert IsPrefix(needle, s);
        }
      }
    }
  }

  /** The case-insensitive search finds every exact occurrence. */
  lemma ILikeFindsExact(s: string, needle: string)
    requires Contains(s, needle)
    ensures ILikeSubstring(s, needle)
  {
    ContainsAt(s, needle);
    var i :| OccursAt(s, needle, i);
    forall j | 0 <= j < |needle| ensures Lower(s)[i + j] == Lower(needle)[j] {
      assert s[i + j] == s[i..i + |needle|][j];
    }
    assert Lower(s)[i..i + |needle|] == Lower(needle);
    assert OccursAt(Lower(s), Lower(needle), i);
    ContainsAt(Lower(s), Lower(needle));
  }

  /** A text that lacks a piece of `needle` cannot contain `needle`. */
  lemma PieceMissing(s: string, needle: string, piece: string, k: nat)
    requires OccursAt(needle, piece, k)
    requires forall i :: !OccursAt(s, piece, i)
    ensures !Contains(s, needle)
  {
    ContainsAt(s, needle);
    forall i | OccursAt(s, needle, i) ensures OccursAt(s, piece, i + k) {
      forall j | 0 <= j < |piece| ensures s[i + k + j] == piece[j] {
        assert s[i..i + |needle|][k + j] == s[i + k + j];
        assert needle[k..k + |piece|][j] == needle[k + j];
      }
    }
  }

  /** A text in which one character of `needle` never occurs cannot contain it. */
  lemma CharMissing(s: string, needle: string, k: nat)
    requires k < |needle| && needle[k] !in s
    ensures !Contains(s, needle)
  {
    var piece := [needle[k]];
    forall i ensures !OccursAt(s, piece, i) {
      if 0 <= i < |s| { assert s[i..i + 1] == [s[i]]; }
    }
    PieceMissing(s, needle, piece, k);
  }

  /** A text in which two adjacent characters of `needle` never stand side by side
      cannot contain it. */
  lemma PairMissing(s: string, needle: string, k: nat)
    requires k + 1 < |needle|
    requires forall i :: 0 <= i < |s| - 1 ==> !(s[i] == needle[k] && s[i + 1] == needle[k + 1])
    ensures !Contains(s, needle)
  {
    var piece := [needle[k], needle[k + 1]];
    forall i ensures !OccursAt(s, piece, i) {
      if 0 <= i < |s| - 1 { assert s[i..i + 2] == [s[i], s[i + 1]]; }
    }
    PieceMissing(s, needle, piece, k);
  }

  /** `s` ends with `t`. */
  predicate EndsWith(s: string, t: string)
  {
    |t| <= |s| && s[|s| - |t|..] == t
  }

  lemma EndsWithTransitive(a: string, b: string, c: string)
    requires EndsWith(a, b) && EndsWith(b, c)
    ensures EndsWith(a, c)
  {
    assert a[|a| - |c|..] == a[|a| - |b|..][|b| - |c|..];
  }

  function LowerChar(c: char): char
  {
    if 'A' <= c <= 'Z' then (c as int + 32) as char else c
  }

  /** ASCII lower-casing (`toLowerCase` restricted to ASCII letters). */
  function Lower(s: string): (r: string)
    ensures |r| == |s|
    ensures forall i :: 0 <= i < |s| ==> r[i] == LowerChar(s[i])
  {
    if |s| == 0 then [] else [LowerChar(s[0])] + Lower(s[1..])
  }

  /** `column ILIKE '%' || pattern || '%'`: case-insensitive substring match. */
  predicate ILikeSubstring(column: string, pattern: string)
  {
    Contains(Lower(column), Lower(pattern))
  }

  /** Code-point order on text. `ORDER BY` sorts text by the database collation;
      on lower-case ASCII words such as the priority names the two orders agree. */
  predicate LexLess(a: string, b: string)
    decreases |a|
  {
    if |a| == 0 then |b| > 0
    else if |b| == 0 then false
    else if a[0] != b[0] then a[0] < b[0]
    else LexLess(a[1..], b[1..])
  }

  lemma {:induction false} LexLessIrreflexive(a: string)
    ensures !LexLess(a, a)
  {
    if |a| > 0 { LexLessIrreflexive(a[1..]); }
  }

  /** Two different texts are always ordered one way or the other. */
  lemma {:induction false} LexLessTotal(a: string, b: string)
    requires a != b
    ensures LexLess(a, b) || LexLess(b, a)
  {
    if |a| > 0 && |b| > 0 && a[0] == b[0] {
      assert a == [a[0]] + a[1..] && b == [b[0]] + b[1..];
      LexLessTotal(a[1..], b[1..]);
    }
  }

  lemma {:induction false} LexLessTransitive(a: string, b: string, c: string)
    requires LexLess(a, b) && LexLess(b, c)
    ensures LexLess(a, c)
  {
    if |a| > 0 && |b| > 0 && |c| > 0 && a[0] == b[0] == c[0] {
      LexLessTransitive(a[1..], b[1..], c[1..]);
    }
  }
}
