/** The `java.lang.String` and `java.lang.Long` operations the worker's
    result handling and the container runner use, with Java's semantics
    spelled out: `split("\n")` with its dropped trailing empty strings,
    `replace` of a character and of a substring, `startsWith`,
    `equalsIgnoreCase`, and the decimal text of a `long`. */
module JavaString {
  import opened JavaLang

  const NewLine: char := '\n'

  /** `s.startsWith(prefix)`. */
  predicate StartsWith(s: string, prefix: string)
  {
    |prefix| <= |s| && s[..|prefix|] == prefix
  }

  // ---------------------------------------------------------------------
  // Splitting on "\n"
  // ---------------------------------------------------------------------

  /** Pieces glued back together with a `\n` between each two. */
  function Join(pieces: seq<string>): string
  {
    if pieces == [] then ""
    else if |pieces| == 1 then pieces[0]
    else pieces[0] + [NewLine] + Join(pieces[1..])
  }

  /** `s` cut at every `\n`, keeping every piece, also the empty ones: the
      pieces `split` finds before it drops the trailing empty ones. There is
      one piece more than `s` has `\n` characters, and gluing them back
      gives `s`. */
  function Pieces(s: string): (r: seq<string>)
    ensures |r| >= 1
    ensures forall i :: 0 <= i < |r| ==> NewLine !in r[i]
    ensures Join(r) == s
  {
    if s == [] then [""]
    else if s[0] == NewLine then
      var rest := Pieces(s[1..]);
      assert ([""] + rest)[1..] == rest;
      [""] + rest
    else
      var rest := Pieces(s[1..]);
      var r := [[s[0]] + rest[0]] + rest[1..];
      assert r[1..] == rest[1..];
      r
  }

  /** `pieces` without its trailing empty strings. */
  function DropTrailingEmpty(pieces: seq<string>): (r: seq<string>)
    ensures r <= pieces
    ensures r == [] || r[|r| - 1] != ""
    ensures forall i :: |r| <= i < |pieces| ==> pieces[i] == ""
  {
    if pieces == [] || pieces[|pieces| - 1] != "" then pieces
    else DropTrailingEmpty(pieces[..|pieces| - 1])
  }

  /** `s.split("\n")`, that is `split` with limit 0: when `s` holds no `\n`
      the result is the one string `s` (also when `s` is empty); otherwise
      it is the pieces between the `\n` characters with the trailing empty
      ones removed, so that it can be empty. */
  function Split(s: string): seq<string>
  {
    if NewLine !in s then [s] else DropTrailingEmpty(Pieces(s))
  }

  /** Every character of `s` is a `\n`. */
  predicate OnlyNewLines(s: string)
  {
    forall i :: 0 <= i < |s| ==> s[i] == NewLine
  }

  /** The text of `s` before its first `\n` (all of `s` if it has none). */
  function FirstLine(s: string): string
  {
    if s == [] || s[0] == NewLine then [] else [s[0]] + FirstLine(s[1..])
  }

  /** `s` without the `\n` characters at its end. */
  function TrimTrailingNewLines(s: string): string
  {
    if s != [] && s[|s| - 1] == NewLine then TrimTrailingNewLines(s[..|s| - 1]) else s
  }

  lemma {:induction false} PiecesWithoutNewLine(s: string)
    requires NewLine !in s
    ensures Pieces(s) == [s]
  {
    if s != [] {
      PiecesWithoutNewLine(s[1..]);
    }
  }

  /** The pieces of `s` are all empty exactly when `s` is made of `\n` only. */
  lemma {:induction false} PiecesAllEmpty(s: string)
    ensures (forall i :: 0 <= i < |Pieces(s)| ==> Pieces(s)[i] == "") <==> OnlyNewLines(s)
  {
    if s != [] {
      PiecesAllEmpty(s[1..]);
      var rest := Pieces(s[1..]);
      if s[0] == NewLine {
        assert Pieces(s) == [""] + rest;
        assert OnlyNewLines(s) <==> OnlyNewLines(s[1..]) by {
          if OnlyNewLines(s[1..]) {
            forall i | 0 <= i < |s| ensures s[i] == NewLine {
              if i > 0 { assert s[i] == s[1..][i - 1]; }
            }
          }
        }
      } else {
        assert Pieces(s)[0] != "";
        assert !OnlyNewLines(s) by { assert s[0] != NewLine; }
      }
    }
  }

  /** The first piece of `s` is its first line. */
  lemma {:induction false} PiecesHead(s: string)
    ensures Pieces(s)[0] == FirstLine(s)
  {
    if s != [] && s[0] != NewLine {
      PiecesHead(s[1..]);
    }
  }

  /** `split` keeps a prefix of the pieces and drops only empty ones. */
  lemma {:induction false} SplitPrefixOfPieces(s: string)
    ensures Split(s) <= Pieces(s)
    ensures forall i :: |Split(s)| <= i < |Pieces(s)| ==> Pieces(s)[i] == ""
  {
    if NewLine !in s {
      PiecesWithoutNewLine(s);
    }
  }

  /** No string in the result of `split` holds a `\n`. */
  lemma {:induction false} SplitLinesHaveNoNewLine(s: string)
    ensures forall i :: 0 <= i < |Split(s)| ==> NewLine !in Split(s)[i]
  {
    SplitPrefixOfPieces(s);
  }

  /** `split` gives no string at all exactly when `s` is non-empty and made
      of `\n` only; the empty string gives one (empty) string. */
  lemma {:induction false} SplitEmptyIff(s: string)
    ensures Split(s) == [] <==> (s != "" && OnlyNewLines(s))
  {
    if NewLine in s {
      PiecesAllEmpty(s);
      var ps := Pieces(s);
      var r := DropTrailingEmpty(ps);
      if r == [] {
        assert forall i :: 0 <= i < |ps| ==> ps[i] == "";
      } else {
        assert !(forall i :: 0 <= i < |Pieces(s)| ==> Pieces(s)[i] == "") by {
          assert Pieces(s)[|r| - 1] != "";
        }
        assert !OnlyNewLines(s);
        assert Split(s) == r;
      }
    } else if s != "" {
      assert s[0] != NewLine;
    }
  }

  /** When `split` gives at least one string, the first is the first line. */
  lemma {:induction false} SplitHead(s: string)
    requires Split(s) != []
    ensures Split(s)[0] == FirstLine(s)
  {
    SplitPrefixOfPieces(s);
    PiecesHead(s);
  }

  lemma {:induction false} JoinSnoc(ps: seq<string>, x: string)
    requires ps != []
    ensures Join(ps + [x]) == Join(ps) + [NewLine] + x
  {
    if |ps| > 1 {
      assert (ps + [x])[1..] == ps[1..] + [x];
      JoinSnoc(ps[1..], x);
    }
  }

  lemma {:induction false} JoinEndsWithLastPiece(ps: seq<string>)
    requires ps != [] && ps[|ps| - 1] != ""
    ensures Join(ps) != [] && Join(ps)[|Join(ps)| - 1] == ps[|ps| - 1][|ps[|ps| - 1]| - 1]
  {
    if |ps| > 1 {
      JoinEndsWithLastPiece(ps[1..]);
    }
  }

  lemma {:induction false} JoinDropTrailingEmpty(ps: seq<string>)
    requires forall i :: 0 <= i < |ps| ==> NewLine !in ps[i]
    ensures Join(DropTrailingEmpty(ps)) == TrimTrailingNewLines(Join(ps))
    decreases |ps|
  {
    if ps == [] {
    } else if ps[|ps| - 1] != "" {
      JoinEndsWithLastPiece(ps);
      var last := ps[|ps| - 1];
      assert last[|last| - 1] in last;
    } else {
      var qs := ps[..|ps| - 1];
      assert ps == qs + [""];
      JoinDropTrailingEmpty(qs);
      if qs != [] {
        JoinSnoc(qs, "");
        var j := Join(qs);
        assert (j + [NewLine] + "")[..|j|] == j;
      }
    }
  }

  /** Gluing the result of `split` back with `\n` gives `s` without its
      trailing `\n` characters: only those are lost. */
  lemma {:induction false} SplitJoin(s: string)
    ensures Join(Split(s)) == TrimTrailingNewLines(s)
  {
    if NewLine in s {
      JoinDropTrailingEmpty(Pieces(s));
    } else if s != [] {
      assert s[|s| - 1] in s;
    }
  }

  /** A first line followed by `\n` gives a first piece of its own. */
  lemma {:induction false} PiecesCons(a: string, rest: string)
    requires NewLine !in a
    ensures Pieces(a + [NewLine] + rest) == [a] + Pieces(rest)
    decreases |a|
  {
    var s := a + [NewLine] + rest;
    if a == [] {
      assert s[1..] == rest;
    } else {
      assert s[1..] == a[1..] + [NewLine] + rest;
      assert s[0] == a[0] != NewLine;
      PiecesCons(a[1..], rest);
      assert [a[0]] + a[1..] == a;
    }
  }

  /** Cutting glued pieces that hold no `\n` gives the pieces back. */
  lemma {:induction false} PiecesOfJoin(ps: seq<string>)
    requires ps != [] && forall i :: 0 <= i < |ps| ==> NewLine !in ps[i]
    ensures Pieces(Join(ps)) == ps
  {
    if |ps| == 1 {
      PiecesWithoutNewLine(ps[0]);
    } else {
      PiecesOfJoin(ps[1..]);
      PiecesCons(ps[0], Join(ps[1..]));
    }
  }

  // ---------------------------------------------------------------------
  // replace, equalsIgnoreCase
  // ---------------------------------------------------------------------

  /** `s.replace(from, to)` for one-character strings: every occurrence of
      `from` becomes `to`, and nothing else changes. */
  function ReplaceChar(s: string, from: char, to: char): (r: string)
    ensures |r| == |s|
    ensures forall i :: 0 <= i < |s| ==> r[i] == if s[i] == from then to else s[i]
  {
    seq(|s|, i requires 0 <= i < |s| => if s[i] == from then to else s[i])
  }

  /** Replacing in two texts one after the other is replacing in each. */
  lemma {:induction false} ReplaceCharConcat(x: string, y: string, from: char, to: char)
    ensures ReplaceChar(x + y, from, to) == ReplaceChar(x, from, to) + ReplaceChar(y, from, to)
  {
    var r := ReplaceChar(x, from, to) + ReplaceChar(y, from, to);
    forall i | 0 <= i < |x + y| ensures ReplaceChar(x + y, from, to)[i] == r[i] {
      if i >= |x| {
        assert (x + y)[i] == y[i - |x|];
      }
    }
  }

  /** `target` occurs in `s` at index `i`. */
  predicate OccursAt(s: string, target: string, i: nat)
  {
    i <= |s| && StartsWith(s[i..], target)
  }

  /** `s.contains(target)`. */
  predicate Contains(s: string, target: string)
  {
    exists i: nat | i <= |s| :: OccursAt(s, target, i)
  }

  /** `s.replace(target, "")`: scanning from the left, each occurrence of
      `target` is cut out and the scan goes on after it; what results is not
      scanned again, so new occurrences can form. */
  function RemoveAll(s: string, target: string): (r: string)
    requires target != []
    ensures |r| <= |s|
    decreases |s|
  {
    if s == [] then []
    else if StartsWith(s, target) then RemoveAll(s[|target|..], target)
    else [s[0]] + RemoveAll(s[1..], target)
  }

  /** Removing a target that does not occur changes nothing. */
  lemma {:induction false} RemoveAllAbsent(s: string, target: string)
    requires target != [] && !Contains(s, target)
    ensures RemoveAll(s, target) == s
  {
    if s != [] {
      assert !OccursAt(s, target, 0);
      AbsentFromTail(s, target);
      RemoveAllAbsent(s[1..], target);
    }
  }

  /** A target absent from a text is absent from its tail. */
  lemma {:induction false} AbsentFromTail(s: string, target: string)
    requires s != [] && !Contains(s, target)
    ensures !Contains(s[1..], target)
  {
    forall i: nat | OccursAt(s[1..], target, i) ensures false {
      assert s[1..][i..] == s[i + 1..];
      assert OccursAt(s, target, i + 1);
    }
  }

  /** ".java" does not start a text made of a non-empty text holding no
      ".java" and then ".java": no proper suffix of ".java" begins it. */
  lemma {:induction false} JavaNotFirst(a: string, b: string)
    requires a != [] && !Contains(a, ".java")
    ensures !StartsWith(a + ".java" + b, ".java")
  {
    var s := a + ".java" + b;
    if |a| >= 5 {
      assert s[..5] == a[..5];
      assert !OccursAt(a, ".java", 0);
    } else {
      assert s[|a|] == '.';
    }
  }

  /** An occurrence of ".java" after a text holding none is the first one
      the scan meets: it is cut out, and the scan goes on after it, so every
      ".java" is removed and not only a trailing one. */
  lemma {:induction false} RemoveJavaOccurrence(a: string, b: string)
    requires !Contains(a, ".java")
    ensures RemoveAll(a + ".java" + b, ".java") == a + RemoveAll(b, ".java")
    decreases |a|
  {
    var s := a + ".java" + b;
    if a == [] {
      assert s == ".java" + b;
      assert s[5..] == b;
    } else {
      JavaNotFirst(a, b);
      AbsentFromTail(a, ".java");
      RemoveJavaOccurrence(a[1..], b);
      assert s[1..] == a[1..] + ".java" + b;
      assert [a[0]] + a[1..] == a;
    }
  }

  /** A class name followed by ".java", the name not itself holding ".java",
      loses exactly that suffix: `Main.java` gives `Main`. */
  lemma {:induction false} RemoveJavaExtension(stem: string)
    requires !Contains(stem, ".java")
    ensures RemoveAll(stem + ".java", ".java") == stem
  {
    RemoveJavaOccurrence(stem, "");
    assert stem + ".java" + "" == stem + ".java";
  }

  /** Both occurrences go: `A.javaB.java` gives `AB`. */
  lemma {:induction false} RemoveEveryJavaExample()
    ensures RemoveAll("A.javaB.java", ".java") == "AB"
  {
    assert !Contains("A", ".java");
    assert !Contains("B", ".java");
    RemoveJavaOccurrence("A", "B.java");
    assert "A" + ".java" + "B.java" == "A.javaB.java";
    RemoveJavaExtension("B");
    assert "B" + ".java" == "B.java";
  }

  /** Concatenation regrouped to the right. */
  lemma {:induction false} Regroup(a: string, b: string, c: string, d: string)
    ensures a + b + c + d == a + (b + (c + d))
  {
  }

  /** `Character.toLowerCase` restricted to ASCII letters. */
  function ToLowerAscii(c: char): char
  {
    if 'A' <= c <= 'Z' then (c as int + 32) as char else c
  }

  /** `a.equalsIgnoreCase(b)` with ASCII case folding. Java folds every
      Unicode letter, but the only non-ASCII characters that fold onto an
      ASCII letter fold onto `i`, `k` or `s`; the two words the runner
      compares with, "java" and "python", hold none of these, so for them
      ASCII folding gives Java's answer. */
  predicate EqualsIgnoreCase(a: string, b: string)
  {
    |a| == |b| && forall i :: 0 <= i < |a| ==> ToLowerAscii(a[i]) == ToLowerAscii(b[i])
  }

  /** `s` with every ASCII capital replaced by its small letter. */
  function LowerAscii(s: string): (r: string)
    ensures |r| == |s| && forall i :: 0 <= i < |s| ==> r[i] == ToLowerAscii(s[i])
  {
    seq(|s|, i requires 0 <= i < |s| => ToLowerAscii(s[i]))
  }

  /** Against a word in small letters, `equalsIgnoreCase` holds exactly when
      lowering `a` gives that word. */
  lemma {:induction false} EqualsIgnoreCaseLower(a: string, word: string)
    requires forall i :: 0 <= i < |word| ==> ToLowerAscii(word[i]) == word[i]
    ensures EqualsIgnoreCase(a, word) <==> LowerAscii(a) == word
  {
    if LowerAscii(a) == word {
      assert forall i :: 0 <= i < |a| ==> ToLowerAscii(a[i]) == LowerAscii(a)[i];
    }
  }

  // ---------------------------------------------------------------------
  // Long.toString and a reader for it
  // ---------------------------------------------------------------------

  predicate IsDigit(c: char)
  {
    '0' <= c <= '9'
  }

  function DigitChar(d: nat): char
    requires d < 10
  {
    ('0' as int + d) as char
  }

  /** The decimal digits of `n`, without leading zeros. */
  function Digits(n: nat): (r: string)
    ensures r != [] && forall i :: 0 <= i < |r| ==> IsDigit(r[i])
  {
    if n < 10 then [DigitChar(n)] else Digits(n / 10) + [DigitChar(n % 10)]
  }

  /** `Long.toString(n)`, which `+` applies to a `long`: a minus sign for a
      negative value, then the digits of its magnitude. */
  function LongToString(n: Long): (r: string)
    ensures r != [] && forall i :: 0 <= i < |r| ==> IsDigit(r[i]) || r[i] == '-'
  {
    if n < 0 then "-" + Digits(-(n as int)) else Digits(n)
  }

  /** The value of a string of decimal digits. */
  function DigitsValue(s: string): nat
    requires forall i :: 0 <= i < |s| ==> IsDigit(s[i])
  {
    if s == [] then 0
    else
      assert IsDigit(s[|s| - 1]);
      10 * DigitsValue(s[..|s| - 1]) + (s[|s| - 1] as int - '0' as int)
  }

  /** Reads a decimal integer with an optional minus sign. */
  function ParseLong(s: string): Option<int>
  {
    if s != [] && s[0] == '-' then
      if |s| > 1 && forall i :: 1 <= i < |s| ==> IsDigit(s[i]) then Some(-(DigitsValue(s[1..]) as int)) else None
    else if s != [] && forall i :: 0 <= i < |s| ==> IsDigit(s[i]) then Some(DigitsValue(s))
    else None
  }

  lemma {:induction false} DigitsRoundTrip(n: nat)
    ensures DigitsValue(Digits(n)) == n
  {
    if n >= 10 {
      var d := Digits(n / 10);
      DigitsRoundTrip(n / 10);
      assert (d + [DigitChar(n % 10)])[..|d|] == d;
    }
  }

  /** Reading back the text of a `long` gives the `long`. */
  lemma {:induction false} LongRoundTrip(n: Long)
    ensures ParseLong(LongToString(n)) == Some(n)
  {
    if n < 0 {
      DigitsRoundTrip(-(n as int));
      assert LongToString(n)[1..] == Digits(-(n as int));
    } else {
      DigitsRoundTrip(n);
    }
  }

  // ---------------------------------------------------------------------
  // Cutting at a delimiter (used by the readers of the worker's messages)
  // ---------------------------------------------------------------------

  /** The text of `s` before its first `c` and the rest from that `c` on;
      `None` when `c` does not occur. */
  function SplitAt(s: string, c: char): (r: Option<(string, string)>)
    ensures r.None? <==> c !in s
    ensures r.Some? ==> r.value.0 + r.value.1 == s && c !in r.value.0 && r.value.1 != [] && r.value.1[0] == c
  {
    if s == [] then None
    else if s[0] == c then Some(([], s))
    else
      assert s == [s[0]] + s[1..];
      match SplitAt(s[1..], c)
      case None => None
      case Some((a, b)) =>
        assert [s[0]] + a + b == s;
        Some(([s[0]] + a, b))
  }

  /** The cut is at the first `c`: a text free of `c` followed by a `c` is
      cut right there. */
  lemma {:induction false} SplitAtConcat(a: string, b: string, c: char)
    requires c !in a && b != [] && b[0] == c
    ensures SplitAt(a + b, c) == Some((a, b))
  {
    var s := a + b;
    assert c in s by { assert s[|a|] == c; }
    var (x, y) := SplitAt(s, c).value;
    assert s[|x|] == c;
    assert s[|a|] == c;
    assert forall i :: 0 <= i < |a| ==> s[i] != c;
    assert forall i :: 0 <= i < |x| ==> s[i] != c;
    assert x == s[..|x|] == a;
  }
}
