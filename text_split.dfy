/** Splitting a command line on a separator character and joining pieces
    back together: the string manipulation `shell` performs with
    `program_line.split(' ')` before it launches a process.

    `Split` follows the standard library's `str::split` with a `char`
    pattern: every occurrence of the separator ends a piece, empty pieces
    are kept (two separators in a row, a separator at either end), and an
    empty line yields a single empty piece. */
module TextSplit {

  /** The pieces of `s` between occurrences of `sep`, in order. */
  function Split(s: string, sep: char): (pieces: seq<string>)
    ensures |pieces| >= 1
    ensures forall k :: 0 <= k < |pieces| ==> sep !in pieces[k]
    decreases |s|
  {
    if |s| == 0 then [""]
    else
      var tail := Split(s[1..], sep);
      if s[0] == sep then [""] + tail
      else [[s[0]] + tail[0]] + tail[1..]
  }

  /** The pieces written one after the other with `sep` between neighbours. */
  function Join(pieces: seq<string>, sep: char): string
    requires |pieces| >= 1
    decreases |pieces|
  {
    if |pieces| == 1 then pieces[0]
    else pieces[0] + [sep] + Join(pieces[1..], sep)
  }

  /** Number of occurrences of `c` in `s`. */
  function Count(s: string, c: char): nat
    decreases |s|
  {
    if |s| == 0 then 0
    else (if s[0] == c then 1 else 0) + Count(s[1..], c)
  }

  /** The pieces of every string of `ws`, in order, one list after another. */
  function SplitEach(ws: seq<string>, sep: char): seq<string>
    decreases |ws|
  {
    if |ws| == 0 then [] else Split(ws[0], sep) + SplitEach(ws[1..], sep)
  }

  /** Whether no string of `ws` contains `sep`. */
  predicate NoneContains(ws: seq<string>, sep: char)
  {
    forall k :: 0 <= k < |ws| ==> sep !in ws[k]
  }

  /** Splitting never loses or reorders a character: joining the pieces
      with the same separator gives back the line. */
  lemma {:induction false} JoinSplit(s: string, sep: char)
    ensures Join(Split(s, sep), sep) == s
    decreases |s|
  {
    if |s| > 0 {
      var tail := Split(s[1..], sep);
      JoinSplit(s[1..], sep);
      if s[0] == sep {
        assert Split(s, sep) == [""] + tail;
        assert s == [sep] + s[1..];
      } else {
        JoinFirstPrefix([s[0]], tail, sep);
        assert Split(s, sep) == [[s[0]] + tail[0]] + tail[1..];
        assert s == [s[0]] + s[1..];
      }
    }
  }

  /** Joining a word in front of a non-empty list puts one separator
      between the word and the rest. */
  lemma JoinCons(w: string, rest: seq<string>, sep: char)
    requires |rest| >= 1
    ensures Join([w] + rest, sep) == w + [sep] + Join(rest, sep)
  {
    assert ([w] + rest)[1..] == rest;
  }

  /** Prefixing the first piece prefixes the joined line. */
  lemma {:induction false} JoinFirstPrefix(c: string, pieces: seq<string>, sep: char)
    requires |pieces| >= 1
    ensures Join([c + pieces[0]] + pieces[1..], sep) == c + Join(pieces, sep)
  {
    var ps := [c + pieces[0]] + pieces[1..];
    if |pieces| > 1 {
      assert ps[1..] == pieces[1..];
    }
  }

  /** A line without the separator is a single piece. */
  lemma {:induction false} SplitWhole(s: string, sep: char)
    requires sep !in s
    ensures Split(s, sep) == [s]
    decreases |s|
  {
    if |s| > 0 {
      SplitWhole(s[1..], sep);
      assert [s[0]] + s[1..] == s;
    }
  }

  /** A separator between two strings separates their pieces:
      the pieces of `a + [sep] + b` are those of `a` followed by those of `b`. */
  lemma {:induction false} SplitConcat(a: string, b: string, sep: char)
    ensures Split(a + [sep] + b, sep) == Split(a, sep) + Split(b, sep)
    decreases |a|
  {
    var s := a + [sep] + b;
    if |a| == 0 {
      assert s[0] == sep && s[1..] == b;
    } else {
      assert s[0] == a[0] && s[1..] == a[1..] + [sep] + b;
      SplitConcat(a[1..], b, sep);
    }
  }

  /** Splitting a joined list gives the pieces of each joined string in turn. */
  lemma {:induction false} SplitJoinEach(ws: seq<string>, sep: char)
    requires |ws| >= 1
    ensures Split(Join(ws, sep), sep) == SplitEach(ws, sep)
    decreases |ws|
  {
    if |ws| == 1 {
      assert SplitEach(ws[1..], sep) == [];
    } else {
      SplitConcat(ws[0], Join(ws[1..], sep), sep);
      SplitJoinEach(ws[1..], sep);
    }
  }

  /** When no piece contains the separator, splitting undoes joining. */
  lemma {:induction false} SplitEachWhole(ws: seq<string>, sep: char)
    requires NoneContains(ws, sep)
    ensures SplitEach(ws, sep) == ws
    decreases |ws|
  {
    if |ws| > 0 {
      SplitWhole(ws[0], sep);
      SplitEachWhole(ws[1..], sep);
      assert ws == [ws[0]] + ws[1..];
    }
  }

  /** Splitting undoes joining exactly when no piece holds the separator. */
  lemma SplitJoin(ws: seq<string>, sep: char)
    requires |ws| >= 1 && NoneContains(ws, sep)
    ensures Split(Join(ws, sep), sep) == ws
  {
    SplitJoinEach(ws, sep);
    SplitEachWhole(ws, sep);
  }

  /** A line with `n` separators has `n + 1` pieces. */
  lemma {:induction false} SplitLength(s: string, sep: char)
    ensures |Split(s, sep)| == Count(s, sep) + 1
    decreases |s|
  {
    if |s| > 0 {
      SplitLength(s[1..], sep);
    }
  }

  /** The pieces of a list of strings number at least as many as the list,
      and strictly more as soon as one string holds the separator. */
  lemma {:induction false} SplitEachLength(ws: seq<string>, sep: char)
    ensures |SplitEach(ws, sep)| >= |ws|
    ensures |SplitEach(ws, sep)| == |ws| <==> NoneContains(ws, sep)
    decreases |ws|
  {
    if |ws| > 0 {
      SplitEachLength(ws[1..], sep);
      SplitLength(ws[0], sep);
      CountZero(ws[0], sep);
      if NoneContains(ws, sep) {
        assert NoneContains(ws[1..], sep);
      } else if NoneContains(ws[1..], sep) {
        assert sep in ws[0] by {
          var k :| 0 <= k < |ws| && sep in ws[k];
          if k > 0 { assert ws[1..][k - 1] == ws[k]; }
        }
      }
      if NoneContains(ws[1..], sep) && sep !in ws[0] {
        forall k | 0 <= k < |ws| ensures sep !in ws[k] {
          if k > 0 { assert ws[1..][k - 1] == ws[k]; }
        }
      }
    }
  }

  /** A string holds no occurrence of `c` exactly when its count is zero. */
  lemma {:induction false} CountZero(s: string, c: char)
    ensures Count(s, c) == 0 <==> c !in s
    decreases |s|
  {
    if |s| > 0 {
      CountZero(s[1..], c);
      assert s == [s[0]] + s[1..];
    }
  }
}
