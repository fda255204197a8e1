/**
 * The stack-trace splitter `substringStacktraceOnlyOnSpaces` (src/githubActionsHelper.ts, lines
 * 369-411). A trace longer than `maxLength` is cut into pieces of at most `maxLength` characters,
 * each cut made at the last space of the next `maxLength` characters (unless that space is the
 * piece's first character), and the pieces are laid out as a code span followed by a collapsed
 * `<details>` block. The function builds that text and then returns its input unchanged.
 */
module Stacktrace {
  import opened Types

  /** `s.lastIndexOf(' ')`: the index of the last space, -1 when there is none. */
  function LastSpace(s: string): (r: int)
    ensures -1 <= r < |s|
    ensures r >= 0 ==> s[r] == ' '
    ensures forall k :: r < k < |s| ==> s[k] != ' '
  {
    if |s| == 0 then -1
    else if Last(s) == ' ' then |s| - 1
    else LastSpace(s[..|s| - 1])
  }

  /**
   * Where the next piece ends (lines 376-384 and 389-403): at the last space among the first `max`
   * characters when that space is not the first character, else after `max` characters.
   */
  function CutAt(rest: string, max: nat): (k: nat)
    requires max < |rest|
    ensures k <= max && (k == 0 <==> max == 0)
    ensures k < max ==> rest[k] == ' ' && forall j :: k < j < max ==> rest[j] != ' '
    ensures k == max ==> forall j :: 0 < j < max ==> rest[j] != ' '
  {
    var i := LastSpace(rest[..max]);
    if i > 0 then i else max
  }

  /** The pieces the splitter cuts a trace into, the short remainder being the last one. */
  function Pieces(rest: string, max: nat): (r: seq<string>)
    requires max > 0
    ensures |r| > 0
    decreases |rest|
  {
    if |rest| <= max then [rest]
    else
      var k := CutAt(rest, max);
      [rest[..k]] + Pieces(rest[k..], max)
  }

  /** The pieces after the first one, each as `<br> ```piece```` (lines 393-406). */
  function Tail(pieces: seq<string>): string
  {
    if |pieces| == 0 then ""
    else Entry(pieces[0]) + Tail(pieces[1..])
  }

  const Fence: string := "```"
  const Summary: string := "<details><summary>...</summary>"
  const CloseDetails: string := "</details>"

  /**
   * The text the splitter builds, returned as it was evidently meant to be; a trace that fits is
   * left as it is.
   */
  function Wrapped(s: string, max: nat): string
    requires |s| <= max || max > 0
  {
    if |s| <= max then s
    else
      var pieces := Pieces(s, max);
      Fence + pieces[0] + Fence + Summary + Tail(pieces[1..]) + CloseDetails
  }

  /** Every piece but possibly the last fills at most `max` characters, and the last one does too. */
  lemma {:induction false} PiecesBounded(s: string, max: nat)
    requires max > 0
    ensures forall k :: 0 <= k < |Pieces(s, max)| ==> |Pieces(s, max)[k]| <= max
    decreases |s|
  {
    if |s| > max {
      PiecesBounded(s[CutAt(s, max)..], max);
    }
  }

  /** No piece is empty, unless the trace itself is. */
  lemma {:induction false} PiecesNonEmpty(s: string, max: nat)
    requires max > 0 && |s| > 0
    ensures forall k :: 0 <= k < |Pieces(s, max)| ==> |Pieces(s, max)[k]| > 0
    decreases |s|
  {
    if |s| > max {
      PiecesNonEmpty(s[CutAt(s, max)..], max);
    }
  }

  /** The pieces, concatenated in order, are the trace: a cut at a space keeps the space at the head of the remainder. */
  lemma {:induction false} PiecesConcat(s: string, max: nat)
    requires max > 0
    ensures Concat(Pieces(s, max)) == s
    decreases |s|
  {
    if |s| <= max {
      ConcatCons(s, []);
      assert [s] + [] == [s];
    } else {
      var k := CutAt(s, max);
      PiecesConcat(s[k..], max);
      ConcatCons(s[..k], Pieces(s[k..], max));
      SplitAt(s, k);
    }
  }

  lemma SplitAt(s: string, k: nat)
    requires k <= |s|
    ensures s[..k] + s[k..] == s
  {
  }

  /** Every piece after the first starts with the space it was cut at, or was cut blind at `max`. */
  lemma {:induction false} PiecesCutAtSpaces(s: string, max: nat)
    requires max > 0
    ensures forall k :: 0 < k < |Pieces(s, max)| && |Pieces(s, max)[k - 1]| < max ==>
      |Pieces(s, max)[k]| > 0 && Pieces(s, max)[k][0] == ' '
    decreases |s|
  {
    if |s| > max {
      var c := CutAt(s, max);
      var rest := s[c..];
      PiecesCutAtSpaces(rest, max);
      var r := Pieces(s, max);
      forall k | 0 < k < |r| && |r[k - 1]| < max ensures |r[k]| > 0 && r[k][0] == ' ' {
        if k == 1 {
          if |rest| <= max {
            assert r[1] == rest;
          } else {
            assert r[1] == rest[..CutAt(rest, max)];
          }
        } else {
          assert r[k] == Pieces(rest, max)[k - 1] && r[k - 1] == Pieces(rest, max)[k - 2];
        }
      }
    }
  }

  lemma {:induction false} TailCovers(rest: string, max: nat)
    requires max > 0
    ensures |Tail(Pieces(rest, max))| > |rest|
    decreases |rest|
  {
    if |rest| <= max {
      assert Pieces(rest, max)[1..] == [];
    } else {
      var k := CutAt(rest, max);
      TailCovers(rest[k..], max);
      assert Pieces(rest, max)[1..] == Pieces(rest[k..], max);
    }
  }

  /** Wrapping never gives back a trace longer than `max`: the text the source builds always differs from what it returns. */
  lemma {:induction false} WrappedDiffers(s: string, max: nat)
    requires |s| > max > 0
    ensures Wrapped(s, max) != s
  {
    var k := CutAt(s, max);
    TailCovers(s[k..], max);
    assert Pieces(s, max)[1..] == Pieces(s[k..], max);
    assert |Wrapped(s, max)| > |s|;
  }

  /** With `maxLength` 0 the cut is empty, so the remainder never shrinks and the loop of lines 388-404 runs forever. */
  lemma {:induction false} CutStallsAtZero(rest: string)
    requires |rest| > 0
    ensures CutAt(rest, 0) == 0 && rest[CutAt(rest, 0)..] == rest
  {
  }

  /** One turn of the loop of lines 388-404 keeps the text still to come. */
  lemma {:induction false} TailStep(built: string, rest: string, max: nat)
    requires |rest| > max > 0
    ensures built + Tail(Pieces(rest, max)) + CloseDetails
      == (built + Entry(rest[..CutAt(rest, max)])) + Tail(Pieces(rest[CutAt(rest, max)..], max)) + CloseDetails
  {
    var k := CutAt(rest, max);
    assert Pieces(rest, max)[1..] == Pieces(rest[k..], max);
  }

  /** The text before the loop of lines 388-404: the first piece, then the summary. */
  lemma {:induction false} WrappedStart(s: string, max: nat)
    requires |s| > max > 0
    ensures Wrapped(s, max)
      == (Fence + s[..CutAt(s, max)] + Fence + Summary) + Tail(Pieces(s[CutAt(s, max)..], max)) + CloseDetails
  {
    assert Pieces(s, max)[1..] == Pieces(s[CutAt(s, max)..], max);
  }

  /** The last piece, appended after the loop (line 406). */
  lemma {:induction false} TailLast(built: string, rest: string, max: nat)
    requires |rest| <= max && max > 0
    ensures built + Tail(Pieces(rest, max)) + CloseDetails == (built + Entry(rest)) + CloseDetails
  {
    assert Pieces(rest, max) == [rest];
    assert Pieces(rest, max)[1..] == [];
    assert Tail(Pieces(rest, max)) == Entry(rest) + "";
  }

  /** `<br> ```piece```` */
  function Entry(piece: string): string
  {
    "<br> " + Fence + piece + Fence
  }

  /** The splitter with the built text returned: the loop of lines 375-409. */
  method WrapStacktrace(s: string, max: nat) returns (r: string)
    requires |s| <= max || max > 0
    ensures r == Wrapped(s, max)
  {
    if |s| <= max {
      return s;
    }
    var k := CutAt(s, max);
    r := Fence + s[..k] + Fence + Summary;
    var rest := s[k..];
    ghost var whole := Wrapped(s, max);
    WrappedStart(s, max);
    while |rest| > max
      invariant whole == r + Tail(Pieces(rest, max)) + CloseDetails
      decreases |rest|
    {
      TailStep(r, rest, max);
      k := CutAt(rest, max);
      r := r + Entry(rest[..k]);
      rest := rest[k..];
    }
    TailLast(r, rest, max);
    r := r + Entry(rest);
    r := r + CloseDetails;
  }

  /**
   * `substringStacktraceOnlyOnSpaces` as written: the text is built and dropped, and the trace is
   * returned unchanged (line 410), so a long trace is never wrapped.
   */
  method SubstringStacktraceOnlyOnSpaces(s: string, max: nat) returns (r: string)
    requires |s| <= max || max > 0
    ensures r == s
    ensures |s| > max ==> r != Wrapped(s, max)
  {
    var built := WrapStacktrace(s, max);
    r := s;
    if |s| > max {
      WrappedDiffers(s, max);
    }
  }
}
