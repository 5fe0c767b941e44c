/**
 * splitOn (params.go:300-323): cuts a string at a separator rune, dropping
 * empty pieces, and stops cutting once `count - 1` pieces are out (the rest
 * of the string then becomes the last piece).
 *
 * The Go loop has a `continue` that skips `i += size` when it meets the
 * separator with an empty piece buffer: a leading or doubled separator makes
 * it spin forever. `Split` returns None exactly for those inputs, and the
 * method `SplitOn` requires Some.
 */
module Splitting {
  import opened Options

  /**
   * The loop of splitOn from position `i`, with `line` the piece being
   * collected and `out` the pieces already emitted.
   */
  function SplitLoop(str: string, c: char, count: int, i: nat, line: string, out: seq<string>): Option<seq<string>>
    requires i <= |str|
    decreases |str| - i
  {
    if i == |str| then
      Some(if |line| > 0 then out + [line] else out)
    else if str[i] == c then
      if |line| == 0 then
        None  // `continue` without advancing: the loop never ends
      else if |out| + 1 == count - 1 then
        var rest := str[i + 1..];
        Some(if |rest| > 0 then out + [line] + [rest] else out + [line])
      else
        SplitLoop(str, c, count, i + 1, [], out + [line])
    else
      SplitLoop(str, c, count, i + 1, line + [str[i]], out)
  }

  /**
   * The pieces splitOn(str, c, count) returns, or None when it never returns.
   * Every piece is non-empty; pieces before the count limit hold no
   * separator; at most `count` pieces come out when count >= 2; and joining
   * the pieces with the separator gives back the input, up to one trailing
   * separator.
   */
  function Split(str: string, c: char, count: int): (r: Option<seq<string>>)
    ensures r.Some? ==>
      && (forall k :: 0 <= k < |r.value| ==> |r.value[k]| > 0)
      && (forall k :: 0 <= k < |r.value| && (count < 2 || k < count - 1) ==> c !in r.value[k])
      && (count >= 2 ==> |r.value| <= count)
      && (Join(r.value, c) == str || Join(r.value, c) + [c] == str)
  {
    assert LoopState(str, c, count, 0, [], []);
    if SplitLoop(str, c, count, 0, [], []).Some? then
      SplitLoopFacts(str, c, count, 0, [], []);
      SplitLoop(str, c, count, 0, [], [])
    else
      SplitLoop(str, c, count, 0, [], [])
  }

  /** splitOn itself, with its bytes.Buffer as the string `line`. */
  method SplitOn(str: string, c: char, count: int) returns (out: seq<string>)
    requires Split(str, c, count).Some?
    ensures Split(str, c, count) == Some(out)
  {
    var line: string := [];
    var i := 0;
    out := [];
    while i < |str|
      invariant 0 <= i <= |str|
      invariant SplitLoop(str, c, count, i, line, out) == Split(str, c, count)
      decreases |str| - i
    {
      var r := str[i];
      if r == c {
        if |line| == 0 {
          // here the source's `continue` would loop forever; the precondition excludes it
          assert false;
        }
        out := out + [line];
        line := [];
        if |out| == count - 1 {
          line := str[i + 1..];
          break;
        }
      } else {
        line := line + [r];
      }
      i := i + 1;
    }
    if |line| > 0 {
      out := out + [line];
    }
  }

  /** The pieces glued back together with the separator between them. */
  function Join(pieces: seq<string>, c: char): string
  {
    if |pieces| == 0 then []
    else if |pieces| == 1 then pieces[0]
    else pieces[0] + [c] + Join(pieces[1..], c)
  }

  lemma {:induction false} JoinSnoc(pieces: seq<string>, p: string, c: char)
    ensures Join(pieces + [p], c) == if |pieces| == 0 then p else Join(pieces, c) + [c] + p
    decreases |pieces|
  {
    if |pieces| > 1 {
      assert (pieces + [p])[1..] == pieces[1..] + [p];
      JoinSnoc(pieces[1..], p, c);
    }
  }

  /** What has been read so far, as the loop state records it. */
  function Consumed(out: seq<string>, line: string, c: char): string
  {
    if |out| == 0 then line else Join(out, c) + [c] + line
  }

  /** What the loop of splitOn has built so far, as its state records it. */
  ghost predicate LoopState(str: string, c: char, count: int, i: nat, line: string, out: seq<string>)
  {
    && i <= |str|
    && (forall k :: 0 <= k < |out| ==> |out[k]| > 0 && c !in out[k])
    && c !in line
    && (count >= 2 ==> |out| <= count - 2)
    && str[..i] == Consumed(out, line, c)
  }

  /** What splitOn promises about the pieces `r` it returns for `str`. */
  ghost predicate PiecesOf(r: seq<string>, str: string, c: char, count: int)
  {
    && (forall k :: 0 <= k < |r| ==> |r[k]| > 0)
    && (forall k :: 0 <= k < |r| && (count < 2 || k < count - 1) ==> c !in r[k])
    && (count >= 2 ==> |r| <= count)
    && (Join(r, c) == str || Join(r, c) + [c] == str)
  }

  /** The end of the string: the pending piece, if any, is emitted. */
  lemma SplitEndFacts(str: string, c: char, count: int, line: string, out: seq<string>)
    requires LoopState(str, c, count, |str|, line, out)
    ensures PiecesOf(if |line| > 0 then out + [line] else out, str, c, count)
  {
    assert str == str[..|str|];
    if |line| > 0 {
      JoinSnoc(out, line, c);
    }
  }

  /** The separator that completes `count - 1` pieces: the rest becomes the last piece. */
  lemma SplitCutFacts(str: string, c: char, count: int, i: nat, line: string, out: seq<string>)
    requires LoopState(str, c, count, i, line, out) && i < |str| && str[i] == c
    requires |line| > 0 && |out| + 1 == count - 1
    ensures var rest := str[i + 1..];
      PiecesOf(if |rest| > 0 then out + [line] + [rest] else out + [line], str, c, count)
  {
    JoinSnoc(out, line, c);
    assert str[..i + 1] == str[..i] + [c];
    var rest := str[i + 1..];
    assert str == str[..i + 1] + rest;
    if |rest| > 0 {
      JoinSnoc(out + [line], rest, c);
    }
  }

  /** A separator after a non-empty piece emits it. */
  lemma SplitSeparatorStep(str: string, c: char, count: int, i: nat, line: string, out: seq<string>)
    requires LoopState(str, c, count, i, line, out) && i < |str| && str[i] == c
    requires |line| > 0 && |out| + 1 != count - 1
    ensures LoopState(str, c, count, i + 1, [], out + [line])
  {
    JoinSnoc(out, line, c);
    assert str[..i + 1] == str[..i] + [c];
  }

  /** Any other rune joins the pending piece. */
  lemma SplitRuneStep(str: string, c: char, count: int, i: nat, line: string, out: seq<string>)
    requires LoopState(str, c, count, i, line, out) && i < |str| && str[i] != c
    ensures LoopState(str, c, count, i + 1, line + [str[i]], out)
  {
    assert str[..i + 1] == str[..i] + [str[i]];
  }

  lemma {:induction false} SplitLoopFacts(str: string, c: char, count: int, i: nat, line: string, out: seq<string>)
    requires LoopState(str, c, count, i, line, out)
    requires SplitLoop(str, c, count, i, line, out).Some?
    ensures PiecesOf(SplitLoop(str, c, count, i, line, out).value, str, c, count)
    decreases |str| - i
  {
    if i == |str| {
      SplitEndFacts(str, c, count, line, out);
    } else if str[i] == c {
      if |out| + 1 == count - 1 {
        SplitCutFacts(str, c, count, i, line, out);
      } else {
        SplitSeparatorStep(str, c, count, i, line, out);
        SplitLoopFacts(str, c, count, i + 1, [], out + [line]);
      }
    } else {
      SplitRuneStep(str, c, count, i, line, out);
      SplitLoopFacts(str, c, count, i + 1, line + [str[i]], out);
    }
  }

  /** A separator that starts the string or follows another one. */
  predicate BadSeparatorAt(str: string, c: char, j: int)
    requires 0 <= j < |str|
  {
    str[j] == c && (j == 0 || str[j - 1] == c)
  }

  lemma {:induction false} SplitLoopHangs(str: string, c: char, count: int, i: nat, line: string, out: seq<string>)
    requires i <= |str| && count < 2
    requires |line| == 0 <==> (i == 0 || str[i - 1] == c)
    ensures SplitLoop(str, c, count, i, line, out).None? <==>
            exists j :: i <= j < |str| && BadSeparatorAt(str, c, j)
    decreases |str| - i
  {
    if i < |str| {
      if str[i] == c && |line| == 0 {
        assert BadSeparatorAt(str, c, i);
      } else {
        assert !BadSeparatorAt(str, c, i);
        if str[i] == c {
          assert |out| + 1 != count - 1;
          SplitLoopHangs(str, c, count, i + 1, [], out + [line]);
        } else {
          SplitLoopHangs(str, c, count, i + 1, line + [str[i]], out);
        }
        if exists j :: i <= j < |str| && BadSeparatorAt(str, c, j) {
          var j :| i <= j < |str| && BadSeparatorAt(str, c, j);
          assert i + 1 <= j;
        }
      }
    }
  }

  /**
   * Without a count limit (count < 2, which includes the -1 that Var passes
   * and, because `len(out) == 0` never holds after an append, also 1), splitOn
   * never returns exactly when a separator leads the string or follows another.
   */
  lemma UnlimitedSplitHangs(str: string, c: char, count: int)
    requires count < 2
    ensures Split(str, c, count).None? <==> exists j :: 0 <= j < |str| && BadSeparatorAt(str, c, j)
  {
    SplitLoopHangs(str, c, count, 0, [], []);
  }

  /** The first index of `c` in `str`, or |str| when there is none. */
  function IndexOf(str: string, c: char): (j: nat)
    ensures j <= |str|
    ensures c !in str[..j]
    ensures j < |str| ==> str[j] == c
    decreases |str|
  {
    if |str| == 0 then 0
    else if str[0] == c then 0
    else 1 + IndexOf(str[1..], c)
  }

  lemma {:induction false} SplitLoopOnce(str: string, c: char, i: nat, line: string)
    requires i <= |str| && |line| > 0
    requires i <= IndexOf(str, c)
    requires line + str[i..IndexOf(str, c)] == str[..IndexOf(str, c)]
    ensures var j := IndexOf(str, c);
      SplitLoop(str, c, 2, i, line, []) ==
        if j == |str| then Some([str])
        else if j + 1 < |str| then Some([str[..j], str[j + 1..]])
        else Some([str[..j]])
    decreases |str| - i
  {
    var j := IndexOf(str, c);
    if i == |str| {
      assert str[i..j] == [];
      assert line == str[..j];
      assert str[..j] == str;
      assert [] + [line] == [str];
    } else if i == j {
      assert str[i..j] == [];
      assert line == str[..j];
      var rest := str[i + 1..];
      assert SplitLoop(str, c, 2, i, line, []) == Some(if |rest| > 0 then [] + [line] + [rest] else [] + [line]);
      assert [] + [line] + [rest] == [str[..j], str[j + 1..]];
      assert [] + [line] == [str[..j]];
    } else {
      assert str[i] != c by {
        assert str[i] == str[..j][i];
      }
      assert line + [str[i]] + str[i + 1..j] == line + str[i..j];
      SplitLoopOnce(str, c, i + 1, line + [str[i]]);
    }
  }

  /**
   * With count 2 (the `=` split of a long flag) splitOn returns unless the
   * string starts with the separator, and then it cuts only at the first
   * separator, dropping an empty tail.
   */
  lemma SplitInTwo(str: string, c: char)
    ensures Split(str, c, 2).None? <==> |str| > 0 && str[0] == c
    ensures |str| > 0 && str[0] != c ==>
      var j := IndexOf(str, c);
      Split(str, c, 2) ==
        if j == |str| then Some([str])
        else if j + 1 < |str| then Some([str[..j], str[j + 1..]])
        else Some([str[..j]])
  {
    if |str| > 0 && str[0] != c {
      assert [] + [str[0]] == [str[0]];
      assert Split(str, c, 2) == SplitLoop(str, c, 2, 1, [str[0]], []);
      assert IndexOf(str, c) >= 1;
      assert [str[0]] + str[1..IndexOf(str, c)] == str[..IndexOf(str, c)];
      SplitLoopOnce(str, c, 1, [str[0]]);
    }
  }

}
