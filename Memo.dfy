/**
  `clip_memo`: keeps an invoice memo under the 639-byte ceiling of a
  Lightning payment request. A memo is a Dafny string, whose characters are
  Unicode scalar values; its size is the length of its UTF-8 encoding.
*/
module Memo {
  import opened Seqs

  /** MEMO_MAX_BYTES */
  const MemoMaxBytes: nat := 639

  /** The number of bytes UTF-8 spends on one code point. */
  function Utf8Width(c: char): (n: nat)
    ensures 1 <= n <= 4
    ensures n == 1 <==> (c as int) < 0x80
  {
    if (c as int) < 0x80 then 1
    else if (c as int) < 0x800 then 2
    else if (c as int) < 0x10000 then 3
    else 4
  }

  /** `len(s.encode("utf-8"))`: at least one byte per character. */
  function Utf8Len(s: string): (n: nat)
    ensures |s| <= n
    ensures n == 0 <==> s == []
    decreases |s|
  {
    if s == [] then 0 else Utf8Len(s[..|s| - 1]) + Utf8Width(s[|s| - 1])
  }

  lemma {:induction false} Utf8LenAppend(a: string, b: string)
    ensures Utf8Len(a + b) == Utf8Len(a) + Utf8Len(b)
    decreases |b|
  {
    if b == [] {
      assert a + b == a;
    } else {
      var n := |b| - 1;
      assert (a + b)[..|a + b| - 1] == a + b[..n];
      Utf8LenAppend(a, b[..n]);
    }
  }

  /** A single character takes exactly its own width. */
  lemma Utf8LenOne(c: char)
    ensures Utf8Len([c]) == Utf8Width(c)
  {
    assert [c][..0] == [];
  }

  /**
    The keep/skip decision of the clipping loop at each character of `m`: a
    character is kept when the bytes kept so far plus its own stay strictly
    below MemoMaxBytes. A skipped character does not stop the loop.
  */
  function Decisions(m: string): (keep: seq<bool>)
    ensures |keep| == |m|
    decreases |m|
  {
    if m == [] then []
    else
      var n := |m| - 1;
      var before := Decisions(m[..n]);
      before + [Utf8Len(Select(m[..n], before)) + Utf8Width(m[n]) < MemoMaxBytes]
  }

  /** What the clipping loop accumulates over `m`. */
  function Greedy(m: string): string {
    Select(m, Decisions(m))
  }

  /** One more character: the loop appends it exactly when it still fits. */
  lemma GreedyStep(m: string, c: char)
    ensures Greedy(m + [c]) ==
      if Utf8Len(Greedy(m)) + Utf8Width(c) < MemoMaxBytes then Greedy(m) + [c] else Greedy(m)
  {
    assert (m + [c])[..|m|] == m;
  }

  /** What the loop accumulates always stays strictly below the ceiling. */
  lemma {:induction false} GreedyFits(m: string)
    ensures Utf8Len(Greedy(m)) < MemoMaxBytes
    decreases |m|
  {
    if m != [] {
      var n := |m| - 1;
      assert m == m[..n] + [m[n]];
      GreedyFits(m[..n]);
      GreedyStep(m[..n], m[n]);
      Utf8LenAppend(Greedy(m[..n]), [m[n]]);
      Utf8LenOne(m[n]);
    }
  }

  /** `clip_memo(memo)`: the memo itself when it fits in MemoMaxBytes, otherwise the loop's result. */
  function ClippedMemo(m: string): (r: string)
    ensures Utf8Len(r) <= MemoMaxBytes
    ensures Utf8Len(m) <= MemoMaxBytes ==> r == m
    ensures Utf8Len(m) > MemoMaxBytes ==> Utf8Len(r) < MemoMaxBytes
  {
    if Utf8Len(m) > MemoMaxBytes then
      GreedyFits(m);
      Greedy(m)
    else m
  }

  /** The clipping loop, run on the memo's characters in order. */
  method ClipMemo(memo: string) returns (r: string)
    ensures r == ClippedMemo(memo)
  {
    if Utf8Len(memo) > MemoMaxBytes {
      var clipped := "";
      for i := 0 to |memo|
        invariant clipped == Greedy(memo[..i])
      {
        var c := memo[i];
        assert memo[..i + 1] == memo[..i] + [c];
        GreedyStep(memo[..i], c);
        Utf8LenAppend(clipped, [c]);
        Utf8LenOne(c);
        if Utf8Len(clipped + [c]) < MemoMaxBytes {
          clipped := clipped + [c];
        }
      }
      assert memo[..|memo|] == memo;
      return clipped;
    }
    return memo;
  }

  lemma {:induction false} DecisionsPrefix(m: string, i: nat)
    requires i <= |m|
    ensures Decisions(m)[..i] == Decisions(m[..i])
    decreases |m|
  {
    if i < |m| {
      var n := |m| - 1;
      assert m[..n][..i] == m[..i];
      DecisionsPrefix(m[..n], i);
    } else {
      assert m[..i] == m;
    }
  }

  /**
    When the memo is too long, the result keeps the characters of the memo, in
    order, at exactly the positions `i` where the bytes kept from `m[..i]` plus
    the bytes of `m[i]` stay strictly below MemoMaxBytes.
  */
  lemma {:induction false} ClippedMemoKeepsGreedily(m: string)
    requires Utf8Len(m) > MemoMaxBytes
    ensures ClippedMemo(m) == Select(m, Decisions(m))
    ensures forall i :: 0 <= i < |m| ==>
      (Decisions(m)[i] <==> Utf8Len(Greedy(m[..i])) + Utf8Width(m[i]) < MemoMaxBytes)
  {
    forall i | 0 <= i < |m|
      ensures Decisions(m)[i] <==> Utf8Len(Greedy(m[..i])) + Utf8Width(m[i]) < MemoMaxBytes
    {
      DecisionsPrefix(m, i + 1);
      assert m[..i + 1][..i] == m[..i];
      assert Decisions(m)[i] == Decisions(m)[..i + 1][i];
    }
  }

  /** Nothing is dropped from a memo that already fits strictly below the ceiling. */
  lemma {:induction false} GreedyKeepsAll(m: string)
    requires Utf8Len(m) < MemoMaxBytes
    ensures Greedy(m) == m
    decreases |m|
  {
    if m != [] {
      var n := |m| - 1;
      assert m == m[..n] + [m[n]];
      GreedyKeepsAll(m[..n]);
      GreedyStep(m[..n], m[n]);
    }
  }

  /**
    A memo of exactly MemoMaxBytes bytes is not clipped: the outer test is
    `>`, so such a memo is kept whole although the loop would keep less.
  */
  lemma ClippedMemoAtLimit()
    ensures exists m: string :: Utf8Len(m) == MemoMaxBytes && ClippedMemo(m) == m
    ensures forall m: string :: Utf8Len(m) == MemoMaxBytes ==> Utf8Len(ClippedMemo(m)) == MemoMaxBytes
  {
    var m := seq(639, _ => 'a');
    Utf8LenAllAscii(m);
    assert Utf8Len(m) == MemoMaxBytes && ClippedMemo(m) == m;
  }

  /** `clip_memo(clip_memo(m)) == clip_memo(m)` */
  lemma ClippedMemoIdempotent(m: string)
    ensures ClippedMemo(ClippedMemo(m)) == ClippedMemo(m)
  {
  }

  /**
    The result is not always a prefix: 636 one-byte characters, a three-byte
    '€' that would reach exactly 639 bytes and is skipped, then an 'x' that is
    kept after it.
  */
  lemma ClippedMemoNotAlwaysPrefix()
    ensures exists m: string :: Utf8Len(m) > MemoMaxBytes && !(ClippedMemo(m) <= m)
  {
    var a := seq(636, _ => 'a');
    Utf8LenAllAscii(a);
    var m := a + ['€', 'x'];
    assert a + ['€'] + ['x'] == m;
    Utf8LenAppend(a, ['€', 'x']);
    assert Utf8Len(['€', 'x']) == 4 by {
      assert ['€', 'x'][..1] == ['€'];
      Utf8LenOne('€');
    }
    GreedyKeepsAll(a);
    GreedyStep(a, '€');
    GreedyStep(a + ['€'], 'x');
    Utf8LenAppend(a, ['x']);
    Utf8LenOne('x');
    assert ClippedMemo(m) == a + ['x'];
    assert (a + ['x'])[636] != m[636];
  }

  /** A memo of one-byte characters is charged one byte per character. */
  lemma {:induction false} Utf8LenAllAscii(m: string)
    requires forall i :: 0 <= i < |m| ==> (m[i] as int) < 0x80
    ensures Utf8Len(m) == |m|
    decreases |m|
  {
    if m != [] {
      Utf8LenAllAscii(m[..|m| - 1]);
    }
  }

  /** An over-long memo of one-byte characters is cut to its first 638 characters. */
  lemma {:induction false} ClippedMemoAscii(m: string)
    requires forall i :: 0 <= i < |m| ==> (m[i] as int) < 0x80
    requires |m| > MemoMaxBytes
    ensures ClippedMemo(m) == m[..MemoMaxBytes - 1]
  {
    Utf8LenAllAscii(m);
    GreedyAsciiPrefix(m, |m|);
    assert m[..|m|] == m;
  }

  lemma {:induction false} GreedyAsciiPrefix(m: string, i: nat)
    requires forall j :: 0 <= j < |m| ==> (m[j] as int) < 0x80
    requires i <= |m|
    ensures Greedy(m[..i]) == m[..if i < MemoMaxBytes - 1 then i else MemoMaxBytes - 1]
    decreases i
  {
    if i > 0 {
      GreedyAsciiPrefix(m, i - 1);
      assert m[..i] == m[..i - 1] + [m[i - 1]];
      GreedyStep(m[..i - 1], m[i - 1]);
      var k := if i - 1 < MemoMaxBytes - 1 then i - 1 else MemoMaxBytes - 1;
      Utf8LenAllAscii(m[..k]);
      if i - 1 < MemoMaxBytes - 1 {
        assert m[..k] + [m[i - 1]] == m[..i];
      }
    }
  }
}
