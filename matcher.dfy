/** The pattern matcher of the speech service: a single-pass test of whether the
    characters of a pattern occur, in order but not necessarily next to each other,
    in a text. It is a subsequence test, not a substring test. */
module PatternMatcher {

  /** `p` is obtained from `t` by deleting characters: at every step the head of `t`
      is either used for the head of `p` or skipped. This is the specification; it
      does not commit to matching greedily. */
  predicate IsSubsequence(p: string, t: string)
    decreases |t|
  {
    if p == [] then true
    else if t == [] then false
    else (p[0] == t[0] && IsSubsequence(p[1..], t[1..])) || IsSubsequence(p, t[1..])
  }

  /** `idx` picks, for each position of `p`, a position of `t` holding the same
      character, and the picked positions strictly increase. */
  ghost predicate IsEmbedding(idx: seq<int>, p: string, t: string)
  {
    |idx| == |p| &&
    (forall k :: 0 <= k < |idx| ==> 0 <= idx[k] < |t| && t[idx[k]] == p[k]) &&
    (forall j, k :: 0 <= j < k < |idx| ==> idx[j] < idx[k])
  }

  /** Every position moved one place towards the front. */
  ghost function ShiftDown(idx: seq<int>): seq<int>
  {
    seq(|idx|, k requires 0 <= k < |idx| => idx[k] - 1)
  }

  /** Every position moved one place towards the back. */
  ghost function ShiftUp(idx: seq<int>): seq<int>
  {
    seq(|idx|, k requires 0 <= k < |idx| => idx[k] + 1)
  }

  /** Using the head of `t` for the head of `p` extends an embedding of the tails. */
  lemma EmbedHead(idx: seq<int>, p: string, t: string)
    requires p != [] && t != [] && p[0] == t[0]
    requires IsEmbedding(idx, p[1..], t[1..])
    ensures IsEmbedding([0] + ShiftUp(idx), p, t)
  {
    var r := [0] + ShiftUp(idx);
    forall k | 0 <= k < |r| ensures 0 <= r[k] < |t| && t[r[k]] == p[k] {
      if k > 0 {
        assert t[r[k]] == t[1..][idx[k - 1]];
      }
    }
    forall j, k | 0 <= j < k < |r| ensures r[j] < r[k] {
      if j > 0 {
        assert idx[j - 1] < idx[k - 1];
      }
    }
  }

  /** Skipping the head of `t` keeps an embedding valid, one place further on. */
  lemma EmbedSkip(idx: seq<int>, p: string, t: string)
    requires t != [] && IsEmbedding(idx, p, t[1..])
    ensures IsEmbedding(ShiftUp(idx), p, t)
  {
    var r := ShiftUp(idx);
    forall k | 0 <= k < |r| ensures 0 <= r[k] < |t| && t[r[k]] == p[k] {
      assert t[r[k]] == t[1..][idx[k]];
    }
  }

  /** A witness for a subsequence: the positions of `t` at which `p` is found. */
  ghost function Embedding(p: string, t: string): (idx: seq<int>)
    requires IsSubsequence(p, t)
    ensures IsEmbedding(idx, p, t)
    decreases |t|
  {
    if p == [] then []
    else if p[0] == t[0] && IsSubsequence(p[1..], t[1..]) then
      var rest := Embedding(p[1..], t[1..]);
      EmbedHead(rest, p, t);
      [0] + ShiftUp(rest)
    else
      var rest := Embedding(p, t[1..]);
      EmbedSkip(rest, p, t);
      ShiftUp(rest)
  }

  /** Any embedding of `p` in `t` makes `p` a subsequence of `t`. */
  lemma {:induction false} EmbeddingIsSubsequence(idx: seq<int>, p: string, t: string)
    requires IsEmbedding(idx, p, t)
    ensures IsSubsequence(p, t)
    decreases |t|
  {
    if p != [] {
      assert 0 <= idx[0] < |t|;
      if idx[0] == 0 {
        var rest := ShiftDown(idx[1..]);
        assert IsEmbedding(rest, p[1..], t[1..]) by {
          forall k | 0 <= k < |rest|
            ensures 0 <= rest[k] < |t[1..]| && t[1..][rest[k]] == p[1..][k]
          {
            assert idx[0] < idx[k + 1];
          }
        }
        EmbeddingIsSubsequence(rest, p[1..], t[1..]);
      } else {
        var rest := ShiftDown(idx);
        assert IsEmbedding(rest, p, t[1..]) by {
          forall k | 0 <= k < |rest|
            ensures 0 <= rest[k] < |t[1..]| && t[1..][rest[k]] == p[k]
          {
            assert k == 0 || idx[0] < idx[k];
          }
        }
        EmbeddingIsSubsequence(rest, p, t[1..]);
      }
    }
  }

  /** The two definitions agree: `p` is a subsequence of `t` exactly when its
      characters can be found at strictly increasing positions of `t`. */
  lemma SubsequenceIffEmbedding(p: string, t: string)
    ensures IsSubsequence(p, t) <==> exists idx :: IsEmbedding(idx, p, t)
  {
    if IsSubsequence(p, t) {
      var idx := Embedding(p, t);
      assert IsEmbedding(idx, p, t);
    }
    if idx :| IsEmbedding(idx, p, t) {
      EmbeddingIsSubsequence(idx, p, t);
    }
  }

  /** A subsequence is never longer than the text it comes from. */
  lemma {:induction false} SubsequenceNotLonger(p: string, t: string)
    requires IsSubsequence(p, t)
    ensures |p| <= |t|
    decreases |t|
  {
    if p != [] {
      if p[0] == t[0] && IsSubsequence(p[1..], t[1..]) {
        SubsequenceNotLonger(p[1..], t[1..]);
      } else {
        SubsequenceNotLonger(p, t[1..]);
      }
    }
  }

  /** Dropping the first character of a subsequence leaves a subsequence. */
  lemma {:induction false} DropPatternHead(p: string, t: string)
    requires p != [] && IsSubsequence(p, t)
    ensures IsSubsequence(p[1..], t)
    decreases |t|
  {
    if p[0] == t[0] && IsSubsequence(p[1..], t[1..]) {
      if p[1..] != [] {
        DropPatternHead(p[1..], t[1..]);
      }
    } else {
      DropPatternHead(p, t[1..]);
    }
  }

  /** Matching greedily loses nothing: when the heads agree, `p` is a subsequence of
      `t` exactly when its tail is a subsequence of the tail of `t`. */
  lemma GreedyMatchIsSafe(p: string, t: string)
    requires p != [] && t != [] && p[0] == t[0]
    ensures IsSubsequence(p, t) <==> IsSubsequence(p[1..], t[1..])
  {
    if IsSubsequence(p, t[1..]) {
      DropPatternHead(p, t[1..]);
    }
  }

  /** `ContainsPattern`: walks `text` once, advancing in `pattern` on every equal
      character, and reports whether the whole pattern was consumed. */
  method ContainsPattern(text: string, pattern: string) returns (found: bool)
    ensures found <==> IsSubsequence(pattern, text)
    ensures pattern == [] ==> found
    ensures |pattern| > |text| ==> !found
  {
    var textIndex, patternIndex := 0, 0;
    while textIndex < |text| && patternIndex < |pattern|
      invariant 0 <= patternIndex <= textIndex <= |text|
      invariant patternIndex <= |pattern|
      invariant IsSubsequence(pattern, text) <==> IsSubsequence(pattern[patternIndex..], text[textIndex..])
      decreases |text| - textIndex
    {
      ghost var p, t := pattern[patternIndex..], text[textIndex..];
      assert t[1..] == text[textIndex + 1..];
      if text[textIndex] == pattern[patternIndex] {
        GreedyMatchIsSafe(p, t);
        assert p[1..] == pattern[patternIndex + 1..];
        patternIndex := patternIndex + 1;
      }
      textIndex := textIndex + 1;
    }
    found := patternIndex == |pattern|;
    if !found {
      assert text[textIndex..] == [];
    }
  }

  /** Examples: "cat" is found scattered in "cosmicat" but not
      in its reversal "tac", and the empty pattern is found in every text. */
  lemma ContainsPatternExamples(text: string)
    ensures IsSubsequence("cat", "cosmicat")
    ensures !IsSubsequence("cat", "tac")
    ensures IsSubsequence("", text)
  {
  }

  /** Every character of a pattern that is found occurs somewhere in the text. */
  lemma FoundCharactersOccur(p: string, t: string)
    requires IsSubsequence(p, t)
    ensures forall k :: 0 <= k < |p| ==> p[k] in t
  {
    var idx := Embedding(p, t);
    forall k | 0 <= k < |p| ensures p[k] in t {
      assert t[idx[k]] == p[k];
    }
  }

  /** A pattern holding a character the text lacks is not found in it. */
  lemma LackingCharacterNotFound(p: string, t: string, c: char)
    requires c in p && c !in t
    ensures !IsSubsequence(p, t)
  {
    if IsSubsequence(p, t) {
      FoundCharactersOccur(p, t);
    }
  }
}
