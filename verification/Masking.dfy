/** Masking of private words in a text, backend/utils/utils.go: every window within the similarity
threshold of a private word is hidden, and each hidden run is shown as one mask. */
module Masking {
  import opened EditDistance

  const MASK: string := "********"
  const THRESHOLD: real := 0.8

  // ---------- what is to be masked ----------

  /** The white space that Go's strings.TrimSpace removes. */
  predicate IsSpace(c: char)
  {
    c in {'\t', '\n', '\U{0B}', '\U{0C}', '\r', ' ', '\U{85}', '\U{A0}', '\U{1680}',
          '\U{2028}', '\U{2029}', '\U{202F}', '\U{205F}', '\U{3000}'} || '\U{2000}' <= c <= '\U{200A}'
  }

  /** The same characters by their numbers. */
  lemma SpacesByNumber(c: char)
    ensures IsSpace(c) <==>
              var n := c as int;
              || 9 <= n <= 13 || n == 32 || n == 133 || n == 160 || n == 5760 || 8192 <= n <= 8202
              || n == 8232 || n == 8233 || n == 8239 || n == 8287 || n == 12288
  {
  }

  function TrimLeft(w: string): string
  {
    if w != "" && IsSpace(w[0]) then TrimLeft(w[1..]) else w
  }

  function TrimRight(w: string): string
  {
    if w != "" && IsSpace(Last(w)) then TrimRight(Front(w)) else w
  }

  function TrimSpace(w: string): string
  {
    TrimRight(TrimLeft(w))
  }

  /** The words a list of private entries stands for: order, repetition and surrounding space are gone. */
  ghost function WordsOf(private: seq<string>): set<string>
  {
    set w | w in private && TrimSpace(w) != "" :: TrimSpace(w)
  }

  function MaxLength(a: string, b: string): nat
  {
    if |b| > |a| then |b| else |a|
  }

  function Similarity(a: string, b: string): real
  {
    if a == b || MaxLength(a, b) == 0 then 1.0
    else 1.0 - Distance(a, b) as real / MaxLength(a, b) as real
  }

  /** The window of `runes` at `i` is as long as `w` and similar enough to it. */
  ghost predicate Hit(runes: string, w: string, i: nat)
  {
    i + |w| <= |runes| && Similarity(runes[i..i + |w|], w) >= THRESHOLD
  }

  ghost predicate Covers(runes: string, w: string, i: nat, k: nat)
  {
    i <= k < i + |w| && Hit(runes, w, i)
  }

  ghost predicate Masked(runes: string, words: set<string>, k: nat)
  {
    exists w, i :: w in words && Covers(runes, w, i, k)
  }

  ghost function MaskOf(runes: string, words: set<string>): (mask: seq<bool>)
    ensures |mask| == |runes|
    ensures forall k :: 0 <= k < |runes| ==> mask[k] == Masked(runes, words, k)
  {
    seq(|runes|, k requires 0 <= k < |runes| => Masked(runes, words, k))
  }

  // ---------- how a mask is shown ----------

  /** Where the run of masked positions at the front of `mask` ends. */
  function RunEnd(mask: seq<bool>): (e: nat)
    ensures e <= |mask| && (forall k :: 0 <= k < e ==> mask[k]) && (e < |mask| ==> !mask[e])
  {
    if mask == [] || !mask[0] then 0 else 1 + RunEnd(mask[1..])
  }

  function Segment(run: string): string
    requires run != ""
  {
    if |run| > 5 then [run[0]] + MASK + [Last(run)] else MASK
  }

  function Render(runes: string, mask: seq<bool>): string
    requires |runes| == |mask|
    decreases |runes|
  {
    if runes == "" then ""
    else if mask[0] then
      var e := RunEnd(mask);
      Segment(runes[..e]) + Render(runes[e..], mask[e..])
    else [runes[0]] + Render(runes[1..], mask[1..])
  }

  // ---------- the program ----------

  method SimilarityOf(a: string, b: string) returns (s: real)
    ensures s == Similarity(a, b)
  {
    if a == b {
      return 1.0;
    }
    var dist := Levenshtein(a, b);
    var maxLen := |a|;
    if |b| > maxLen {
      maxLen := |b|;
    }
    if maxLen == 0 {
      return 1.0;
    }
    s := 1.0 - dist as real / maxLen as real;
  }

  function Elements(words: seq<string>): set<string>
  {
    set w | w in words
  }

  /** Trim, drop empty entries and repetitions. */
  method CollectWords(private: seq<string>) returns (words: seq<string>)
    ensures Elements(words) == WordsOf(private)
  {
    words := [];
    for i := 0 to |private|
      invariant Elements(words) == WordsOf(private[..i])
    {
      assert private[..i + 1] == private[..i] + [private[i]];
      ghost var before := words;
      var w := TrimSpace(private[i]);
      if w != "" && w !in words {
        words := words + [w];
      }
      assert WordsOf(private[..i + 1]) == WordsOf(private[..i]) + if w == "" then {} else {w};
      assert forall v :: v in words <==> v in before || (v == w && w != "");
      assert forall v :: v in before <==> v in Elements(before);
    }
    assert private[..|private|] == private;
  }

  method AllMasked(toMask: array<bool>, lo: nat, hi: nat) returns (all: bool)
    requires lo <= hi <= toMask.Length
    ensures all <==> forall k :: lo <= k < hi ==> toMask[k]
  {
    for k := lo to hi
      invariant forall j :: lo <= j < k ==> toMask[j]
    {
      if !toMask[k] {
        return false;
      }
    }
    return true;
  }

  /** One of the first `n` windows covers position `k`. */
  ghost predicate CoveredBefore(runes: string, w: string, n: nat, k: nat)
  {
    exists i :: 0 <= i < n && Covers(runes, w, i, k)
  }

  method Fill(toMask: array<bool>, lo: nat, hi: nat)
    requires lo <= hi <= toMask.Length
    modifies toMask
    ensures forall k :: 0 <= k < toMask.Length ==> toMask[k] == (lo <= k < hi || old(toMask[k]))
  {
    for k := lo to hi
      invariant forall j :: 0 <= j < toMask.Length ==> toMask[j] == (lo <= j < k || old(toMask[j]))
    {
      toMask[k] := true;
    }
  }

  /** Slide one word over the text.  A window that is already hidden is skipped. */
  method MarkWord(runes: string, w: string, toMask: array<bool>)
    requires toMask.Length == |runes|
    modifies toMask
    ensures forall k :: 0 <= k < |runes| ==> toMask[k] == (old(toMask[k]) || CoveredBefore(runes, w, |runes|, k))
  {
    var wl := |w|;
    if wl == 0 || wl > |runes| {
      return;
    }
    for i := 0 to |runes| - wl + 1
      invariant forall k :: 0 <= k < |runes| ==> toMask[k] == (old(toMask[k]) || CoveredBefore(runes, w, i, k))
    {
      var skip := AllMasked(toMask, i, i + wl);
      if !skip {
        var sim := SimilarityOf(runes[i..i + wl], w);
        if sim >= THRESHOLD {
          assert Hit(runes, w, i);
          Fill(toMask, i, i + wl);
        }
      }
      assert forall k :: CoveredBefore(runes, w, i + 1, k) <==> CoveredBefore(runes, w, i, k) || Covers(runes, w, i, k);
    }
  }

  method Mark(runes: string, words: seq<string>) returns (toMask: array<bool>)
    ensures fresh(toMask) && toMask[..] == MaskOf(runes, Elements(words))
  {
    toMask := new bool[|runes|](_ => false);
    for i := 0 to |words|
      invariant forall k :: 0 <= k < |runes| ==> toMask[k] == Masked(runes, Elements(words[..i]), k)
    {
      ghost var before := Elements(words[..i]);
      ghost var after := Elements(words[..i + 1]);
      assert after == before + {words[i]};
      MarkWord(runes, words[i], toMask);
      forall k | 0 <= k < |runes|
        ensures Masked(runes, after, k) <==> Masked(runes, before, k) || CoveredBefore(runes, words[i], |runes|, k)
      {
        if CoveredBefore(runes, words[i], |runes|, k) {
          var j :| 0 <= j < |runes| && Covers(runes, words[i], j, k);
          assert words[i] in after;
        }
      }
    }
    assert words[..|words|] == words;
  }

  function Rest(runes: string, mask: seq<bool>, i: nat): string
    requires i <= |runes| == |mask|
  {
    Render(runes[i..], mask[i..])
  }

  /** The end of the hidden run that starts at `start`. */
  method SkipRun(toMask: array<bool>, start: nat) returns (end: nat)
    requires start < toMask.Length && toMask[start]
    ensures start < end <= toMask.Length
    ensures (forall k :: start <= k < end ==> toMask[k]) && (end < toMask.Length ==> !toMask[end])
  {
    end := start;
    while end < toMask.Length && toMask[end]
      invariant start <= end <= toMask.Length
      invariant forall k :: start <= k < end ==> toMask[k]
    {
      end := end + 1;
    }
  }

  method WriteRun(runes: string, start: nat, end: nat) returns (segment: string)
    requires start < end <= |runes|
    ensures segment == Segment(runes[start..end])
  {
    var segLen := end - start;
    if segLen > 5 {
      segment := [runes[start]] + MASK + [runes[end - 1]];
    } else {
      segment := MASK;
    }
  }

  /** Write the text out, one mask for each hidden run. */
  method Write(runes: string, toMask: array<bool>) returns (out: string)
    requires toMask.Length == |runes|
    ensures out == Render(runes, toMask[..])
  {
    out := "";
    var i := 0;
    ghost var mask := toMask[..];
    assert runes[0..] == runes && mask[0..] == mask;
    while i < |runes|
      invariant 0 <= i <= |runes|
      invariant Render(runes, mask) == out + Rest(runes, mask, i)
    {
      var segment, next := [runes[i]], i + 1;
      if toMask[i] {
        next := SkipRun(toMask, i);
        segment := WriteRun(runes, i, next);
        RenderRun(runes, mask, i, next);
      } else {
        RenderPlain(runes, mask, i);
      }
      Associate(out, segment, Rest(runes, mask, next));
      out, i := out + segment, next;
    }
  }

  lemma Associate(x: string, y: string, z: string)
    ensures (x + y) + z == x + (y + z)
  {
  }

  lemma {:induction false} RunEndIs(mask: seq<bool>, e: nat)
    requires e <= |mask| && (forall k :: 0 <= k < e ==> mask[k]) && (e < |mask| ==> !mask[e])
    ensures RunEnd(mask) == e
  {
    var f := RunEnd(mask);
    assert !(e < f) && !(f < e);
  }

  lemma RenderRun(runes: string, mask: seq<bool>, i: nat, e: nat)
    requires i < e <= |runes| == |mask|
    requires (forall k :: i <= k < e ==> mask[k]) && (e < |mask| ==> !mask[e])
    ensures Rest(runes, mask, i) == Segment(runes[i..e]) + Rest(runes, mask, e)
  {
    RunEndIs(mask[i..], e - i);
    assert runes[i..][..e - i] == runes[i..e];
    assert runes[i..][e - i..] == runes[e..] && mask[i..][e - i..] == mask[e..];
  }

  lemma RenderPlain(runes: string, mask: seq<bool>, i: nat)
    requires i < |runes| == |mask| && !mask[i]
    ensures Rest(runes, mask, i) == [runes[i]] + Rest(runes, mask, i + 1)
  {
    assert runes[i..][1..] == runes[i + 1..] && mask[i..][1..] == mask[i + 1..];
  }

  /** backend/utils/utils.go, DataMasking. */
  method DataMasking(str: string, private: seq<string>) returns (out: string)
    ensures out == Render(str, MaskOf(str, WordsOf(private)))
  {
    NothingMasked(str, MaskOf(str, {}));
    if str == "" || |private| == 0 {
      assert WordsOf(private) == {} || str == "";
      return str;
    }
    var words := CollectWords(private);
    if |words| == 0 {
      assert WordsOf(private) == {};
      return str;
    }
    var toMask := Mark(str, words);
    out := Write(str, toMask);
  }

  lemma {:induction false} NothingMasked(runes: string, mask: seq<bool>)
    requires |runes| == |mask| && true !in mask
    ensures Render(runes, mask) == runes
  {
    if runes != "" {
      NothingMasked(runes[1..], mask[1..]);
    }
  }

  // ---------- what masking guarantees ----------

  /** A window is hit exactly when at most one rune in five has to be edited to reach the word. */
  lemma HitMeansFewEdits(runes: string, w: string, i: nat)
    requires w != "" && i + |w| <= |runes|
    ensures Hit(runes, w, i) <==>
            exists s :: Rewrites(s, runes[i..i + |w|], w) && 5 * Cost(s) <= |w|
  {
    var sub := runes[i..i + |w|];
    DistanceIsLeastCost(sub, w, Distance(sub, w));
    ZeroOnlyForEqual(sub, w);
    var d, n := Distance(sub, w), |w|;
    RatioThreshold(d, n);
    assert Hit(runes, w, i) <==> 5 * d <= n;
  }

  lemma RatioThreshold(d: nat, n: nat)
    requires n > 0
    ensures 1.0 - d as real / n as real >= THRESHOLD <==> 5 * d <= n
  {
    FifthOf(d as real, n as real);
    assert (5 * d) as real == 5.0 * d as real;
  }

  lemma FifthOf(a: real, b: real)
    requires b > 0.0
    ensures a / b <= 0.2 <==> a <= 0.2 * b
  {
    var q := a / b;
    assert q * b == a;
    if q > 0.2 {
      Positive(q - 0.2, b);
      assert (q - 0.2) * b == q * b - 0.2 * b;
    } else if q < 0.2 {
      Positive(0.2 - q, b);
      assert (0.2 - q) * b == 0.2 * b - q * b;
    }
  }

  lemma Positive(a: real, b: real)
    requires a > 0.0 && b > 0.0
    ensures a * b > 0.0
  {
  }

  /** Every exact occurrence of a private word is hidden in full. */
  lemma ExactOccurrenceMasked(runes: string, private: seq<string>, w: string, i: nat)
    requires w in private && TrimSpace(w) != ""
    requires i + |TrimSpace(w)| <= |runes| && runes[i..i + |TrimSpace(w)|] == TrimSpace(w)
    ensures forall k :: i <= k < i + |TrimSpace(w)| ==> MaskOf(runes, WordsOf(private))[k]
  {
    forall k | i <= k < i + |TrimSpace(w)|
      ensures Masked(runes, WordsOf(private), k)
    {
      assert TrimSpace(w) in WordsOf(private) && Covers(runes, TrimSpace(w), i, k);
    }
  }

  /** [i, j) is a whole hidden run. */
  ghost predicate MaximalRun(mask: seq<bool>, i: nat, j: nat)
  {
    && i < j <= |mask|
    && (forall k :: i <= k < j ==> mask[k])
    && (i > 0 ==> !mask[i - 1])
    && (j < |mask| ==> !mask[j])
  }

  ghost predicate EdgeOfLongRun(mask: seq<bool>, i: nat, j: nat, k: nat)
  {
    MaximalRun(mask, i, j) && j - i > 5 && (k == i || k == j - 1)
  }

  /** The rune at `k` may be shown: it is not hidden, or it is an end of a long hidden run. */
  ghost predicate Visible(mask: seq<bool>, k: nat)
    requires k < |mask|
  {
    !mask[k] || exists i, j :: EdgeOfLongRun(mask, i, j, k)
  }

  /** The texts agree wherever the mask lets runes through. */
  ghost predicate Agree(a: string, b: string, mask: seq<bool>)
  {
    |a| == |b| == |mask| && forall k :: 0 <= k < |mask| && Visible(mask, k) ==> a[k] == b[k]
  }

  /** What is visible behind a finished run is visible in the whole. */
  lemma VisibleLater(mask: seq<bool>, e: nat, k: nat)
    requires 0 < e <= |mask| && k < |mask| - e && Visible(mask[e..], k)
    requires mask[e - 1] ==> e < |mask| && !mask[e]
    ensures Visible(mask, e + k)
  {
    if mask[e + k] {
      var i: nat, j: nat :| EdgeOfLongRun(mask[e..], i, j, k);
      assert mask[e..][i] && mask[e + i];
      assert i > 0 ==> !mask[e..][i - 1];
      assert forall m :: e + i <= m < e + j ==> mask[m] == mask[e..][m - e];
      assert EdgeOfLongRun(mask, e + i, e + j, e + k);
    }
  }

  lemma AgreeLater(a: string, b: string, mask: seq<bool>, e: nat)
    requires Agree(a, b, mask) && 0 < e <= |mask|
    requires mask[e - 1] && e < |mask| ==> !mask[e]
    ensures Agree(a[e..], b[e..], mask[e..])
  {
    hide Visible;
    forall k | 0 <= k < |mask| - e && Visible(mask[e..], k)
      ensures a[e..][k] == b[e..][k]
    {
      VisibleLater(mask, e, k);
    }
  }

  lemma AgreeAtFront(a: string, b: string, mask: seq<bool>)
    requires Agree(a, b, mask)
    ensures |a| == |b| == |mask| && (mask != [] && !mask[0] ==> a[0] == b[0])
  {
    assert mask != [] && !mask[0] ==> Visible(mask, 0);
  }

  lemma FrontRun(mask: seq<bool>)
    requires mask != [] && mask[0]
    ensures MaximalRun(mask, 0, RunEnd(mask))
  {
  }

  /** A finished run is shown the same. */
  lemma SameSegment(a: string, b: string, mask: seq<bool>, e: nat)
    requires Agree(a, b, mask) && MaximalRun(mask, 0, e)
    ensures Segment(a[..e]) == Segment(b[..e])
  {
    if e > 5 {
      assert EdgeOfLongRun(mask, 0, e, 0) && EdgeOfLongRun(mask, 0, e, e - 1);
      assert Visible(mask, 0) && Visible(mask, e - 1);
    }
  }

  /** The output depends on no hidden rune: texts that agree wherever the mask lets runes through are
      shown the same. */
  lemma {:induction false} HiddenRunesDoNotShow(a: string, b: string, mask: seq<bool>)
    requires Agree(a, b, mask)
    ensures Render(a, mask) == Render(b, mask)
    decreases |a|
  {
    hide Agree, Visible, Segment, MaximalRun, RunEnd;
    AgreeAtFront(a, b, mask);
    if a == "" {
    } else if mask[0] {
      var e := RunEnd(mask);
      FrontRun(mask);
      SameSegment(a, b, mask, e);
      AgreeLater(a, b, mask, e);
      HiddenRunesDoNotShow(a[e..], b[e..], mask[e..]);
    } else {
      AgreeLater(a, b, mask, 1);
      HiddenRunesDoNotShow(a[1..], b[1..], mask[1..]);
    }
  }

  // ---------- what the output looks like ----------

  /** Whether each position of a stretch is hidden, or none is. */
  function All(n: nat, hidden: bool): seq<bool>
  {
    seq(n, k => hidden)
  }

  lemma RenderFront(runes: string, mask: seq<bool>)
    requires |runes| == |mask| > 0
    ensures mask[0] ==> RunEnd(mask) > 0 && Render(runes, mask) == Segment(runes[..RunEnd(mask)]) + Render(runes[RunEnd(mask)..], mask[RunEnd(mask)..])
    ensures !mask[0] ==> Render(runes, mask) == [runes[0]] + Render(runes[1..], mask[1..])
  {
  }

  lemma PartsFront(left: string, right: string, maskLeft: seq<bool>, maskRight: seq<bool>) returns (e: nat, front: string)
    requires |left| == |maskLeft| > 0 && |right| == |maskRight|
    requires maskRight != [] ==> !maskLeft[|maskLeft| - 1] || !maskRight[0]
    ensures 0 < e <= |left| && Render(left, maskLeft) == front + Render(left[e..], maskLeft[e..])
    ensures Render(left + right, maskLeft + maskRight) == front + Render(left[e..] + right, maskLeft[e..] + maskRight)
  {
    hide Render, Segment, RunEnd;
    var text, mask := left + right, maskLeft + maskRight;
    RenderFront(left, maskLeft);
    RenderFront(text, mask);
    e, front := 1, [left[0]];
    if maskLeft[0] {
      RunEndOfParts(maskLeft, maskRight);
      e, front := RunEnd(maskLeft), Segment(left[..RunEnd(maskLeft)]);
    }
    assert text[..e] == left[..e] && text[e..] == left[e..] + right && mask[e..] == maskLeft[e..] + maskRight;
  }

  lemma {:induction false} RenderOfParts(left: string, right: string, maskLeft: seq<bool>, maskRight: seq<bool>)
    requires |left| == |maskLeft| && |right| == |maskRight|
    requires maskLeft != [] && maskRight != [] ==> !maskLeft[|maskLeft| - 1] || !maskRight[0]
    ensures Render(left + right, maskLeft + maskRight) == Render(left, maskLeft) + Render(right, maskRight)
    decreases |left|
  {
    if left == "" {
      assert left + right == right && maskLeft + maskRight == maskRight;
    } else {
      hide Render;
      var e, front := PartsFront(left, right, maskLeft, maskRight);
      RenderOfParts(left[e..], right, maskLeft[e..], maskRight);
      Joined(front, Render(left[e..], maskLeft[e..]), Render(right, maskRight));
    }
  }

  lemma Joined(a: string, b: string, c: string)
    ensures a + (b + c) == (a + b) + c
  {
  }

  lemma {:induction false} RunEndOfParts(maskLeft: seq<bool>, maskRight: seq<bool>)
    requires maskLeft != [] && maskLeft[0]
    requires maskRight != [] ==> !maskLeft[|maskLeft| - 1] || !maskRight[0]
    ensures RunEnd(maskLeft + maskRight) == RunEnd(maskLeft) > 0
  {
    var mask := maskLeft + maskRight;
    var e := RunEnd(maskLeft);
    assert forall k :: 0 <= k < |maskLeft| ==> mask[k] == maskLeft[k];
    if e < |maskLeft| {
      assert !mask[e];
    } else if maskRight != [] {
      assert maskLeft[|maskLeft| - 1] && mask[e] == maskRight[0];
    }
  }

  lemma {:induction false} RenderShown(runes: string)
    ensures Render(runes, All(|runes|, false)) == runes
  {
    if runes != "" {
      assert All(|runes|, false)[1..] == All(|runes| - 1, false);
      RenderShown(runes[1..]);
    }
  }

  lemma SegmentShown(run: string)
    requires run != ""
    ensures Segment(run) == if |run| > 5 then run[..1] + "********" + run[|run| - 1..] else "********"
  {
    assert run[..1] == [run[0]] && run[|run| - 1..] == [run[|run| - 1]];
  }

  lemma {:induction false} AllHidden(n: nat)
    ensures RunEnd(All(n, true)) == n
  {
    assert forall k :: 0 <= k < n ==> All(n, true)[k];
  }

  lemma RenderHidden(run: string)
    requires run != ""
    ensures Render(run, All(|run|, true)) == Segment(run)
  {
    hide Render, Segment, RunEnd;
    var mask := All(|run|, true);
    RenderFront(run, mask);
    AllHidden(|run|);
    RenderNothing();
    assert run[..|run|] == run && run[|run|..] == "" && mask[|run|..] == [];
    assert Segment(run) + "" == Segment(run);
  }

  lemma RenderNothing()
    ensures Render("", []) == ""
  {
  }

  /** Where a stretch of the text is hidden between two that are shown, the output has eight stars for it, between its
      first and its last rune if it has more than five. */
  lemma HiddenStretch(left: string, run: string, right: string)
    requires run != ""
    ensures Render(left + run + right, All(|left|, false) + All(|run|, true) + All(|right|, false))
         == left + (if |run| > 5 then run[..1] + "********" + run[|run| - 1..] else "********") + right
  {
    RenderOfParts(left + run, right, All(|left|, false) + All(|run|, true), All(|right|, false));
    RenderOfParts(left, run, All(|left|, false), All(|run|, true));
    RenderShown(left);
    RenderShown(right);
    RenderHidden(run);
    SegmentShown(run);
  }
}
