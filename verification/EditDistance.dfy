/** Edit distance between two rune slices, as backend/utils/utils.go computes it with two rolling rows.

The distance is defined here by its meaning: the least number of insertions, deletions and
substitutions in a script that turns one text into the other.  `Distance` is the textbook recurrence,
`Levenshtein` the program; both are tied to that meaning below. */
module EditDistance {

  /** An edit script, read from the end of the text: each constructor handles the last rune and `rest`
      handles the prefix in front of it. */
  datatype Script =
    | Done
    | Keep(rest: Script)
    | Substitute(rest: Script, c: char)
    | Insert(rest: Script, c: char)
    | Delete(rest: Script)

  datatype Edited = Misfit | Text(text: seq<char>)

  /** The text a script makes of `a`; a script that runs out of runes, or leaves some over, does not fit. */
  function Apply(s: Script, a: seq<char>): Edited
  {
    match s
    case Done => if a == [] then Text([]) else Misfit
    case Insert(rest, c) => Append(Apply(rest, a), c)
    case Keep(rest) => if a == [] then Misfit else Append(Apply(rest, Front(a)), Last(a))
    case Substitute(rest, c) => if a == [] then Misfit else Append(Apply(rest, Front(a)), c)
    case Delete(rest) => if a == [] then Misfit else Apply(rest, Front(a))
  }

  function Append(e: Edited, c: char): Edited
  {
    match e
    case Misfit => Misfit
    case Text(t) => Text(t + [c])
  }

  function Front<T>(a: seq<T>): seq<T>
    requires a != []
  {
    a[..|a| - 1]
  }

  function Last<T>(a: seq<T>): T
    requires a != []
  {
    a[|a| - 1]
  }

  /** How many runes a script touches. */
  function Cost(s: Script): nat
  {
    match s
    case Done => 0
    case Keep(rest) => Cost(rest)
    case Substitute(rest, _) => 1 + Cost(rest)
    case Insert(rest, _) => 1 + Cost(rest)
    case Delete(rest) => 1 + Cost(rest)
  }

  ghost predicate Rewrites(s: Script, a: seq<char>, b: seq<char>)
  {
    Apply(s, a) == Text(b)
  }

  function Min3(x: nat, y: nat, z: nat): nat
  {
    if x <= y && x <= z then x else if y <= z then y else z
  }

  /** The recurrence over the last runes of both texts. */
  function Distance(a: seq<char>, b: seq<char>): nat
    decreases |a| + |b|
  {
    if a == [] then |b|
    else if b == [] then |a|
    else Min3(Distance(Front(a), b) + 1,
              Distance(a, Front(b)) + 1,
              Distance(Front(a), Front(b)) + if Last(a) == Last(b) then 0 else 1)
  }

  /** A script that realises the recurrence. */
  function Shortest(a: seq<char>, b: seq<char>): Script
    decreases |a| + |b|
  {
    if a == [] then if b == [] then Done else Insert(Shortest(a, Front(b)), Last(b))
    else if b == [] then Delete(Shortest(Front(a), b))
    else if Distance(a, b) == Distance(Front(a), b) + 1 then Delete(Shortest(Front(a), b))
    else if Distance(a, b) == Distance(a, Front(b)) + 1 then Insert(Shortest(a, Front(b)), Last(b))
    else if Last(a) == Last(b) then Keep(Shortest(Front(a), Front(b)))
    else Substitute(Shortest(Front(a), Front(b)), Last(b))
  }

  /** Some script reaches the distance ... */
  lemma {:induction false} ShortestRewrites(a: seq<char>, b: seq<char>)
    ensures Rewrites(Shortest(a, b), a, b)
    ensures Cost(Shortest(a, b)) == Distance(a, b)
    decreases |a| + |b|
  {
    if a != [] {
      ShortestRewrites(Front(a), b);
    }
    if b != [] {
      ShortestRewrites(a, Front(b));
      assert Front(b) + [Last(b)] == b;
    }
    if a != [] && b != [] {
      ShortestRewrites(Front(a), Front(b));
    }
  }

  /** ... and no script is cheaper. */
  lemma {:induction false} NoCheaperScript(s: Script, a: seq<char>, b: seq<char>)
    requires Rewrites(s, a, b)
    ensures Distance(a, b) <= Cost(s)
  {
    match s
    case Done =>
    case Delete(rest) =>
      NoCheaperScript(rest, Front(a), b);
      DeletionCostsAtMostOne(a, b);
    case Insert(rest, c) =>
      AppendInverse(Apply(rest, a), c, b);
      NoCheaperScript(rest, a, Front(b));
      InsertionCostsAtMostOne(a, b);
    case Keep(rest) =>
      AppendInverse(Apply(rest, Front(a)), Last(a), b);
      NoCheaperScript(rest, Front(a), Front(b));
    case Substitute(rest, c) =>
      AppendInverse(Apply(rest, Front(a)), c, b);
      NoCheaperScript(rest, Front(a), Front(b));
  }

  lemma AppendInverse(e: Edited, c: char, b: seq<char>)
    requires Append(e, c) == Text(b)
    ensures b != [] && Last(b) == c && e == Text(Front(b))
  {
    assert Front(e.text + [c]) == e.text;
  }

  lemma DeletionCostsAtMostOne(a: seq<char>, b: seq<char>)
    requires a != []
    ensures Distance(a, b) <= Distance(Front(a), b) + 1
  {
  }

  lemma InsertionCostsAtMostOne(a: seq<char>, b: seq<char>)
    requires b != []
    ensures Distance(a, b) <= Distance(a, Front(b)) + 1
  {
  }

  /** The value `Distance` gives is the least cost of a script from `a` to `b`, and the only such value. */
  lemma DistanceIsLeastCost(a: seq<char>, b: seq<char>, d: nat)
    ensures d == Distance(a, b) <==>
            && (exists s :: Rewrites(s, a, b) && Cost(s) == d)
            && (forall s :: Rewrites(s, a, b) ==> d <= Cost(s))
  {
    ShortestRewrites(a, b);
    forall s | Rewrites(s, a, b)
      ensures Distance(a, b) <= Cost(s)
    {
      NoCheaperScript(s, a, b);
    }
  }

  /** Run one script after the other. */
  lemma {:induction false} Compose(s: Script, t: Script, a: seq<char>, b: seq<char>, c: seq<char>) returns (u: Script)
    requires Rewrites(s, a, b) && Rewrites(t, b, c)
    ensures Rewrites(u, a, c) && Cost(u) <= Cost(s) + Cost(t)
    decreases s, t
  {
    if s.Delete? {
      var v := Compose(s.rest, t, Front(a), b, c);
      u := Delete(v);
    } else if t.Insert? {
      AppendInverse(Apply(t.rest, b), t.c, c);
      var v := Compose(s, t.rest, a, b, Front(c));
      u := Insert(v, t.c);
      assert Front(c) + [t.c] == c;
    } else if s.Done? {
      u := Done;
    } else {
      u := ComposeBothTouchLast(s, t, a, b, c);
    }
  }

  /** The case in which both scripts handle the last rune of the middle text. */
  lemma {:induction false} ComposeBothTouchLast(s: Script, t: Script, a: seq<char>, b: seq<char>, c: seq<char>)
    returns (u: Script)
    requires Rewrites(s, a, b) && Rewrites(t, b, c)
    requires !s.Done? && !s.Delete? && !t.Insert?
    ensures Rewrites(u, a, c) && Cost(u) <= Cost(s) + Cost(t)
    decreases s, t, 0
  {
    var a' := if s.Insert? then a else Front(a);
    AppendInverse(Apply(s.rest, a'), if s.Keep? then Last(a) else s.c, b);
    var c' := if t.Delete? then c else Front(c);
    if !t.Delete? {
      AppendInverse(Apply(t.rest, Front(b)), if t.Keep? then Last(b) else t.c, c);
      assert Front(c) + [Last(c)] == c;
    }
    var v := Compose(s.rest, t.rest, a', Front(b), c');
    if s.Insert? {
      u := if t.Delete? then v else Insert(v, Last(c));
    } else if t.Delete? {
      u := Delete(v);
    } else if s.Keep? && t.Keep? {
      u := Keep(v);
    } else {
      u := Substitute(v, Last(c));
    }
  }

  lemma TriangleInequality(a: seq<char>, b: seq<char>, c: seq<char>)
    ensures Distance(a, c) <= Distance(a, b) + Distance(b, c)
  {
    ShortestRewrites(a, b);
    ShortestRewrites(b, c);
    var u := Compose(Shortest(a, b), Shortest(b, c), a, b, c);
    NoCheaperScript(u, a, c);
  }

  lemma {:induction false} Symmetric(a: seq<char>, b: seq<char>)
    ensures Distance(a, b) == Distance(b, a)
    decreases |a| + |b|
  {
    if a != [] && b != [] {
      Symmetric(Front(a), b);
      Symmetric(a, Front(b));
      Symmetric(Front(a), Front(b));
    }
  }

  lemma {:induction false} ZeroOnlyForEqual(a: seq<char>, b: seq<char>)
    ensures Distance(a, b) == 0 <==> a == b
    decreases |a|
  {
    if a != [] && b != [] {
      ZeroOnlyForEqual(Front(a), Front(b));
      assert a == Front(a) + [Last(a)] && b == Front(b) + [Last(b)];
    }
  }

  /** The first `n` cells of `row` hold the distances from `a` to the first prefixes of `b`. */
  ghost predicate IsRow(row: array<nat>, n: nat, a: seq<char>, b: seq<char>)
    reads row
  {
    n <= row.Length == |b| + 1 && forall k :: 0 <= k < n ==> row[k] == Cell(a, b, k)
  }

  ghost function Cell(a: seq<char>, b: seq<char>, k: nat): nat
    requires k <= |b|
  {
    Distance(a, b[..k])
  }

  /** backend/utils/utils.go, levenshtein: two rows of the table, swapped after each rune of `a`. */
  method Levenshtein(a: seq<char>, b: seq<char>) returns (d: nat)
    ensures d == Distance(a, b)
  {
    var la, lb := |a|, |b|;
    if la == 0 {
      return lb;
    }
    if lb == 0 {
      return la;
    }
    var prev, curr := new nat[lb + 1], new nat[lb + 1];
    for j := 0 to lb + 1
      invariant IsRow(prev, j, a[..0], b)
    {
      prev[j] := j;
      assert Cell(a[..0], b, j) == j;
    }
    for i := 1 to la + 1
      invariant prev != curr && fresh(prev) && fresh(curr)
      invariant curr.Length == lb + 1 && IsRow(prev, lb + 1, a[..i - 1], b)
    {
      FillRow(a, b, i, prev, curr);
      prev, curr := curr, prev;
    }
    assert a[..la] == a && b[..lb] == b;
    d := prev[lb];
  }

  /** One round of the outer loop. */
  method FillRow(a: seq<char>, b: seq<char>, i: nat, prev: array<nat>, curr: array<nat>)
    requires 1 <= i <= |a| && prev != curr && curr.Length == |b| + 1
    requires IsRow(prev, |b| + 1, a[..i - 1], b)
    modifies curr
    ensures IsRow(curr, |b| + 1, a[..i], b)
  {
    curr[0] := i;
    assert Cell(a[..i], b, 0) == i;
    for j := 1 to |b| + 1
      invariant IsRow(curr, j, a[..i], b)
    {
      var cost := 0;
      if a[i - 1] != b[j - 1] {
        cost := 1;
      }
      var del := prev[j] + 1;
      var ins := curr[j - 1] + 1;
      var sub := prev[j - 1] + cost;
      var least := Min3(del, ins, sub);
      assert least == Cell(a[..i], b, j) by {
        TableStep(a, b, i, j);
      }
      curr[j] := least;
    }
  }

  lemma TableStep(a: seq<char>, b: seq<char>, i: nat, j: nat)
    requires 1 <= i <= |a| && 1 <= j <= |b|
    ensures Cell(a[..i], b, j) ==
            Min3(Cell(a[..i - 1], b, j) + 1,
                 Cell(a[..i], b, j - 1) + 1,
                 Cell(a[..i - 1], b, j - 1) + if a[i - 1] == b[j - 1] then 0 else 1)
  {
    assert Front(a[..i]) == a[..i - 1] && Front(b[..j]) == b[..j - 1];
  }
}
