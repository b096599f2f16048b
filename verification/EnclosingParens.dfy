/** src/ingestion/dbt/audit_rmt_read_dedup.py: the subquery around a read is the innermost bracket
    group that holds it, found by one scan back and one forward. */
module EnclosingParens {
  import opened Common

  function Score(c: char): int {
    if c == '(' then 1 else if c == ')' then -1 else 0
  }

  /** Brackets opened less brackets closed in `txt[i..k]`. */
  function Depth(txt: string, i: nat, k: nat): int
    requires k <= |txt|
  {
    if k <= i then 0 else Depth(txt, i, k - 1) + Score(txt[k - 1])
  }

  lemma {:induction false} DepthSplit(txt: string, i: nat, m: nat, k: nat)
    requires i <= m <= k <= |txt|
    ensures Depth(txt, i, k) == Depth(txt, i, m) + Depth(txt, m, k)
  {
    if m < k { DepthSplit(txt, i, m, k - 1); }
  }

  /** The bracket at `p` opens and is not closed by `start`. */
  ghost predicate OpenAt(txt: string, p: nat, start: nat)
    requires start < |txt|
  {
    p <= start && txt[p] == '(' && forall k :: p < k <= start + 1 ==> Depth(txt, p, k) >= 1
  }

  /** The bracket at `p` is closed at `q` and not before, or, at the text's end, not at all. */
  ghost predicate Group(txt: string, p: nat, q: nat) {
    && p < q <= |txt| && txt[p] == '('
    && (forall k :: p < k <= q ==> Depth(txt, p, k) >= 1)
    && (q < |txt| ==> Depth(txt, p, q + 1) == 0)
  }

  /** The group of the nearest open bracket, index 0 apart. */
  ghost predicate Innermost(txt: string, start: nat, o: nat, j: nat)
    requires start < |txt|
  {
    && 1 <= o && OpenAt(txt, o, start) && Group(txt, o, j)
    && forall p :: o < p <= start ==> !OpenAt(txt, p, start)
  }

  function Slice(txt: string, o: nat, j: nat): string
    requires o <= j <= |txt|
  {
    if j < |txt| then txt[o..j + 1] else txt[o..]
  }

  /** From `i` through `start`, `d` closing brackets wait for opening ones further left, and no
      stretch from `i` on has more. */
  ghost predicate Waiting(txt: string, i: nat, start: nat, d: nat)
    requires i <= start + 1 <= |txt|
  {
    && Depth(txt, i, start + 1) + d == 0
    && forall k :: i <= k <= start + 1 ==> Depth(txt, i, k) + d >= 0
  }

  /** One step of the scan back. */
  lemma WaitingStep(txt: string, i: nat, start: nat, d: nat)
    requires i <= start < |txt| && Waiting(txt, i + 1, start, d)
    ensures txt[i] == ')' ==> Waiting(txt, i, start, d + 1) && !OpenAt(txt, i, start)
    ensures txt[i] == '(' && d > 0 ==> Waiting(txt, i, start, d - 1) && !OpenAt(txt, i, start)
    ensures txt[i] == '(' && d == 0 ==> OpenAt(txt, i, start)
    ensures Score(txt[i]) == 0 ==> Waiting(txt, i, start, d) && !OpenAt(txt, i, start)
  {
    forall k | i < k <= start + 1 ensures Depth(txt, i, k) == Score(txt[i]) + Depth(txt, i + 1, k) {
      DepthSplit(txt, i, i + 1, k);
      assert Depth(txt, i, i + 1) == Depth(txt, i, i) + Score(txt[i]);
    }
    assert Depth(txt, i, i) == 0;
  }

  lemma NothingWaits(txt: string, start: nat)
    requires start < |txt|
    ensures Waiting(txt, start + 1, start, 0)
  {
  }

  method Encl(txt: string, start: nat) returns (r: Option<string>)
    requires start < |txt|
    ensures r.None? <==> forall p :: 1 <= p <= start ==> !OpenAt(txt, p, start)
    ensures r.Some? ==> exists o, j :: Innermost(txt, start, o, j) && r.value == Slice(txt, o, j)
  {
    hide Depth, OpenAt, Waiting;
    var d: nat := 0;
    var i := start;
    var o := -1;
    NothingWaits(txt, start);
    while i > 0
      invariant 0 <= i <= start && d >= 0 && o == -1
      invariant Waiting(txt, i + 1, start, d)
      invariant forall p :: i < p <= start ==> !OpenAt(txt, p, start)
    {
      WaitingStep(txt, i, start, d);
      var c := txt[i];
      if c == ')' {
        d := d + 1;
      } else if c == '(' {
        if d == 0 {
          o := i;
          break;
        }
        d := d - 1;
      }
      i := i - 1;
    }
    if o == -1 { return None; }
    var j := ScanForward(txt, o, start);
    return Some(Slice(txt, o, j));
  }

  /** The second scan: to the bracket that closes the one at `o`, or to the text's end. */
  method ScanForward(txt: string, o: nat, start: nat) returns (j: nat)
    requires start < |txt| && OpenAt(txt, o, start)
    ensures Group(txt, o, j) && start < j
  {
    var d := 0;
    j := o;
    while j < |txt|
      invariant o <= j <= |txt| && d == Depth(txt, o, j)
      invariant forall k :: o < k <= j ==> Depth(txt, o, k) >= 1
    {
      assert Depth(txt, o, j + 1) == Depth(txt, o, j) + Score(txt[j]);
      if txt[j] == '(' {
        d := d + 1;
      } else if txt[j] == ')' {
        d := d - 1;
        if d == 0 { return; }
      }
      j := j + 1;
    }
  }

  lemma GroupEndsBeyond(txt: string, start: nat, o: nat, j: nat)
    requires start < |txt| && OpenAt(txt, o, start) && Group(txt, o, j)
    ensures start < j
  {
    if j < |txt| { assert Depth(txt, o, j + 1) < 1; }
  }

  /** Groups nest: what starts inside a group ends inside it. */
  lemma GroupsNest(txt: string, p: nat, q: nat, o: nat, j: nat)
    requires Group(txt, p, q) && Group(txt, o, j) && p <= o <= q
    ensures j <= q
  {
    if q < |txt| {
      DepthSplit(txt, p, o, q + 1);
      assert p == o ==> Depth(txt, p, o) == 0;
      assert Depth(txt, o, q + 1) < 1;
    }
  }

  /** No bracket group that starts after index 0 and holds `start` is smaller: each holds the one
      found, which reaches beyond `start`, and only that one starts where it does. */
  lemma NoSmallerGroup(txt: string, start: nat, o: nat, j: nat, p: nat, q: nat)
    requires start < |txt| && Innermost(txt, start, o, j)
    requires 1 <= p <= start < q && Group(txt, p, q)
    ensures start < j && p <= o && j <= q
    ensures p == o ==> q == j
  {
    GroupEndsBeyond(txt, start, o, j);
    assert OpenAt(txt, p, start);
    GroupsNest(txt, p, q, o, j);
    if p == o { GroupsNest(txt, o, j, p, q); }
  }

  /** What is returned is one balanced group, unless the text ends first. */
  lemma SliceIsBalanced(txt: string, start: nat, o: nat, j: nat)
    requires start < |txt| && Innermost(txt, start, o, j)
    ensures var s := Slice(txt, o, j);
            && |s| > start - o && s[start - o] == txt[start] && s[0] == '('
            && (j < |txt| ==> Depth(s, 0, |s|) == 0 && s[|s| - 1] == ')')
            && forall k :: 0 < k < |s| ==> Depth(s, 0, k) >= 1
  {
    GroupEndsBeyond(txt, start, o, j);
    var s := Slice(txt, o, j);
    forall k: nat | k <= |s| ensures Depth(s, 0, k) == Depth(txt, o, o + k) { DepthOfSlice(txt, o, s, k); }
  }

  lemma {:induction false} DepthOfSlice(txt: string, o: nat, s: string, k: nat)
    requires k <= |s| && o + |s| <= |txt| && s == txt[o..o + |s|]
    ensures Depth(s, 0, k) == Depth(txt, o, o + k)
  {
    if k > 0 { DepthOfSlice(txt, o, s, k - 1); }
  }

  /** The scan stops before index 0, and that is all it misses: where it finds nothing, a group that
      holds `start` opens the text. */
  lemma OnlyTheFirstIsMissed(txt: string, start: nat, p: nat, q: nat)
    requires start < |txt| && Group(txt, p, q) && p <= start < q
    ensures OpenAt(txt, p, start)
    ensures (forall i :: 1 <= i <= start ==> !OpenAt(txt, i, start)) ==> p == 0
    ensures p > 0 ==> exists i :: 1 <= i <= start && OpenAt(txt, i, start)
  {
    assert OpenAt(txt, p, start);
  }
}
