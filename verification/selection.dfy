/** The value chips: a selection drawn from seven fixed values, at most
    three at a time, kept in the order the values were picked (the order a
    JavaScript `Set` iterates in). */
module Selection {

  const VALUES: seq<string> := ["time", "money", "peace", "growth", "relationships", "health", "freedom"]
  const MAX_VALUES: nat := 3

  predicate Distinct(s: seq<string>) {
    forall i, j :: 0 <= i < j < |s| ==> s[i] != s[j]
  }

  /** A selection the chips can produce. */
  predicate ValidSelection(sel: seq<string>) {
    && |sel| <= MAX_VALUES
    && Distinct(sel)
    && forall k :: 0 <= k < |sel| ==> sel[k] in VALUES
  }

  /** `Set.delete`: the value is gone, the others keep their order. */
  function Removed(sel: seq<string>, v: string): (r: seq<string>)
    ensures |r| <= |sel|
    ensures v in sel ==> |r| < |sel|
    ensures forall x :: x in r <==> x in sel && x != v
  {
    if sel == [] then []
    else if sel[0] == v then Removed(sel[1..], v)
    else [sel[0]] + Removed(sel[1..], v)
  }

  /** The chip click: a selected value is removed; an unselected one is
      added at the end unless three are already selected. */
  function Toggled(sel: seq<string>, v: string): seq<string> {
    if v in sel then Removed(sel, v)
    else if |sel| >= MAX_VALUES then sel
    else sel + [v]
  }

  /** `new Set(values)`: the values in order of first appearance, each once. */
  function Dedup(values: seq<string>): (r: seq<string>)
    ensures Distinct(r)
    ensures |r| <= |values|
    ensures forall x :: x in r <==> x in values
  {
    if values == [] then []
    else
      var d := Dedup(values[..|values| - 1]);
      var last := values[|values| - 1];
      if last in d then d else d + [last]
  }

  // ---------------------------------------------------------------------
  // The toggle

  /** A click adds the value exactly when it was unselected and fewer than
      three were selected; every other value keeps its state. */
  lemma ToggleMembership(sel: seq<string>, v: string, x: string)
    ensures v in Toggled(sel, v) <==> v !in sel && |sel| < MAX_VALUES
    ensures x != v ==> (x in Toggled(sel, v) <==> x in sel)
  {
  }

  /** A click never takes the selection above three, nor grows one that is
      already at three or more. */
  lemma ToggleBounded(sel: seq<string>, v: string)
    ensures |sel| <= MAX_VALUES ==> |Toggled(sel, v)| <= MAX_VALUES
    ensures |sel| >= MAX_VALUES ==> |Toggled(sel, v)| <= |sel|
  {
  }

  /** With three selected, clicking an unselected value changes nothing. */
  lemma ToggleFullIgnored(sel: seq<string>, v: string)
    requires |sel| >= MAX_VALUES && v !in sel
    ensures Toggled(sel, v) == sel
  {
  }

  lemma {:induction false} RemovedDistinct(sel: seq<string>, v: string)
    requires Distinct(sel)
    ensures Distinct(Removed(sel, v))
  {
    if sel != [] {
      RemovedDistinct(sel[1..], v);
      var rest := Removed(sel[1..], v);
      if sel[0] != v {
        assert sel[0] !in sel[1..];
        assert sel[0] !in rest;
      }
    }
  }

  /** A click keeps a chip selection valid. */
  lemma ToggleKeepsValid(sel: seq<string>, v: string)
    requires ValidSelection(sel) && v in VALUES
    ensures ValidSelection(Toggled(sel, v))
  {
    if v in sel {
      RemovedDistinct(sel, v);
      var r := Removed(sel, v);
      forall k | 0 <= k < |r| ensures r[k] in VALUES {
        assert r[k] in sel;
      }
    }
  }

  /** Removing a value that was never there changes nothing. */
  lemma {:induction false} RemovedAbsent(sel: seq<string>, v: string)
    requires v !in sel
    ensures Removed(sel, v) == sel
  {
    if sel != [] {
      RemovedAbsent(sel[1..], v);
      assert [sel[0]] + sel[1..] == sel;
    }
  }

  /** Removing the value last added restores the list before it. */
  lemma {:induction false} RemovedLast(sel: seq<string>, v: string)
    requires v !in sel
    ensures Removed(sel + [v], v) == sel
  {
    if sel == [] {
      assert [] + [v] == [v];
      assert [v][1..] == [];
    } else {
      assert (sel + [v])[0] == sel[0];
      assert (sel + [v])[1..] == sel[1..] + [v];
      RemovedLast(sel[1..], v);
      assert [sel[0]] + sel[1..] == sel;
    }
  }

  /** Deletion distributes over concatenation: the values on either side of
      the deleted one keep their order. */
  lemma {:induction false} RemovedAppend(x: seq<string>, y: seq<string>, v: string)
    ensures Removed(x + y, v) == Removed(x, v) + Removed(y, v)
  {
    if x == [] {
      assert x + y == y;
    } else {
      assert (x + y)[0] == x[0];
      assert (x + y)[1..] == x[1..] + y;
      RemovedAppend(x[1..], y, v);
    }
  }

  /** In a selection without repeats, the value at index i occurs neither
      before nor after it. */
  lemma DistinctAround(sel: seq<string>, i: int)
    requires Distinct(sel) && 0 <= i < |sel|
    ensures sel[i] !in sel[..i] && sel[i] !in sel[i + 1..]
  {
    forall k | 0 <= k < i
      ensures sel[..i][k] != sel[i]
    {
      assert sel[..i][k] == sel[k];
    }
    var after := sel[i + 1..];
    forall k | 0 <= k < |after|
      ensures after[k] != sel[i]
    {
      assert after[k] == sel[i + 1 + k];
    }
  }

  /** Deleting v from a list holding it once, between two lists without it,
      leaves the two lists joined. */
  lemma RemovedBetween(before: seq<string>, v: string, after: seq<string>)
    requires v !in before && v !in after
    ensures Removed(before + ([v] + after), v) == before + after
  {
    RemovedAppend(before, [v] + after, v);
    RemovedAppend([v], after, v);
    assert [v][1..] == [];
    RemovedAbsent(before, v);
    RemovedAbsent(after, v);
  }

  /** On a selection without repeats, deleting the value at index i leaves
      exactly the values before it followed by the values after it. */
  lemma RemovedAt(sel: seq<string>, i: int)
    requires Distinct(sel) && 0 <= i < |sel|
    ensures Removed(sel, sel[i]) == sel[..i] + sel[i + 1..]
  {
    DistinctAround(sel, i);
    assert sel == sel[..i] + ([sel[i]] + sel[i + 1..]);
    RemovedBetween(sel[..i], sel[i], sel[i + 1..]);
  }

  /** Clicking an unselected chip twice, with room for it, restores the selection. */
  lemma ToggleTwice(sel: seq<string>, v: string)
    requires v !in sel && |sel| < MAX_VALUES
    ensures Toggled(Toggled(sel, v), v) == sel
  {
    RemovedLast(sel, v);
  }

  /** Clicking a selected chip twice puts it back at the end. */
  lemma ToggleSelectedTwice(sel: seq<string>, v: string)
    requires v in sel && |sel| <= MAX_VALUES
    ensures Toggled(Toggled(sel, v), v) == Removed(sel, v) + [v]
  {
  }

  // ---------------------------------------------------------------------
  // Restoring a saved selection

  /** A list without repeats is its own set: loading a saved selection
      restores it in the same order. */
  lemma {:induction false} DedupDistinct(values: seq<string>)
    requires Distinct(values)
    ensures Dedup(values) == values
  {
    if values != [] {
      var init := values[..|values| - 1];
      DedupDistinct(init);
      assert values[|values| - 1] !in init;
      assert init + [values[|values| - 1]] == values;
    }
  }
}
