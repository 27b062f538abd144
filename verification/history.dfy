/** The saved-decision history: a most-recent-first list of records, at
    most 25 long after a save, kept in browser storage that may be missing
    or hold text that does not parse. */
module History {
  import opened Export

  datatype Option<T> = None | Some(value: T)

  /** A saved decision: the answers, the selected values, the rendered
      output and the export record. */
  datatype Record = Record(
    id: string,
    createdAt: string,
    decision: string,
    a: string,
    b: string,
    riskA: string,
    riskB: string,
    q24: string,
    values: seq<string>,
    outputHtml: string,
    exportData: Option<ExportData>)

  /** How many records a save keeps. */
  const MAX_HISTORY: nat := 25

  /** What browser storage holds under the history key: nothing (or the
      empty text), text that does not parse, or a parsed list. */
  datatype Payload = Absent | Corrupt | Stored(items: seq<Record>)

  /** `readStore`: the stored list, or the empty list when nothing usable is stored. */
  function ReadStore(p: Payload): seq<Record> {
    if p.Stored? then p.items else []
  }

  function Min(x: int, y: int): int {
    if x <= y then x else y
  }

  /** The first `MAX_HISTORY` entries of a list (`slice(0, 25)`). */
  function Window(s: seq<Record>): seq<Record> {
    s[..Min(|s|, MAX_HISTORY)]
  }

  /** The list a save leaves: the new record first, then the old records
      in their order, the oldest dropped beyond 25. */
  function Prepended(items: seq<Record>, r: Record): (res: seq<Record>)
    ensures |res| == Min(|items| + 1, MAX_HISTORY)
    ensures res[0] == r
    ensures res[1..] == items[..|res| - 1]
  {
    Window([r] + items)
  }

  /** `filter((x) => x.id !== id)`. */
  function WithoutId(items: seq<Record>, id: string): (res: seq<Record>)
    ensures |res| <= |items|
    ensures forall x :: x in res <==> x in items && x.id != id
  {
    if items == [] then []
    else if items[0].id == id then WithoutId(items[1..], id)
    else [items[0]] + WithoutId(items[1..], id)
  }

  /** `find((x) => x.id === id)`: the first record with the id. */
  function FindById(items: seq<Record>, id: string): (r: Option<Record>)
    ensures r.None? <==> forall k :: 0 <= k < |items| ==> items[k].id != id
    ensures r.Some? ==> r.value in items && r.value.id == id
  {
    if items == [] then None
    else if items[0].id == id then Some(items[0])
    else FindById(items[1..], id)
  }

  /** Storage that is empty or does not parse reads as an empty history:
      a save then leaves the new record alone, a delete leaves nothing and
      no id is found. */
  lemma ReadStoreRecovers(p: Payload, r: Record, id: string)
    requires !p.Stored?
    ensures Prepended(ReadStore(p), r) == [r]
    ensures WithoutId(ReadStore(p), id) == []
    ensures FindById(ReadStore(p), id) == None
  {
  }

  // ---------------------------------------------------------------------
  // Saving

  /** After a save the record is found by its id. */
  lemma SaveThenFind(items: seq<Record>, r: Record)
    ensures FindById(Prepended(items, r), r.id) == Some(r)
  {
  }

  /** A save never leaves more than 25 records. */
  lemma SaveBounded(items: seq<Record>, r: Record)
    ensures |Prepended(items, r)| <= MAX_HISTORY
    ensures |items| < MAX_HISTORY ==> |Prepended(items, r)| == |items| + 1
  {
  }

  /** Saves one after another, in the order of `rs`. */
  function SaveAll(items: seq<Record>, rs: seq<Record>): seq<Record>
    decreases |rs|
  {
    if rs == [] then items else SaveAll(Prepended(items, rs[0]), rs[1..])
  }

  function Reversed(rs: seq<Record>): (res: seq<Record>)
    ensures |res| == |rs|
  {
    if rs == [] then [] else Reversed(rs[1..]) + [rs[0]]
  }

  /** Taking the window of a longer list first changes nothing. */
  lemma WindowPrefix(x: seq<Record>, y: seq<Record>)
    ensures Window(x + Window(y)) == Window(x + y)
  {
    var n := Min(|x| + |y|, MAX_HISTORY);
    assert |x + Window(y)| >= n;
    assert (x + Window(y))[..n] == (x + y)[..n];
  }

  /** After a run of saves on a history of at most 25 records, the history
      is the new records newest first, then the old ones, cut at 25. */
  lemma {:induction false} SaveAllNewestFirst(items: seq<Record>, rs: seq<Record>)
    requires |items| <= MAX_HISTORY
    ensures SaveAll(items, rs) == Window(Reversed(rs) + items)
    decreases |rs|
  {
    if rs == [] {
      assert Window([] + items) == items;
    } else {
      SaveAllNewestFirst(Prepended(items, rs[0]), rs[1..]);
      WindowPrefix(Reversed(rs[1..]), [rs[0]] + items);
      assert Reversed(rs) + items == Reversed(rs[1..]) + ([rs[0]] + items);
    }
  }

  // ---------------------------------------------------------------------
  // Deleting and finding

  /** Filtering distributes over concatenation, so the kept records stay
      in their original order. */
  lemma {:induction false} WithoutIdAppend(x: seq<Record>, y: seq<Record>, id: string)
    ensures WithoutId(x + y, id) == WithoutId(x, id) + WithoutId(y, id)
  {
    if x == [] {
      assert x + y == y;
    } else {
      assert (x + y)[0] == x[0];
      assert (x + y)[1..] == x[1..] + y;
      WithoutIdAppend(x[1..], y, id);
    }
  }

  /** One more record examined by the filter. */
  lemma WithoutIdStep(items: seq<Record>, i: int, id: string)
    requires 0 <= i < |items|
    ensures WithoutId(items[..i + 1], id)
         == WithoutId(items[..i], id) + (if items[i].id != id then [items[i]] else [])
  {
    WithoutIdAppend(items[..i], [items[i]], id);
    assert items[..i + 1] == items[..i] + [items[i]];
    assert [items[i]][1..] == [];
  }

  /** Once deleted, a record is not found. */
  lemma DeleteThenFind(items: seq<Record>, id: string)
    ensures FindById(WithoutId(items, id), id) == None
  {
    var res := WithoutId(items, id);
    forall k | 0 <= k < |res|
      ensures res[k].id != id
    {
      assert res[k] in res;
    }
  }

  /** Deleting an id no record has leaves the history as it is. */
  lemma {:induction false} DeleteAbsent(items: seq<Record>, id: string)
    requires FindById(items, id) == None
    ensures WithoutId(items, id) == items
  {
    if items != [] {
      assert items[0].id != id;
      DeleteAbsent(items[1..], id);
      assert [items[0]] + items[1..] == items;
    }
  }

  /** Deleting one id does not change what another id finds. */
  lemma {:induction false} DeleteKeepsOthers(items: seq<Record>, id: string, other: string)
    requires other != id
    ensures FindById(WithoutId(items, id), other) == FindById(items, other)
  {
    if items != [] {
      DeleteKeepsOthers(items[1..], id, other);
      if items[0].id != id {
        assert ([items[0]] + WithoutId(items[1..], id))[1..] == WithoutId(items[1..], id);
      }
    }
  }

  /** Records before the first match are skipped: the lookup finds the
      earliest record with the id. */
  lemma {:induction false} FindSkipsPrefix(x: seq<Record>, y: seq<Record>, id: string)
    requires forall k :: 0 <= k < |x| ==> x[k].id != id
    ensures FindById(x + y, id) == FindById(y, id)
  {
    if x == [] {
      assert x + y == y;
    } else {
      assert (x + y)[0] == x[0];
      assert (x + y)[1..] == x[1..] + y;
      FindSkipsPrefix(x[1..], y, id);
    }
  }
}
