/** The JavaScript string built-ins the decision tool relies on, on strings
    as sequences of characters: ASCII `toLowerCase`, `trim`, `includes`,
    `startsWith`, `split(" ")[0]`, `join`, `split` and one-character
    `replaceAll`. */
module Text {

  /** The whitespace `trim` removes, restricted to ASCII: space, tab,
      line feed, vertical tab, form feed and carriage return. */
  predicate IsSpace(c: char) {
    c == ' ' || c == '\t' || c == '\n' || c == '\r' || c == 11 as char || c == 12 as char
  }

  predicate IsUpper(c: char) {
    'A' <= c <= 'Z'
  }

  function LowerChar(c: char): char {
    if IsUpper(c) then (c as int + 32) as char else c
  }

  /** `toLowerCase` on ASCII letters; every other character is kept. */
  function Lower(s: string): string {
    seq(|s|, i requires 0 <= i < |s| => LowerChar(s[i]))
  }

  /** Drops leading whitespace (`TrimStartSpec` states the result). */
  function TrimStart(s: string): string {
    if s != [] && IsSpace(s[0]) then TrimStart(s[1..]) else s
  }

  /** Drops trailing whitespace (`TrimEndSpec` states the result). */
  function TrimEnd(s: string): string {
    if s != [] && IsSpace(s[|s| - 1]) then TrimEnd(s[..|s| - 1]) else s
  }

  /** `trim`. */
  function Trim(s: string): string {
    TrimEnd(TrimStart(s))
  }

  /** `p` occurs in `t` starting at index `i`. */
  predicate OccursAt(t: string, p: string, i: int) {
    0 <= i && i + |p| <= |t| && t[i..i + |p|] == p
  }

  predicate StartsWith(t: string, p: string) {
    |p| <= |t| && t[..|p|] == p
  }

  /** `includes`: a left-to-right scan for `p`. */
  function Contains(t: string, p: string): bool
    decreases |t|
  {
    if |p| > |t| then false
    else if StartsWith(t, p) then true
    else Contains(t[1..], p)
  }

  /** The scan succeeds exactly when `p` occurs somewhere in `t`. */
  lemma {:induction false} ContainsIffOccurs(t: string, p: string)
    ensures Contains(t, p) <==> exists i :: OccursAt(t, p, i)
    decreases |t|
  {
    if |p| > |t| {
    } else if StartsWith(t, p) {
      assert OccursAt(t, p, 0);
    } else {
      ContainsStep(t, p);
      ContainsIffOccurs(t[1..], p);
    }
  }

  /** Past a mismatch at index 0, occurrences in `t` are those in `t[1..]`. */
  lemma ContainsStep(t: string, p: string)
    requires |p| <= |t| && !StartsWith(t, p)
    ensures (exists i :: OccursAt(t, p, i)) <==> (exists i :: OccursAt(t[1..], p, i))
  {
    if i :| OccursAt(t, p, i) {
      assert i != 0;
      assert t[1..][i - 1..i - 1 + |p|] == t[i..i + |p|];
      assert OccursAt(t[1..], p, i - 1);
    }
    if i :| OccursAt(t[1..], p, i) {
      assert t[1..][i..i + |p|] == t[i + 1..i + 1 + |p|];
      assert OccursAt(t, p, i + 1);
    }
  }

  /** `split(" ")[0]`: the text before the first space (the whole text
      when there is none). */
  function FirstToken(s: string): (r: string)
    ensures |r| <= |s| && r == s[..|r|]
    ensures ' ' !in r
    ensures |r| < |s| ==> s[|r|] == ' '
  {
    if s == [] || s[0] == ' ' then [] else [s[0]] + FirstToken(s[1..])
  }

  /** `join(sep)`: the parts with `sep` between neighbours; "" for no parts. */
  function Join(parts: seq<string>, sep: string): string {
    if |parts| == 0 then []
    else if |parts| == 1 then parts[0]
    else parts[0] + sep + Join(parts[1..], sep)
  }

  /** `split(c)` for a one-character separator: the maximal runs between
      occurrences of `c`; never empty, and "" splits to [""]. */
  function Split(s: string, c: char): (r: seq<string>)
    ensures |r| >= 1
    ensures forall k :: 0 <= k < |r| ==> c !in r[k]
  {
    if s == [] then [[]]
    else
      var rest := Split(s[1..], c);
      if s[0] == c then [[]] + rest
      else [[s[0]] + rest[0]] + rest[1..]
  }

  /** `replaceAll(c, rep)` for a one-character pattern: every `c` becomes
      `rep`, every other character stays. */
  function ReplaceAll(s: string, c: char, rep: string): string {
    if s == [] then [] else (if s[0] == c then rep else [s[0]]) + ReplaceAll(s[1..], c, rep)
  }

  // ---------------------------------------------------------------------
  // Lemmas

  /** `TrimStart` leaves the suffix of `s` that starts at its first
      non-space character. */
  lemma {:induction false} TrimStartSpec(s: string)
    ensures var r := TrimStart(s);
      && |r| <= |s| && r == s[|s| - |r|..]
      && (forall i :: 0 <= i < |s| - |r| ==> IsSpace(s[i]))
      && (r == [] || !IsSpace(r[0]))
  {
    if s != [] && IsSpace(s[0]) {
      TrimStartSpec(s[1..]);
      var r := TrimStart(s[1..]);
      assert s[1..][|s| - 1 - |r|..] == s[|s| - |r|..];
    }
  }

  /** `TrimEnd` leaves the prefix of `s` that ends at its last non-space
      character. */
  lemma {:induction false} TrimEndSpec(s: string)
    ensures var r := TrimEnd(s);
      && |r| <= |s| && r == s[..|r|]
      && (forall i :: |r| <= i < |s| ==> IsSpace(s[i]))
      && (r == [] || !IsSpace(r[|r| - 1]))
  {
    if s != [] && IsSpace(s[|s| - 1]) {
      TrimEndSpec(s[..|s| - 1]);
      var r := TrimEnd(s[..|s| - 1]);
      assert s[..|s| - 1][..|r|] == s[..|r|];
    }
  }

  /** `trim` is idempotent. */
  lemma TrimIdempotent(s: string)
    ensures Trim(Trim(s)) == Trim(s)
  {
    var y := TrimStart(s);
    var t := TrimEnd(y);
    TrimStartSpec(s);
    TrimEndSpec(y);
    if t != [] {
      assert t[0] == y[0];
    }
    assert TrimStart(t) == t;
    TrimEndSpec(t);
    if t != [] {
      assert TrimEnd(t) == t;
    }
  }

  lemma LowerIdempotent(s: string)
    ensures Lower(Lower(s)) == Lower(s)
  {
  }

  lemma LowerAppend(x: string, y: string)
    ensures Lower(x + y) == Lower(x) + Lower(y)
  {
  }

  /** Lower-casing never turns a space into a non-space or back. */
  lemma LowerCharSpace(c: char)
    ensures IsSpace(LowerChar(c)) <==> IsSpace(c)
  {
  }

  lemma {:induction false} TrimStartLower(s: string)
    ensures TrimStart(Lower(s)) == Lower(TrimStart(s))
  {
    if s != [] {
      LowerCharSpace(s[0]);
      assert Lower(s)[1..] == Lower(s[1..]);
      TrimStartLower(s[1..]);
    }
  }

  lemma {:induction false} TrimEndLower(s: string)
    ensures TrimEnd(Lower(s)) == Lower(TrimEnd(s))
    decreases |s|
  {
    if s != [] {
      var n := |s|;
      LowerCharSpace(s[n - 1]);
      assert s == s[..n - 1] + [s[n - 1]];
      LowerAppend(s[..n - 1], [s[n - 1]]);
      assert Lower(s)[..n - 1] == Lower(s[..n - 1]);
      TrimEndLower(s[..n - 1]);
    }
  }

  /** Trimming and ASCII lower-casing commute. */
  lemma TrimLower(s: string)
    ensures Trim(Lower(s)) == Lower(Trim(s))
  {
    TrimStartLower(s);
    TrimEndLower(TrimStart(s));
  }

  /** The outcome of `includes` on a text with a known occurrence. */
  lemma ContainsMiddle(x: string, p: string, y: string)
    ensures Contains(x + p + y, p)
  {
    assert OccursAt(x + p + y, p, |x|);
    ContainsIffOccurs(x + p + y, p);
  }

  /** A character-wise replacement distributes over concatenation. */
  lemma {:induction false} ReplaceAllAppend(x: string, y: string, c: char, rep: string)
    ensures ReplaceAll(x + y, c, rep) == ReplaceAll(x, c, rep) + ReplaceAll(y, c, rep)
  {
    if x != [] {
      var head := if x[0] == c then rep else [x[0]];
      assert (x + y)[0] == x[0];
      assert (x + y)[1..] == x[1..] + y;
      ReplaceAllAppend(x[1..], y, c, rep);
      assert ReplaceAll(x + y, c, rep) == head + (ReplaceAll(x[1..], c, rep) + ReplaceAll(y, c, rep));
      assert ReplaceAll(x, c, rep) == head + ReplaceAll(x[1..], c, rep);
    } else {
      assert x + y == y;
    }
  }

  lemma ReplaceAllOne(c: char, d: char, rep: string)
    ensures ReplaceAll([c], d, rep) == if c == d then rep else [c]
  {
    assert [c][1..] == [];
  }

  /** A text without the pattern character is left as it is. */
  lemma {:induction false} ReplaceAllAbsent(s: string, c: char, rep: string)
    requires c !in s
    ensures ReplaceAll(s, c, rep) == s
  {
    if s != [] {
      ReplaceAllAbsent(s[1..], c, rep);
    }
  }

  /** A text includes its own prefix. */
  lemma ContainsFront(p: string, y: string)
    ensures Contains(p + y, p)
  {
    assert (p + y)[..|p|] == p;
  }

  /** An occurrence stays an occurrence behind a prefix. */
  lemma ContainsAfter(pre: string, t: string, p: string)
    requires Contains(t, p)
    ensures Contains(pre + t, p)
  {
    ContainsIffOccurs(t, p);
    var i :| OccursAt(t, p, i);
    assert (pre + t)[|pre| + i..|pre| + i + |p|] == t[i..i + |p|];
    assert OccursAt(pre + t, p, |pre| + i);
    ContainsIffOccurs(pre + t, p);
  }

  /** Every part is found in the joined text. */
  lemma {:induction false} JoinContainsPart(parts: seq<string>, sep: string, k: int)
    requires 0 <= k < |parts|
    ensures Contains(Join(parts, sep), parts[k])
  {
    if |parts| == 1 {
      ContainsFront(parts[0], []);
      assert parts[0] + [] == parts[0];
    } else if k == 0 {
      var rest := sep + Join(parts[1..], sep);
      assert Join(parts, sep) == parts[0] + rest;
      ContainsFront(parts[0], rest);
    } else {
      JoinContainsPart(parts[1..], sep, k - 1);
      ContainsAfter(parts[0] + sep, Join(parts[1..], sep), parts[k]);
    }
  }

  /** A character outside every part and the separator is outside the joined text. */
  lemma {:induction false} JoinExcludes(parts: seq<string>, sep: string, c: char)
    requires forall k :: 0 <= k < |parts| ==> c !in parts[k]
    requires c !in sep
    ensures c !in Join(parts, sep)
  {
    if |parts| > 1 {
      JoinExcludes(parts[1..], sep, c);
    }
  }

  /** Splitting at the first separator of a text. */
  lemma {:induction false} SplitAfter(x: string, c: char, y: string)
    requires c !in x
    ensures Split(x + [c] + y, c) == [x] + Split(y, c)
  {
    if x == [] {
      assert [] + [c] + y == [c] + y;
      assert ([c] + y)[1..] == y;
    } else {
      var s := x + [c] + y;
      assert s[0] == x[0] && s[0] != c;
      assert s[1..] == x[1..] + [c] + y;
      SplitAfter(x[1..], c, y);
      var rest := Split(s[1..], c);
      assert rest == [x[1..]] + Split(y, c);
      assert [x[0]] + x[1..] == x;
    }
  }

  /** A text without the separator splits into itself alone. */
  lemma {:induction false} SplitNone(x: string, c: char)
    requires c !in x
    ensures Split(x, c) == [x]
  {
    if x != [] {
      SplitNone(x[1..], c);
      assert [x[0]] + x[1..] == x;
    }
  }

  /** `split` undoes `join` when no part holds the separator. */
  lemma {:induction false} SplitJoin(parts: seq<string>, c: char)
    requires |parts| >= 1
    requires forall k :: 0 <= k < |parts| ==> c !in parts[k]
    ensures Split(Join(parts, [c]), c) == parts
  {
    if |parts| == 1 {
      SplitNone(parts[0], c);
    } else {
      SplitJoin(parts[1..], c);
      SplitAfter(parts[0], c, Join(parts[1..], [c]));
      assert [parts[0]] + parts[1..] == parts;
    }
  }

  /** A separator splits a text into the pieces before it and the pieces
      after it, whatever either side holds. */
  lemma {:induction false} SplitConcat(x: string, c: char, y: string)
    ensures Split(x + [c] + y, c) == Split(x, c) + Split(y, c)
  {
    var s := x + [c] + y;
    if x == [] {
      assert s == [c] + y;
      assert s[1..] == y;
    } else {
      assert s[0] == x[0];
      assert s[1..] == x[1..] + [c] + y;
      SplitConcat(x[1..], c, y);
      var px, py := Split(x[1..], c), Split(y, c);
      if x[0] == c {
        assert Split(s, c) == [[]] + (px + py);
      } else {
        var rest := px + py;
        assert rest[0] == px[0];
        assert rest[1..] == px[1..] + py;
        assert Split(s, c) == [[x[0]] + px[0]] + (px[1..] + py);
      }
    }
  }
}
