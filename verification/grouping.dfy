/**
 * The LINQ queries the three analyzer snapshots run over identifier tokens:
 * `GroupBy(x => x.Lexeme)` (groups keyed by lexeme, in the order in which each
 * lexeme first appears), `g.Count() > 1`, `List.Find` and `g.Last()`.
 */
module Grouping {
  import opened Tokens

  /** The number of tokens carrying `lexeme` (the size of its group). */
  function Occurrences(ids: seq<Token>, lexeme: string): (n: nat)
    ensures n <= |ids|
    ensures n > 0 <==> exists i | 0 <= i < |ids| :: ids[i].lexeme == lexeme
  {
    if ids == [] then 0
    else
      var front := ids[..|ids| - 1];
      assert forall i | 0 <= i < |front| :: front[i] == ids[i];
      Occurrences(front, lexeme) + (if ids[|ids| - 1].lexeme == lexeme then 1 else 0)
  }

  /** The position of the first token carrying `lexeme` (what `List.Find` returns), or -1. */
  function FirstIndexOf(ids: seq<Token>, lexeme: string): (r: int)
    ensures -1 <= r < |ids|
    ensures r == -1 <==> forall k | 0 <= k < |ids| :: ids[k].lexeme != lexeme
    ensures r >= 0 ==> ids[r].lexeme == lexeme && forall k | 0 <= k < r :: ids[k].lexeme != lexeme
  {
    if ids == [] then -1
    else if ids[0].lexeme == lexeme then 0
    else
      var r := FirstIndexOf(ids[1..], lexeme);
      if r == -1 then -1 else r + 1
  }

  /** The position of the last token carrying `lexeme` (the element `g.Last()` picks), or -1. */
  function LastIndexOf(ids: seq<Token>, lexeme: string): (r: int)
    ensures -1 <= r < |ids|
    ensures r == -1 <==> forall k | 0 <= k < |ids| :: ids[k].lexeme != lexeme
    ensures r >= 0 ==> ids[r].lexeme == lexeme && forall k | r < k < |ids| :: ids[k].lexeme != lexeme
  {
    if ids == [] then -1
    else if ids[|ids| - 1].lexeme == lexeme then |ids| - 1
    else LastIndexOf(ids[..|ids| - 1], lexeme)
  }

  /** Appending a token does not move the first occurrence of a lexeme already present. */
  lemma {:induction false} FirstIndexOfSnoc(ids: seq<Token>, t: Token, lexeme: string)
    ensures FirstIndexOf(ids + [t], lexeme) ==
              if FirstIndexOf(ids, lexeme) >= 0 then FirstIndexOf(ids, lexeme)
              else if t.lexeme == lexeme then |ids| else -1
  {
    var s := ids + [t];
    var r := FirstIndexOf(ids, lexeme);
    var q := FirstIndexOf(s, lexeme);
    if r >= 0 {
      assert s[r] == ids[r];
      assert forall k | 0 <= k < r :: s[k] == ids[k];
    } else {
      assert forall k | 0 <= k < |ids| :: s[k] == ids[k];
      assert s[|ids|] == t;
    }
  }

  /** Keys listed in strictly increasing order of first appearance. */
  predicate InFirstAppearanceOrder(keys: seq<string>, ids: seq<Token>)
  {
    forall a, b | 0 <= a < b < |keys| :: FirstIndexOf(ids, keys[a]) < FirstIndexOf(ids, keys[b])
  }

  /** The group keys in the order GroupBy yields them: each lexeme once, ordered by first appearance. */
  function GroupKeys(ids: seq<Token>): (keys: seq<string>)
    ensures forall x :: x in keys <==> FirstIndexOf(ids, x) >= 0
    ensures InFirstAppearanceOrder(keys, ids)
  {
    if ids == [] then []
    else
      var front := ids[..|ids| - 1];
      var t := ids[|ids| - 1];
      var keys := GroupKeys(front);
      GroupKeysStep(front, t, keys);
      assert ids == front + [t];
      if t.lexeme in keys then keys else keys + [t.lexeme]
  }

  /** One more token keeps the keys of the front and adds its lexeme at the end if new. */
  lemma {:induction false} GroupKeysStep(front: seq<Token>, t: Token, keys: seq<string>)
    requires forall x :: x in keys <==> FirstIndexOf(front, x) >= 0
    requires InFirstAppearanceOrder(keys, front)
    ensures var r := if t.lexeme in keys then keys else keys + [t.lexeme];
            && (forall x :: x in r <==> FirstIndexOf(front + [t], x) >= 0)
            && InFirstAppearanceOrder(r, front + [t])
  {
    var ids := front + [t];
    forall x ensures FirstIndexOf(ids, x) ==
                       if FirstIndexOf(front, x) >= 0 then FirstIndexOf(front, x)
                       else if t.lexeme == x then |front| else -1 {
      FirstIndexOfSnoc(front, t, x);
    }
    var r := if t.lexeme in keys then keys else keys + [t.lexeme];
    forall a, b | 0 <= a < b < |r| ensures FirstIndexOf(ids, r[a]) < FirstIndexOf(ids, r[b]) {
      assert r[a] == keys[a] && r[a] in keys;
      if b < |keys| {
        assert r[b] == keys[b] && r[b] in keys;
      } else {
        assert r[b] == t.lexeme && t.lexeme !in keys;
      }
    }
  }

  /** The keys among `keys` whose group has more than one member, in the same order. */
  function RepeatedAmong(keys: seq<string>, ids: seq<Token>): (r: seq<string>)
    ensures |r| <= |keys|
  {
    if keys == [] then []
    else if Occurrences(ids, keys[0]) > 1 then [keys[0]] + RepeatedAmong(keys[1..], ids)
    else RepeatedAmong(keys[1..], ids)
  }

  /** Filtering keeps exactly the keys whose group has more than one member. */
  lemma {:induction false} RepeatedAmongMembers(keys: seq<string>, ids: seq<Token>)
    ensures forall x :: x in RepeatedAmong(keys, ids) <==> x in keys && Occurrences(ids, x) > 1
  {
    if keys != [] {
      RepeatedAmongMembers(keys[1..], ids);
      assert keys == [keys[0]] + keys[1..];
    }
  }

  /** No key of a list ordered by first appearance appears before its head. */
  lemma {:induction false} HeadAppearsFirst(keys: seq<string>, ids: seq<Token>, y: string)
    requires keys != [] && InFirstAppearanceOrder(keys, ids)
    ensures y in keys ==> FirstIndexOf(ids, keys[0]) <= FirstIndexOf(ids, y)
  {
    if y in keys {
      var m :| 0 <= m < |keys| && keys[m] == y;
    }
  }

  /** Filtering keeps a lower bound on the first appearance of every key. */
  lemma {:induction false} RepeatedAmongAfter(keys: seq<string>, ids: seq<Token>, bound: int)
    requires forall m | 0 <= m < |keys| :: bound < FirstIndexOf(ids, keys[m])
    ensures forall m | 0 <= m < |RepeatedAmong(keys, ids)| :: bound < FirstIndexOf(ids, RepeatedAmong(keys, ids)[m])
  {
    if keys != [] {
      var tail := keys[1..];
      assert forall m | 0 <= m < |tail| :: tail[m] == keys[m + 1];
      RepeatedAmongAfter(tail, ids, bound);
      var rest := RepeatedAmong(tail, ids);
      if Occurrences(ids, keys[0]) > 1 {
        var r := [keys[0]] + rest;
        assert RepeatedAmong(keys, ids) == r;
        forall m | 0 <= m < |r| ensures bound < FirstIndexOf(ids, r[m]) {
          if m > 0 {
            assert r[m] == rest[m - 1];
          }
        }
      } else {
        assert RepeatedAmong(keys, ids) == rest;
      }
    }
  }

  /** Putting a key that appears before all of `rest` in front of it keeps the order. */
  lemma {:induction false} ConsKeepsOrder(k: string, rest: seq<string>, ids: seq<Token>)
    requires InFirstAppearanceOrder(rest, ids)
    requires forall m | 0 <= m < |rest| :: FirstIndexOf(ids, k) < FirstIndexOf(ids, rest[m])
    ensures InFirstAppearanceOrder([k] + rest, ids)
  {
    var r := [k] + rest;
    forall a, b | 0 <= a < b < |r| ensures FirstIndexOf(ids, r[a]) < FirstIndexOf(ids, r[b]) {
      assert r[b] == rest[b - 1];
      if a > 0 {
        assert r[a] == rest[a - 1];
      }
    }
  }

  /** Keeping only the repeated keys keeps first-appearance order. */
  lemma {:induction false} RepeatedAmongKeepsOrder(keys: seq<string>, ids: seq<Token>)
    requires InFirstAppearanceOrder(keys, ids)
    ensures InFirstAppearanceOrder(RepeatedAmong(keys, ids), ids)
  {
    if keys != [] {
      var tail := keys[1..];
      assert forall m | 0 <= m < |tail| :: tail[m] == keys[m + 1];
      RepeatedAmongKeepsOrder(tail, ids);
      if Occurrences(ids, keys[0]) > 1 {
        RepeatedAmongAfter(tail, ids, FirstIndexOf(ids, keys[0]));
        ConsKeepsOrder(keys[0], RepeatedAmong(tail, ids), ids);
      }
    }
  }

  /** `GroupBy(x => x.Lexeme).Where(g => g.Count() > 1).Select(g => g.Key)`. */
  function RepeatedKeys(ids: seq<Token>): (r: seq<string>)
    ensures forall x :: x in r <==> Occurrences(ids, x) > 1
    ensures InFirstAppearanceOrder(r, ids)
  {
    var keys := GroupKeys(ids);
    assert forall x | Occurrences(ids, x) > 1 :: x in keys;
    RepeatedAmongMembers(keys, ids);
    RepeatedAmongKeepsOrder(keys, ids);
    RepeatedAmong(keys, ids)
  }

  /** No two identifier tokens share a lexeme. */
  predicate Distinct(ids: seq<Token>)
  {
    forall i, j | 0 <= i < j < |ids| :: ids[i].lexeme != ids[j].lexeme
  }

  /** Position `i` holds a lexeme that occurs again somewhere else. */
  predicate HasPartner(ids: seq<Token>, i: int)
    requires 0 <= i < |ids|
  {
    exists j | 0 <= j < |ids| :: j != i && ids[j].lexeme == ids[i].lexeme
  }

  /** Position `i` is the earliest position whose lexeme is repeated. */
  predicate FirstRepeatedAt(ids: seq<Token>, i: int)
  {
    0 <= i < |ids| && HasPartner(ids, i) && forall k | 0 <= k < i :: !HasPartner(ids, k)
  }

  /** A group has more than one member exactly when two positions carry its key. */
  lemma {:induction false} RepeatedIffTwoPositions(ids: seq<Token>, x: string)
    ensures Occurrences(ids, x) > 1 <==>
              exists i, j | 0 <= i < j < |ids| :: ids[i].lexeme == x && ids[j].lexeme == x
  {
    if ids != [] {
      var front := ids[..|ids| - 1];
      var n := |ids| - 1;
      RepeatedIffTwoPositions(front, x);
      assert forall i | 0 <= i < |front| :: front[i] == ids[i];
      if Occurrences(ids, x) > 1 {
        if Occurrences(front, x) > 1 {
          var i, j :| 0 <= i < j < |front| && front[i].lexeme == x && front[j].lexeme == x;
          assert ids[i].lexeme == x && ids[j].lexeme == x;
        } else {
          assert ids[n].lexeme == x && Occurrences(front, x) > 0;
          var i :| 0 <= i < |front| && front[i].lexeme == x;
          assert ids[i].lexeme == x;
        }
      }
    }
  }

  /** Some group is repeated exactly when the lexemes are not pairwise distinct. */
  lemma {:induction false} RepeatedKeysNonEmptyIffNotDistinct(ids: seq<Token>)
    ensures |RepeatedKeys(ids)| > 0 <==> !Distinct(ids)
  {
    var r := RepeatedKeys(ids);
    if |r| > 0 {
      RepeatedIffTwoPositions(ids, r[0]);
    }
    if !Distinct(ids) {
      var i, j :| 0 <= i < j < |ids| && ids[i].lexeme == ids[j].lexeme;
      RepeatedIffTwoPositions(ids, ids[i].lexeme);
      assert ids[i].lexeme in r;
    }
  }

  /** The first repeated group in GroupBy order is the one whose first member is the
      earliest position that has a partner. */
  lemma {:induction false} FirstRepeatedKey(ids: seq<Token>)
    requires |RepeatedKeys(ids)| > 0
    ensures FirstRepeatedAt(ids, FirstIndexOf(ids, RepeatedKeys(ids)[0]))
  {
    var r := RepeatedKeys(ids);
    var x := r[0];
    var i0 := FirstIndexOf(ids, x);
    RepeatedIffTwoPositions(ids, x);
    var i, j :| 0 <= i < j < |ids| && ids[i].lexeme == x && ids[j].lexeme == x;
    assert HasPartner(ids, i0) by {
      if i != i0 { assert ids[i].lexeme == ids[i0].lexeme; } else { assert ids[j].lexeme == ids[i0].lexeme; }
    }
    forall k | 0 <= k < i0 ensures !HasPartner(ids, k) {
      PartnerMeansRepeated(ids, k);
      HeadAppearsFirst(r, ids, ids[k].lexeme);
    }
  }

  /** A position with a partner belongs to a group with more than one member. */
  lemma {:induction false} PartnerMeansRepeated(ids: seq<Token>, k: int)
    requires 0 <= k < |ids|
    ensures HasPartner(ids, k) ==> Occurrences(ids, ids[k].lexeme) > 1
  {
    RepeatedIffTwoPositions(ids, ids[k].lexeme);
    if HasPartner(ids, k) {
      var j :| 0 <= j < |ids| && j != k && ids[j].lexeme == ids[k].lexeme;
      if j < k {
        assert ids[j].lexeme == ids[k].lexeme;
      } else {
        assert ids[k].lexeme == ids[j].lexeme;
      }
    }
  }
}
