/**
 * Region slicing of Language/Filter.cs: the declaration region lies between the
 * `var` keyword and the first `begin`, the body between the first `begin` and the
 * last `end`. The C# code copies the slice into a fresh array; here the slice is a
 * sequence value, so the input is untouched by construction.
 */
module Filter {
  import opened Wrappers
  import opened Tokens
  import opened Lang

  /** No token of kind `id`. */
  predicate KindsAbsent(tokens: seq<Token>, id: int)
  {
    forall k | 0 <= k < |tokens| :: tokens[k].id != id
  }

  /** No token of kind `id` before position `end`. */
  predicate KindsAbsentBefore(tokens: seq<Token>, id: int, end: int)
  {
    forall k | 0 <= k < end && k < |tokens| :: tokens[k].id != id
  }

  /** No token of kind `id` after position `start`. */
  predicate KindsAbsentAfter(tokens: seq<Token>, id: int, start: int)
  {
    forall k | 0 <= k && start < k < |tokens| :: tokens[k].id != id
  }

  /** Array.FindIndex: the first position holding kind `id`, or -1. */
  function FindIndex(tokens: seq<Token>, id: int): (r: int)
    ensures -1 <= r < |tokens|
    ensures r == -1 <==> KindsAbsent(tokens, id)
    ensures r >= 0 ==> tokens[r].id == id && KindsAbsentBefore(tokens, id, r)
  {
    FindIndexFrom(tokens, id, 0)
  }

  /** The search loop of Array.FindIndex, from position `from` upwards. */
  function FindIndexFrom(tokens: seq<Token>, id: int, from: nat): (r: int)
    requires from <= |tokens|
    ensures r == -1 || from <= r < |tokens|
    ensures r == -1 <==> forall k | from <= k < |tokens| :: tokens[k].id != id
    ensures r >= 0 ==> tokens[r].id == id && (forall k | from <= k < r :: tokens[k].id != id)
    decreases |tokens| - from
  {
    if from == |tokens| then -1
    else if tokens[from].id == id then from
    else FindIndexFrom(tokens, id, from + 1)
  }

  /** Array.FindLastIndex: the last position holding kind `id`, or -1. */
  function FindLastIndex(tokens: seq<Token>, id: int): (r: int)
    ensures -1 <= r < |tokens|
    ensures r == -1 <==> KindsAbsent(tokens, id)
    ensures r >= 0 ==> tokens[r].id == id && KindsAbsentAfter(tokens, id, r)
  {
    FindLastIndexBelow(tokens, id, |tokens|)
  }

  /** The search loop of Array.FindLastIndex, from position `limit - 1` downwards. */
  function FindLastIndexBelow(tokens: seq<Token>, id: int, limit: nat): (r: int)
    requires limit <= |tokens|
    ensures -1 <= r < limit
    ensures r == -1 <==> forall k | 0 <= k < limit :: tokens[k].id != id
    ensures r >= 0 ==> tokens[r].id == id && (forall k | r < k < limit :: tokens[k].id != id)
    decreases limit
  {
    if limit == 0 then -1
    else if tokens[limit - 1].id == id then limit - 1
    else FindLastIndexBelow(tokens, id, limit - 1)
  }

  /** The tokens strictly between positions `first` and `last`: the array of size
      `last - first - 1` copied from `first + 1`, whose size is negative when `last`
      does not come after `first`. */
  function Region(tokens: seq<Token>, first: int, last: int): (r: Result<seq<Token>, Error>)
    requires -1 <= first < |tokens| && -1 <= last < |tokens|
    ensures r.Success? <==> first < last
    ensures r.Failure? ==> r.error == NegativeArraySize
    ensures r.Success? ==> |r.value| == last - first - 1
    ensures r.Success? ==> forall k | 0 <= k < |r.value| :: r.value[k] == tokens[first + 1 + k]
  {
    if last - first - 1 < 0 then Failure(NegativeArraySize)
    else Success(tokens[first + 1 .. last])
  }

  /** The declaration region: the tokens after the first `var` and before the first `begin`.
      A `begin` that precedes the `var`, or a missing `begin`, makes the array size negative. */
  function GetVarTokens(tokens: seq<Token>): (r: Result<seq<Token>, Error>)
    ensures r.Success? <==> FindIndex(tokens, VarKeyword) < FindIndex(tokens, BeginKeyword)
    ensures r.Failure? ==> r.error == NegativeArraySize
    ensures r.Success? ==> |r.value| == FindIndex(tokens, BeginKeyword) - FindIndex(tokens, VarKeyword) - 1
    ensures r.Success? ==> forall k | 0 <= k < |r.value| ::
                             r.value[k] == tokens[FindIndex(tokens, VarKeyword) + 1 + k]
  {
    Region(tokens, FindIndex(tokens, VarKeyword), FindIndex(tokens, BeginKeyword))
  }

  /** The body region: the tokens after the first `begin` and before the last `end`. */
  function GetBodyTokens(tokens: seq<Token>): (r: Result<seq<Token>, Error>)
    ensures r.Success? <==> FindIndex(tokens, BeginKeyword) < FindLastIndex(tokens, EndKeyword)
    ensures r.Failure? ==> r.error == NegativeArraySize
    ensures r.Success? ==> |r.value| == FindLastIndex(tokens, EndKeyword) - FindIndex(tokens, BeginKeyword) - 1
    ensures r.Success? ==> forall k | 0 <= k < |r.value| ::
                             r.value[k] == tokens[FindIndex(tokens, BeginKeyword) + 1 + k]
  {
    Region(tokens, FindIndex(tokens, BeginKeyword), FindLastIndex(tokens, EndKeyword))
  }

  /** FindIndex looks past a prefix that lacks the kind. */
  lemma {:induction false} FindIndexAfter(pre: seq<Token>, rest: seq<Token>, id: int)
    requires KindsAbsent(pre, id)
    ensures FindIndex(pre + rest, id) == if FindIndex(rest, id) == -1 then -1 else |pre| + FindIndex(rest, id)
  {
    var r := FindIndex(rest, id);
    var s := pre + rest;
    if r >= 0 {
      assert s[|pre| + r] == rest[r];
      forall k | 0 <= k < |pre| + r ensures s[k].id != id {
        if k >= |pre| { assert s[k] == rest[k - |pre|]; }
      }
    } else {
      forall k | 0 <= k < |s| ensures s[k].id != id {
        if k >= |pre| { assert s[k] == rest[k - |pre|]; }
      }
    }
  }

  /** FindLastIndex looks before a suffix that lacks the kind. */
  lemma {:induction false} FindLastIndexBefore(front: seq<Token>, post: seq<Token>, id: int)
    requires KindsAbsent(post, id)
    ensures FindLastIndex(front + post, id) == FindLastIndex(front, id)
  {
    var s := front + post;
    var r := FindLastIndex(front, id);
    forall k | |front| <= k < |s| ensures s[k].id != id {
      assert s[k] == post[k - |front|];
    }
    if r >= 0 {
      assert s[r] == front[r];
      forall k | r < k < |front| ensures s[k].id != id {
        assert s[k] == front[k];
      }
    } else {
      forall k | 0 <= k < |front| ensures s[k].id != id {
        assert s[k] == front[k];
      }
    }
  }

  /** A declaration region written `var decls begin ...` is sliced to exactly `decls`. */
  lemma {:induction false} DeclarationSliceOfProgram(pre: seq<Token>, v: Token, decls: seq<Token>, b: Token, rest: seq<Token>)
    requires v.id == VarKeyword && b.id == BeginKeyword
    requires KindsAbsent(pre, VarKeyword) && KindsAbsent(pre, BeginKeyword)
    requires KindsAbsent(decls, BeginKeyword)
    ensures GetVarTokens(pre + [v] + decls + [b] + rest) == Success(decls)
  {
    var tokens := pre + [v] + decls + [b] + rest;
    FindIndexAt(pre, v, decls + [b] + rest, VarKeyword);
    assert pre + [v] + (decls + [b] + rest) == tokens;
    KindsAbsentConcat(pre, [v], BeginKeyword);
    KindsAbsentConcat(pre + [v], decls, BeginKeyword);
    FindIndexAt(pre + [v] + decls, b, rest, BeginKeyword);
    MiddleSlice(pre + [v], decls, [b] + rest);
    assert (pre + [v]) + decls + ([b] + rest) == tokens;
  }

  /** A program written `... begin body end post` with no `end` in `post` and no `begin`
      before the first one has exactly `body` as its body slice, even when the body
      holds further `begin`/`end` tokens. */
  lemma {:induction false} BodySliceOfProgram(pre: seq<Token>, b: Token, body: seq<Token>, e: Token, post: seq<Token>)
    requires b.id == BeginKeyword && e.id == EndKeyword
    requires KindsAbsent(pre, BeginKeyword)
    requires KindsAbsent(post, EndKeyword)
    ensures GetBodyTokens(pre + [b] + body + [e] + post) == Success(body)
  {
    var tokens := pre + [b] + body + [e] + post;
    FindIndexAt(pre, b, body + [e] + post, BeginKeyword);
    assert pre + [b] + (body + [e] + post) == tokens;
    FindLastIndexAt(pre + [b] + body, e, post, EndKeyword);
    MiddleSlice(pre + [b], body, [e] + post);
    assert (pre + [b]) + body + ([e] + post) == tokens;
  }

  /** The kind is absent from a concatenation when it is absent from both parts. */
  lemma {:induction false} KindsAbsentConcat(a: seq<Token>, c: seq<Token>, id: int)
    requires KindsAbsent(a, id) && KindsAbsent(c, id)
    ensures KindsAbsent(a + c, id)
  {
    var s := a + c;
    forall k | 0 <= k < |s| ensures s[k].id != id {
      if k < |a| { assert s[k] == a[k]; } else { assert s[k] == c[k - |a|]; }
    }
  }

  /** The first token of kind `id` after a prefix without it. */
  lemma {:induction false} FindIndexAt(pre: seq<Token>, t: Token, rest: seq<Token>, id: int)
    requires KindsAbsent(pre, id) && t.id == id
    ensures FindIndex(pre + [t] + rest, id) == |pre|
  {
    assert pre + [t] + rest == pre + ([t] + rest);
    FindIndexAfter(pre, [t] + rest, id);
    assert ([t] + rest)[0] == t;
  }

  /** The last token of kind `id` before a suffix without it. */
  lemma {:induction false} FindLastIndexAt(front: seq<Token>, t: Token, post: seq<Token>, id: int)
    requires KindsAbsent(post, id) && t.id == id
    ensures FindLastIndex(front + [t] + post, id) == |front|
  {
    FindLastIndexBefore(front + [t], post, id);
    assert (front + [t])[|front|] == t;
  }

  /** The middle part of a three-part concatenation is sliced back out at its offsets. */
  lemma {:induction false} MiddleSlice(a: seq<Token>, m: seq<Token>, c: seq<Token>)
    ensures (a + m + c)[|a| .. |a| + |m|] == m
  {
    var s := a + m + c;
    forall k | 0 <= k < |m| ensures s[|a| .. |a| + |m|][k] == m[k] {
      assert s[|a| + k] == m[k];
    }
  }

  /** Neither slice contains its boundary tokens, and the declaration slice holds no `begin`. */
  lemma {:induction false} BoundariesExcluded(tokens: seq<Token>)
    ensures GetVarTokens(tokens).Success? ==>
              forall t | t in GetVarTokens(tokens).value :: t.id != BeginKeyword
    ensures GetVarTokens(tokens).Success? && FindIndex(tokens, VarKeyword) >= 0 ==>
              |GetVarTokens(tokens).value| < |tokens| - 1
    ensures GetBodyTokens(tokens).Success? ==>
              FindIndex(tokens, BeginKeyword) >= 0 || FindLastIndex(tokens, EndKeyword) >= 0
  {
  }

  /** Without a `begin` the declaration slice cannot be taken. */
  lemma {:induction false} NoBeginNoDeclarations(tokens: seq<Token>)
    requires KindsAbsent(tokens, BeginKeyword)
    ensures GetVarTokens(tokens) == Failure(NegativeArraySize)
  {
  }
}
