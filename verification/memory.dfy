/**
 * Per-session chat memory (`SessionMemory`): for every non-empty session id, a bounded FIFO of
 * the last `maxTurns` (user, assistant) pairs, flattened on request into alternating chat
 * messages in the `{role, content}` shape the prompt builder reads as history.
 */
module Memory {
  import opened Wrappers
  import opened Text
  import opened Prompt

  /** `_MAX_TURNS_DEFAULT` */
  const DefaultMaxTurns: nat := 5

  /** One stored exchange. */
  datatype Pair = Pair(user: string, assistant: string)

  /** What a `deque(maxlen=max)` holding `s` keeps: its newest `max` entries. */
  function Bounded(s: seq<Pair>, max: nat): seq<Pair> {
    if |s| <= max then s else s[|s| - max..]
  }

  /**
   * Appending to a bounded deque keeps at most `max` entries, ending with the new one, and
   * they are the newest entries in their original order.
   */
  lemma BoundedAppend(dq: seq<Pair>, p: Pair, max: nat)
    ensures var r := Bounded(dq + [p], max);
      && |r| == (if |dq| + 1 <= max then |dq| + 1 else max)
      && (max >= 1 ==> r[|r| - 1] == p)
      && r == (dq + [p])[|dq| + 1 - |r|..]
  {
  }

  /** Appending to a full deque drops exactly its oldest entry. */
  lemma BoundedDropsOldest(dq: seq<Pair>, p: Pair, max: nat)
    requires |dq| == max && max >= 1
    ensures Bounded(dq + [p], max) == dq[1..] + [p]
  {
    assert (dq + [p])[|dq| + 1 - max..] == dq[1..] + [p];
  }

  /** Appending to a deque with room loses nothing. */
  lemma BoundedKeepsAll(dq: seq<Pair>, p: Pair, max: nat)
    requires |dq| < max
    ensures Bounded(dq + [p], max) == dq + [p]
  {
  }

  /** The messages of one pair: the user text, then the assistant text, each only if non-empty. */
  function PairMessages(p: Pair): seq<Turn> {
    (if p.user != "" then [Turn(Some("user"), Some(p.user))] else [])
    + (if p.assistant != "" then [Turn(Some("assistant"), Some(p.assistant))] else [])
  }

  /** The messages of all pairs, in order. */
  function Flatten(pairs: seq<Pair>): seq<Turn>
    decreases |pairs|
  {
    if pairs == [] then []
    else Flatten(pairs[..|pairs| - 1]) + PairMessages(pairs[|pairs| - 1])
  }

  /** `limit_pairs or self.max_turns`: a missing or zero limit falls back to the deque bound. */
  function PairLimit(limitPairs: Option<int>, maxTurns: nat): int {
    if limitPairs.None? || limitPairs.value == 0 then maxTurns else limitPairs.value
  }

  /** `list(dq)[-n:]` with `n` the pair limit. */
  function Recent(dq: seq<Pair>, limitPairs: Option<int>, maxTurns: nat): seq<Pair> {
    Suffix(dq, -PairLimit(limitPairs, maxTurns))
  }

  /** The message loop of `get_history_messages` over the chosen pairs. */
  method FlattenPairs(pairs: seq<Pair>) returns (msgs: seq<Turn>)
    ensures msgs == Flatten(pairs)
  {
    msgs := [];
    var i := 0;
    while i < |pairs|
      invariant 0 <= i <= |pairs|
      invariant msgs == Flatten(pairs[..i])
    {
      FlattenSnoc(pairs, i);
      var u, a := pairs[i].user, pairs[i].assistant;
      ghost var before := msgs;
      if u != "" {
        msgs := msgs + [Turn(Some("user"), Some(u))];
      }
      if a != "" {
        msgs := msgs + [Turn(Some("assistant"), Some(a))];
      }
      assert msgs == before + PairMessages(pairs[i]);
      i := i + 1;
    }
    assert pairs[..i] == pairs;
  }

  lemma FlattenSnoc(pairs: seq<Pair>, i: nat)
    requires i < |pairs|
    ensures Flatten(pairs[..i + 1]) == Flatten(pairs[..i]) + PairMessages(pairs[i])
  {
    assert pairs[..i + 1][..i] == pairs[..i];
  }

  class SessionMemory {
    /** `max_turns`, the bound of every session's deque. */
    const maxTurns: nat
    /** `_store`: the pairs of each session, oldest first. */
    var store: map<string, seq<Pair>>

    /** No session is stored under the empty id, and none holds more than `maxTurns` pairs. */
    ghost predicate Valid()
      reads this
    {
      forall sid :: sid in store ==> sid != "" && |store[sid]| <= maxTurns
    }

    /** The pairs of session `sid`, none when it is unknown. */
    function Turns(sid: string): (ps: seq<Pair>)
      reads this
    {
      if sid in store then store[sid] else []
    }

    constructor (maxTurns: nat)
      ensures Valid() && this.maxTurns == maxTurns && store == map[]
    {
      this.maxTurns := maxTurns;
      store := map[];
    }

    /**
     * `add_turn`: an empty session id changes nothing; otherwise the pair, with a missing text
     * stored as `""`, is appended to the session's deque (created empty if new), which keeps
     * only its newest `maxTurns` pairs. No other session changes.
     */
    method AddTurn(sid: string, user: Option<string>, assistant: Option<string>)
      requires Valid()
      modifies this
      ensures Valid()
      ensures sid == "" ==> store == old(store)
      ensures sid != "" ==>
        store == old(store)[sid := Bounded(old(Turns(sid)) + [Pair(user.GetOr(""), assistant.GetOr(""))], maxTurns)]
    {
      if sid == "" {
        return;
      }
      var dq := if sid in store then store[sid] else [];
      store := store[sid := Bounded(dq + [Pair(user.GetOr(""), assistant.GetOr(""))], maxTurns)];
    }

    /**
     * `get_history_messages`: nothing for an empty or unknown session id; otherwise the
     * messages of the session's most recent pairs, the number of pairs given by `PairLimit`.
     */
    method GetHistoryMessages(sid: string, limitPairs: Option<int>) returns (msgs: seq<Turn>)
      ensures sid == "" || sid !in store ==> msgs == []
      ensures sid != "" && sid in store ==> msgs == Flatten(Recent(store[sid], limitPairs, maxTurns))
    {
      msgs := [];
      if sid == "" || sid !in store {
        return;
      }
      msgs := FlattenPairs(Recent(store[sid], limitPairs, maxTurns));
    }

    /** `clear`: forgets session `sid`, if it is stored, and nothing else. */
    method Clear(sid: string)
      requires Valid()
      modifies this
      ensures Valid()
      ensures store == old(store) - {sid}
    {
      if sid in store {
        store := store - {sid};
      }
    }
  }

  // ---------------------------------------------------------------------------
  // Properties of the history messages
  // ---------------------------------------------------------------------------

  /** A message as the history produces it: a user or assistant role and non-empty text. */
  predicate HistoryMessage(t: Turn) {
    (t.role == Some("user") || t.role == Some("assistant")) && t.content.Some? && t.content.value != ""
  }

  /** Flattening distributes over concatenation. */
  lemma {:induction false} FlattenAppend(a: seq<Pair>, b: seq<Pair>)
    ensures Flatten(a + b) == Flatten(a) + Flatten(b)
    decreases |b|
  {
    if b == [] {
      assert a + b == a;
    } else {
      var b' := b[..|b| - 1];
      assert (a + b)[..|a + b| - 1] == a + b';
      FlattenAppend(a, b');
    }
  }

  /**
   * Each pair gives at most two messages, every one of them a user or assistant message with
   * non-empty text.
   */
  lemma {:induction false} FlattenShape(pairs: seq<Pair>)
    ensures |Flatten(pairs)| <= 2 * |pairs|
    ensures forall k :: 0 <= k < |Flatten(pairs)| ==> HistoryMessage(Flatten(pairs)[k])
    decreases |pairs|
  {
    if pairs != [] {
      var init := pairs[..|pairs| - 1];
      FlattenShape(init);
      var tail := PairMessages(pairs[|pairs| - 1]);
      forall k | 0 <= k < |Flatten(pairs)| ensures HistoryMessage(Flatten(pairs)[k]) {
        if k >= |Flatten(init)| {
          assert Flatten(pairs)[k] == tail[k - |Flatten(init)|];
        } else {
          assert Flatten(pairs)[k] == Flatten(init)[k];
        }
      }
    }
  }

  /** Pairs whose two texts are both non-empty alternate: user, assistant, user, ... */
  predicate Complete(pairs: seq<Pair>) {
    forall j :: 0 <= j < |pairs| ==> pairs[j].user != "" && pairs[j].assistant != ""
  }

  lemma {:induction false} FlattenAlternates(pairs: seq<Pair>)
    requires Complete(pairs)
    ensures |Flatten(pairs)| == 2 * |pairs|
    ensures forall j :: 0 <= j < |pairs| ==>
      && Flatten(pairs)[2 * j] == Turn(Some("user"), Some(pairs[j].user))
      && Flatten(pairs)[2 * j + 1] == Turn(Some("assistant"), Some(pairs[j].assistant))
    decreases |pairs|
  {
    if pairs != [] {
      var n := |pairs| - 1;
      var init := pairs[..n];
      FlattenAlternates(init);
      var p := pairs[n];
      assert PairMessages(p) == [Turn(Some("user"), Some(p.user)), Turn(Some("assistant"), Some(p.assistant))];
      forall j | 0 <= j < |pairs|
        ensures Flatten(pairs)[2 * j] == Turn(Some("user"), Some(pairs[j].user))
        ensures Flatten(pairs)[2 * j + 1] == Turn(Some("assistant"), Some(pairs[j].assistant))
      {
        if j < n {
          assert pairs[j] == init[j];
        }
      }
    }
  }

  /**
   * The history of a session holds at most twice the pair limit, and at most twice the deque
   * bound, of messages when the limit is positive or falls back to the bound.
   */
  lemma HistoryBound(dq: seq<Pair>, limitPairs: Option<int>, maxTurns: nat)
    requires |dq| <= maxTurns
    ensures var n := PairLimit(limitPairs, maxTurns);
      && |Flatten(Recent(dq, limitPairs, maxTurns))| <= 2 * |dq|
      && (n >= 0 ==> |Flatten(Recent(dq, limitPairs, maxTurns))| <= 2 * n)
  {
    FlattenShape(Recent(dq, limitPairs, maxTurns));
  }

  /**
   * A memory with the default bound, asked without a pair limit, hands back at most ten
   * messages: five user and five assistant turns.
   */
  lemma DefaultHistoryBound(dq: seq<Pair>)
    requires |dq| <= DefaultMaxTurns
    ensures |Flatten(Recent(dq, None, DefaultMaxTurns))| <= 2 * DefaultMaxTurns
  {
    HistoryBound(dq, None, DefaultMaxTurns);
  }

  /** The history of a session is the messages of the suffix of its pairs that the limit picks. */
  lemma HistoryIsSuffix(dq: seq<Pair>, limitPairs: Option<int>, maxTurns: nat)
    ensures var r := Recent(dq, limitPairs, maxTurns);
      Flatten(dq) == Flatten(dq[..|dq| - |r|]) + Flatten(r)
  {
    var r := Recent(dq, limitPairs, maxTurns);
    assert dq == dq[..|dq| - |r|] + r;
    FlattenAppend(dq[..|dq| - |r|], r);
  }
}
