/** `dedupedFetch` (api/comman/core.ts) as a state machine. The module-wide map
    from key to in-flight promise becomes `inFlight`, each promise is named by
    the number of the `fn` invocation that produced it, and the asynchronous
    world is reduced to two events: a caller calls `dedupedFetch(key, fn)`,
    or the promise of some invocation settles (fulfilled or rejected), which
    runs the `finally` handler that deletes its key. */
module Dedup {

  /** Names the promise produced by the n-th invocation of an `fn`. */
  type ReqId = nat

  datatype Outcome = Fulfilled | Rejected

  /** The key map, the number of `fn` invocations so far, and the invocations
      whose promises have not settled yet. */
  datatype State = State(inFlight: map<string, ReqId>, invocations: nat, pending: set<ReqId>)

  /** What a call hands back: the promise already stored under the key, the
      promise of the invocation it just started, or (when `fn` threw before
      returning a promise) a rejection that no other caller shares. */
  datatype Reply = Joined(id: ReqId) | Started(id: ReqId) | Threw {
    function Promise(): ReqId
      requires !Threw?
    {
      match this
      case Joined(id) => id
      case Started(id) => id
    }
  }

  datatype Event = Call(key: string, fnThrows: bool) | Settle(id: ReqId, outcome: Outcome)

  const Init: State := State(map[], 0, {})

  /** The well-formedness every reachable state keeps: stored promises come
      from past invocations, no promise is stored under two keys, and a key
      is stored exactly while its promise is unsettled. */
  ghost predicate Valid(s: State) {
    && (forall k :: k in s.inFlight ==> s.inFlight[k] < s.invocations)
    && (forall k1, k2 :: k1 in s.inFlight && k2 in s.inFlight && k1 != k2 ==> s.inFlight[k1] != s.inFlight[k2])
    && s.inFlight.Values == s.pending
  }

  /** `dedupedFetch(key, fn)`: a stored key is answered from the map without
      invoking `fn`; otherwise `fn` runs once, and its promise is stored under
      `key` alone unless `fn` threw synchronously, in which case nothing is
      stored. Entries for other keys never change. */
  function CallStep(s: State, key: string, fnThrows: bool): (res: (State, Reply))
    ensures key in s.inFlight ==> res == (s, Joined(s.inFlight[key]))
    ensures key !in s.inFlight ==> res.0.invocations == s.invocations + 1
    ensures key !in s.inFlight && !fnThrows ==>
      && res.1 == Started(s.invocations)
      && key in res.0.inFlight && res.0.inFlight[key] == s.invocations
      && res.0.pending == s.pending + {s.invocations}
    ensures key !in s.inFlight && fnThrows ==>
      res.1 == Threw && key !in res.0.inFlight && res.0.pending == s.pending
    ensures forall k :: k != key ==> (k in res.0.inFlight <==> k in s.inFlight)
    ensures forall k :: k != key && k in s.inFlight ==> res.0.inFlight[k] == s.inFlight[k]
  {
    if key in s.inFlight then (s, Joined(s.inFlight[key]))
    else if fnThrows then (State(s.inFlight, s.invocations + 1, s.pending), Threw)
    else
      var id := s.invocations;
      (State(s.inFlight[key := id], s.invocations + 1, s.pending + {id}), Started(id))
  }

  /** Settlement of promise `id`, either way: the `finally` handler deletes the
      key that stored it and nothing else. Like `finally`, it never looks at
      the outcome, so a rejection cleans up exactly as a fulfilment does. */
  function SettleStep(s: State, id: ReqId, outcome: Outcome): (s': State)
    ensures s'.invocations == s.invocations
    ensures s'.pending == s.pending - {id}
    ensures forall k :: k in s'.inFlight <==> k in s.inFlight && s.inFlight[k] != id
    ensures forall k :: k in s'.inFlight ==> s'.inFlight[k] == s.inFlight[k]
  {
    var m := map k | k in s.inFlight && s.inFlight[k] != id :: s.inFlight[k];
    State(m, s.invocations, s.pending - {id})
  }

  function Step(s: State, e: Event): State {
    match e
    case Call(key, fnThrows) => CallStep(s, key, fnThrows).0
    case Settle(id, outcome) => SettleStep(s, id, outcome)
  }

  /** The replies an event hands out: one for a call, none for a settlement. */
  function RepliesOf(s: State, e: Event): seq<Reply> {
    match e
    case Call(key, fnThrows) => [CallStep(s, key, fnThrows).1]
    case Settle(_, _) => []
  }

  /** The state after a sequence of events, and the reply of every call in it. */
  function Run(s: State, events: seq<Event>): (State, seq<Reply>)
    decreases |events|
  {
    if |events| == 0 then (s, [])
    else
      var rest := Run(Step(s, events[0]), events[1..]);
      (rest.0, RepliesOf(s, events[0]) + rest.1)
  }

  lemma RunCons(s: State, e: Event, rest: seq<Event>)
    ensures Run(s, [e] + rest) == (Run(Step(s, e), rest).0, RepliesOf(s, e) + Run(Step(s, e), rest).1)
  {
    assert ([e] + rest)[1..] == rest;
  }

  lemma StepPreservesValid(s: State, e: Event)
    requires Valid(s)
    ensures Valid(Step(s, e))
  {
    match e
    case Call(key, fnThrows) =>
      var s' := Step(s, e);
      if key !in s.inFlight && !fnThrows {
        assert s'.inFlight == s.inFlight[key := s.invocations];
        assert s'.inFlight.Values == s.inFlight.Values + {s.invocations};
      }
    case Settle(id, outcome) =>
      var s' := Step(s, e);
      forall v | v in s.pending - {id}
        ensures v in s'.inFlight.Values
      {
        var k :| k in s.inFlight && s.inFlight[k] == v;
        assert k in s'.inFlight;
      }
  }

  /** Every state reachable from the empty map is well formed. */
  lemma {:induction false} RunPreservesValid(s: State, events: seq<Event>)
    requires Valid(s)
    ensures Valid(Run(s, events).0)
    decreases |events|
  {
    if |events| > 0 {
      StepPreservesValid(s, events[0]);
      RunPreservesValid(Step(s, events[0]), events[1..]);
    }
  }

  lemma InitValid()
    ensures Valid(Init)
  {
  }

  /** `n` calls under one key with no settlement in between. */
  function Repeat(key: string, n: nat): (events: seq<Event>)
    ensures |events| == n
    ensures forall i :: 0 <= i < n ==> events[i] == Call(key, false)
  {
    if n == 0 then [] else [Call(key, false)] + Repeat(key, n - 1)
  }

  /** Concurrent callers collapse: however many calls share a key before its
      promise settles, `fn` runs at most once (once if the key was free), and
      every caller holds the same promise, so all observe the same outcome. */
  lemma {:induction false} ConcurrentCallsCollapse(s: State, key: string, n: nat)
    requires n > 0
    ensures var (s', replies) := Run(s, Repeat(key, n));
      && s'.invocations == s.invocations + (if key in s.inFlight then 0 else 1)
      && key in s'.inFlight
      && s'.inFlight[key] == (if key in s.inFlight then s.inFlight[key] else s.invocations)
      && |replies| == n
      && (forall i :: 0 <= i < n ==> !replies[i].Threw? && replies[i].Promise() == s'.inFlight[key])
      && (key !in s.inFlight ==> replies[0] == Started(s.invocations))
      && (forall i :: 0 < i < n ==> replies[i].Joined?)
    decreases n
  {
    var s1 := Step(s, Call(key, false));
    assert Repeat(key, n) == [Call(key, false)] + Repeat(key, n - 1);
    RunCons(s, Call(key, false), Repeat(key, n - 1));
    if n > 1 {
      ConcurrentCallsCollapse(s1, key, n - 1);
    }
  }

  /** Different keys never collapse: two calls under two free keys invoke
      `fn` twice and hand out two different promises. */
  lemma KeysAreIsolated(s: State, k1: string, k2: string)
    requires k1 != k2 && k1 !in s.inFlight && k2 !in s.inFlight
    ensures var (s', replies) := Run(s, [Call(k1, false), Call(k2, false)]);
      && s'.invocations == s.invocations + 2
      && replies == [Started(s.invocations), Started(s.invocations + 1)]
      && k1 in s'.inFlight && k2 in s'.inFlight
      && s'.inFlight[k1] != s'.inFlight[k2]
  {
    var s1 := Step(s, Call(k1, false));
    RunCons(s, Call(k1, false), [Call(k2, false)]);
    RunCons(s1, Call(k2, false), []);
    assert [Call(k1, false), Call(k2, false)] == [Call(k1, false)] + [Call(k2, false)];
    assert [Call(k2, false)] == [Call(k2, false)] + [];
  }

  /** Once a promise settles its key is free again: the next call under it
      invokes `fn` anew and gets a fresh promise, not the settled one. */
  lemma SettledKeyRestarts(s: State, key: string, outcome: Outcome)
    requires Valid(s) && key in s.inFlight
    ensures var id := s.inFlight[key];
      var (s', replies) := Run(s, [Settle(id, outcome), Call(key, false)]);
      && s'.invocations == s.invocations + 1
      && replies == [Started(s.invocations)]
      && s.invocations != id
  {
    var id := s.inFlight[key];
    var s1 := Step(s, Settle(id, outcome));
    RunCons(s, Settle(id, outcome), [Call(key, false)]);
    RunCons(s1, Call(key, false), []);
    assert [Settle(id, outcome), Call(key, false)] == [Settle(id, outcome)] + [Call(key, false)];
    assert [Call(key, false)] == [Call(key, false)] + [];
  }

  /** A synchronous throw from `fn` leaves no entry behind: the next call
      under the key invokes `fn` again. */
  lemma ThrowLeavesNoEntry(s: State, key: string)
    requires key !in s.inFlight
    ensures var (s', replies) := Run(s, [Call(key, true), Call(key, false)]);
      && replies == [Threw, Started(s.invocations + 1)]
      && s'.invocations == s.invocations + 2
  {
    var s1 := Step(s, Call(key, true));
    RunCons(s, Call(key, true), [Call(key, false)]);
    RunCons(s1, Call(key, false), []);
    assert [Call(key, true), Call(key, false)] == [Call(key, true)] + [Call(key, false)];
    assert [Call(key, false)] == [Call(key, false)] + [];
  }
}
