/**
  The timed lock: SET key token NX PX ttl, the protected body, and the compare-and-delete
  script.  A body is on record from the moment its SET succeeded until its `finally` block;
  its release may run later, or never.  Tokens are fresh, as random UUIDs are taken to be.
*/
module RedisLock {

  type Key = string
  type Token = string
  type Instant = int // milliseconds

  datatype Entry = Entry(token: Token, expiresAt: Instant)

  datatype Body = Body(key: Key, acquiredAt: Instant, ttl: nat)

  datatype State = State(
    entries: map<Key, Entry>,
    bodies: map<Token, Body>,
    releasing: map<Token, Key>,
    used: set<Token>,
    now: Instant)

  datatype Action =
    | Tick(to: Instant)
    | Acquire(token: Token, key: Key, ttl: nat)
    | AcquireReplyLost(token: Token, key: Key, ttl: nat) // SET took effect, the worker gives up
    | Leave(token: Token)                                // the body ends, the release is sent
    | Release(token: Token)                              // the script runs
    | Crash(token: Token)

  // An entry lives up to and including its expiry time.
  predicate Live(s: State, key: Key) {
    key in s.entries && s.now <= s.entries[key].expiresAt
  }

  predicate Free(s: State, key: Key, token: Token) {
    !Live(s, key) && token !in s.used
  }

  function Step(s: State, action: Action): State {
    match action
    case Tick(to) => s.(now := if to > s.now then to else s.now)
    case Acquire(token, key, ttl) =>
      if Free(s, key, token) then
        s.(entries := s.entries[key := Entry(token, s.now + ttl)],
           bodies := s.bodies[token := Body(key, s.now, ttl)], used := s.used + {token})
      else s
    case AcquireReplyLost(token, key, ttl) =>
      if Free(s, key, token) then
        s.(entries := s.entries[key := Entry(token, s.now + ttl)], used := s.used + {token})
      else s
    case Leave(token) =>
      if token in s.bodies then
        s.(bodies := s.bodies - {token}, releasing := s.releasing[token := s.bodies[token].key])
      else s
    case Release(token) =>
      if token in s.releasing then
        var key := s.releasing[token];
        var deleted := if Live(s, key) && s.entries[key].token == token then s.entries - {key} else s.entries;
        s.(entries := deleted, releasing := s.releasing - {token})
      else s
    case Crash(token) => s.(bodies := s.bodies - {token}, releasing := s.releasing - {token})
  }

  function Run(s: State, actions: seq<Action>): State {
    if actions == [] then s else Step(Run(s, actions[..|actions| - 1]), actions[|actions| - 1])
  }

  lemma RunStep(s: State, actions: seq<Action>, action: Action)
    ensures Run(s, actions + [action]) == Step(Run(s, actions), action)
  {
    assert (actions + [action])[..|actions|] == actions;
  }

  function Idle(now: Instant): State {
    State(map[], map[], map[], {}, now)
  }

  predicate Expired(body: Body, now: Instant) {
    body.acquiredAt + body.ttl < now
  }

  // A body that has not outlived its time still has its entry.
  predicate Protected(s: State, token: Token)
    requires token in s.bodies
  {
    var body := s.bodies[token];
    && body.acquiredAt <= s.now
    && token in s.used && token !in s.releasing
    && (Expired(body, s.now) ||
        (body.key in s.entries && s.entries[body.key] == Entry(token, body.acquiredAt + body.ttl)))
  }

  // One of two bodies on the same key started only after the other's time was over.
  predicate Apart(a: Body, b: Body) {
    a.key == b.key ==> Expired(a, b.acquiredAt) || Expired(b, a.acquiredAt)
  }

  predicate Inv(s: State) {
    && (forall t :: t in s.bodies ==> Protected(s, t))
    && (forall t, u :: t in s.bodies && u in s.bodies && t != u ==> Apart(s.bodies[t], s.bodies[u]))
    && (forall t :: t in s.releasing ==> t in s.used)
    && (forall k :: k in s.entries ==> s.entries[k].token in s.used)
  }

  lemma AcquireKeepsInv(s: State, token: Token, key: Key, ttl: nat)
    requires Inv(s)
    ensures Inv(Step(s, Acquire(token, key, ttl)))
  {
    if Free(s, key, token) {
      var s' := Step(s, Acquire(token, key, ttl));
      forall t | t in s.bodies
        ensures Protected(s', t) && Apart(s.bodies[t], s'.bodies[token])
      {
        assert Protected(s, t);
      }
    }
  }

  // Steps that start no body.
  lemma OtherStepKeepsInv(s: State, action: Action)
    requires Inv(s) && !action.Acquire?
    ensures Inv(Step(s, action))
  {
    hide Apart;
    var s' := Step(s, action);
    assert forall t :: t in s'.bodies ==> t in s.bodies && s'.bodies[t] == s.bodies[t];
    forall t | t in s'.bodies
      ensures Protected(s', t)
    {
      assert Protected(s, t);
    }
  }

  lemma StepKeepsInv(s: State, action: Action)
    requires Inv(s)
    ensures Inv(Step(s, action))
  {
    hide *;
    match action {
      case Acquire(token, key, ttl) => AcquireKeepsInv(s, token, key, ttl);
      case _ => OtherStepKeepsInv(s, action);
    }
  }

  lemma {:induction false} RunKeepsInv(s: State, actions: seq<Action>)
    requires Inv(s)
    ensures Inv(Run(s, actions))
  {
    if actions != [] {
      RunKeepsInv(s, actions[..|actions| - 1]);
      StepKeepsInv(Run(s, actions[..|actions| - 1]), actions[|actions| - 1]);
    }
  }

  /** On every timed run: if two bodies for one key run at once, the earlier one had held the
      lock for longer than its time to live before the later one got it. */
  lemma OverlapMeansOverstay(now: Instant, actions: seq<Action>, earlier: Token, later: Token)
    requires var s := Run(Idle(now), actions);
             && earlier in s.bodies && later in s.bodies && earlier != later
             && s.bodies[earlier].key == s.bodies[later].key
             && s.bodies[earlier].acquiredAt <= s.bodies[later].acquiredAt
    ensures var s := Run(Idle(now), actions);
            s.bodies[later].acquiredAt - s.bodies[earlier].acquiredAt > s.bodies[earlier].ttl
  {
    RunKeepsInv(Idle(now), actions);
  }

  /** A body within its time is alone on its key, and cannot be joined. */
  lemma AloneWithinTtl(now: Instant, actions: seq<Action>, token: Token, other: Token, ttl: nat)
    requires token in Run(Idle(now), actions).bodies && other != token
    requires var s := Run(Idle(now), actions); !Expired(s.bodies[token], s.now)
    ensures var s := Run(Idle(now), actions);
            var body := s.bodies[token];
            && Step(s, Acquire(other, body.key, ttl)) == s
            && (other in s.bodies && s.bodies[other].key == body.key ==> s.bodies[other].acquiredAt < body.acquiredAt)
  {
    RunKeepsInv(Idle(now), actions);
    assert Protected(Run(Idle(now), actions), token);
  }

  /** The release removes the releasing worker's own entry or nothing: whoever holds a key by
      then keeps it. */
  lemma ReleaseSparesOthers(now: Instant, actions: seq<Action>, token: Token, holder: Token)
    requires holder in Run(Idle(now), actions).bodies
    ensures var s := Run(Idle(now), actions);
            var s' := Step(s, Release(token));
            var key := s.bodies[holder].key;
            && s'.bodies == s.bodies
            && (key in s.entries && s.entries[key].token == holder ==>
               key in s'.entries && s'.entries[key] == s.entries[key])
  {
    RunKeepsInv(Idle(now), actions);
    assert Protected(Run(Idle(now), actions), holder);
  }

  /** A crashed or silent worker blocks the key no longer than its time to live. */
  lemma {:induction false} EntriesRunOut(now: Instant, actions: seq<Action>, key: Key, bound: nat)
    requires forall i :: 0 <= i < |actions| && (actions[i].Acquire? || actions[i].AcquireReplyLost?) ==>
             actions[i].ttl <= bound
    requires key in Run(Idle(now), actions).entries
    ensures Run(Idle(now), actions).entries[key].expiresAt <= Run(Idle(now), actions).now + bound
  {
    if actions != [] {
      var before := Run(Idle(now), actions[..|actions| - 1]);
      if key in before.entries {
        EntriesRunOut(now, actions[..|actions| - 1], key, bound);
      }
    }
  }

  /** Whoever was silent before, once the longest time to live has passed any fresh token gets any
      key, with an entry and a body of its own from that moment. */
  lemma KeysComeFree(now: Instant, actions: seq<Action>, key: Key, bound: nat, to: Instant, token: Token, ttl: nat)
    requires forall i :: 0 <= i < |actions| && (actions[i].Acquire? || actions[i].AcquireReplyLost?) ==>
             actions[i].ttl <= bound
    requires to > Run(Idle(now), actions).now + bound && token !in Run(Idle(now), actions).used
    ensures var s := Run(Idle(now), actions + [Tick(to)] + [Acquire(token, key, ttl)]);
            && token in s.bodies && s.bodies[token] == Body(key, to, ttl)
            && key in s.entries && s.entries[key] == Entry(token, to + ttl)
  {
    var s := Run(Idle(now), actions);
    if key in s.entries {
      EntriesRunOut(now, actions, key, bound);
    }
    RunStep(Idle(now), actions, Tick(to));
    RunStep(Idle(now), actions + [Tick(to)], Acquire(token, key, ttl));
  }

  // The key's entry is of somebody who neither works nor releases.
  predicate Abandoned(s: State, token: Token, key: Key, until: Instant) {
    && key in s.entries && s.entries[key] == Entry(token, until)
    && token in s.used && token !in s.bodies && token !in s.releasing
  }

  lemma {:induction false} AbandonedStays(s: State, actions: seq<Action>, token: Token, key: Key, until: Instant)
    requires Abandoned(s, token, key, until)
    ensures Run(s, actions).now > until || Abandoned(Run(s, actions), token, key, until)
  {
    if actions != [] {
      AbandonedStays(s, actions[..|actions| - 1], token, key, until);
    }
  }

  /** A worker that does not hear that its SET succeeded, or that crashes in its body, blocks the key
      for everybody to the end of its time to live, whatever anybody does meanwhile. */
  lemma SilentWorkersBlock(now: Instant, before: seq<Action>, token: Token, key: Key, ttl: nat, crashes: bool,
                           after: seq<Action>, other: Token, otherTtl: nat)
    requires var s := Run(Idle(now), before);
             token !in s.used && token !in s.bodies && token !in s.releasing &&
             (key in s.entries ==> s.entries[key].expiresAt < s.now)
    ensures var s := Run(Idle(now), before);
            var silence := if crashes then [Acquire(token, key, ttl), Crash(token)]
                           else [AcquireReplyLost(token, key, ttl)];
            var later := Run(Idle(now), before + silence + after);
            later.now <= s.now + ttl ==> Step(later, Acquire(other, key, otherTtl)) == later
  {
    var s := Run(Idle(now), before);
    if crashes {
      RunStep(Idle(now), before, Acquire(token, key, ttl));
      RunStep(Idle(now), before + [Acquire(token, key, ttl)], Crash(token));
      assert before + [Acquire(token, key, ttl), Crash(token)] == before + [Acquire(token, key, ttl)] + [Crash(token)];
    } else {
      RunStep(Idle(now), before, AcquireReplyLost(token, key, ttl));
    }
    var silence := if crashes then [Acquire(token, key, ttl), Crash(token)] else [AcquireReplyLost(token, key, ttl)];
    RunAppend(Idle(now), before + silence, after);
    AbandonedStays(Run(Idle(now), before + silence), after, token, key, s.now + ttl);
  }

  /** A release takes away exactly its own live entry, once, and touches no other key. */
  lemma ReleaseRemovesItsOwn(s: State, token: Token, key: Key)
    ensures var s' := Step(s, Release(token));
            && (key in s'.entries ==> key in s.entries && s'.entries[key] == s.entries[key])
            && (key in s.entries && key !in s'.entries <==>
                  key in s.entries && s.entries[key].token == token && s.now <= s.entries[key].expiresAt &&
                  token in s.releasing && s.releasing[token] == key)
            && s'.bodies == s.bodies && token !in s'.releasing
            && Step(s', Release(token)) == s'
  {
  }

  // ------------------------------------------------------------------ the coordinator

  datatype SetReply = Answered | Lost

  lemma {:induction false} RunAppend(s: State, before: seq<Action>, after: seq<Action>)
    ensures Run(s, before + after) == Run(Run(s, before), after)
  {
    if after == [] {
      assert before + after == before;
    } else {
      var last := |after| - 1;
      assert before + after == (before + after[..last]) + [after[last]];
      RunAppend(s, before, after[..last]);
      RunStep(s, before + after[..last], after[last]);
    }
  }

  // Steps of others: they present other tokens.
  predicate Foreign(actions: seq<Action>, token: Token) {
    forall i :: 0 <= i < |actions| && !actions[i].Tick? ==> actions[i].token != token
  }

  lemma {:induction false} OthersLeaveMyBody(s: State, actions: seq<Action>, token: Token)
    requires Foreign(actions, token)
    ensures token in Run(s, actions).bodies <==> token in s.bodies
    ensures token in s.bodies ==> Run(s, actions).bodies[token] == s.bodies[token]
    ensures token in Run(s, actions).releasing <==> token in s.releasing
    ensures token in s.releasing ==> Run(s, actions).releasing[token] == s.releasing[token]
  {
    if actions != [] {
      OthersLeaveMyBody(s, actions[..|actions| - 1], token);
    }
  }

  // The SET request, heard or not.
  function Request(token: Token, key: Key, ttl: nat, reply: SetReply): Action {
    if reply == Answered then Acquire(token, key, ttl) else AcquireReplyLost(token, key, ttl)
  }

  class Server {
    var entries: map<Key, Entry>
    var now: Instant
    // Not on the server: which bodies run, which releases are under way, which tokens were drawn.
    var bodies: map<Token, Body>
    var releasing: map<Token, Key>
    var used: set<Token>

    ghost function Model(): State
      reads this
    {
      State(entries, bodies, releasing, used, now)
    }

    constructor (now: Instant)
      ensures Model() == Idle(now)
    {
      entries, this.now, bodies, releasing, used := map[], now, map[], map[], {};
    }

    // SET key token NX PX ttl, from a worker that enters its body if it hears the answer.
    method SetIfAbsent(key: Key, token: Token, ttl: nat, reply: SetReply) returns (acquired: bool)
      requires token !in used
      modifies this
      ensures Model() == Step(old(Model()), Request(token, key, ttl, reply))
      ensures acquired == !Live(old(Model()), key)
    {
      acquired := !(key in entries && now <= entries[key].expiresAt);
      if acquired {
        entries := entries[key := Entry(token, now + ttl)];
        used := used + {token};
        if reply == Answered {
          bodies := bodies[token := Body(key, now, ttl)];
        }
      }
    }

    // The script: GET, compare, DEL.
    method CompareAndDelete(key: Key, token: Token)
      requires token in releasing && releasing[token] == key
      modifies this
      ensures Model() == Step(old(Model()), Release(token))
    {
      if key in entries && now <= entries[key].expiresAt && entries[key].token == token {
        entries := entries - {key};
      }
      releasing := releasing - {token};
    }

    method LeaveBody(token: Token)
      modifies this
      ensures Model() == Step(old(Model()), Leave(token))
    {
      if token in bodies {
        releasing := releasing[token := bodies[token].key];
        bodies := bodies - {token};
      }
    }

    // One step of anybody else.
    method Perform(action: Action)
      modifies this
      ensures Model() == Step(old(Model()), action)
    {
      match action {
        case Tick(to) => now := if to > now then to else now;
        case Acquire(token, key, ttl) =>
          if token !in used {
            var _ := SetIfAbsent(key, token, ttl, Answered);
          }
        case AcquireReplyLost(token, key, ttl) =>
          if token !in used {
            var _ := SetIfAbsent(key, token, ttl, Lost);
          }
        case Leave(token) => LeaveBody(token);
        case Release(token) =>
          if token in releasing {
            CompareAndDelete(releasing[token], token);
          }
        case Crash(token) => bodies, releasing := bodies - {token}, releasing - {token};
      }
    }

    method Meanwhile(actions: seq<Action>)
      modifies this
      ensures Model() == Run(old(Model()), actions)
    {
      for i := 0 to |actions|
        invariant Model() == Run(old(Model()), actions[..i])
      {
        assert actions[..i + 1] == actions[..i] + [actions[i]];
        RunStep(old(Model()), actions[..i], actions[i]);
        Perform(actions[i]);
      }
      assert actions[..|actions|] == actions;
    }
  }

  // What a worker that got the lock does, with the steps of others in between.
  function HeldTrace(token: Token, duringWork: seq<Action>, beforeScript: seq<Action>, scriptRuns: bool): seq<Action> {
    duringWork + [Leave(token)] + beforeScript + if scriptRuns then [Release(token)] else []
  }

  lemma HeldRun(s: State, token: Token, duringWork: seq<Action>, beforeScript: seq<Action>, scriptRuns: bool)
    ensures var left := Step(Run(s, duringWork), Leave(token));
            var last := Run(left, beforeScript);
            Run(s, HeldTrace(token, duringWork, beforeScript, scriptRuns)) ==
                if scriptRuns then Step(last, Release(token)) else last
  {
    RunStep(s, duringWork, Leave(token));
    RunAppend(s, duringWork + [Leave(token)], beforeScript);
    RunStep(s, duringWork + [Leave(token)] + beforeScript, Release(token));
    assert duringWork + [Leave(token)] + beforeScript + [] == duringWork + [Leave(token)] + beforeScript;
  }

  // The try block around the body and its `finally`.
  method HoldAndRelease(server: Server, key: Key, token: Token, duringWork: seq<Action>, beforeScript: seq<Action>,
                        scriptRuns: bool)
    requires token in server.bodies && server.bodies[token].key == key
    requires Foreign(duringWork, token) && Foreign(beforeScript, token)
    modifies server
    ensures server.Model() == Run(old(server.Model()), HeldTrace(token, duringWork, beforeScript, scriptRuns))
    ensures token !in server.bodies && (scriptRuns ==> token !in server.releasing)
    ensures scriptRuns && Live(server.Model(), key) ==> server.entries[key].token != token
  {
    HeldRun(server.Model(), token, duringWork, beforeScript, scriptRuns);
    OthersLeaveMyBody(server.Model(), duringWork, token);
    server.Meanwhile(duringWork);
    server.LeaveBody(token);
    OthersLeaveMyBody(server.Model(), beforeScript, token);
    server.Meanwhile(beforeScript);
    if scriptRuns {
      server.CompareAndDelete(key, token);
    }
  }

  /** Without a configured server the body simply runs. With one it runs exactly when its SET
      took the key and was answered; it has left by the end and, once the script has run, the
      key is not this token's any more. */
  method WithLock(server: Server, configured: bool, key: Key, token: Token, ttl: nat, reply: SetReply,
                  duringWork: seq<Action>, beforeScript: seq<Action>, scriptRuns: bool)
    returns (ran: bool, ghost trace: seq<Action>)
    requires token !in server.used && token !in server.bodies && token !in server.releasing
    requires Foreign(duringWork, token) && Foreign(beforeScript, token)
    modifies server
    ensures ran <==> !configured || (!Live(old(server.Model()), key) && reply == Answered)
    ensures trace == if !configured then duringWork
                     else [Request(token, key, ttl, reply)] +
                          if ran then HeldTrace(token, duringWork, beforeScript, scriptRuns) else []
    ensures server.Model() == Run(old(server.Model()), trace)
    ensures token !in server.bodies && (scriptRuns ==> token !in server.releasing)
    ensures configured && ran && scriptRuns && Live(server.Model(), key) ==> server.entries[key].token != token
  {
    if !configured {
      OthersLeaveMyBody(server.Model(), duringWork, token);
      server.Meanwhile(duringWork);
      ran, trace := true, duringWork;
      return;
    }
    ghost var request := Request(token, key, ttl, reply);
    trace := [] + [request];
    assert [request] + [] == trace;
    RunStep(server.Model(), [], request);
    var acquired := server.SetIfAbsent(key, token, ttl, reply);
    ran := acquired && reply == Answered;
    if ran {
      RunAppend(old(server.Model()), trace, HeldTrace(token, duringWork, beforeScript, scriptRuns));
      HoldAndRelease(server, key, token, duringWork, beforeScript, scriptRuns);
      trace := trace + HeldTrace(token, duringWork, beforeScript, scriptRuns);
    }
  }
}
