/** The live-match registry and its subscription broker: the table of
    matches by code, the table of subscriber callbacks by code, and the
    operations that create, join, act on and watch a match. */
module MatchServer {
  import opened GameTypes
  import opened Combat
  import opened MatchCodes

  /** One invocation of a subscriber callback with a snapshot of a match. */
  datatype Delivery = Delivery(callback: Callback, matchId: string, snapshot: MatchState)

  /** The closure returned by subscribe: it removes `callback` from the
      subscribers of `matchId` when invoked. */
  datatype Unsubscriber = Unsubscriber(matchId: string, callback: Callback)

  /** The callbacks invoked by the deliveries `ds`. */
  ghost function Callbacks(ds: seq<Delivery>): set<Callback> {
    set d | d in ds :: d.callback
  }

  lemma CallbacksAppend(ds: seq<Delivery>, d: Delivery)
    ensures Callbacks(ds + [d]) == Callbacks(ds) + {d.callback}
  {
    assert forall x :: x in ds + [d] <==> x in ds || x == d;
  }

  /** `ds` is one notification of `st` for `id`: every callback of `subs`
      invoked exactly once, with that match's snapshot, and no other. */
  ghost predicate IsFanOut(ds: seq<Delivery>, subs: set<Callback>, id: string, st: MatchState) {
    && Callbacks(ds) == subs
    && (forall i :: 0 <= i < |ds| ==> ds[i].matchId == id && ds[i].snapshot == st)
    && (forall i, j :: 0 <= i < j < |ds| ==> ds[i].callback != ds[j].callback)
  }

  /** `after` is `before` followed by one notification of `st` for `id`. */
  ghost predicate Notified(before: seq<Delivery>, after: seq<Delivery>, subs: set<Callback>, id: string, st: MatchState) {
    |before| <= |after| && after[..|before|] == before && IsFanOut(after[|before|..], subs, id, st)
  }

  /** The outcome of joining match `id` of the table `m`. */
  function JoinIn(m: map<string, MatchState>, id: string, guest: string): (r: Result<MatchState>)
    ensures id !in m <==> r == Err(NotFound)
    ensures id in m && Consistent(m[id]) && m[id].status == Waiting ==> r.Ok?
    ensures id in m && Consistent(m[id]) && r.Ok? ==> Consistent(r.value) && r.value.matchId == m[id].matchId
  {
    if id !in m then Err(NotFound) else Join(m[id], guest)
  }

  /** The outcome of an action on match `id` of the table `m`. */
  function ActIn(m: map<string, MatchState>, id: string, p: PlayerId, a: ActionType): (r: Result<MatchState>)
    requires id in m ==> Consistent(m[id])
    ensures id !in m <==> r == Err(NotFound)
    ensures id in m && r.Ok? ==> Consistent(r.value) && r.value.matchId == m[id].matchId
  {
    if id !in m then Err(NotFound)
    else Act(m[id], p, a)
  }

  /** The part of an accepted action that changes the match: the switch on
      the action updates the actor's and the target's slots in place and
      writes the log line, then the win check runs and the turn passes. */
  method Advance(state: MatchState, playerId: PlayerId, action: ActionType) returns (next: MatchState)
    requires state.status == Active && state.turn == playerId && state.p2.Some?
    ensures Ok(next) == Act(state, playerId, action)
  {
    var attacker := state.Player(playerId).value;
    var targetId := Other(playerId);
    var target := state.Player(targetId).value;
    var log := state.log;
    ghost var e := Resolve(attacker, target, action);

    match action {
      case Punch =>
        var dmg := Max(0, PunchDamage - target.block);
        var blocked := PunchDamage - dmg;
        target := target.(hp := Max(0, target.hp - dmg));
        target := target.(block := Max(0, target.block - PunchDamage));
        log := log + [Struck(Punched, attacker.name, target.name, dmg, if blocked > 0 then Some(blocked) else None)];
      case Kick =>
        var dmg := Max(0, KickDamage - target.block);
        var blocked := KickDamage - dmg;
        target := target.(hp := Max(0, target.hp - dmg));
        target := target.(block := Max(0, target.block - KickDamage));
        log := log + [Struck(Kicked, attacker.name, target.name, dmg, if blocked > 0 then Some(blocked) else None)];
      case Block =>
        attacker := attacker.(block := attacker.block + BlockAmount);
        log := log + [Guarded(attacker.name, BlockAmount)];
      case Heal =>
        var healed := Min(HealAmount, MaxHp - attacker.hp);
        attacker := attacker.(hp := attacker.hp + healed);
        log := log + [Healed(attacker.name, healed)];
    }

    assert attacker == e.attacker && target == e.target && log == state.log + [e.entry];

    var status, winner := state.status, state.winner;
    if target.hp <= 0 {
      status, winner := Finished, Some(playerId);
      log := log + [Won(attacker.name)];
    }
    next := state.WithPlayer(playerId, attacker).WithPlayer(targetId, target);
    next := next.(status := status, winner := winner, log := log, turn := targetId);
  }

  class Registry {
    var matches: map<string, MatchState>
    var subscribers: map<string, set<Callback>>
    /** Every callback invocation made so far, oldest first. */
    var delivered: seq<Delivery>

    ghost predicate Valid()
      reads this
    {
      && (forall id :: id in matches ==> IsCode(id) && matches[id].matchId == id && Consistent(matches[id]))
      && (forall id :: id in subscribers ==> subscribers[id] != {})
    }

    /** The callbacks currently registered for `id`. */
    function SubscribersOf(id: string): set<Callback>
      reads this
    {
      if id in subscribers then subscribers[id] else {}
    }

    constructor ()
      ensures Valid()
      ensures matches == map[] && subscribers == map[] && delivered == []
    {
      matches := map[];
      subscribers := map[];
      delivered := [];
    }

    /** Creates a waiting match hosted by `hostName` under the first generated
        code that is not in use. `rnd` supplies the random draws; the retry
        loop ends because some attempt yields a free code. */
    method CreateMatch(hostName: string, rnd: nat -> real) returns (state: MatchState, ghost tries: nat)
      requires Valid() && IsRandom(rnd)
      requires exists k: nat :: Attempt(rnd, k) !in matches
      modifies this
      ensures Valid()
      ensures state.matchId == Attempt(rnd, tries) && state.matchId !in old(matches)
      ensures forall k: nat :: k < tries ==> Attempt(rnd, k) in old(matches)
      ensures state == NewMatch(state.matchId, hostName)
      ensures state.p1 == PlayerState(hostName, MaxHp, 0) && state.p2 == None
      ensures state.turn == P1 && state.winner == None && |state.log| == 1
      ensures matches == old(matches)[state.matchId := state]
      ensures subscribers == old(subscribers) && delivered == old(delivered)
    {
      var draws: nat := 0;
      var matchId := GenerateCode(rnd, draws);
      tries := 0;
      ghost var bound: nat :| Attempt(rnd, bound) !in matches;
      while matchId in matches
        invariant matches == old(matches) && subscribers == old(subscribers) && delivered == old(delivered)
        invariant draws == CodeLength * tries
        invariant matchId == Attempt(rnd, tries)
        invariant forall k: nat :: k < tries ==> Attempt(rnd, k) in matches
        invariant tries <= bound
        decreases bound - tries
      {
        tries := tries + 1;
        draws := draws + CodeLength;
        matchId := GenerateCode(rnd, draws);
      }
      state := NewMatch(matchId, hostName);
      matches := matches[matchId := state];
    }

    /** The stored match `matchId`, if any; never changes anything. */
    function GetMatch(matchId: string): (r: Option<MatchState>)
      reads this
      ensures r.Some? <==> matchId in matches
      ensures r.Some? ==> r.value == matches[matchId]
      ensures Valid() && r.Some? ==> r.value.matchId == matchId && Consistent(r.value)
    {
      if matchId in matches then Some(matches[matchId]) else None
    }

    /** Seats `guestName` as the second player of a waiting match and
        notifies its subscribers; a refused join changes nothing. */
    method JoinMatch(matchId: string, guestName: string) returns (r: Result<MatchState>)
      requires Valid()
      modifies this
      ensures Valid()
      ensures r == JoinIn(old(matches), matchId, guestName)
      ensures r.Ok? ==> && r.value.p2 == Some(PlayerState(guestName, MaxHp, 0))
                        && r.value.status == Active
                        && r.value.turn == old(matches)[matchId].turn
                        && r.value.log == old(matches)[matchId].log + [Joined(guestName, r.value.p1.name)]
      ensures r.Ok? ==> matches == old(matches)[matchId := r.value]
      ensures r.Ok? ==> Notified(old(delivered), delivered, SubscribersOf(matchId), matchId, r.value)
      ensures r.Err? ==> matches == old(matches) && delivered == old(delivered)
      ensures subscribers == old(subscribers)
    {
      if matchId !in matches {
        return Err(NotFound);
      }
      var state := matches[matchId];
      if state.status != Waiting {
        return Err(NotAcceptingPlayers);
      }
      if state.p2.Some? {
        return Err(MatchFull);
      }
      state := state.(p2 := Some(PlayerState(guestName, MaxHp, 0)));
      state := state.(status := Active);
      state := state.(log := state.log + [Joined(guestName, state.p1.name)]);
      matches := matches[matchId := state];
      NotifySubscribers(matchId, state);
      r := Ok(state);
    }

    /** Applies `playerId`'s action to match `matchId`: every check comes
        before any change, the target and the actor are updated, the win
        check runs, the turn passes and the subscribers are notified. */
    method ApplyAction(matchId: string, playerId: PlayerId, action: ActionType) returns (r: Result<MatchState>)
      requires Valid()
      modifies this
      ensures Valid()
      ensures r == ActIn(old(matches), matchId, playerId, action)
      ensures r.Ok? ==> matches == old(matches)[matchId := r.value]
      ensures r.Ok? ==> Notified(old(delivered), delivered, SubscribersOf(matchId), matchId, r.value)
      ensures r.Err? ==> matches == old(matches) && delivered == old(delivered)
      ensures subscribers == old(subscribers)
    {
      if matchId !in matches {
        return Err(NotFound);
      }
      var state := matches[matchId];
      if state.status != Active {
        return Err(NotActive);
      }
      if state.turn != playerId {
        return Err(NotYourTurn);
      }
      state := Advance(state, playerId, action);
      matches := matches[matchId := state];
      NotifySubscribers(matchId, state);
      r := Ok(state);
    }

    /** Registers `callback` for match `matchId` and returns its unsubscribe
        handle; the match table is not touched. */
    method Subscribe(matchId: string, callback: Callback) returns (u: Unsubscriber)
      requires Valid()
      modifies this
      ensures Valid()
      ensures subscribers == old(subscribers)[matchId := old(SubscribersOf(matchId)) + {callback}]
      ensures u == Unsubscriber(matchId, callback)
      ensures matches == old(matches) && delivered == old(delivered)
    {
      if matchId !in subscribers {
        subscribers := subscribers[matchId := {}];
      }
      subscribers := subscribers[matchId := subscribers[matchId] + {callback}];
      u := Unsubscriber(matchId, callback);
    }

    /** The body of the unsubscribe closure: removes exactly its callback,
        drops the match's entry once no callback is left, and is a no-op when
        the callback is already gone. */
    method Unsubscribe(u: Unsubscriber)
      requires Valid()
      modifies this
      ensures Valid()
      ensures SubscribersOf(u.matchId) == old(SubscribersOf(u.matchId)) - {u.callback}
      ensures forall id :: id != u.matchId ==> SubscribersOf(id) == old(SubscribersOf(id))
      ensures subscribers.Keys == if old(SubscribersOf(u.matchId)) <= {u.callback}
                                  then old(subscribers).Keys - {u.matchId}
                                  else old(subscribers).Keys
      ensures u.callback !in old(SubscribersOf(u.matchId)) ==> subscribers == old(subscribers)
      ensures matches == old(matches) && delivered == old(delivered)
    {
      if u.matchId in subscribers {
        var subs := subscribers[u.matchId] - {u.callback};
        assert u.callback !in subscribers[u.matchId] ==> subs == subscribers[u.matchId];
        subscribers := subscribers[u.matchId := subs];
        if subs == {} {
          subscribers := subscribers - {u.matchId};
        }
      }
    }

    /** Invokes every callback registered for `matchId` once with `state`. */
    method NotifySubscribers(matchId: string, state: MatchState)
      modifies this`delivered
      ensures Notified(old(delivered), delivered, SubscribersOf(matchId), matchId, state)
    {
      ghost var sent: seq<Delivery> := [];
      if matchId in subscribers {
        var rest := subscribers[matchId];
        while rest != {}
          invariant rest <= subscribers[matchId]
          invariant delivered == old(delivered) + sent
          invariant Callbacks(sent) == subscribers[matchId] - rest
          invariant forall i :: 0 <= i < |sent| ==> sent[i].matchId == matchId && sent[i].snapshot == state
          invariant forall i, j :: 0 <= i < j < |sent| ==> sent[i].callback != sent[j].callback
          decreases rest
        {
          var cb :| cb in rest;
          CallbacksAppend(sent, Delivery(cb, matchId, state));
          delivered := delivered + [Delivery(cb, matchId, state)];
          sent := sent + [Delivery(cb, matchId, state)];
          rest := rest - {cb};
        }
      }
      assert delivered[|old(delivered)|..] == sent;
    }
  }
}
