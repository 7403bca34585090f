/** The rules that advance one match: the effect of each action on the two
    slots, the join and action transitions on a match record, the invariant
    they keep, and what follows for whole sequences of operations. */
module Combat {
  import opened GameTypes

  // Balance numbers, hard-coded in the match server.
  const MaxHp: int := 30
  const PunchDamage: int := 5
  const KickDamage: int := 8
  const BlockAmount: int := 5
  const HealAmount: int := 3

  function Max(a: int, b: int): int { if a >= b then a else b }
  function Min(a: int, b: int): int { if a <= b then a else b }

  /** A slot within bounds: hp in [0, MaxHp], guard never negative. */
  predicate Healthy(ps: PlayerState) {
    0 <= ps.hp <= MaxHp && ps.block >= 0
  }

  /** The raw damage of an attack. */
  function Damage(a: ActionType): (d: int)
    requires a.IsAttack()
    ensures a == Punch ==> d == PunchDamage
    ensures a == Kick ==> d == KickDamage
  {
    if a == Punch then PunchDamage else KickDamage
  }

  /** What one action does to the acting slot and the other slot, and the
      log line it produces. */
  datatype Effect = Effect(attacker: PlayerState, target: PlayerState, entry: LogEntry)

  /** An attack of raw damage `raw`: the guard absorbs what it can and is
      then worn down by the full raw amount. */
  function Strike(kind: AttackKind, attacker: PlayerState, target: PlayerState, raw: int): Effect
  {
    var dmg := Max(0, raw - target.block);
    var blocked := raw - dmg;
    Effect(attacker,
           target.(hp := Max(0, target.hp - dmg), block := Max(0, target.block - raw)),
           Struck(kind, attacker.name, target.name, dmg, if blocked > 0 then Some(blocked) else None))
  }

  /** The effect of `action` performed by `attacker` against `target`. */
  function Resolve(attacker: PlayerState, target: PlayerState, action: ActionType): (e: Effect)
    ensures e.attacker.name == attacker.name && e.target.name == target.name
    ensures action.IsAttack() ==> e.attacker == attacker
    ensures !action.IsAttack() ==> e.target == target
    ensures Healthy(attacker) && Healthy(target) ==> Healthy(e.attacker) && Healthy(e.target)
  {
    match action
    case Punch => Strike(Punched, attacker, target, Damage(Punch))
    case Kick => Strike(Kicked, attacker, target, Damage(Kick))
    case Block =>
      Effect(attacker.(block := attacker.block + BlockAmount), target, Guarded(attacker.name, BlockAmount))
    case Heal =>
      var healed := Min(HealAmount, MaxHp - attacker.hp);
      Effect(attacker.(hp := attacker.hp + healed), target, Healed(attacker.name, healed))
  }

  /** An attack splits its raw damage into what the guard absorbs (up to the
      whole guard) and what reaches hp; hp and guard never drop below zero,
      and the log line mentions a blocked amount exactly when the target had
      any guard up. */
  lemma AttackAbsorbs(attacker: PlayerState, target: PlayerState, action: ActionType)
    requires action.IsAttack() && Healthy(target)
    ensures var e := Resolve(attacker, target, action);
            var absorbed := Min(Damage(action), target.block);
            && e.entry.Struck?
            && e.entry.damage == Damage(action) - absorbed
            && e.target.hp == Max(0, target.hp - e.entry.damage)
            && e.target.block == Max(0, target.block - Damage(action))
            && (e.entry.blocked.Some? <==> target.block > 0)
            && (e.entry.blocked.Some? ==> e.entry.blocked.value == absorbed)
  {
  }

  /** Blocking raises the actor's guard by BlockAmount without any cap. */
  lemma BlockStacks(attacker: PlayerState, target: PlayerState)
    ensures var e := Resolve(attacker, target, Block);
            e.attacker.block == attacker.block + BlockAmount && e.attacker.hp == attacker.hp
  {
  }

  /** Healing adds at most HealAmount and never past MaxHp. */
  lemma HealCapped(attacker: PlayerState, target: PlayerState)
    requires Healthy(attacker)
    ensures var e := Resolve(attacker, target, Heal);
            && e.attacker.hp == Min(MaxHp, attacker.hp + HealAmount)
            && e.attacker.block == attacker.block
            && e.entry == Healed(attacker.name, e.attacker.hp - attacker.hp)
            && 0 <= e.entry.amount <= HealAmount
  {
  }

  datatype MatchError = NotFound | NotAcceptingPlayers | MatchFull | NotActive | NotYourTurn

  datatype Result<+T> = Ok(value: T) | Err(error: MatchError)

  /** The hp of a filled slot. */
  function HpOf(s: MatchState, id: PlayerId): int
    requires s.Player(id).Some?
  {
    s.Player(id).value.hp
  }

  /** The invariant every live match keeps. */
  predicate Consistent(s: MatchState) {
    && Healthy(s.p1)
    && (s.p2.Some? ==> Healthy(s.p2.value))
    && (s.status == Waiting <==> s.p2.None?)
    && (s.status == Waiting ==> s.turn == P1 && s.p1.hp == MaxHp && s.p1.block == 0 && |s.log| == 1)
    && (s.status == Finished <==> s.winner.Some?)
    && (s.status == Active ==> s.p1.hp > 0 && s.p2.value.hp > 0)
    && (s.status == Finished ==> HpOf(s, s.winner.value) > 0 && HpOf(s, Other(s.winner.value)) == 0)
    && |s.log| > 0 && s.log[0] == Created(s.p1.name)
  }

  /** A freshly created match, hosted by `host`. */
  function NewMatch(id: string, host: string): (s: MatchState)
    ensures Consistent(s) && s.matchId == id && s.status == Waiting
  {
    MatchState(id, Waiting, PlayerState(host, MaxHp, 0), None, P1, [Created(host)], None)
  }

  /** A guest taking the second slot of a waiting match. */
  function Join(s: MatchState, guest: string): (r: Result<MatchState>)
    ensures s.status != Waiting <==> r == Err(NotAcceptingPlayers)
    ensures Consistent(s) ==> r != Err(MatchFull)
    ensures Consistent(s) && s.status == Waiting ==> r.Ok?
    ensures Consistent(s) && r.Ok? ==> Consistent(r.value) && r.value.status == Active
    ensures r.Ok? ==> && r.value.p2 == Some(PlayerState(guest, MaxHp, 0))
                      && r.value.p1 == s.p1 && r.value.turn == s.turn
                      && r.value.matchId == s.matchId && r.value.winner == s.winner
  {
    if s.status != Waiting then Err(NotAcceptingPlayers)
    else if s.p2.Some? then Err(MatchFull)
    else Ok(s.(p2 := Some(PlayerState(guest, MaxHp, 0)),
               status := Active,
               log := s.log + [Joined(guest, s.p1.name)]))
  }

  /** `s` after `p`'s action, with the win check applied and the turn passed
      on; validation precedes every change. */
  function Act(s: MatchState, p: PlayerId, a: ActionType): (r: Result<MatchState>)
    requires s.status == Active ==> s.p2.Some?
    ensures s.status != Active ==> r == Err(NotActive)
    ensures s.status == Active && s.turn != p ==> r == Err(NotYourTurn)
    ensures s.status == Active && s.turn == p ==> r.Ok?
    ensures Consistent(s) && r.Ok? ==> Consistent(r.value)
    ensures r.Ok? ==> r.value.matchId == s.matchId
  {
    if s.status != Active then Err(NotActive)
    else if s.turn != p then Err(NotYourTurn)
    else
      var q := Other(p);
      var e := Resolve(s.Player(p).value, s.Player(q).value, a);
      var s1 := s.WithPlayer(p, e.attacker).WithPlayer(q, e.target).(log := s.log + [e.entry]);
      var s2 := if e.target.hp <= 0
                then s1.(status := Finished, winner := Some(p), log := s1.log + [Won(e.attacker.name)])
                else s1;
      Ok(s2.(turn := q))
  }

  /** A successful action: the other player moves next, the log grows by one
      line (two when the move wins), nothing but the two slots, the status
      and the winner changes, and the match finishes exactly when the target
      is knocked out, with the actor as winner. */
  lemma ActOutcome(s: MatchState, p: PlayerId, a: ActionType)
    requires Consistent(s) && Act(s, p, a).Ok?
    ensures var t := Act(s, p, a).value;
            && t.turn == Other(p)
            && t.matchId == s.matchId
            && t.log[..|s.log|] == s.log
            && |t.log| == |s.log| + (if t.status == Finished then 2 else 1)
            && (t.status == Finished <==> HpOf(t, Other(p)) == 0)
            && (t.status == Finished ==> t.winner == Some(p) && t.log[|t.log| - 1] == Won(s.Player(p).value.name))
            && (t.status != Finished ==> t.status == Active && t.winner == None)
  {
  }

  /** The slot changes of a successful action are exactly those of Resolve:
      attacks touch only the target, Block and Heal only the actor. */
  lemma ActEffects(s: MatchState, p: PlayerId, a: ActionType)
    requires Consistent(s) && Act(s, p, a).Ok?
    ensures var t := Act(s, p, a).value;
            var e := Resolve(s.Player(p).value, s.Player(Other(p)).value, a);
            && t.Player(p) == Some(e.attacker) && t.Player(Other(p)) == Some(e.target)
            && t.log[|s.log|] == e.entry
            && (a.IsAttack() ==> t.Player(p) == s.Player(p))
            && (!a.IsAttack() ==> t.Player(Other(p)) == s.Player(Other(p)))
  {
  }

  /** Nobody moves twice in a row: right after a successful action the same
      player is refused, either because it is not their turn or because the
      match is over. */
  lemma NoDoubleMove(s: MatchState, p: PlayerId, a: ActionType, b: ActionType)
    requires Consistent(s) && Act(s, p, a).Ok?
    ensures Act(Act(s, p, a).value, p, b).Err?
  {
    ActOutcome(s, p, a);
  }

  /** A finished match is read-only: no join and no action is accepted. */
  lemma FinishedIsFinal(s: MatchState, p: PlayerId, a: ActionType, guest: string)
    requires Consistent(s) && s.status == Finished
    ensures Act(s, p, a) == Err(NotActive)
    ensures Join(s, guest) == Err(NotAcceptingPlayers)
  {
  }

  /** A match is finished exactly when it has a winner, exactly when some
      player is at 0 hp. */
  lemma FinishedIffKnockout(s: MatchState)
    requires Consistent(s)
    ensures s.status == Finished <==> s.winner.Some?
    ensures s.status == Finished <==> (s.p1.hp == 0 || (s.p2.Some? && s.p2.value.hp == 0))
  {
  }

  /** The operations a match goes through after creation. */
  datatype Op = JoinOp(guest: string) | ActOp(player: PlayerId, action: ActionType)

  function Perform(s: MatchState, op: Op): (r: Result<MatchState>)
    requires Consistent(s)
    ensures r.Ok? ==> Consistent(r.value) && r.value.matchId == s.matchId
  {
    match op
    case JoinOp(guest) => Join(s, guest)
    case ActOp(p, a) => Act(s, p, a)
  }

  /** Position of a status in the lifecycle waiting, active, finished. */
  function Rank(st: Status): nat {
    match st
    case Waiting => 0
    case Active => 1
    case Finished => 2
  }

  /** One successful operation moves the lifecycle at most one step forward,
      keeps the match id and host, and only appends to the log. */
  lemma PerformAdvances(s: MatchState, op: Op)
    requires Consistent(s) && Perform(s, op).Ok?
    ensures var t := Perform(s, op).value;
            && (Rank(t.status) == Rank(s.status) || Rank(t.status) == Rank(s.status) + 1)
            && t.p1.name == s.p1.name
            && |s.log| < |t.log| && t.log[..|s.log|] == s.log
  {
    if op.ActOp? {
      ActOutcome(s, op.player, op.action);
    }
  }

  /** The match after every operation of `ops`, in order; a refused operation
      leaves the match as it was. */
  function Run(s: MatchState, ops: seq<Op>): (t: MatchState)
    requires Consistent(s)
    ensures Consistent(t) && t.matchId == s.matchId
    decreases |ops|
  {
    if ops == [] then s
    else
      var r := Perform(s, ops[0]);
      Run(if r.Ok? then r.value else s, ops[1..])
  }

  /** Over any sequence of operations the lifecycle never moves backward,
      the log is never truncated, and once finished nothing changes. */
  lemma {:induction false} RunMonotone(s: MatchState, ops: seq<Op>)
    requires Consistent(s)
    ensures var t := Run(s, ops);
            && Rank(s.status) <= Rank(t.status)
            && t.p1.name == s.p1.name
            && |s.log| <= |t.log| && t.log[..|s.log|] == s.log
            && (s.status == Finished ==> t == s)
    decreases |ops|
  {
    if ops != [] {
      var r := Perform(s, ops[0]);
      var next := if r.Ok? then r.value else s;
      if s.status == Finished {
        match ops[0]
        case JoinOp(g) => FinishedIsFinal(s, P1, Punch, g);
        case ActOp(p, a) => FinishedIsFinal(s, p, a, "");
      } else if r.Ok? {
        PerformAdvances(s, ops[0]);
      }
      RunMonotone(next, ops[1..]);
      assert Run(s, ops) == Run(next, ops[1..]);
      var t := Run(s, ops);
      assert t.log[..|s.log|] == t.log[..|next.log|][..|s.log|];
    }
  }

  /** A short bout: a fresh match is joined, the host punches an unguarded
      guest for 5, then may not move again; the guest's punch into a raised
      guard is fully absorbed and wears the guard down to 0. */
  lemma ExampleBout()
    ensures var s0 := NewMatch("X", "Alice");
            var s1 := Join(s0, "Bob");
            && s1.Ok? && s1.value.turn == P1 && s1.value.p2 == Some(PlayerState("Bob", 30, 0))
            && var s2 := Act(s1.value, P1, Punch);
            && s2.Ok? && s2.value.p2.value.hp == 25 && s2.value.turn == P2
            && s2.value.log[|s2.value.log| - 1] == Struck(Punched, "Alice", "Bob", 5, None)
            && Act(s2.value, P1, Kick) == Err(NotYourTurn)
            && var s3 := Act(s2.value, P2, Block);
            && s3.Ok? && s3.value.p2.value.block == 5
            && var s4 := Act(s3.value, P1, Punch);
            && s4.Ok? && s4.value.p2.value == PlayerState("Bob", 25, 0)
            && s4.value.log[|s4.value.log| - 1] == Struck(Punched, "Alice", "Bob", 0, Some(5))
  {
  }
}
