/** The match server's data model: players, actions, the per-match record and
    its log, and the opaque callbacks the subscription broker fans out to. */
module GameTypes {

  datatype Option<+T> = None | Some(value: T)

  /** The two player slots of a match. */
  datatype PlayerId = P1 | P2

  /** The player a move by `p` is aimed at. */
  function Other(p: PlayerId): (q: PlayerId)
    ensures q != p && (p == P1 <==> q == P2)
  {
    if p == P1 then P2 else P1
  }

  datatype ActionType = Punch | Kick | Block | Heal {
    predicate IsAttack() { Punch? || Kick? }
  }

  /** One combatant: display name, hit points and accumulated guard. */
  datatype PlayerState = PlayerState(name: string, hp: int, block: int)

  datatype Status = Waiting | Active | Finished

  /** Which verb an attack log line uses. */
  datatype AttackKind = Punched | Kicked

  /** One log line, kept as the values the line is built from. `blocked` is
      present exactly when the line carries its "(N blocked)" clause. */
  datatype LogEntry =
    | Created(host: string)
    | Joined(guest: string, firstToAct: string)
    | Struck(kind: AttackKind, attacker: string, target: string, damage: int, blocked: Option<int>)
    | Guarded(actor: string, gained: int)
    | Healed(actor: string, amount: int)
    | Won(winner: string)

  /** The aggregate record of one match; `p2` is absent until a guest joins. */
  datatype MatchState = MatchState(
    matchId: string,
    status: Status,
    p1: PlayerState,
    p2: Option<PlayerState>,
    turn: PlayerId,
    log: seq<LogEntry>,
    winner: Option<PlayerId>)
  {
    /** The slot `id`, when it is filled. */
    function Player(id: PlayerId): (r: Option<PlayerState>)
      ensures id == P1 ==> r == Some(p1)
      ensures id == P2 ==> r == p2
    {
      if id == P1 then Some(p1) else p2
    }

    /** This record with slot `id` replaced by `ps`. */
    function WithPlayer(id: PlayerId, ps: PlayerState): (r: MatchState)
      ensures r.Player(id) == Some(ps)
      ensures r.Player(Other(id)) == Player(Other(id))
      ensures r.matchId == matchId && r.status == status && r.turn == turn
      ensures r.log == log && r.winner == winner
    {
      if id == P1 then this.(p1 := ps) else this.(p2 := Some(ps))
    }
  }

  /** A subscriber callback, known only by its identity. */
  datatype Callback = Callback(handle: nat)
}
