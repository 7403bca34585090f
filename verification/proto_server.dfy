/** The single-match prototype server: one global match record whose two hp
    values are reduced by alternating attacks. Only the action handler's
    logic is modelled; the request body's `player` and `type` are strings or
    absent. */
module ProtoServer {
  import opened GameTypes

  const StartHp: int := 30
  const KickDamage: int := 8
  const OtherDamage: int := 5

  /** Wire name of a player id. */
  function PlayerName(p: PlayerId): string {
    if p == P1 then "p1" else "p2"
  }

  /** One log line: `player`, the verb made from `actionType`, `target` and
      the damage dealt. */
  datatype ProtoLog = ProtoLog(player: PlayerId, actionType: string, target: PlayerId, damage: int)

  /** The server's whole state; `hp` maps both players. */
  datatype ProtoState = ProtoState(matchId: string, turn: PlayerId, hp: map<PlayerId, int>, log: seq<ProtoLog>)

  /** Both players have an hp value in [0, StartHp]. */
  predicate HpInRange(st: ProtoState) {
    && P1 in st.hp && P2 in st.hp
    && 0 <= st.hp[P1] <= StartHp && 0 <= st.hp[P2] <= StartHp
  }

  /** The body of an action request, after JSON parsing. */
  datatype ActionRequest = ActionRequest(matchId: string, player: Option<string>, actionType: Option<string>)

  /** The handler's answers: 404, the two 400s, and 200 with the new state. */
  datatype Reply = MatchNotFound | MissingPlayerOrType | NotYourTurn(turn: PlayerId) | Accepted(state: ProtoState)

  function StatusCode(r: Reply): (code: int)
    ensures code == 200 <==> r.Accepted?
  {
    match r
    case MatchNotFound => 404
    case MissingPlayerOrType => 400
    case NotYourTurn(_) => 400
    case Accepted(_) => 200
  }

  /** A field JavaScript treats as missing: absent or the empty string. */
  predicate Missing(v: Option<string>) {
    v.None? || v.value == ""
  }

  /** The damage an action type deals. */
  function DamageOf(actionType: string): (d: int)
    ensures d == KickDamage <==> actionType == "KICK"
    ensures d == OtherDamage <==> actionType != "KICK"
  {
    if actionType == "KICK" then KickDamage else OtherDamage
  }

  /** The handler's reply and the state it leaves behind. */
  function Handle(st: ProtoState, req: ActionRequest): (out: (Reply, ProtoState))
    requires P1 in st.hp && P2 in st.hp
    ensures out.0.Accepted? ==> out.0.state == out.1
    ensures !out.0.Accepted? ==> out.1 == st
    ensures HpInRange(st) ==> HpInRange(out.1)
  {
    if req.matchId != st.matchId then (MatchNotFound, st)
    else if Missing(req.player) || Missing(req.actionType) then (MissingPlayerOrType, st)
    else if req.player.value != PlayerName(st.turn) then (NotYourTurn(st.turn), st)
    else
      var player := st.turn;
      var target := Other(player);
      var dmg := DamageOf(req.actionType.value);
      var next := st.(hp := st.hp[target := Max0(st.hp[target] - dmg)],
                      log := st.log + [ProtoLog(player, req.actionType.value, target, dmg)],
                      turn := target);
      (Accepted(next), next)
  }

  function Max0(x: int): int { if x >= 0 then x else 0 }

  /** Requests are refused in a fixed order, each refusal leaving the state
      as it was: wrong match first, then a missing field, then the turn. */
  lemma RejectionOrder(st: ProtoState, req: ActionRequest)
    requires P1 in st.hp && P2 in st.hp
    ensures var (reply, next) := Handle(st, req);
            && (req.matchId != st.matchId ==> reply == MatchNotFound)
            && (req.matchId == st.matchId && (Missing(req.player) || Missing(req.actionType)) ==> reply == MissingPlayerOrType)
            && (req.matchId == st.matchId && !Missing(req.player) && !Missing(req.actionType)
                ==> (reply.Accepted? <==> req.player.value == PlayerName(st.turn)))
            && ((req.matchId == st.matchId && !Missing(req.player) && !Missing(req.actionType)
                 && req.player.value != PlayerName(st.turn)) ==> reply == NotYourTurn(st.turn))
            && (reply == MatchNotFound ==> StatusCode(reply) == 404)
            && (reply.MissingPlayerOrType? || reply.NotYourTurn? ==> StatusCode(reply) == 400)
            && (!reply.Accepted? ==> next == st && StatusCode(reply) != 200)
  {
  }

  /** An accepted action: the target loses the damage of the action type,
      floored at 0; the actor's hp is untouched; the turn passes to the
      target; the log gains exactly one line and keeps the old ones. */
  lemma AcceptedEffect(st: ProtoState, req: ActionRequest)
    requires P1 in st.hp && P2 in st.hp && Handle(st, req).0.Accepted?
    ensures var next := Handle(st, req).1;
            var p := st.turn;
            var dmg := if req.actionType == Some("KICK") then 8 else 5;
            && next.hp[Other(p)] == (if st.hp[Other(p)] >= dmg then st.hp[Other(p)] - dmg else 0)
            && next.hp[p] == st.hp[p]
            && next.hp.Keys == st.hp.Keys
            && next.turn == Other(p)
            && next.matchId == st.matchId
            && |next.log| == |st.log| + 1 && next.log[..|st.log|] == st.log
  {
  }

  /** Nobody acts twice in a row: the player who just acted is refused. */
  lemma NoDoubleMove(st: ProtoState, req: ActionRequest, again: ActionRequest)
    requires P1 in st.hp && P2 in st.hp && Handle(st, req).0.Accepted?
    requires again.matchId == req.matchId && again.player == req.player
    ensures Handle(Handle(st, req).1, again).0.NotYourTurn? ||
            Handle(Handle(st, req).1, again).0.MissingPlayerOrType?
  {
  }

  /** There is no finished state: a knocked-out player stays at 0 under
      further attacks and the turn keeps alternating. */
  lemma NoFinishedState(st: ProtoState, actionType: string)
    requires HpInRange(st) && st.hp[Other(st.turn)] == 0 && actionType != ""
    ensures var req := ActionRequest(st.matchId, Some(PlayerName(st.turn)), Some(actionType));
            var (reply, next) := Handle(st, req);
            reply.Accepted? && next.hp[Other(st.turn)] == 0 && next.turn == Other(st.turn)
  {
  }

  /** The state after serving every request of `reqs`, in order. */
  function Serve(st: ProtoState, reqs: seq<ActionRequest>): (t: ProtoState)
    requires HpInRange(st)
    ensures HpInRange(t)
    decreases |reqs|
  {
    if reqs == [] then st else Serve(Handle(st, reqs[0]).1, reqs[1..])
  }

  /** Over any request sequence the match id never changes and the log only
      grows, by at most one line per request. */
  lemma {:induction false} ServeKeepsLog(st: ProtoState, reqs: seq<ActionRequest>)
    requires HpInRange(st)
    ensures var t := Serve(st, reqs);
            && t.matchId == st.matchId
            && |st.log| <= |t.log| <= |st.log| + |reqs|
            && t.log[..|st.log|] == st.log
    decreases |reqs|
  {
    if reqs != [] {
      var next := Handle(st, reqs[0]).1;
      ServeKeepsLog(next, reqs[1..]);
      var t := Serve(st, reqs);
      assert t == Serve(next, reqs[1..]);
      assert t.log[..|st.log|] == t.log[..|next.log|][..|st.log|];
    }
  }

  /** The prototype server's global match record. */
  class Server {
    var matchId: string
    var turn: PlayerId
    var hp: map<PlayerId, int>
    var log: seq<ProtoLog>

    ghost predicate Valid()
      reads this
    {
      HpInRange(State())
    }

    /** The record as a value. */
    function State(): ProtoState
      reads this
    {
      ProtoState(matchId, turn, hp, log)
    }

    constructor ()
      ensures Valid()
      ensures State() == ProtoState("demo", P1, map[P1 := StartHp, P2 := StartHp], [])
    {
      matchId := "demo";
      turn := P1;
      hp := map[P1 := StartHp, P2 := StartHp];
      log := [];
    }

    /** The action handler: checks in order, then updates the target's hp,
        appends the log line and passes the turn. */
    method HandleAction(req: ActionRequest) returns (reply: Reply)
      requires Valid()
      modifies this
      ensures Valid()
      ensures (reply, State()) == Handle(old(State()), req)
    {
      if req.matchId != matchId {
        return MatchNotFound;
      }
      if Missing(req.player) || Missing(req.actionType) {
        return MissingPlayerOrType;
      }
      if req.player.value != PlayerName(turn) {
        return NotYourTurn(turn);
      }
      var target := Other(turn);
      var dmg := if req.actionType.value == "KICK" then KickDamage else OtherDamage;
      hp := hp[target := Max0(hp[target] - dmg)];
      log := log + [ProtoLog(turn, req.actionType.value, target, dmg)];
      turn := target;
      reply := Accepted(State());
    }
  }
}
