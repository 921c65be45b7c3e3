/** The components of idlez/events/components.py. A component contributes
    named fields to an announcement: `MessageFields` for the whole event and
    `PlayerMessageFields` for the view of one player. */
module EventComponents {
  import Store

  /** Who an experience change applies to: one player, or every player
      (the `ALL_PLAYERS` key). */
  datatype EffectTarget = Target(playerId: int) | AllPlayers

  /** A field value of a message: a string, an integer or a real standing for a float. */
  datatype FieldValue = Str(text: string) | Int(number: int) | Float(amount: real)

  /** The class of a component; an event stores at most one component per class. */
  datatype ComponentKind =
    | PlayerKind
    | OtherPlayerKind
    | ExpDiffKind
    | ExpProgressKind
    | FightResultKind
    | EventMessageKind

  datatype Component =
    | Player(player: Store.Player)
    | OtherPlayer(player: Store.Player)
    | ExpDiff(expDiffs: map<EffectTarget, int>)
    | ExpProgress(expProgress: map<EffectTarget, real>)
    | FightResult(playerWins: bool)
    | EventMessage(message: string)
  {
    function Kind(): ComponentKind {
      match this
      case Player(_) => PlayerKind
      case OtherPlayer(_) => OtherPlayerKind
      case ExpDiff(_) => ExpDiffKind
      case ExpProgress(_) => ExpProgressKind
      case FightResult(_) => FightResultKind
      case EventMessage(_) => EventMessageKind
    }

    /** `message_fields`: the fields this component adds to any announcement.
        The base class adds none; a player component adds the player's id and
        name; an experience component adds the change for everybody, unless
        there is none. */
    function MessageFields(): (m: map<string, FieldValue>)
      ensures (FightResult? || EventMessage?) ==> m == map[]
      ensures Player? ==> m.Keys == {"player_id", "player_name"}
      ensures Player? ==> m["player_id"] == Int(player.id) && m["player_name"] == Str(player.name)
      ensures OtherPlayer? ==> m.Keys == {"other_player_id", "other_player_name"}
      ensures OtherPlayer? ==> m["other_player_id"] == Int(player.id) && m["other_player_name"] == Str(player.name)
      ensures ExpDiff? ==> m.Keys <= {"all_exp_diff"}
      ensures ExpDiff? ==> ("all_exp_diff" in m <==> AllPlayers in expDiffs && expDiffs[AllPlayers] != 0)
      ensures ExpDiff? && "all_exp_diff" in m ==> m["all_exp_diff"] == Int(expDiffs[AllPlayers])
      ensures ExpProgress? ==> m.Keys <= {"all_exp_progress"}
      ensures ExpProgress? ==> ("all_exp_progress" in m <==> AllPlayers in expProgress && expProgress[AllPlayers] != 0.0)
      ensures ExpProgress? && "all_exp_progress" in m ==> m["all_exp_progress"] == Float(expProgress[AllPlayers])
    {
      match this
      case Player(p) => map["player_id" := Int(p.id), "player_name" := Str(p.name)]
      case OtherPlayer(p) => map["other_player_id" := Int(p.id), "other_player_name" := Str(p.name)]
      case ExpDiff(diffs) =>
        var all := GetOr(diffs, AllPlayers, 0);
        if all != 0 then map["all_exp_diff" := Int(all)] else map[]
      case ExpProgress(progress) =>
        var all := GetOr(progress, AllPlayers, 0.0);
        if all != 0.0 then map["all_exp_progress" := Float(all)] else map[]
      case _ => map[]
    }

    /** `player_message_fields`: the fields this component adds to the
        announcement for one player. For an experience component that is the
        player's own change plus the change for everybody, a missing entry
        counting as zero, and nothing when that sum is zero. Every other
        component adds nothing. */
    function PlayerMessageFields(playerId: int): (m: map<string, FieldValue>)
      ensures !(ExpDiff? || ExpProgress?) ==> m == map[]
      ensures ExpDiff? ==> m.Keys <= {"player_exp_diff"}
      ensures ExpDiff? ==>
        ("player_exp_diff" in m <==> GetOr(expDiffs, Target(playerId), 0) + GetOr(expDiffs, AllPlayers, 0) != 0)
      ensures ExpDiff? && "player_exp_diff" in m ==>
        m["player_exp_diff"] == Int(GetOr(expDiffs, Target(playerId), 0) + GetOr(expDiffs, AllPlayers, 0))
      ensures ExpProgress? ==> m.Keys <= {"player_exp_progress"}
      ensures ExpProgress? ==>
        ("player_exp_progress" in m <==> GetOr(expProgress, Target(playerId), 0.0) + GetOr(expProgress, AllPlayers, 0.0) != 0.0)
      ensures ExpProgress? && "player_exp_progress" in m ==>
        m["player_exp_progress"] == Float(GetOr(expProgress, Target(playerId), 0.0) + GetOr(expProgress, AllPlayers, 0.0))
    {
      match this
      case ExpDiff(diffs) =>
        var all := GetOr(diffs, AllPlayers, 0);
        var total := GetOr(diffs, Target(playerId), 0) + all;
        if total != 0 then map["player_exp_diff" := Int(total)] else map[]
      case ExpProgress(progress) =>
        var all := GetOr(progress, AllPlayers, 0.0);
        var total := GetOr(progress, Target(playerId), 0.0) + all;
        if total != 0.0 then map["player_exp_progress" := Float(total)] else map[]
      case _ => map[]
    }
  }

  /** `dict.get(key, default)`. */
  function GetOr<V>(m: map<EffectTarget, V>, key: EffectTarget, default: V): (v: V)
    ensures key in m ==> v == m[key]
    ensures key !in m ==> v == default
  {
    if key in m then m[key] else default
  }

  /** A player without an entry of their own sees exactly the change for
      everybody: the per-player field is present exactly when the event-wide
      one is, with the same amount. */
  lemma PlayerSeesAllDiff(diffs: map<EffectTarget, int>, playerId: int)
    requires Target(playerId) !in diffs
    ensures "player_exp_diff" in ExpDiff(diffs).PlayerMessageFields(playerId)
        <==> "all_exp_diff" in ExpDiff(diffs).MessageFields()
    ensures "all_exp_diff" in ExpDiff(diffs).MessageFields() ==>
      ExpDiff(diffs).PlayerMessageFields(playerId)["player_exp_diff"] == ExpDiff(diffs).MessageFields()["all_exp_diff"]
  {
  }

  /** Without a change for everybody, a player sees exactly their own entry,
      and the event-wide field is absent. */
  lemma PlayerSeesOwnDiff(diffs: map<EffectTarget, int>, playerId: int)
    requires AllPlayers !in diffs
    ensures ExpDiff(diffs).MessageFields() == map[]
    ensures ExpDiff(diffs).PlayerMessageFields(playerId)
         == if Target(playerId) in diffs && diffs[Target(playerId)] != 0
            then map["player_exp_diff" := Int(diffs[Target(playerId)])]
            else map[]
  {
  }

  /** A player's own change that cancels the change for everybody leaves the
      player's field out, although both entries are nonzero. */
  lemma CancellingDiffsOmitField(diffs: map<EffectTarget, int>, playerId: int)
    requires AllPlayers in diffs && Target(playerId) in diffs
    requires diffs[Target(playerId)] == -diffs[AllPlayers] != 0
    ensures "all_exp_diff" in ExpDiff(diffs).MessageFields()
    ensures ExpDiff(diffs).PlayerMessageFields(playerId) == map[]
  {
  }

  /** The same changes as reals, standing for the program's floats. */
  function AsProgress(diffs: map<EffectTarget, int>): (p: map<EffectTarget, real>)
    ensures p.Keys == diffs.Keys
    ensures forall t :: t in p ==> p[t] == diffs[t] as real
  {
    map t | t in diffs :: diffs[t] as real
  }

  /** `ExpProgress` follows the rule of `ExpDiff`: on the same amounts it adds
      the same fields, under its own names. */
  lemma ProgressMirrorsDiff(diffs: map<EffectTarget, int>, playerId: int)
    ensures ("all_exp_progress" in ExpProgress(AsProgress(diffs)).MessageFields())
        <==> ("all_exp_diff" in ExpDiff(diffs).MessageFields())
    ensures ("player_exp_progress" in ExpProgress(AsProgress(diffs)).PlayerMessageFields(playerId))
        <==> ("player_exp_diff" in ExpDiff(diffs).PlayerMessageFields(playerId))
    ensures "player_exp_diff" in ExpDiff(diffs).PlayerMessageFields(playerId) ==>
      ExpProgress(AsProgress(diffs)).PlayerMessageFields(playerId)["player_exp_progress"]
        == Float(ExpDiff(diffs).PlayerMessageFields(playerId)["player_exp_diff"].number as real)
  {
    var p := AsProgress(diffs);
    assert GetOr(p, AllPlayers, 0.0) == GetOr(diffs, AllPlayers, 0) as real;
    assert GetOr(p, Target(playerId), 0.0) == GetOr(diffs, Target(playerId), 0) as real;
  }

  /** The fields of different components never share a name, except that two
      components of the same class add the same names. */
  lemma MessageFieldsDisjoint(c: Component, d: Component, playerId: int)
    requires c.Kind() != d.Kind()
    ensures c.MessageFields().Keys !! d.MessageFields().Keys
    ensures c.PlayerMessageFields(playerId).Keys !! d.PlayerMessageFields(playerId).Keys
  {
  }
}
