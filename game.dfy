/** The game engine of idlez/game.py: an event emitter (queue plus handlers) and
    the `IdleZ` game that changes player records in place and queues events.

    In the program `IdleZ` subclasses `Emitter`; here an `IdleZ` owns its emitter
    (`bus`). Handlers are opaque: delivering an event to a handler is recorded as
    one entry of the emitter's delivery log. The level curve
    `experience_for_level` is a threshold function given to the game when it is
    built, and the random draw of `make_noise` is a parameter. */
module Game {
  import opened Wrappers
  import opened Store
  import opened Events

  /** `PlayerNotFound(player_id)`, raised by `make_noise`. */
  datatype GameError = PlayerNotFound(playerId: int)

  datatype NoiseType = Speak

  /** `make_noise` punishes everyone when `random.random()` is below this. */
  const LoudNoiseChance: real := 0.05
  /** What every player loses on a loud noise. */
  const LoudNoiseLoss: int := 5600
  /** What every player loses when a new player joins. */
  const NewPlayerLoss: int := 1200

  /** A registered handler, known only by its identity. */
  type Handler = nat

  /** One call of a handler with an event. */
  datatype Delivery = Delivery(handler: Handler, event: Event)

  /** The calls that delivering one event makes: every handler, in order. */
  function Fanout(e: Event, handlers: seq<Handler>): (d: seq<Delivery>)
    ensures |d| == |handlers|
    ensures forall j :: 0 <= j < |d| ==> d[j] == Delivery(handlers[j], e)
  {
    seq(|handlers|, j requires 0 <= j < |handlers| => Delivery(handlers[j], e))
  }

  /** The calls that flushing `queue` makes: the events in queue order, each to
      every handler in registration order. */
  function Deliveries(queue: seq<Event>, handlers: seq<Handler>): seq<Delivery>
  {
    if queue == [] then []
    else Deliveries(queue[..|queue| - 1], handlers) + Fanout(queue[|queue| - 1], handlers)
  }

  /** A flush makes exactly |queue| * |handlers| calls, and call number
      i * |handlers| + j hands event i to handler j: every event reaches every
      handler exactly once, events in queue order, handlers in registration order. */
  lemma {:induction false} DeliveriesAt(queue: seq<Event>, handlers: seq<Handler>, i: nat, j: nat)
    requires i < |queue| && j < |handlers|
    ensures |Deliveries(queue, handlers)| == |queue| * |handlers|
    ensures i * |handlers| + j < |queue| * |handlers|
    ensures Deliveries(queue, handlers)[i * |handlers| + j] == Delivery(handlers[j], queue[i])
  {
    var h, n := |handlers|, |queue| - 1;
    var front := queue[..n];
    assert Deliveries(queue, handlers) == Deliveries(front, handlers) + Fanout(queue[n], handlers);
    DeliveriesLength(front, handlers);
    DeliveriesLength(queue, handlers);
    RowBound(i, j, h, |queue|);
    if i < n {
      DeliveriesAt(front, handlers, i, j);
      assert front[i] == queue[i];
    } else {
      assert i * h == |front| * h;
    }
  }

  /** Call number i * h + j of a flush lies in row i of |queue| rows of h. */
  lemma RowBound(i: nat, j: nat, h: nat, rows: nat)
    requires i < rows && j < h
    ensures i * h + j < rows * h
  {
    assert (i + 1) * h == i * h + h;
    MulMonotone(i + 1, rows, h);
  }

  lemma MulMonotone(a: nat, b: nat, c: nat)
    requires a <= b
    ensures a * c <= b * c
  {
    assert b * c == a * c + (b - a) * c;
  }

  lemma {:induction false} DeliveriesLength(queue: seq<Event>, handlers: seq<Handler>)
    ensures |Deliveries(queue, handlers)| == |queue| * |handlers|
  {
    if queue != [] {
      var n := |queue| - 1;
      DeliveriesLength(queue[..n], handlers);
      assert |queue| * |handlers| == n * |handlers| + |handlers|;
    }
  }

  /** The event bus of the program: a queue of emitted events and the handlers
      that a flush delivers them to. `delivered` logs every handler call made. */
  class Emitter {
    var handlers: seq<Handler>
    var queue: seq<Event>
    var delivered: seq<Delivery>

    constructor (handlers: seq<Handler>, queue: seq<Event>)
      ensures this.handlers == handlers && this.queue == queue && delivered == []
    {
      this.handlers := handlers;
      this.queue := queue;
      delivered := [];
    }

    /** `emit`: queue the event at the end; nothing is delivered yet. */
    method Emit(e: Event)
      modifies this
      ensures queue == old(queue) + [e]
      ensures handlers == old(handlers) && delivered == old(delivered)
    {
      queue := queue + [e];
    }

    /** `register_handler`: add a handler after those already registered. */
    method RegisterHandler(h: Handler)
      modifies this
      ensures handlers == old(handlers) + [h]
      ensures queue == old(queue) && delivered == old(delivered)
    {
      handlers := handlers + [h];
    }

    /** `send_events`: deliver every queued event, in order, to every handler,
        in order, then empty the queue. */
    method SendEvents()
      modifies this
      ensures delivered == old(delivered) + Deliveries(old(queue), old(handlers))
      ensures queue == [] && handlers == old(handlers)
    {
      var i := 0;
      while i < |queue|
        invariant 0 <= i <= |queue|
        invariant queue == old(queue) && handlers == old(handlers)
        invariant delivered == old(delivered) + Deliveries(queue[..i], handlers)
      {
        var j := 0;
        while j < |handlers|
          invariant 0 <= j <= |handlers|
          invariant queue == old(queue) && handlers == old(handlers)
          invariant delivered == old(delivered) + Deliveries(queue[..i], handlers) + Fanout(queue[i], handlers[..j])
        {
          assert Fanout(queue[i], handlers[..j + 1]) == Fanout(queue[i], handlers[..j]) + [Delivery(handlers[j], queue[i])];
          delivered := delivered + [Delivery(handlers[j], queue[i])];
          j := j + 1;
        }
        assert handlers[..j] == handlers;
        assert queue[..i + 1][..i] == queue[..i];
        i := i + 1;
      }
      assert queue[..i] == queue;
      queue := [];
    }
  }

  /** A second flush with no emit in between delivers nothing. */
  method FlushTwice(bus: Emitter)
    modifies bus
    ensures bus.queue == [] && bus.handlers == old(bus.handlers)
    ensures bus.delivered == old(bus.delivered) + Deliveries(old(bus.queue), old(bus.handlers))
  {
    bus.SendEvents();
    ghost var afterFirst := bus.delivered;
    bus.SendEvents();
    assert bus.delivered == afterFirst;
  }

  // ---- The game's effect on standings, as functions of the standings before ----

  /** `all_lose_experience(amount)`: every player loses `amount`, with no floor;
      levels stay. */
  function LoseAll(s: map<int, Standing>, amount: int): map<int, Standing>
  {
    map k | k in s :: Standing(s[k].experience - amount, s[k].level)
  }

  /** Whether `gain_experience(amount)` levels up a player standing at `s`. */
  predicate LevelsUp(s: Standing, amount: int, threshold: int -> int) {
    threshold(s.level + 1) <= s.experience + amount
  }

  /** Part of `all_lose_experience(amount)`: the players in `keys` have lost
      `amount`, the others not yet. */
  function LoseSome(s: map<int, Standing>, keys: seq<int>, amount: int): map<int, Standing>
  {
    map k | k in s :: if k in keys then Standing(s[k].experience - amount, s[k].level) else s[k]
  }

  /** One more player loses. */
  lemma LoseSomeStep(s: map<int, Standing>, keys: seq<int>, k: int, amount: int)
    requires k in s && k !in keys
    ensures LoseSome(s, keys + [k], amount)
         == LoseSome(s, keys, amount)[k := Standing(s[k].experience - amount, s[k].level)]
  {
  }

  /** Once every player is in `keys`, the loss is complete. */
  lemma LoseSomeAll(s: map<int, Standing>, keys: seq<int>, amount: int)
    requires forall k :: k in s ==> k in keys
    ensures LoseSome(s, keys, amount) == LoseAll(s, amount)
  {
    forall k | k in s
      ensures LoseSome(s, keys, amount)[k] == LoseAll(s, amount)[k]
    {
      assert k in keys;
    }
  }

  /** `gain_experience(amount)` on one player: add the amount, then go up one
      level if the next level's threshold is reached. */
  function Gain(s: Standing, amount: int, threshold: int -> int): Standing
  {
    var e := s.experience + amount;
    if LevelsUp(s, amount, threshold) then Standing(e, s.level + 1) else Standing(e, s.level)
  }

  /** The gain pass of `tick(amount)` over every player. */
  function GainAll(s: map<int, Standing>, amount: int, threshold: int -> int): map<int, Standing>
  {
    map k | k in s :: Gain(s[k], amount, threshold)
  }

  /** Part of the gain pass: the players in `keys` have gained `amount`, the
      others not yet. */
  function GainSome(s: map<int, Standing>, keys: seq<int>, amount: int, threshold: int -> int): map<int, Standing>
  {
    map k | k in s :: if k in keys then Gain(s[k], amount, threshold) else s[k]
  }

  /** One more player gains. */
  lemma GainSomeStep(s: map<int, Standing>, keys: seq<int>, k: int, amount: int, threshold: int -> int)
    requires k in s && k !in keys
    ensures GainSome(s, keys + [k], amount, threshold)
         == GainSome(s, keys, amount, threshold)[k := Gain(s[k], amount, threshold)]
  {
  }

  /** Once every player is in `keys`, the gain pass is complete. */
  lemma GainSomeAll(s: map<int, Standing>, keys: seq<int>, amount: int, threshold: int -> int)
    requires forall k :: k in s ==> k in keys
    ensures GainSome(s, keys, amount, threshold) == GainAll(s, amount, threshold)
  {
    forall k | k in s
      ensures GainSome(s, keys, amount, threshold)[k] == GainAll(s, amount, threshold)[k]
    {
      assert k in keys;
    }
  }

  /** `make_noise`: the speaker loses its level in experience; on a loud noise
      everyone, the speaker included, then loses `LoudNoiseLoss`. */
  function Noise(s: map<int, Standing>, speaker: int, loud: bool): map<int, Standing>
    requires speaker in s
  {
    var spoken := s[speaker := Standing(s[speaker].experience - s[speaker].level, s[speaker].level)];
    if loud then LoseAll(spoken, LoudNoiseLoss) else spoken
  }

  /** The level-up events of one gain pass over `keys`, in key order. */
  function LevelUps(keys: seq<int>, players: map<int, Player>, before: map<int, Standing>,
                    amount: int, threshold: int -> int): seq<Event>
    requires forall k :: k in keys ==> k in players && k in before
  {
    if keys == [] then []
    else
      var k := keys[|keys| - 1];
      LevelUps(keys[..|keys| - 1], players, before, amount, threshold)
        + (if LevelsUp(before[k], amount, threshold) then [LevelUpEvent(players[k])] else [])
  }

  /** The level-up events of one more player come after the others. */
  lemma LevelUpsSnoc(keys: seq<int>, k: int, players: map<int, Player>, before: map<int, Standing>,
                     amount: int, threshold: int -> int)
    requires forall j :: j in keys ==> j in players && j in before
    requires k in players && k in before
    ensures forall j :: j in keys + [k] ==> j in players && j in before
    ensures LevelUps(keys + [k], players, before, amount, threshold)
         == LevelUps(keys, players, before, amount, threshold)
            + (if LevelsUp(before[k], amount, threshold) then [LevelUpEvent(players[k])] else [])
  {
    assert (keys + [k])[..|keys|] == keys;
  }

  /** A gain pass queues one level-up event per player that levelled up and no
      other event: at most one per player. */
  lemma {:induction false} LevelUpsExactly(keys: seq<int>, players: map<int, Player>, before: map<int, Standing>,
                                          amount: int, threshold: int -> int)
    requires forall k :: k in keys ==> k in players && k in before
    ensures |LevelUps(keys, players, before, amount, threshold)| <= |keys|
    ensures forall e :: e in LevelUps(keys, players, before, amount, threshold) ==>
              exists k :: k in keys && LevelsUp(before[k], amount, threshold) && e == LevelUpEvent(players[k])
    ensures forall k :: k in keys && LevelsUp(before[k], amount, threshold) ==>
              LevelUpEvent(players[k]) in LevelUps(keys, players, before, amount, threshold)
  {
    if keys != [] {
      var front := keys[..|keys| - 1];
      assert forall k :: k in front ==> k in keys;
      LevelUpsExactly(front, players, before, amount, threshold);
      assert keys == front + [keys[|keys| - 1]];
    }
  }

  /** Over distinct keys whose players carry their own key as id, a gain pass
      queues exactly one level-up event for each player that levelled up and
      none for any other player. */
  lemma {:induction false} LevelUpsCount(keys: seq<int>, players: map<int, Player>, before: map<int, Standing>,
                                         amount: int, threshold: int -> int, k: int)
    requires forall j :: j in keys ==> j in players && j in before
    requires forall i, j :: 0 <= i < j < |keys| ==> keys[i] != keys[j]
    requires forall j :: j in players ==> players[j].id == j
    requires k in players
    ensures multiset(LevelUps(keys, players, before, amount, threshold))[LevelUpEvent(players[k])]
         == if k in keys && LevelsUp(before[k], amount, threshold) then 1 else 0
  {
    if keys != [] {
      var front, last := keys[..|keys| - 1], keys[|keys| - 1];
      assert keys == front + [last];
      assert forall j :: j in front ==> j in keys;
      LevelUpsCount(front, players, before, amount, threshold, k);
      LevelUpsSnoc(front, last, players, before, amount, threshold);
      var tail := if LevelsUp(before[last], amount, threshold) then [LevelUpEvent(players[last])] else [];
      assert multiset(LevelUps(keys, players, before, amount, threshold))
          == multiset(LevelUps(front, players, before, amount, threshold)) + multiset(tail);
      if last == k {
        assert k !in front;
      } else {
        assert LevelUpEvent(players[last]) != LevelUpEvent(players[k]);
        assert k in keys <==> k in front;
      }
    }
  }

  /** Losses have no floor: a player with less experience than the loss ends
      below zero. */
  lemma LossHasNoFloor(s: map<int, Standing>, amount: int, k: int)
    requires k in s && s[k].experience < amount
    ensures k in LoseAll(s, amount) && LoseAll(s, amount)[k].experience < 0
    ensures LoseAll(s, amount)[k].level == s[k].level
  {
  }

  /** One gain goes up at most one level, even when the amount would reach the
      threshold of the level after next. */
  lemma OneLevelPerGain(s: Standing, amount: int, threshold: int -> int)
    requires threshold(s.level + 2) <= s.experience + amount
    requires threshold(s.level + 1) <= threshold(s.level + 2)
    ensures Gain(s, amount, threshold).level == s.level + 1
  {
  }

  /** The game: the store's players, keyed by id, with `order` the store's key
      order (a dict's insertion order), and the emitter it queues events on. */
  class IdleZ {
    const bus: Emitter
    var players: map<int, Player>
    var order: seq<int>
    /** `experience_for_level(lvl)`: the experience at which level `lvl` is reached. */
    const experienceForLevel: int -> int

    /** Each player is stored under its own id, and `order` lists every key once. */
    ghost predicate Valid()
      reads this
    {
      && (forall k | k in players :: players[k].id == k)
      && (forall k | k in players :: k in order)
      && (forall i | 0 <= i < |order| :: order[i] in players)
      && (forall i, j :: 0 <= i < j < |order| ==> order[i] != order[j])
    }

    /** Experience and level of every stored player. */
    ghost function Standings(): map<int, Standing>
      reads this, players.Values
    {
      map k | k in players :: players[k].CurrentStanding()
    }

    constructor (handlers: seq<Handler>, queue: seq<Event>, players: map<int, Player>, order: seq<int>,
                 experienceForLevel: int -> int)
      requires forall k | k in players :: players[k].id == k
      requires forall k :: k in players <==> k in order
      requires forall i, j :: 0 <= i < j < |order| ==> order[i] != order[j]
      ensures Valid() && fresh(bus)
      ensures this.players == players && this.order == order && this.experienceForLevel == experienceForLevel
      ensures bus.handlers == handlers && bus.queue == queue && bus.delivered == []
    {
      bus := new Emitter(handlers, queue);
      this.players := players;
      this.order := order;
      this.experienceForLevel := experienceForLevel;
    }

    /** `player(uid)`: the stored player with that id, if any. */
    function PlayerById(uid: int): (r: Option<Player>)
      reads this
      requires Valid()
      ensures r.Some? <==> uid in players
      ensures r.Some? ==> r.value.id == uid && r.value == players[uid]
    {
      if uid in players then Some(players[uid]) else None
    }

    /** `emit`, inherited from the emitter: queue the event; no player changes. */
    method Emit(e: Event)
      modifies bus
      ensures bus.queue == old(bus.queue) + [e]
      ensures bus.handlers == old(bus.handlers) && bus.delivered == old(bus.delivered)
      ensures Standings() == old(Standings())
    {
      bus.Emit(e);
    }

    /** `lose_experience`: subtract with no floor; the level stays. */
    method LoseExperience(playerId: int, amount: int)
      requires Valid() && playerId in players
      modifies players[playerId]
      ensures players[playerId].CurrentStanding() ==
              Standing(old(players[playerId].experience) - amount, old(players[playerId].level))
      ensures Standings() == old(Standings())[playerId := Standing(old(players[playerId].experience) - amount, old(players[playerId].level))]
    {
      var player := players[playerId];
      player.experience := player.experience - amount;
      forall k | k in players && k != playerId
        ensures players[k].CurrentStanding() == old(players[k].CurrentStanding())
      {
        assert players[k].id == k;
      }
    }

    /** `all_lose_experience`: every stored player loses `amount`. Nothing is queued. */
    method AllLoseExperience(amount: int)
      requires Valid()
      modifies players.Values
      ensures Standings() == LoseAll(old(Standings()), amount)
    {
      ghost var before := Standings();
      for i := 0 to |order|
        invariant Valid() && players == old(players) && order == old(order)
        invariant before.Keys == players.Keys
        invariant Standings() == LoseSome(before, order[..i], amount)
      {
        LoseStep(i, amount, before);
      }
      assert order[..|order|] == order;
      LoseSomeAll(before, order, amount);
    }

    /** One step of `all_lose_experience`: the player at position `i` of the
        key order loses `amount`. */
    method LoseStep(i: int, amount: int, ghost before: map<int, Standing>)
      requires Valid() && 0 <= i < |order| && before.Keys == players.Keys
      requires Standings() == LoseSome(before, order[..i], amount)
      modifies players[order[i]]
      ensures Standings() == LoseSome(before, order[..i + 1], amount)
    {
      var k := order[i];
      assert k !in order[..i] by {
        forall j | 0 <= j < i ensures order[j] != k { }
      }
      ghost var done := LoseSome(before, order[..i], amount);
      assert k in before && done[k] == before[k];
      LoseSomeStep(before, order[..i], k, amount);
      assert order[..i + 1] == order[..i] + [k];
      LoseExperience(k, amount);
    }

    /** `level_up`: one level more and a queued `LevelUpEvent`. */
    method LevelUp(playerId: int)
      requires Valid() && playerId in players
      modifies players[playerId], bus
      ensures players[playerId].CurrentStanding() ==
              Standing(old(players[playerId].experience), old(players[playerId].level) + 1)
      ensures bus.queue == old(bus.queue) + [LevelUpEvent(players[playerId])]
      ensures bus.handlers == old(bus.handlers) && bus.delivered == old(bus.delivered)
    {
      var player := players[playerId];
      player.level := player.level + 1;
      Emit(LevelUpEvent(player));
    }

    /** `gain_experience`: add the amount and level up at most once, exactly
        when the next level's threshold is reached. */
    method GainExperience(playerId: int, amount: int)
      requires Valid() && playerId in players
      modifies players[playerId], bus
      ensures players[playerId].CurrentStanding() ==
              Gain(old(players[playerId].CurrentStanding()), amount, experienceForLevel)
      ensures Standings() == old(Standings())[playerId := Gain(old(Standings())[playerId], amount, experienceForLevel)]
      ensures bus.queue == old(bus.queue) +
              (if LevelsUp(old(players[playerId].CurrentStanding()), amount, experienceForLevel)
               then [LevelUpEvent(players[playerId])] else [])
      ensures bus.handlers == old(bus.handlers) && bus.delivered == old(bus.delivered)
    {
      var player := players[playerId];
      player.experience := player.experience + amount;
      if experienceForLevel(player.level + 1) <= player.experience {
        LevelUp(player.id);
      }
      forall k | k in players && k != playerId
        ensures players[k].CurrentStanding() == old(players[k].CurrentStanding())
      {
        assert players[k].id == k;
      }
    }

    /** `make_noise`: an unknown speaker raises `PlayerNotFound` and changes
        nothing; otherwise the speaker loses its level in experience, and when
        the draw `roll` is below 0.05 every player loses 5600 and one
        `BadPlayerEvent(LOUD_NOISE, 5600)` for the speaker is queued. */
    method MakeNoise(noiseType: NoiseType, playerId: int, message: string, roll: real)
      returns (r: Result<(), GameError>)
      requires Valid()
      modifies players.Values, bus
      ensures playerId !in players ==>
                && r == Failure(PlayerNotFound(playerId))
                && Standings() == old(Standings()) && bus.queue == old(bus.queue)
      ensures playerId in players ==>
                && r == Success(())
                && Standings() == Noise(old(Standings()), playerId, roll < LoudNoiseChance)
                && bus.queue == old(bus.queue) +
                     (if roll < LoudNoiseChance then [BadPlayerEvent(players[playerId], LoudNoise, LoudNoiseLoss)] else [])
      ensures bus.handlers == old(bus.handlers) && bus.delivered == old(bus.delivered)
    {
      var found := PlayerById(playerId);
      if found.None? {
        return Failure(PlayerNotFound(playerId));
      }
      var player := found.value;
      ghost var spoken := Noise(Standings(), playerId, false);
      LoseExperience(playerId, player.level);
      assert Standings() == spoken;
      if roll < LoudNoiseChance {
        AllLoseExperience(LoudNoiseLoss);
        Emit(BadPlayerEvent(player, LoudNoise, LoudNoiseLoss));
      }
      r := Success(());
    }

    /** `new_player`: store the player under its id (replacing any record with
        that id, which keeps its place in the key order), then everyone, the
        newcomer included, loses 1200, then one `NewPlayerEvent` is queued. */
    method NewPlayer(player: Player)
      requires Valid()
      modifies this, players.Values, player, bus
      ensures Valid()
      ensures players == old(players)[player.id := player]
      ensures order == if player.id in old(players) then old(order) else old(order) + [player.id]
      ensures Standings() == LoseAll(old(Standings())[player.id := old(player.CurrentStanding())], NewPlayerLoss)
      ensures bus.queue == old(bus.queue) + [Events.NewPlayer(player, NewPlayerLoss)]
      ensures bus.handlers == old(bus.handlers) && bus.delivered == old(bus.delivered)
    {
      StorePlayer(player);
      AllLoseExperience(NewPlayerLoss);
      Emit(Events.NewPlayer(player, NewPlayerLoss));
    }

    /** `store.players[player.id] = player`: a new id goes to the end of the
        key order, a known id keeps its place and its record is replaced. */
    method StorePlayer(player: Player)
      requires Valid()
      modifies this
      ensures Valid()
      ensures players == old(players)[player.id := player]
      ensures order == if player.id in old(players) then old(order) else old(order) + [player.id]
      ensures Standings() == old(Standings())[player.id := player.CurrentStanding()]
    {
      ghost var joined := Standings()[player.id := player.CurrentStanding()];
      if player.id !in players {
        order := order + [player.id];
      }
      players := players[player.id := player];
      assert Valid() by {
        forall i | 0 <= i < |order| ensures order[i] in players {
          if i < |old(order)| {
            assert order[i] == old(order)[i];
          }
        }
      }
      forall k | k in players
        ensures players[k].CurrentStanding() == joined[k]
      {
        assert players[k].id == k;
      }
    }

    /** `tick(seconds_diff)`: every player, in key order, gains `secondsDiff`
        (levelling up at most once), then the queue, with the level-up events
        of this pass after those already waiting, is delivered and emptied. */
    method Tick(secondsDiff: int)
      requires Valid()
      modifies players.Values, bus
      ensures Standings() == GainAll(old(Standings()), secondsDiff, experienceForLevel)
      ensures bus.queue == [] && bus.handlers == old(bus.handlers)
      ensures bus.delivered == old(bus.delivered) +
                Deliveries(old(bus.queue) + LevelUps(order, players, old(Standings()), secondsDiff, experienceForLevel),
                           old(bus.handlers))
    {
      GainEveryone(secondsDiff, Standings());
      bus.SendEvents();
    }

    /** The gain pass of `tick`: each player in key order gains `secondsDiff`;
        `before` names the standings at the start. */
    method GainEveryone(secondsDiff: int, ghost before: map<int, Standing>)
      requires Valid() && before == Standings()
      modifies players.Values, bus
      ensures Standings() == GainAll(before, secondsDiff, experienceForLevel)
      ensures bus.queue == old(bus.queue) + LevelUps(order, players, before, secondsDiff, experienceForLevel)
      ensures bus.handlers == old(bus.handlers) && bus.delivered == old(bus.delivered)
    {
      assert before.Keys == players.Keys;
      for i := 0 to |order|
        invariant Standings() == GainSome(before, order[..i], secondsDiff, experienceForLevel)
        invariant bus.queue == old(bus.queue) + LevelUps(order[..i], players, before, secondsDiff, experienceForLevel)
        invariant bus.handlers == old(bus.handlers) && bus.delivered == old(bus.delivered)
      {
        GainStep(i, secondsDiff, before, old(bus.queue));
      }
      assert order[..|order|] == order;
      GainSomeAll(before, order, secondsDiff, experienceForLevel);
    }

    /** One step of the gain pass: the player at position `i` of the key
        order gains `secondsDiff`, and its level-up event, if any, is queued. */
    method GainStep(i: int, secondsDiff: int, ghost before: map<int, Standing>, ghost waiting: seq<Event>)
      requires Valid() && 0 <= i < |order| && before.Keys == players.Keys
      requires Standings() == GainSome(before, order[..i], secondsDiff, experienceForLevel)
      requires bus.queue == waiting + LevelUps(order[..i], players, before, secondsDiff, experienceForLevel)
      modifies players[order[i]], bus
      ensures Standings() == GainSome(before, order[..i + 1], secondsDiff, experienceForLevel)
      ensures bus.queue == waiting + LevelUps(order[..i + 1], players, before, secondsDiff, experienceForLevel)
      ensures bus.handlers == old(bus.handlers) && bus.delivered == old(bus.delivered)
    {
      var k := order[i];
      assert k !in order[..i] by {
        forall j | 0 <= j < i ensures order[j] != k { }
      }
      ghost var done := GainSome(before, order[..i], secondsDiff, experienceForLevel);
      assert k in before && done[k] == before[k];
      GainSomeStep(before, order[..i], k, secondsDiff, experienceForLevel);
      assert order[..i + 1] == order[..i] + [k];
      LevelUpsSnoc(order[..i], k, players, before, secondsDiff, experienceForLevel);
      GainExperience(k, secondsDiff);
      assert Standings() == done[k := Gain(before[k], secondsDiff, experienceForLevel)];
    }
  }
}
