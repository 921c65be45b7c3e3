/** The event records of idlez/events.py, the ones the game engine emits. Events
    hold the player object itself, so a handler sees the player as it is when the
    event is delivered, not as it was when the event was queued. */
module Events {
  import opened Store

  /** The kinds of bad-player event; the program knows only one. */
  datatype EventType = LoudNoise

  /** `NewPlayerEvent` subclasses `BadPlayerEvent` in the program but its
      constructor takes no event type and always sets `LOUD_NOISE`; here it has
      no event-type field at all and `Type()` supplies it. */
  datatype Event =
    | LevelUpEvent(player: Player)
    | BadPlayerEvent(player: Player, eventType: EventType, expLoss: int)
    | NewPlayerEvent(player: Player, expLoss: int)
  {
    /** `isinstance(evt, BadPlayerEvent)`: true for the subclass too. */
    predicate IsBadPlayerEvent() {
      BadPlayerEvent? || NewPlayerEvent?
    }

    /** The `event_type` attribute of a bad-player event. */
    function Type(): EventType
      requires IsBadPlayerEvent()
    {
      if BadPlayerEvent? then eventType else LoudNoise
    }

    /** The `exp_loss` attribute of a bad-player event. */
    function Loss(): int
      requires IsBadPlayerEvent()
    {
      expLoss
    }
  }

  /** `NewPlayerEvent(player, exp_loss)`: a bad-player event of type LOUD_NOISE
      carrying exactly the given player and loss. */
  function NewPlayer(player: Player, expLoss: int): (e: Event)
    ensures e.IsBadPlayerEvent() && e.Type() == LoudNoise
    ensures e.player == player && e.Loss() == expLoss
    ensures !e.LevelUpEvent?
  {
    NewPlayerEvent(player, expLoss)
  }

  /** Whatever the player and loss, a new-player event is a loud noise. */
  lemma NewPlayerIsLoudNoise(e: Event)
    requires e.NewPlayerEvent?
    ensures e.IsBadPlayerEvent() && e.Type() == LoudNoise
  {
  }
}
