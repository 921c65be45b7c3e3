/** The player record of idlez/store.py. The engine changes a player's
    `experience` and `level` in place; its id, name and guild never change once
    the record exists, so they are constants here. Loading and saving the store
    (JSON lines on disk) is not part of this model. */
module Store {

  /** Experience and level of one player: the part of a record the engine changes. */
  datatype Standing = Standing(experience: int, level: int)

  class Player {
    const id: int
    const name: string
    var experience: int
    var level: int
    const guildId: int

    constructor (id: int, name: string, experience: int, level: int, guildId: int)
      ensures this.id == id && this.name == name && this.guildId == guildId
      ensures this.experience == experience && this.level == level
    {
      this.id := id;
      this.name := name;
      this.experience := experience;
      this.level := level;
      this.guildId := guildId;
    }

    function CurrentStanding(): (s: Standing)
      reads this
      ensures s.experience == experience && s.level == level
    {
      Standing(experience, level)
    }
  }
}
