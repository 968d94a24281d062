// The common part of a player's or the world state's sub-managers: a
// "changed" flag that setChanged raises and update consumes. The manager's
// own processUpdate is reduced to a count of how often it ran.

module BaseManagers {
  import opened Players

  class BaseMgr {
    /** The owning player, or null when there is none to enqueue. */
    const player: Actor?
    var changed: bool
    /** How many times processUpdate has run. */
    var processed: nat

    /** BaseMgr(Player *): not changed. */
    constructor ForPlayer(player: Actor?)
      ensures this.player == player && !changed && processed == 0
    {
      this.player := player;
      changed := false;
      processed := 0;
    }

    /**
     * BaseMgr(Worldstate *): not changed. This constructor does not set
     * `player`, so it keeps the value the class header gives it, which is
     * the parameter `headerPlayer` here.
     */
    constructor ForWorldstate(headerPlayer: Actor?)
      ensures player == headerPlayer && !changed && processed == 0
    {
      player := headerPlayer;
      changed := false;
      processed := 0;
    }

    /** update: nothing unless changed; otherwise the flag is cleared and processUpdate runs once. */
    method Update()
      modifies this`changed, this`processed
      ensures !changed
      ensures processed == old(processed) + (if old(changed) then 1 else 0)
    {
      if !changed {
        return;
      }
      changed := false;
      processed := processed + 1;
    }

    /**
     * setChanged: raises the flag and asks the owning player, if any, to be
     * queued; the player's own guard keeps repeated calls from queueing it
     * again before its next update pass.
     */
    method SetChanged()
      requires player != null ==> player.Valid()
      modifies this`changed, (if player != null then {player} else {})`inUpdateQueue,
        (if player != null then {player} else {})`queued
      ensures changed
      ensures player != null ==> (player.Valid() && player.inUpdateQueue
        && player.queued == old(player.queued) + (if old(player.inUpdateQueue) then 0 else 1)
        && player.updates == old(player.updates) && player.flags == old(player.flags))
    {
      changed := true;
      if player != null {
        player.AddToUpdateQueue();
      }
    }
  }
}
