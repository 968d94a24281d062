// Server-side actors and players: setters that store a value, raise the
// matching "changed" flag, record which stat slots changed and put the player
// on the update queue once; the update pass that clears that bookkeeping; the
// handshake counter; and the walk over the players in the loaded cells.
// Floats are reals; packets sent by the update pass are not modelled.

module Players {

  /** numeric_limits<int>::max(). */
  const IntMax: int := 0x7fff_ffff
  /** ESM::Attribute::Length. */
  const AttributeCount: nat := 8
  /** ESM::Skill::Length. */
  const SkillCount: nat := 27
  /** creatureStats.mDynamic holds health, magicka and fatigue, in that order. */
  const HealthSlot: nat := 0
  const MagickaSlot: nat := 1
  const FatigueSlot: nat := 2

  datatype Vec3 = Vec3(x: real, y: real, z: real)

  /** ESM::Position: pos[0..2] and rot[0..2]. */
  datatype Position = Position(pos: Vec3, rot: Vec3)

  datatype DynamicStat = DynamicStat(base: real, current: real)
  datatype AttributeStat = AttributeStat(base: int, mod: int)
  datatype SkillStat = SkillStat(base: int, mod: int, progress: real)

  /** The update flags of NetActor; an actor holds the set of those raised. */
  datatype Flag =
    | BaseInfoChanged | ShapeshiftChanged | LevelChanged | StatsChanged
    | PositionChanged | SkillsChanged | AttributesChanged | MomentumChanged

  /** resetUpdateFlags: every flag except momentum is cleared. */
  function Reset(f: set<Flag>): (r: set<Flag>)
    ensures r <= {MomentumChanged}
    ensures MomentumChanged in r <==> MomentumChanged in f
  {
    f * {MomentumChanged}
  }

  predicate NoDuplicates(s: seq<nat>)
  {
    forall i, j :: 0 <= i < j < |s| ==> s[i] != s[j]
  }

  /** Utils::vectorContains followed by push_back when absent. */
  function AddIndex(s: seq<nat>, i: nat): (r: seq<nat>)
    ensures i in r
    ensures forall x :: x in r <==> x in s || x == i
    ensures i in s ==> r == s
    ensures i !in s ==> r == s + [i]
    ensures NoDuplicates(s) ==> NoDuplicates(r)
  {
    if i in s then s else s + [i]
  }

  /** Adding an index twice records it once: the change list does not grow on repeated sets. */
  lemma AddIndexIdempotent(s: seq<nat>, i: nat)
    ensures AddIndex(AddIndex(s, i), i) == AddIndex(s, i)
  {
  }

  /** Every recorded index is below the given bound. */
  predicate Below(s: seq<nat>, bound: nat)
  {
    forall k :: 0 <= k < |s| ==> s[k] < bound
  }

  /** A change list: valid slots, each once, and non-empty only while its flag is raised. */
  predicate ChangeList(s: seq<nat>, bound: nat, raised: bool)
  {
    NoDuplicates(s) && Below(s, bound) && (s != [] ==> raised)
  }

  /** Recording a valid slot keeps a change list well formed once its flag is raised. */
  lemma AddIndexKeepsChangeList(s: seq<nat>, i: nat, bound: nat, raised: bool)
    requires ChangeList(s, bound, raised) && i < bound
    ensures ChangeList(AddIndex(s, i), bound, true)
  {
  }

  /**
   * A NetActor; when isActorPlayer it is the NetActor part of a Player
   * together with the Player's own state.
   */
  class Actor {
    const isActorPlayer: bool

    var flags: set<Flag>
    var position: Position
    var momentum: Vec3
    var dynamic: seq<DynamicStat>
    var statsDynamicIndexChanges: seq<nat>

    // Player state.
    var inUpdateQueue: bool
    /** How many times Players::addToQueue received this player. */
    var queued: nat
    /** How many update passes have run. */
    var updates: nat
    var handshakeCounter: int
    var name: string
    var isMale: bool
    var race: string
    var head: string
    var hair: string
    var birthsign: string
    var resetStats: bool
    var level: int
    var levelProgress: int
    var creatureRefId: string
    var displayCreatureName: bool
    var isWerewolf: bool
    var scale: real
    var markPosition: Position
    /** The description handed to setMark; its parsing into a cell is not modelled. */
    var markCell: string
    var changedMarkLocation: bool
    var selectedSpellId: string
    var changedSelectedSpell: bool
    var attributes: seq<AttributeStat>
    var skills: seq<SkillStat>
    var skillIncrease: seq<int>
    var attributeIndexChanges: seq<nat>
    var skillIndexChanges: seq<nat>
    /** The loaded cells, each a list of the players in it. */
    var cells: seq<seq<Actor?>>

    /** The bookkeeping of an actor stays consistent. */
    ghost predicate Valid()
      reads this`dynamic, this`attributes, this`skills, this`skillIncrease
      reads this`statsDynamicIndexChanges, this`attributeIndexChanges, this`skillIndexChanges, this`flags
      reads this`queued, this`updates, this`inUpdateQueue
    {
      TablesValid() && ChangesValid() && QueueValid()
    }

    /** The stat tables have their fixed sizes. */
    ghost predicate TablesValid()
      reads this`dynamic, this`attributes, this`skills, this`skillIncrease
    {
      |dynamic| == 3 && |attributes| == AttributeCount && |skills| == SkillCount && |skillIncrease| == AttributeCount
    }

    /** Each change list names valid slots, once each, and only while its flag is raised. */
    ghost predicate ChangesValid()
      reads this`statsDynamicIndexChanges, this`attributeIndexChanges, this`skillIndexChanges, this`flags
    {
      ChangeList(statsDynamicIndexChanges, 3, StatsChanged in flags)
      && ChangeList(attributeIndexChanges, AttributeCount, AttributesChanged in flags)
      && ChangeList(skillIndexChanges, SkillCount, SkillsChanged in flags)
    }

    /** Between two update passes the player enters the update queue at most once. */
    ghost predicate QueueValid()
      reads this`queued, this`updates, this`inUpdateQueue
    {
      queued <= updates + (if inUpdateQueue then 1 else 0)
    }

    /** NetActor(): not a player; its other initial values come from headers not modelled here. */
    constructor ()
      ensures Valid() && !isActorPlayer && !inUpdateQueue && queued == 0
    {
      isActorPlayer := false;
      flags := {};
      position := Position(Vec3(0.0, 0.0, 0.0), Vec3(0.0, 0.0, 0.0));
      momentum := Vec3(0.0, 0.0, 0.0);
      dynamic := [DynamicStat(0.0, 0.0), DynamicStat(0.0, 0.0), DynamicStat(0.0, 0.0)];
      statsDynamicIndexChanges := [];
      inUpdateQueue := false;
      queued := 0;
      updates := 0;
      handshakeCounter := 0;
      name, race, head, hair, birthsign, creatureRefId := [], [], [], [], [], [];
      isMale, resetStats, displayCreatureName, isWerewolf := false, false, false, false;
      level, levelProgress := 0, 0;
      scale := 1.0;
      markPosition := Position(Vec3(0.0, 0.0, 0.0), Vec3(0.0, 0.0, 0.0));
      markCell := [];
      changedMarkLocation, changedSelectedSpell := false, false;
      selectedSpellId := [];
      attributes := seq(AttributeCount, _ => AttributeStat(0, 0));
      skills := seq(SkillCount, _ => SkillStat(0, 0, 0.0));
      skillIncrease := seq(AttributeCount, _ => 0);
      attributeIndexChanges := [];
      skillIndexChanges := [];
      cells := [];
    }

    /** Player(guid): a player, its update flags reset, not handshaked, not queued, scale 1, not a werewolf. */
    constructor Player()
      ensures Valid() && isActorPlayer
      ensures flags == {} && !inUpdateQueue && queued == 0
      ensures handshakeCounter == 0 && scale == 1.0 && !isWerewolf
    {
      isActorPlayer := true;
      flags := {};
      position := Position(Vec3(0.0, 0.0, 0.0), Vec3(0.0, 0.0, 0.0));
      momentum := Vec3(0.0, 0.0, 0.0);
      dynamic := [DynamicStat(0.0, 0.0), DynamicStat(0.0, 0.0), DynamicStat(0.0, 0.0)];
      statsDynamicIndexChanges := [];
      inUpdateQueue := false;
      queued := 0;
      updates := 0;
      handshakeCounter := 0;
      name, race, head, hair, birthsign, creatureRefId := [], [], [], [], [], [];
      isMale, resetStats, displayCreatureName, isWerewolf := false, false, false, false;
      level, levelProgress := 0, 0;
      scale := 1.0;
      markPosition := Position(Vec3(0.0, 0.0, 0.0), Vec3(0.0, 0.0, 0.0));
      markCell := [];
      changedMarkLocation, changedSelectedSpell := false, false;
      selectedSpellId := [];
      attributes := seq(AttributeCount, _ => AttributeStat(0, 0));
      skills := seq(SkillCount, _ => SkillStat(0, 0, 0.0));
      skillIncrease := seq(AttributeCount, _ => 0);
      attributeIndexChanges := [];
      skillIndexChanges := [];
      cells := [];
    }

    /** toPlayer: the actor itself when it is a player, null otherwise. */
    function ToPlayer(): (p: Actor?)
      ensures p == null <==> !isActorPlayer
      ensures p != null ==> p == this
    {
      if isActorPlayer then this else null
    }

    /** addToUpdateQueue: hands the player to the queue only if it is not already waiting there. */
    method AddToUpdateQueue()
      requires QueueValid()
      modifies this`inUpdateQueue, this`queued
      ensures QueueValid() && inUpdateQueue
      ensures queued == old(queued) + (if old(inUpdateQueue) then 0 else 1)
    {
      if inUpdateQueue {
        return;
      }
      inUpdateQueue := true;
      queued := queued + 1;
    }

    /** resetUpdateFlags. */
    method ResetUpdateFlags()
      modifies this`flags
      ensures flags == Reset(old(flags))
    {
      flags := flags * {MomentumChanged};
    }

    // Position, rotation and momentum.

    function GetPosition(): (real, real, real)
      reads this
    {
      (position.pos.x, position.pos.y, position.pos.z)
    }

    function GetRotation(): (real, real)
      reads this
    {
      (position.rot.x, position.rot.z)
    }

    /** The player enters the queue on the first position change since the last reset. */
    method SetPosition(x: real, y: real, z: real)
      requires Valid()
      modifies this`position, this`flags, this`inUpdateQueue, this`queued
      ensures Valid() && GetPosition() == (x, y, z) && position.rot == old(position.rot)
      ensures flags == old(flags) + {PositionChanged}
      ensures inUpdateQueue == (old(inUpdateQueue) || (PositionChanged !in old(flags) && isActorPlayer))
      ensures queued == old(queued) + (if PositionChanged !in old(flags) && isActorPlayer && !old(inUpdateQueue) then 1 else 0)
    {
      position := position.(pos := Vec3(x, y, z));
      if PositionChanged !in flags && isActorPlayer {
        AddToUpdateQueue();
      }
      flags := flags + {PositionChanged};
    }

    /** setRotation writes rot[0] and rot[2]; rot[1] is kept. */
    method SetRotation(x: real, z: real)
      requires Valid()
      modifies this`position, this`flags, this`inUpdateQueue, this`queued
      ensures Valid() && GetRotation() == (x, z) && position.rot.y == old(position.rot.y)
      ensures position.pos == old(position.pos)
      ensures flags == old(flags) + {PositionChanged}
      ensures inUpdateQueue == (old(inUpdateQueue) || (PositionChanged !in old(flags) && isActorPlayer))
      ensures queued == old(queued) + (if PositionChanged !in old(flags) && isActorPlayer && !old(inUpdateQueue) then 1 else 0)
    {
      position := position.(rot := position.rot.(x := x, z := z));
      if PositionChanged !in flags && isActorPlayer {
        AddToUpdateQueue();
      }
      flags := flags + {PositionChanged};
    }

    /** setMomentum: no function in NetActor.cpp or Player.cpp clears the momentum flag, so only the first call can enqueue. */
    method SetMomentum(x: real, y: real, z: real)
      requires Valid()
      modifies this`momentum, this`flags, this`inUpdateQueue, this`queued
      ensures Valid() && momentum == Vec3(x, y, z)
      ensures flags == old(flags) + {MomentumChanged}
      ensures inUpdateQueue == (old(inUpdateQueue) || (MomentumChanged !in old(flags) && isActorPlayer))
      ensures queued == old(queued) + (if MomentumChanged !in old(flags) && isActorPlayer && !old(inUpdateQueue) then 1 else 0)
    {
      momentum := Vec3(x, y, z);
      if MomentumChanged !in flags && isActorPlayer {
        AddToUpdateQueue();
      }
      flags := flags + {MomentumChanged};
    }

    // Health, magicka and fatigue.

    /** The (base, current) pair in a dynamic slot; getHealth, getMagicka and getFatigue. */
    function GetDynamic(slot: nat): (real, real)
      requires slot < |dynamic|
      reads this
    {
      (dynamic[slot].base, dynamic[slot].current)
    }

    /**
     * setHealth, setMagicka and setFatigue on their slot: the slot is written,
     * recorded once in the change list, and the player is queued on the
     * first stats change since the last reset.
     */
    method SetDynamic(slot: nat, base: real, current: real)
      requires Valid() && slot < 3
      modifies this`dynamic, this`statsDynamicIndexChanges, this`flags, this`inUpdateQueue, this`queued
      ensures Valid() && GetDynamic(slot) == (base, current)
      ensures forall k :: 0 <= k < 3 && k != slot ==> dynamic[k] == old(dynamic[k])
      ensures statsDynamicIndexChanges == AddIndex(old(statsDynamicIndexChanges), slot)
      ensures flags == old(flags) + {StatsChanged}
      ensures inUpdateQueue == (old(inUpdateQueue) || (StatsChanged !in old(flags) && isActorPlayer))
      ensures queued == old(queued) + (if StatsChanged !in old(flags) && isActorPlayer && !old(inUpdateQueue) then 1 else 0)
    {
      dynamic := dynamic[slot := DynamicStat(base, current)];
      AddIndexKeepsChangeList(statsDynamicIndexChanges, slot, 3, StatsChanged in flags);
      statsDynamicIndexChanges := AddIndex(statsDynamicIndexChanges, slot);
      if StatsChanged !in flags && isActorPlayer {
        AddToUpdateQueue();
      }
      flags := flags + {StatsChanged};
    }

    method SetHealth(base: real, current: real)
      requires Valid()
      modifies this`dynamic, this`statsDynamicIndexChanges, this`flags, this`inUpdateQueue, this`queued
      ensures Valid() && GetDynamic(HealthSlot) == (base, current)
      ensures dynamic[MagickaSlot] == old(dynamic[MagickaSlot]) && dynamic[FatigueSlot] == old(dynamic[FatigueSlot])
      ensures statsDynamicIndexChanges == AddIndex(old(statsDynamicIndexChanges), HealthSlot)
      ensures flags == old(flags) + {StatsChanged}
      ensures inUpdateQueue == (old(inUpdateQueue) || (StatsChanged !in old(flags) && isActorPlayer))
      ensures queued == old(queued) + (if StatsChanged !in old(flags) && isActorPlayer && !old(inUpdateQueue) then 1 else 0)
    {
      SetDynamic(HealthSlot, base, current);
    }

    method SetMagicka(base: real, current: real)
      requires Valid()
      modifies this`dynamic, this`statsDynamicIndexChanges, this`flags, this`inUpdateQueue, this`queued
      ensures Valid() && GetDynamic(MagickaSlot) == (base, current)
      ensures dynamic[HealthSlot] == old(dynamic[HealthSlot]) && dynamic[FatigueSlot] == old(dynamic[FatigueSlot])
      ensures statsDynamicIndexChanges == AddIndex(old(statsDynamicIndexChanges), MagickaSlot)
      ensures flags == old(flags) + {StatsChanged}
      ensures inUpdateQueue == (old(inUpdateQueue) || (StatsChanged !in old(flags) && isActorPlayer))
      ensures queued == old(queued) + (if StatsChanged !in old(flags) && isActorPlayer && !old(inUpdateQueue) then 1 else 0)
    {
      SetDynamic(MagickaSlot, base, current);
    }

    method SetFatigue(base: real, current: real)
      requires Valid()
      modifies this`dynamic, this`statsDynamicIndexChanges, this`flags, this`inUpdateQueue, this`queued
      ensures Valid() && GetDynamic(FatigueSlot) == (base, current)
      ensures dynamic[HealthSlot] == old(dynamic[HealthSlot]) && dynamic[MagickaSlot] == old(dynamic[MagickaSlot])
      ensures statsDynamicIndexChanges == AddIndex(old(statsDynamicIndexChanges), FatigueSlot)
      ensures flags == old(flags) + {StatsChanged}
      ensures inUpdateQueue == (old(inUpdateQueue) || (StatsChanged !in old(flags) && isActorPlayer))
      ensures queued == old(queued) + (if StatsChanged !in old(flags) && isActorPlayer && !old(inUpdateQueue) then 1 else 0)
    {
      SetDynamic(FatigueSlot, base, current);
    }

    // The update pass.

    /**
     * update: the stats, attribute and skill change lists are cleared when
     * their flag was raised, the mark and selected-spell flags are cleared,
     * the update flags are reset and the player leaves the queue.
     */
    method Update()
      requires Valid()
      modifies this`flags, this`statsDynamicIndexChanges, this`attributeIndexChanges, this`skillIndexChanges
      modifies this`changedMarkLocation, this`changedSelectedSpell, this`inUpdateQueue, this`updates
      ensures Valid() && !inUpdateQueue && flags == Reset(old(flags))
      ensures statsDynamicIndexChanges == [] && attributeIndexChanges == [] && skillIndexChanges == []
      ensures !changedMarkLocation && !changedSelectedSpell
      ensures updates == old(updates) + 1
    {
      ClearChangeLists();
      changedMarkLocation := false;
      changedSelectedSpell := false;
      flags := Reset(flags);
      inUpdateQueue := false;
      updates := updates + 1;
    }

    /**
     * update's clearing of the stats, attribute and skill change lists, each
     * when its flag is raised; since a list is non-empty only while its flag
     * is raised, all three end up empty.
     */
    method ClearChangeLists()
      requires ChangesValid()
      modifies this`statsDynamicIndexChanges, this`attributeIndexChanges, this`skillIndexChanges
      ensures statsDynamicIndexChanges == [] && attributeIndexChanges == [] && skillIndexChanges == []
    {
      if StatsChanged in flags {
        statsDynamicIndexChanges := [];
      }
      if AttributesChanged in flags {
        attributeIndexChanges := [];
      }
      if SkillsChanged in flags {
        skillIndexChanges := [];
      }
    }

    // The handshake counter.

    predicate IsHandshaked()
      reads this
    {
      handshakeCounter == IntMax
    }

    method SetHandshake()
      modifies this`handshakeCounter
      ensures IsHandshaked()
    {
      handshakeCounter := IntMax;
    }

    /** incrementHandshakeAttempts: a signed int increment, so the counter must be below INT_MAX. */
    method IncrementHandshakeAttempts()
      requires handshakeCounter < IntMax
      modifies this`handshakeCounter
      ensures handshakeCounter == old(handshakeCounter) + 1
    {
      handshakeCounter := handshakeCounter + 1;
    }

    method GetHandshakeAttempts() returns (n: int)
      ensures n == handshakeCounter
    {
      n := handshakeCounter;
    }

    // Attributes and skills.

    /** getAttribute: (base, modifier), or zeros for an id out of range. */
    function GetAttribute(id: nat): (r: (int, int))
      requires |attributes| == AttributeCount
      reads this
    {
      if id >= AttributeCount then (0, 0) else (attributes[id].base, attributes[id].mod)
    }

    /**
     * setAttribute: ids out of range are ignored; otherwise the base is
     * stored, the modifier cleared on request, the id recorded once and the
     * attributes flag raised.
     */
    method SetAttribute(id: nat, base: int, clearModifier: bool)
      requires Valid()
      modifies this`attributes, this`attributeIndexChanges, this`flags
      ensures Valid()
      ensures id >= AttributeCount ==> attributes == old(attributes) && attributeIndexChanges == old(attributeIndexChanges) && flags == old(flags)
      ensures id < AttributeCount ==>
        GetAttribute(id) == (base, if clearModifier then 0 else old(attributes[id].mod))
        && (forall k :: 0 <= k < AttributeCount && k != id ==> attributes[k] == old(attributes[k]))
        && attributeIndexChanges == AddIndex(old(attributeIndexChanges), id)
        && flags == old(flags) + {AttributesChanged}
    {
      if id >= AttributeCount {
        return;
      }
      var a := attributes[id].(base := base);
      if clearModifier {
        a := a.(mod := 0);
      }
      attributes := attributes[id := a];
      AddIndexKeepsChangeList(attributeIndexChanges, id, AttributeCount, AttributesChanged in flags);
      attributeIndexChanges := AddIndex(attributeIndexChanges, id);
      flags := flags + {AttributesChanged};
    }

    /** getSkill: (base, modifier, progress), or zeros for an id out of range. */
    function GetSkill(id: nat): (r: (int, int, real))
      requires |skills| == SkillCount
      reads this
    {
      if id >= SkillCount then (0, 0, 0.0) else (skills[id].base, skills[id].mod, skills[id].progress)
    }

    /** setSkill: as setAttribute, on the skill table, and the progress is stored too. */
    method SetSkill(id: nat, base: int, clearModifier: bool, progress: real)
      requires Valid()
      modifies this`skills, this`skillIndexChanges, this`flags
      ensures Valid()
      ensures id >= SkillCount ==> skills == old(skills) && skillIndexChanges == old(skillIndexChanges) && flags == old(flags)
      ensures id < SkillCount ==>
        GetSkill(id) == (base, if clearModifier then 0 else old(skills[id].mod), progress)
        && (forall k :: 0 <= k < SkillCount && k != id ==> skills[k] == old(skills[k]))
        && skillIndexChanges == AddIndex(old(skillIndexChanges), id)
        && flags == old(flags) + {SkillsChanged}
    {
      if id >= SkillCount {
        return;
      }
      var s := skills[id].(base := base);
      if clearModifier {
        s := s.(mod := 0);
      }
      s := s.(progress := progress);
      skills := skills[id := s];
      AddIndexKeepsChangeList(skillIndexChanges, id, SkillCount, SkillsChanged in flags);
      skillIndexChanges := AddIndex(skillIndexChanges, id);
      flags := flags + {SkillsChanged};
    }

    /** getSkillIncrease does no bounds check, so the id must be in range. */
    function GetSkillIncrease(id: nat): int
      requires |skillIncrease| == AttributeCount && id < AttributeCount
      reads this
    {
      skillIncrease[id]
    }

    /** setSkillIncrease: indexed by attribute; it shares the attribute change list and flag. */
    method SetSkillIncrease(id: nat, increase: int)
      requires Valid()
      modifies this`skillIncrease, this`attributeIndexChanges, this`flags
      ensures Valid()
      ensures id >= AttributeCount ==> skillIncrease == old(skillIncrease) && attributeIndexChanges == old(attributeIndexChanges) && flags == old(flags)
      ensures id < AttributeCount ==>
        GetSkillIncrease(id) == increase
        && (forall k :: 0 <= k < AttributeCount && k != id ==> skillIncrease[k] == old(skillIncrease[k]))
        && attributeIndexChanges == AddIndex(old(attributeIndexChanges), id)
        && flags == old(flags) + {AttributesChanged}
    {
      if id >= AttributeCount {
        return;
      }
      skillIncrease := skillIncrease[id := increase];
      AddIndexKeepsChangeList(attributeIndexChanges, id, AttributeCount, AttributesChanged in flags);
      attributeIndexChanges := AddIndex(attributeIndexChanges, id);
      flags := flags + {AttributesChanged};
    }

    // Property setters: each stores its value and raises one flag; none enqueues the player.

    method SetName(n: string)
      requires Valid()
      modifies this`name, this`flags
      ensures Valid() && name == n && flags == old(flags) + {BaseInfoChanged}
    {
      name := n;
      flags := flags + {BaseInfoChanged};
    }

    /** setGender: npc.setIsMale is defined outside this model, which stores whether the value is non-zero. */
    method SetGender(gender: int)
      requires Valid()
      modifies this`isMale, this`flags
      ensures Valid() && isMale == (gender != 0) && flags == old(flags) + {BaseInfoChanged}
    {
      isMale := gender != 0;
      flags := flags + {BaseInfoChanged};
    }

    method SetRace(r: string)
      requires Valid()
      modifies this`race, this`flags
      ensures Valid() && race == r && flags == old(flags) + {BaseInfoChanged}
    {
      race := r;
      flags := flags + {BaseInfoChanged};
    }

    method SetHead(h: string)
      requires Valid()
      modifies this`head, this`flags
      ensures Valid() && head == h && flags == old(flags) + {BaseInfoChanged}
    {
      head := h;
      flags := flags + {BaseInfoChanged};
    }

    method SetHair(h: string)
      requires Valid()
      modifies this`hair, this`flags
      ensures Valid() && hair == h && flags == old(flags) + {BaseInfoChanged}
    {
      hair := h;
      flags := flags + {BaseInfoChanged};
    }

    method SetBirthsign(sign: string)
      requires Valid()
      modifies this`birthsign, this`flags
      ensures Valid() && birthsign == sign && flags == old(flags) + {BaseInfoChanged}
    {
      birthsign := sign;
      flags := flags + {BaseInfoChanged};
    }

    method SetResetStats(state: bool)
      requires Valid()
      modifies this`resetStats, this`flags
      ensures Valid() && resetStats == state && flags == old(flags) + {BaseInfoChanged}
    {
      resetStats := state;
      flags := flags + {BaseInfoChanged};
    }

    method SetLevel(l: int)
      requires Valid()
      modifies this`level, this`flags
      ensures Valid() && level == l && flags == old(flags) + {LevelChanged}
    {
      level := l;
      flags := flags + {LevelChanged};
    }

    method SetLevelProgress(progress: int)
      requires Valid()
      modifies this`levelProgress, this`flags
      ensures Valid() && levelProgress == progress && flags == old(flags) + {LevelChanged}
    {
      levelProgress := progress;
      flags := flags + {LevelChanged};
    }

    method SetCreatureRefId(refId: string)
      requires Valid()
      modifies this`creatureRefId, this`flags
      ensures Valid() && creatureRefId == refId && flags == old(flags) + {ShapeshiftChanged}
    {
      creatureRefId := refId;
      flags := flags + {ShapeshiftChanged};
    }

    method SetCreatureNameDisplayState(useName: bool)
      requires Valid()
      modifies this`displayCreatureName, this`flags
      ensures Valid() && displayCreatureName == useName && flags == old(flags) + {ShapeshiftChanged}
    {
      displayCreatureName := useName;
      flags := flags + {ShapeshiftChanged};
    }

    method SetWerewolfState(state: bool)
      requires Valid()
      modifies this`isWerewolf, this`flags
      ensures Valid() && isWerewolf == state && flags == old(flags) + {ShapeshiftChanged}
    {
      isWerewolf := state;
      flags := flags + {ShapeshiftChanged};
    }

    method SetScale(newScale: real)
      requires Valid()
      modifies this`scale, this`flags
      ensures Valid() && scale == newScale && flags == old(flags) + {ShapeshiftChanged}
    {
      scale := newScale;
      flags := flags + {ShapeshiftChanged};
    }

    /** setMark writes pos[0..2], rot[0] and rot[2]; rot[1] is kept. */
    method SetMark(x: real, y: real, z: real, xRot: real, zRot: real, cellDescription: string)
      modifies this`markPosition, this`markCell, this`changedMarkLocation
      ensures markPosition == Position(Vec3(x, y, z), old(markPosition.rot).(x := xRot, z := zRot))
      ensures markCell == cellDescription && changedMarkLocation
    {
      markPosition := Position(Vec3(x, y, z), markPosition.rot.(x := xRot, z := zRot));
      markCell := cellDescription;
      changedMarkLocation := true;
    }

    method SetSelectedSpell(spell: string)
      modifies this`selectedSpellId, this`changedSelectedSpell
      ensures selectedSpellId == spell && changedSelectedSpell
    {
      selectedSpellId := spell;
      changedSelectedSpell := true;
    }

    // The players in the loaded cells.

    /** Some loaded cell lists p. */
    ghost predicate InLoadedCell(p: Actor)
      reads this
    {
      exists i, j :: 0 <= i < |cells| && 0 <= j < |cells[i]| && cells[i][j] == p
    }

    /**
     * forEachLoaded: the players func(this, p) is called with, each once:
     * exactly the named players listed in a loaded cell, other than this one.
     */
    method ForEachLoaded() returns (others: seq<Actor>)
      ensures forall i, k :: 0 <= i < k < |others| ==> others[i] != others[k]
      ensures forall k :: 0 <= k < |others| ==> others[k] != this && others[k].name != [] && InLoadedCell(others[k])
      ensures forall i, j :: (0 <= i < |cells| && 0 <= j < |cells[i]| && cells[i][j] != null
        && cells[i][j].name != [] && cells[i][j] != this) ==> cells[i][j] in others
    {
      var list: seq<Actor> := [];
      for i := 0 to |cells|
        invariant forall a, b :: 0 <= a < b < |list| ==> list[a] != list[b]
        invariant forall k :: 0 <= k < |list| ==> list[k].name != [] && InLoadedCell(list[k])
        invariant forall c, j :: (0 <= c < i && 0 <= j < |cells[c]| && cells[c][j] != null
          && cells[c][j].name != []) ==> cells[c][j] in list
      {
        for j := 0 to |cells[i]|
          invariant forall a, b :: 0 <= a < b < |list| ==> list[a] != list[b]
          invariant forall k :: 0 <= k < |list| ==> list[k].name != [] && InLoadedCell(list[k])
          invariant forall c, m :: (((0 <= c < i && 0 <= m < |cells[c]|) || (c == i && 0 <= m < j))
            && cells[c][m] != null && cells[c][m].name != []) ==> cells[c][m] in list
        {
          var pl := cells[i][j];
          if pl != null && pl.name != [] && pl !in list {
            list := list + [pl];
          }
        }
      }
      others := [];
      for k := 0 to |list|
        invariant forall a, b :: 0 <= a < b < |others| ==> others[a] != others[b]
        invariant forall m :: 0 <= m < |others| ==> others[m] != this && others[m] in list[..k]
        invariant forall m :: 0 <= m < k && list[m] != this ==> list[m] in others
      {
        if list[k] != this {
          others := others + [list[k]];
        }
      }
    }
  }
}
