// PacketPlayerAttack: whether the target is a player, then either the target
// player's guid or the target actor's refId, refNum and mpNum, then the nine
// fields of the attack itself in a fixed order. A reader picks the branch by
// the isPlayer it has just read.

module PlayerAttackPacket {
  import opened BitStreams

  /** Target of an attack: a player (by guid) or an actor (by refId, refNum and mpNum). */
  datatype Target = Target(isPlayer: bool, guid: nat, refId: string, refNum: int, mpNum: int)

  /** mwmp::Attack, with its type as an integer and damage as a real. */
  datatype Attack = Attack(
    target: Target,
    spellId: string,
    attackType: int,
    success: bool,
    damage: real,
    pressed: bool,
    knockdown: bool,
    block: bool,
    applyWeaponEnchantment: bool,
    applyProjectileEnchantment: bool)

  /** The target's identification: the guid of a player, the three reference fields of an actor. */
  function TargetTokens(t: Target): (r: seq<Token>)
  {
    [Bool(t.isPlayer)] + (if t.isPlayer then [Guid(t.guid)] else [Str(t.refId), Int(t.refNum), Int(t.mpNum)])
  }

  /** The attack's spell, type, success and damage, in the order they are written. */
  function HeadTokens(a: Attack): (r: seq<Token>)
    ensures |r| == 4
  {
    [Str(a.spellId), Int(a.attackType), Bool(a.success), Real(a.damage)]
  }

  /** Pressed, knockdown and block, in the order they are written. */
  function StrikeTokens(a: Attack): (r: seq<Token>)
    ensures |r| == 3
  {
    [Bool(a.pressed), Bool(a.knockdown), Bool(a.block)]
  }

  /** The two enchantment flags, in the order they are written. */
  function EnchantmentTokens(a: Attack): (r: seq<Token>)
    ensures |r| == 2
  {
    [Bool(a.applyWeaponEnchantment), Bool(a.applyProjectileEnchantment)]
  }

  /** The attack's own fields, in the order they are written. */
  function TailTokens(a: Attack): (r: seq<Token>)
    ensures |r| == 9
  {
    HeadTokens(a) + StrikeTokens(a) + EnchantmentTokens(a)
  }

  /** What the packet body writes. */
  function SendBody(a: Attack): (r: seq<Token>)
    ensures |r| == (if a.target.isPlayer then 11 else 13)
  {
    TargetTokens(a.target) + TailTokens(a)
  }

  /**
   * Reading the target into t: first isPlayer, then the branch that the value
   * now in isPlayer selects. A field that cannot be read keeps t's value, and
   * the fields of the other branch are never touched.
   */
  function ReadTarget(ts: seq<Token>, pos: nat, t: Target): (r: (Target, nat))
    ensures r.0.isPlayer ==> r.0.refId == t.refId && r.0.refNum == t.refNum && r.0.mpNum == t.mpNum
    ensures !r.0.isPlayer ==> r.0.guid == t.guid
    ensures pos <= r.1
  {
    var p := ReadAt(ts, pos, Bool(t.isPlayer));
    if p.0.b then
      var g := ReadAt(ts, p.1, Guid(t.guid));
      (t.(isPlayer := true, guid := g.0.guid), g.1)
    else
      var r1 := ReadAt(ts, p.1, Str(t.refId));
      var r2 := ReadAt(ts, r1.1, Int(t.refNum));
      var r3 := ReadAt(ts, r2.1, Int(t.mpNum));
      (t.(isPlayer := false, refId := r1.0.s, refNum := r2.0.i, mpNum := r3.0.i), r3.1)
  }

  /** Reading spellId, type, success and damage into a; a field that cannot be read keeps a's value. */
  function ReadHead(ts: seq<Token>, pos: nat, a: Attack): (r: (Attack, nat))
    ensures r.0.target == a.target && r.0.pressed == a.pressed && r.0.knockdown == a.knockdown && r.0.block == a.block
    ensures r.0.applyWeaponEnchantment == a.applyWeaponEnchantment && r.0.applyProjectileEnchantment == a.applyProjectileEnchantment
    ensures pos <= r.1
  {
    var r1 := ReadAt(ts, pos, Str(a.spellId));
    var r2 := ReadAt(ts, r1.1, Int(a.attackType));
    var r3 := ReadAt(ts, r2.1, Bool(a.success));
    var r4 := ReadAt(ts, r3.1, Real(a.damage));
    (Attack(a.target, r1.0.s, r2.0.i, r3.0.b, r4.0.r,
      a.pressed, a.knockdown, a.block, a.applyWeaponEnchantment, a.applyProjectileEnchantment), r4.1)
  }

  /** Reading pressed, knockdown and block into a; a flag that cannot be read keeps a's value. */
  function ReadStrike(ts: seq<Token>, pos: nat, a: Attack): (r: (Attack, nat))
    ensures r.0.target == a.target && r.0.spellId == a.spellId && r.0.attackType == a.attackType
    ensures r.0.success == a.success && r.0.damage == a.damage
    ensures r.0.applyWeaponEnchantment == a.applyWeaponEnchantment && r.0.applyProjectileEnchantment == a.applyProjectileEnchantment
    ensures pos <= r.1
  {
    var r1 := ReadAt(ts, pos, Bool(a.pressed));
    var r2 := ReadAt(ts, r1.1, Bool(a.knockdown));
    var r3 := ReadAt(ts, r2.1, Bool(a.block));
    (Attack(a.target, a.spellId, a.attackType, a.success, a.damage, r1.0.b, r2.0.b, r3.0.b,
      a.applyWeaponEnchantment, a.applyProjectileEnchantment), r3.1)
  }

  /** Reading the two enchantment flags into a; a flag that cannot be read keeps a's value. */
  function ReadEnchantments(ts: seq<Token>, pos: nat, a: Attack): (r: (Attack, nat))
    ensures r.0.target == a.target && r.0.spellId == a.spellId && r.0.attackType == a.attackType
    ensures r.0.success == a.success && r.0.damage == a.damage
    ensures r.0.pressed == a.pressed && r.0.knockdown == a.knockdown && r.0.block == a.block
    ensures pos <= r.1
  {
    var r1 := ReadAt(ts, pos, Bool(a.applyWeaponEnchantment));
    var r2 := ReadAt(ts, r1.1, Bool(a.applyProjectileEnchantment));
    (Attack(a.target, a.spellId, a.attackType, a.success, a.damage, a.pressed, a.knockdown, a.block, r1.0.b, r2.0.b), r2.1)
  }

  /** Reading the nine attack fields into a, keeping a's target. */
  function ReadTail(ts: seq<Token>, pos: nat, a: Attack): (r: (Attack, nat))
    ensures r.0.target == a.target && pos <= r.1
  {
    var h := ReadHead(ts, pos, a);
    var k := ReadStrike(ts, h.1, h.0);
    ReadEnchantments(ts, k.1, k.0)
  }

  /** The read side of the body: the target, then the attack's own fields. */
  function ReadBody(ts: seq<Token>, pos: nat, a: Attack): (Attack, nat)
  {
    var t := ReadTarget(ts, pos, a.target);
    ReadTail(ts, t.1, a.(target := t.0))
  }

  /**
   * What a reader holding a0 ends up with after reading a sent a: every field
   * sent, and for the branch that was not sent, a0's values.
   */
  function Received(a: Attack, a0: Attack): (r: Attack)
    ensures r.target.isPlayer == a.target.isPlayer
    ensures r.target.isPlayer ==> (r.target.guid == a.target.guid
      && (r.target.refId, r.target.refNum, r.target.mpNum) == (a0.target.refId, a0.target.refNum, a0.target.mpNum))
    ensures !r.target.isPlayer ==> (r.target.guid == a0.target.guid
      && (r.target.refId, r.target.refNum, r.target.mpNum) == (a.target.refId, a.target.refNum, a.target.mpNum))
    ensures r.(target := a.target) == a
  {
    var t := if a.target.isPlayer then a0.target.(isPlayer := true, guid := a.target.guid)
      else a0.target.(isPlayer := false, refId := a.target.refId, refNum := a.target.refNum, mpNum := a.target.mpNum);
    a.(target := t)
  }

  /** The target written at pos is read back in its branch, the other branch left as it was. */
  lemma ReadsTarget(ts: seq<Token>, pos: nat, t: Target, t0: Target)
    requires pos + |TargetTokens(t)| <= |ts| && ts[pos..pos + |TargetTokens(t)|] == TargetTokens(t)
    ensures ReadTarget(ts, pos, t0) == (if t.isPlayer then t0.(isPlayer := true, guid := t.guid)
      else t0.(isPlayer := false, refId := t.refId, refNum := t.refNum, mpNum := t.mpNum), pos + |TargetTokens(t)|)
  {
    assert ts[pos] == TargetTokens(t)[0];
    if t.isPlayer {
      assert ts[pos + 1] == TargetTokens(t)[1];
    } else {
      assert ts[pos + 1] == TargetTokens(t)[1] && ts[pos + 2] == TargetTokens(t)[2] && ts[pos + 3] == TargetTokens(t)[3];
    }
  }

  /** The four head fields written at pos are read back, ending right after them. */
  lemma ReadsHead(ts: seq<Token>, pos: nat, a: Attack, a0: Attack)
    requires pos + 4 <= |ts| && ts[pos] == Str(a.spellId) && ts[pos + 1] == Int(a.attackType)
    requires ts[pos + 2] == Bool(a.success) && ts[pos + 3] == Real(a.damage)
    ensures ReadHead(ts, pos, a0) == (Attack(a0.target, a.spellId, a.attackType, a.success, a.damage,
      a0.pressed, a0.knockdown, a0.block, a0.applyWeaponEnchantment, a0.applyProjectileEnchantment), pos + 4)
  {
  }

  /** Pressed, knockdown and block written at pos are read back, ending right after them. */
  lemma ReadsStrike(ts: seq<Token>, pos: nat, a: Attack, a0: Attack)
    requires pos + 3 <= |ts| && ts[pos] == Bool(a.pressed) && ts[pos + 1] == Bool(a.knockdown) && ts[pos + 2] == Bool(a.block)
    ensures ReadStrike(ts, pos, a0) == (Attack(a0.target, a0.spellId, a0.attackType, a0.success, a0.damage,
      a.pressed, a.knockdown, a.block, a0.applyWeaponEnchantment, a0.applyProjectileEnchantment), pos + 3)
  {
  }

  /** The enchantment flags written at pos are read back, ending right after them. */
  lemma ReadsEnchantments(ts: seq<Token>, pos: nat, a: Attack, a0: Attack)
    requires pos + 2 <= |ts| && ts[pos] == Bool(a.applyWeaponEnchantment) && ts[pos + 1] == Bool(a.applyProjectileEnchantment)
    ensures ReadEnchantments(ts, pos, a0) == (Attack(a0.target, a0.spellId, a0.attackType, a0.success, a0.damage,
      a0.pressed, a0.knockdown, a0.block, a.applyWeaponEnchantment, a.applyProjectileEnchantment), pos + 2)
  {
  }

  /** The nine attack fields written at pos are read back, ending right after them. */
  lemma ReadsTail(ts: seq<Token>, pos: nat, a: Attack, a0: Attack)
    requires pos + 9 <= |ts| && ts[pos..pos + 9] == TailTokens(a)
    ensures ReadTail(ts, pos, a0) == (a.(target := a0.target), pos + 9)
  {
    var tt := TailTokens(a);
    assert ts[pos] == tt[0] && ts[pos + 1] == tt[1] && ts[pos + 2] == tt[2] && ts[pos + 3] == tt[3];
    ReadsHead(ts, pos, a, a0);
    var h := ReadHead(ts, pos, a0);
    assert ts[pos + 4] == tt[4] && ts[pos + 5] == tt[5] && ts[pos + 6] == tt[6];
    ReadsStrike(ts, pos + 4, a, h.0);
    var k := ReadStrike(ts, pos + 4, h.0);
    assert ts[pos + 7] == tt[7] && ts[pos + 8] == tt[8];
    ReadsEnchantments(ts, pos + 7, a, k.0);
  }

  /**
   * Round trip, in both branches: reading what send wrote, from just after
   * the header, gives back isPlayer, the sent branch of the target and every
   * attack field; the other branch keeps the reader's values. It stops at the
   * end of the body.
   */
  lemma RoundTrip(a: Attack, a0: Attack, pre: seq<Token>, rest: seq<Token>)
    ensures ReadBody(pre + SendBody(a) + rest, |pre|, a0) == (Received(a, a0), |pre| + |SendBody(a)|)
  {
    var ts := pre + SendBody(a) + rest;
    var n := |TargetTokens(a.target)|;
    assert ts[|pre|..|pre| + n] == TargetTokens(a.target);
    assert ts[|pre| + n..|pre| + n + 9] == TailTokens(a);
    ReadsTarget(ts, |pre|, a.target, a0.target);
    var t := ReadTarget(ts, |pre|, a0.target);
    ReadsTail(ts, t.1, a, a0.(target := t.0));
  }

  /** Equal target tokens mean equal isPlayer and equal fields of the sent branch. */
  lemma TargetTokensInjective(t: Target, u: Target)
    requires TargetTokens(t) == TargetTokens(u)
    ensures t.isPlayer == u.isPlayer
    ensures t.isPlayer ==> t.guid == u.guid
    ensures !t.isPlayer ==> t.refId == u.refId && t.refNum == u.refNum && t.mpNum == u.mpNum
  {
    var x := TargetTokens(t);
    var y := TargetTokens(u);
    assert x[0] == y[0];
    if t.isPlayer {
      assert x[1] == y[1];
    } else {
      assert x[1] == y[1] && x[2] == y[2] && x[3] == y[3];
    }
  }

  /** Equal tail tokens mean equal attack fields. */
  lemma TailTokensInjective(a: Attack, b: Attack)
    requires TailTokens(a) == TailTokens(b)
    ensures a.(target := b.target) == b
  {
    var x := TailTokens(a);
    var y := TailTokens(b);
    assert x[0] == y[0] && x[1] == y[1] && x[2] == y[2] && x[3] == y[3] && x[4] == y[4];
    assert x[5] == y[5] && x[6] == y[6] && x[7] == y[7] && x[8] == y[8];
  }

  /** Sending two attacks gives the same tokens exactly when they agree on isPlayer, the sent branch and the attack fields. */
  lemma SendBodyInjective(a: Attack, b: Attack)
    ensures SendBody(a) == SendBody(b) <==> Received(a, b) == b
  {
    if SendBody(a) == SendBody(b) {
      var sa := SendBody(a);
      assert sa[0] == Bool(a.target.isPlayer) && SendBody(b)[0] == Bool(b.target.isPlayer);
      var n := |TargetTokens(a.target)|;
      assert TargetTokens(a.target) == sa[..n] && TargetTokens(b.target) == SendBody(b)[..n];
      assert TailTokens(a) == sa[n..] && TailTokens(b) == SendBody(b)[n..];
      TargetTokensInjective(a.target, b.target);
      TailTokensInjective(a, b);
    }
  }

  /** The player whose attack the packet carries. */
  class BasePlayer {
    var guid: nat
    var attack: Attack

    constructor (guid: nat, attack: Attack)
      ensures this.guid == guid && this.attack == attack
    {
      this.guid := guid;
      this.attack := attack;
    }
  }

  /**
   * Packet(bs, send). Sending writes the header and the body and changes
   * nothing else; reading fills the attack from the stream, choosing the
   * target's branch by the isPlayer just read.
   */
  method Packet(player: BasePlayer, packetID: nat, bs: BitStream, send: bool)
    modifies player`attack, bs`tokens, bs`readPos
    ensures send ==>
      player.attack == old(player.attack)
      && bs.tokens == old(bs.tokens) + Header(packetID, player.guid) + SendBody(old(player.attack))
      && bs.readPos == old(bs.readPos)
    ensures !send ==>
      bs.tokens == old(bs.tokens)
      && (player.attack, bs.readPos) == ReadBody(bs.tokens, old(bs.readPos), old(player.attack))
  {
    bs.WriteHeader(packetID, player.guid, send);
    var t := RWTarget(bs, player.attack.target, send);
    var a := player.attack.(target := t);
    a := RWTail(bs, a, send);
    player.attack := a;
  }

  /** The RW of isPlayer, then of the guid or of refId, refNum and mpNum, as the isPlayer now held selects. */
  method RWTarget(bs: BitStream, t: Target, send: bool) returns (r: Target)
    modifies bs`tokens, bs`readPos
    ensures send ==> r == t && bs.tokens == old(bs.tokens) + TargetTokens(t) && bs.readPos == old(bs.readPos)
    ensures !send ==> bs.tokens == old(bs.tokens) && (r, bs.readPos) == ReadTarget(bs.tokens, old(bs.readPos), t)
  {
    var isPlayer := bs.RW(Bool(t.isPlayer), send);
    if isPlayer.b {
      var g := bs.RW(Guid(t.guid), send);
      r := t.(isPlayer := true, guid := g.guid);
    } else {
      var r1 := bs.RW(Str(t.refId), send);
      var r2 := bs.RW(Int(t.refNum), send);
      var r3 := bs.RW(Int(t.mpNum), send);
      r := t.(isPlayer := false, refId := r1.s, refNum := r2.i, mpNum := r3.i);
    }
  }

  /** The RW calls for the nine attack fields. */
  method RWTail(bs: BitStream, a: Attack, send: bool) returns (r: Attack)
    modifies bs`tokens, bs`readPos
    ensures send ==> r == a && bs.tokens == old(bs.tokens) + TailTokens(a) && bs.readPos == old(bs.readPos)
    ensures !send ==> bs.tokens == old(bs.tokens) && (r, bs.readPos) == ReadTail(bs.tokens, old(bs.readPos), a)
  {
    r := RWHead(bs, a, send);
    r := RWStrike(bs, r, send);
    r := RWEnchantments(bs, r, send);
  }

  /** The RW calls for spellId, type, success and damage. */
  method RWHead(bs: BitStream, a: Attack, send: bool) returns (r: Attack)
    modifies bs`tokens, bs`readPos
    ensures send ==> r == a && bs.tokens == old(bs.tokens) + HeadTokens(a) && bs.readPos == old(bs.readPos)
    ensures !send ==> bs.tokens == old(bs.tokens) && (r, bs.readPos) == ReadHead(bs.tokens, old(bs.readPos), a)
  {
    var r1 := bs.RW(Str(a.spellId), send);
    var r2 := bs.RW(Int(a.attackType), send);
    var r3 := bs.RW(Bool(a.success), send);
    var r4 := bs.RW(Real(a.damage), send);
    r := Attack(a.target, r1.s, r2.i, r3.b, r4.r, a.pressed, a.knockdown, a.block, a.applyWeaponEnchantment, a.applyProjectileEnchantment);
  }

  /** The RW calls for pressed, knockdown and block. */
  method RWStrike(bs: BitStream, a: Attack, send: bool) returns (r: Attack)
    modifies bs`tokens, bs`readPos
    ensures send ==> r == a && bs.tokens == old(bs.tokens) + StrikeTokens(a) && bs.readPos == old(bs.readPos)
    ensures !send ==> bs.tokens == old(bs.tokens) && (r, bs.readPos) == ReadStrike(bs.tokens, old(bs.readPos), a)
  {
    var r1 := bs.RW(Bool(a.pressed), send);
    var r2 := bs.RW(Bool(a.knockdown), send);
    var r3 := bs.RW(Bool(a.block), send);
    r := Attack(a.target, a.spellId, a.attackType, a.success, a.damage, r1.b, r2.b, r3.b,
      a.applyWeaponEnchantment, a.applyProjectileEnchantment);
  }

  /** The RW calls for the two enchantment flags. */
  method RWEnchantments(bs: BitStream, a: Attack, send: bool) returns (r: Attack)
    modifies bs`tokens, bs`readPos
    ensures send ==> r == a && bs.tokens == old(bs.tokens) + EnchantmentTokens(a) && bs.readPos == old(bs.readPos)
    ensures !send ==> bs.tokens == old(bs.tokens) && (r, bs.readPos) == ReadEnchantments(bs.tokens, old(bs.readPos), a)
  {
    var r1 := bs.RW(Bool(a.applyWeaponEnchantment), send);
    var r2 := bs.RW(Bool(a.applyProjectileEnchantment), send);
    r := Attack(a.target, a.spellId, a.attackType, a.success, a.damage, a.pressed, a.knockdown, a.block, r1.b, r2.b);
  }
}
