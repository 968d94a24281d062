// PacketActorAttack: a count, the cell the actors are in (its flags, X, Y and
// name) and then, for each actor, its refId, refNumIndex and mpNum. Nothing
// else of an actor is carried: on read, every actor is built in one reused
// BaseActor variable, so its other fields keep that variable's defaults.

module ActorAttackPacket {
  import opened BitStreams

  /** The cell an actor list refers to: ESM::Cell's DATA block and name. */
  datatype Cell = Cell(data: CellData, name: string)

  /**
   * A BaseActor, reduced to the three fields the packet carries and one value
   * standing for all the others (position, stats, animation, attack, ...).
   */
  datatype BaseActor = BaseActor(refId: string, refNumIndex: int, mpNum: int, other: int)

  /** The value of a default-constructed BaseActor. */
  const DefaultBaseActor: BaseActor := BaseActor([], 0, 0, 0)

  function ActorTokens(a: BaseActor): (r: seq<Token>)
    ensures |r| == 3
  {
    [Str(a.refId), Int(a.refNumIndex), Int(a.mpNum)]
  }

  /** The actors, one after the other. */
  function EncodeActors(actors: seq<BaseActor>): (r: seq<Token>)
    ensures |r| == 3 * |actors|
    decreases |actors|
  {
    if actors == [] then [] else EncodeActors(actors[..|actors| - 1]) + ActorTokens(actors[|actors| - 1])
  }

  function CellTokens(c: Cell): (r: seq<Token>)
  {
    [Int(c.data.flags), Int(c.data.x), Int(c.data.y), Str(c.name)]
  }

  /** What the packet body writes: the count as an unsigned int, the cell, then that many actors. */
  function SendBody(cell: Cell, actors: seq<BaseActor>): (r: seq<Token>)
  {
    var count := |actors| % CountModulus;
    [U32(count)] + CellTokens(cell) + EncodeActors(actors[..count])
  }

  /** What a reader gets for an actor that was sent: the three carried fields, the rest default. */
  function Carried(a: BaseActor): (r: BaseActor)
    ensures r.refId == a.refId && r.refNumIndex == a.refNumIndex && r.mpNum == a.mpNum
    ensures r.other == DefaultBaseActor.other
  {
    BaseActor(a.refId, a.refNumIndex, a.mpNum, DefaultBaseActor.other)
  }

  function CarriedAll(actors: seq<BaseActor>): (r: seq<BaseActor>)
    ensures |r| == |actors| && forall k :: 0 <= k < |actors| ==> r[k] == Carried(actors[k])
  {
    seq(|actors|, k requires 0 <= k < |actors| => Carried(actors[k]))
  }

  /** Reading one actor into the reused variable a: a field that cannot be read keeps a's value. */
  function ReadActor(ts: seq<Token>, pos: nat, a: BaseActor): (BaseActor, nat)
  {
    var r1 := ReadAt(ts, pos, Str(a.refId));
    var r2 := ReadAt(ts, r1.1, Int(a.refNumIndex));
    var r3 := ReadAt(ts, r2.1, Int(a.mpNum));
    (BaseActor(r1.0.s, r2.0.i, r3.0.i, a.other), r3.1)
  }

  /**
   * Reading n actors from pos: the actors, the end position and the reused
   * variable's final value. Exactly n actors come out, and none of them has
   * anything but the default in the fields the packet does not carry.
   */
  function ReadActors(ts: seq<Token>, pos: nat, n: nat): (r: (seq<BaseActor>, nat, BaseActor))
    ensures |r.0| == n && pos <= r.1
    ensures r.2.other == DefaultBaseActor.other
    ensures forall k :: 0 <= k < n ==> r.0[k].other == DefaultBaseActor.other
    decreases n
  {
    if n == 0 then ([], pos, DefaultBaseActor)
    else
      var prev := ReadActors(ts, pos, n - 1);
      var next := ReadActor(ts, prev.1, prev.2);
      (prev.0 + [next.0], next.1, next.0)
  }

  /** Reading the cell into c: a field that cannot be read keeps c's value. */
  function ReadCell(ts: seq<Token>, pos: nat, c: Cell): (Cell, nat)
  {
    var r1 := ReadAt(ts, pos, Int(c.data.flags));
    var r2 := ReadAt(ts, r1.1, Int(c.data.x));
    var r3 := ReadAt(ts, r2.1, Int(c.data.y));
    var r4 := ReadAt(ts, r3.1, Str(c.name));
    (Cell(CellData(r1.0.i, r2.0.i, r3.0.i), r4.0.s), r4.1)
  }

  /** The read side of the body: the count and the cell (each kept when it cannot be read), the actors, the end position. */
  function ReadBody(ts: seq<Token>, pos: nat, count0: nat, cell0: Cell): (nat, Cell, seq<BaseActor>, nat)
  {
    var count := ReadAt(ts, pos, U32(count0));
    var cell := ReadCell(ts, count.1, cell0);
    var actors := ReadActors(ts, cell.1, count.0.n);
    (count.0.n, cell.0, actors.0, actors.1)
  }

  /** Actor k of actors sits at tokens pos + 3k .. pos + 3k + 2. */
  ghost predicate EncodedAt(ts: seq<Token>, pos: nat, actors: seq<BaseActor>)
  {
    pos + 3 * |actors| <= |ts|
    && forall k :: 0 <= k < |actors| ==>
      ts[pos + 3 * k] == Str(actors[k].refId) && ts[pos + 3 * k + 1] == Int(actors[k].refNumIndex) && ts[pos + 3 * k + 2] == Int(actors[k].mpNum)
  }

  /** At pos: the number of actors as an unsigned int, the cell, then the actors. */
  ghost predicate BodyAt(ts: seq<Token>, pos: nat, cell: Cell, actors: seq<BaseActor>)
  {
    pos + 5 <= |ts| && ts[pos] == U32(|actors|)
    && ts[pos + 1] == Int(cell.data.flags) && ts[pos + 2] == Int(cell.data.x)
    && ts[pos + 3] == Int(cell.data.y) && ts[pos + 4] == Str(cell.name)
    && EncodedAt(ts, pos + 5, actors)
  }

  /** Encoding one actor more of a list appends that actor's tokens. */
  lemma EncodePrefixStep(actors: seq<BaseActor>, i: nat)
    requires i < |actors|
    ensures EncodeActors(actors[..i + 1]) == EncodeActors(actors[..i]) + [Str(actors[i].refId), Int(actors[i].refNumIndex), Int(actors[i].mpNum)]
  {
    assert actors[..i + 1][..i] == actors[..i];
  }

  /** One actor written at pos is read back into any variable: the carried fields from the stream, the rest kept. */
  lemma ReadsOneEncoded(ts: seq<Token>, pos: nat, a: BaseActor, into: BaseActor)
    requires pos + 3 <= |ts| && ts[pos] == Str(a.refId) && ts[pos + 1] == Int(a.refNumIndex) && ts[pos + 2] == Int(a.mpNum)
    ensures ReadActor(ts, pos, into) == (BaseActor(a.refId, a.refNumIndex, a.mpNum, into.other), pos + 3)
  {
  }

  /** The first n actors encoded at pos are read back as what they carry, in order, ending right after them. */
  lemma {:induction false} ReadsEncoded(ts: seq<Token>, pos: nat, actors: seq<BaseActor>, n: nat)
    requires EncodedAt(ts, pos, actors) && n <= |actors|
    ensures ReadActors(ts, pos, n).0 == CarriedAll(actors[..n])
    ensures ReadActors(ts, pos, n).1 == pos + 3 * n
    decreases n
  {
    if n > 0 {
      ReadsEncoded(ts, pos, actors, n - 1);
      var prev := ReadActors(ts, pos, n - 1);
      ReadsOneEncoded(ts, pos + 3 * (n - 1), actors[n - 1], prev.2);
      assert CarriedAll(actors[..n]) == CarriedAll(actors[..n - 1]) + [Carried(actors[n - 1])];
    }
  }

  /** Encoded actors sit at their places, whatever comes before and after them. */
  lemma {:induction false} EncodingIsEncodedAt(pre: seq<Token>, actors: seq<BaseActor>, rest: seq<Token>)
    ensures EncodedAt(pre + EncodeActors(actors) + rest, |pre|, actors)
    decreases |actors|
  {
    if actors != [] {
      var init := actors[..|actors| - 1];
      var last := actors[|actors| - 1];
      var tail := ActorTokens(last) + rest;
      assert pre + EncodeActors(actors) + rest == pre + EncodeActors(init) + tail;
      EncodingIsEncodedAt(pre, init, tail);
      var ts := pre + EncodeActors(actors) + rest;
      var p := |pre| + 3 * |init|;
      assert ts[p] == tail[0] && ts[p + 1] == tail[1] && ts[p + 2] == tail[2];
      forall k | 0 <= k < |actors|
        ensures ts[|pre| + 3 * k] == Str(actors[k].refId) && ts[|pre| + 3 * k + 1] == Int(actors[k].refNumIndex)
          && ts[|pre| + 3 * k + 2] == Int(actors[k].mpNum)
      {
        if k < |init| {
          assert actors[k] == init[k];
        }
      }
    }
  }

  /** Where send puts the count, the cell and the actors it sends. */
  lemma SendBodyLayout(cell: Cell, actors: seq<BaseActor>, pre: seq<Token>, rest: seq<Token>)
    ensures BodyAt(pre + SendBody(cell, actors) + rest, |pre|, cell, actors[..|actors| % CountModulus])
  {
    var xs := actors[..|actors| % CountModulus];
    var h := [U32(|xs|)] + CellTokens(cell);
    assert SendBody(cell, actors) == h + EncodeActors(xs);
    HeaderThenEncoded(pre, h, cell, xs, rest);
    assert pre + SendBody(cell, actors) + rest == (pre + h) + EncodeActors(xs) + rest;
  }

  /** The count and the cell followed by the encoded actors form a body at the count's position. */
  lemma HeaderThenEncoded(pre: seq<Token>, h: seq<Token>, cell: Cell, actors: seq<BaseActor>, rest: seq<Token>)
    requires h == [U32(|actors|)] + CellTokens(cell)
    ensures BodyAt((pre + h) + EncodeActors(actors) + rest, |pre|, cell, actors)
  {
    var ts := (pre + h) + EncodeActors(actors) + rest;
    EncodingIsEncodedAt(pre + h, actors, rest);
    assert ts[|pre|] == h[0] && ts[|pre| + 1] == h[1] && ts[|pre| + 2] == h[2] && ts[|pre| + 3] == h[3] && ts[|pre| + 4] == h[4];
  }

  /** The cell written at pos is read back, whatever the reader held. */
  lemma ReadsCell(ts: seq<Token>, pos: nat, cell: Cell, cell0: Cell)
    requires pos + 4 <= |ts| && ts[pos] == Int(cell.data.flags) && ts[pos + 1] == Int(cell.data.x)
    requires ts[pos + 2] == Int(cell.data.y) && ts[pos + 3] == Str(cell.name)
    ensures ReadCell(ts, pos, cell0) == (cell, pos + 4)
  {
  }

  /** A count, a cell and that many encoded actors are read back as that count, that cell and what the actors carry. */
  lemma ReadsBody(ts: seq<Token>, pos: nat, cell: Cell, actors: seq<BaseActor>, count0: nat, cell0: Cell)
    requires BodyAt(ts, pos, cell, actors)
    ensures ReadBody(ts, pos, count0, cell0) == (|actors|, cell, CarriedAll(actors), pos + 5 + 3 * |actors|)
  {
    ReadsCell(ts, pos + 1, cell, cell0);
    ReadsEncoded(ts, pos + 5, actors, |actors|);
    assert actors[..|actors|] == actors;
  }

  /**
   * Round trip: reading what send wrote, from just after the header, gives
   * back the count send wrote (the list's size modulo 2^32), the cell, and
   * for that many actors in order their refId, refNumIndex and mpNum with
   * every other field at its default; it stops at the end of the body.
   */
  lemma RoundTrip(cell: Cell, actors: seq<BaseActor>, pre: seq<Token>, rest: seq<Token>, count0: nat, cell0: Cell)
    ensures var count := |actors| % CountModulus;
      ReadBody(pre + SendBody(cell, actors) + rest, |pre|, count0, cell0)
      == (count, cell, CarriedAll(actors[..count]), |pre| + 5 + 3 * count)
  {
    SendBodyLayout(cell, actors, pre, rest);
    ReadsBody(pre + SendBody(cell, actors) + rest, |pre|, cell, actors[..|actors| % CountModulus], count0, cell0);
  }

  /** Below 2^32 actors, every actor comes back with what the packet carries. */
  lemma RoundTripWhole(cell: Cell, actors: seq<BaseActor>, pre: seq<Token>, rest: seq<Token>, count0: nat, cell0: Cell)
    requires |actors| < CountModulus
    ensures ReadBody(pre + SendBody(cell, actors) + rest, |pre|, count0, cell0)
      == (|actors|, cell, CarriedAll(actors), |pre| + 5 + 3 * |actors|)
  {
    RoundTrip(cell, actors, pre, rest, count0, cell0);
    assert actors[..|actors|] == actors;
  }

  /** Only the three carried fields survive a round trip: two actors that agree on them are read back alike. */
  lemma OnlyCarriedFieldsMatter(a: BaseActor, b: BaseActor)
    requires a.refId == b.refId && a.refNumIndex == b.refNumIndex && a.mpNum == b.mpNum
    ensures Carried(a) == Carried(b)
  {
  }

  /** The actor list a packet carries. */
  class BaseActorList {
    var guid: nat
    var count: nat
    var cell: Cell
    var baseActors: seq<BaseActor>

    constructor (guid: nat, cell: Cell, actors: seq<BaseActor>)
      ensures this.guid == guid && count == 0 && this.cell == cell && baseActors == actors
    {
      this.guid := guid;
      count := 0;
      this.cell := cell;
      baseActors := actors;
    }
  }

  /** The four RW calls for the cell's flags, X, Y and name. */
  method RWCell(bs: BitStream, cell: Cell, send: bool) returns (r: Cell)
    modifies bs`tokens, bs`readPos
    ensures send ==> r == cell && bs.tokens == old(bs.tokens) + CellTokens(cell) && bs.readPos == old(bs.readPos)
    ensures !send ==> bs.tokens == old(bs.tokens) && (r, bs.readPos) == ReadCell(bs.tokens, old(bs.readPos), cell)
  {
    var c1 := bs.RW(Int(cell.data.flags), send);
    var c2 := bs.RW(Int(cell.data.x), send);
    var c3 := bs.RW(Int(cell.data.y), send);
    var c4 := bs.RW(Str(cell.name), send);
    r := Cell(CellData(c1.i, c2.i, c3.i), c4.s);
  }

  /** The three RW calls for an actor's refId, refNumIndex and mpNum. */
  method RWActor(bs: BitStream, actor: BaseActor, send: bool) returns (r: BaseActor)
    modifies bs`tokens, bs`readPos
    ensures send ==> r == actor && bs.tokens == old(bs.tokens) + ActorTokens(actor) && bs.readPos == old(bs.readPos)
    ensures !send ==> bs.tokens == old(bs.tokens) && (r, bs.readPos) == ReadActor(bs.tokens, old(bs.readPos), actor)
  {
    var t1 := bs.RW(Str(actor.refId), send);
    var t2 := bs.RW(Int(actor.refNumIndex), send);
    var t3 := bs.RW(Int(actor.mpNum), send);
    r := BaseActor(t1.s, t2.i, t3.i, actor.other);
  }

  /**
   * The actor loop: on send, the first count actors of the list; on read,
   * count actors appended to the (cleared) list, all built in one reused
   * variable.
   */
  method RWActors(bs: BitStream, count: nat, actors: seq<BaseActor>, send: bool) returns (r: seq<BaseActor>)
    requires send ==> count <= |actors|
    requires !send ==> actors == []
    modifies bs`tokens, bs`readPos
    ensures send ==> r == actors && bs.tokens == old(bs.tokens) + EncodeActors(actors[..count]) && bs.readPos == old(bs.readPos)
    ensures !send ==> bs.tokens == old(bs.tokens) && (r, bs.readPos) == (ReadActors(bs.tokens, old(bs.readPos), count).0, ReadActors(bs.tokens, old(bs.readPos), count).1)
  {
    r := actors;
    var actor := DefaultBaseActor;
    for i := 0 to count
      invariant send ==> r == actors && bs.readPos == old(bs.readPos)
      invariant send ==> bs.tokens == old(bs.tokens) + EncodeActors(actors[..i])
      invariant !send ==> bs.tokens == old(bs.tokens) && (r, bs.readPos, actor) == ReadActors(bs.tokens, old(bs.readPos), i)
    {
      if send {
        actor := actors[i];
      }
      actor := RWActor(bs, actor, send);
      if !send {
        r := r + [actor];
      } else {
        EncodePrefixStep(actors, i);
      }
    }
  }

  /**
   * Packet(bs, send). Sending sets count to the list's size as an unsigned
   * int and writes the header and the body, changing nothing else; reading
   * clears the list and fills it with exactly count actors, reading the
   * count and the cell first.
   */
  method Packet(actorList: BaseActorList, packetID: nat, bs: BitStream, send: bool)
    modifies actorList`count, actorList`cell, actorList`baseActors, bs`tokens, bs`readPos
    ensures send ==>
      actorList.count == |old(actorList.baseActors)| % CountModulus
      && actorList.cell == old(actorList.cell) && actorList.baseActors == old(actorList.baseActors)
      && bs.tokens == old(bs.tokens) + Header(packetID, actorList.guid) + SendBody(old(actorList.cell), old(actorList.baseActors))
      && bs.readPos == old(bs.readPos)
    ensures !send ==>
      bs.tokens == old(bs.tokens)
      && (actorList.count, actorList.cell, actorList.baseActors, bs.readPos)
         == ReadBody(bs.tokens, old(bs.readPos), old(actorList.count), old(actorList.cell))
  {
    bs.WriteHeader(packetID, actorList.guid, send);
    ghost var start := bs.tokens;
    var count := actorList.count;
    var actors := actorList.baseActors;
    if send {
      count := |actors| % CountModulus;
    } else {
      actors := [];
    }
    var t := bs.RW(U32(count), send);
    count := t.n;
    var cell := RWCell(bs, actorList.cell, send);
    ghost var afterCell := bs.tokens;
    actors := RWActors(bs, count, actors, send);
    assert send ==> afterCell == start + [U32(count)] + CellTokens(cell);
    actorList.count := count;
    actorList.cell := cell;
    actorList.baseActors := actors;
  }
}
