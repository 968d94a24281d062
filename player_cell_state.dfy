// PacketPlayerCellState: a count followed by that many cell states, each
// written as its type, the cell's data block and the cell's name.

module PlayerCellStatePacket {
  import opened BitStreams

  datatype CellState = CellState(stateType: int, data: CellData, name: string)

  /** The value of a default-constructed CellState. */
  const DefaultCellState: CellState := CellState(0, CellData(0, 0, 0), [])

  /** mwmp::CellStateChanges of a player. */
  datatype CellStateChanges = CellStateChanges(count: nat, cellStates: seq<CellState>)

  function CellStateTokens(c: CellState): (r: seq<Token>)
    ensures |r| == 3
  {
    [Int(c.stateType), Data(c.data), Str(c.name)]
  }

  /** The entries, one after the other. */
  function EncodeCellStates(cs: seq<CellState>): (r: seq<Token>)
    ensures |r| == 3 * |cs|
    decreases |cs|
  {
    if cs == [] then [] else EncodeCellStates(cs[..|cs| - 1]) + CellStateTokens(cs[|cs| - 1])
  }

  /** Encoding one entry more of a list appends that entry's tokens. */
  lemma EncodePrefixStep(cs: seq<CellState>, i: nat)
    requires i < |cs|
    ensures EncodeCellStates(cs[..i + 1]) == EncodeCellStates(cs[..i]) + [Int(cs[i].stateType), Data(cs[i].data), Str(cs[i].name)]
  {
    assert cs[..i + 1][..i] == cs[..i];
  }

  /** Entry k of cs sits at tokens pos + 3k .. pos + 3k + 2. */
  ghost predicate EncodedAt(ts: seq<Token>, pos: nat, cs: seq<CellState>)
  {
    pos + 3 * |cs| <= |ts|
    && forall k :: 0 <= k < |cs| ==>
      ts[pos + 3 * k] == Int(cs[k].stateType) && ts[pos + 3 * k + 1] == Data(cs[k].data) && ts[pos + 3 * k + 2] == Str(cs[k].name)
  }

  /** At pos: the number of entries as an unsigned int, then the entries. */
  ghost predicate BodyAt(ts: seq<Token>, pos: nat, cs: seq<CellState>)
  {
    pos < |ts| && ts[pos] == U32(|cs|) && EncodedAt(ts, pos + 1, cs)
  }

  /** What the packet body writes: the count as an unsigned int, then that many entries. */
  function SendBody(cs: seq<CellState>): (r: seq<Token>)
  {
    var count := |cs| % CountModulus;
    [U32(count)] + EncodeCellStates(cs[..count])
  }

  /** Reading one entry into c; a field that cannot be read keeps c's value. */
  function ReadCellState(ts: seq<Token>, pos: nat, c: CellState): (CellState, nat)
  {
    var r1 := ReadAt(ts, pos, Int(c.stateType));
    var r2 := ReadAt(ts, r1.1, Data(c.data));
    var r3 := ReadAt(ts, r2.1, Str(c.name));
    (CellState(r1.0.i, r2.0.d, r3.0.s), r3.1)
  }

  /**
   * Reading n entries from pos, each into a freshly default-constructed
   * CellState: exactly n come out, whether or not the stream holds them.
   */
  function ReadCellStates(ts: seq<Token>, pos: nat, n: nat): (r: (seq<CellState>, nat))
    ensures |r.0| == n && pos <= r.1
    decreases n
  {
    if n == 0 then ([], pos)
    else
      var prev := ReadCellStates(ts, pos, n - 1);
      var next := ReadCellState(ts, prev.1, DefaultCellState);
      (prev.0 + [next.0], next.1)
  }

  /** The read side of the body: the count (kept when it cannot be read), the entries and the end position. */
  function ReadBody(ts: seq<Token>, pos: nat, count0: nat): (nat, seq<CellState>, nat)
  {
    var count := ReadAt(ts, pos, U32(count0));
    var states := ReadCellStates(ts, count.1, count.0.n);
    (count.0.n, states.0, states.1)
  }

  /** One entry written at pos is read back, ending right after it. */
  lemma ReadsOneEncoded(ts: seq<Token>, pos: nat, c: CellState)
    requires pos + 3 <= |ts| && ts[pos] == Int(c.stateType) && ts[pos + 1] == Data(c.data) && ts[pos + 2] == Str(c.name)
    ensures ReadCellState(ts, pos, DefaultCellState) == (c, pos + 3)
  {
  }

  /** The first n entries encoded at pos are read back in order, ending right after them. */
  lemma {:induction false} ReadsEncoded(ts: seq<Token>, pos: nat, cs: seq<CellState>, n: nat)
    requires EncodedAt(ts, pos, cs) && n <= |cs|
    ensures ReadCellStates(ts, pos, n) == (cs[..n], pos + 3 * n)
    decreases n
  {
    if n > 0 {
      ReadsEncoded(ts, pos, cs, n - 1);
      var p := pos + 3 * (n - 1);
      ReadsOneEncoded(ts, p, cs[n - 1]);
      assert cs[..n] == cs[..n - 1] + [cs[n - 1]];
    }
  }

  /**
   * Round trip: reading what send wrote, from just after the header, gives
   * back the count send wrote (the list's size modulo 2^32) and that many
   * entries of the list, each with the same type, data and name, and stops at
   * the end of the body.
   */
  lemma RoundTrip(cs: seq<CellState>, pre: seq<Token>, rest: seq<Token>, count0: nat)
    ensures var count := |cs| % CountModulus;
      ReadBody(pre + SendBody(cs) + rest, |pre|, count0) == (count, cs[..count], |pre| + 1 + 3 * count)
  {
    SendBodyLayout(cs, pre, rest);
    ReadsBody(pre + SendBody(cs) + rest, |pre|, cs[..|cs| % CountModulus], count0);
  }

  /** Below 2^32 entries, the whole list comes back. */
  lemma RoundTripWhole(cs: seq<CellState>, pre: seq<Token>, rest: seq<Token>, count0: nat)
    requires |cs| < CountModulus
    ensures ReadBody(pre + SendBody(cs) + rest, |pre|, count0) == (|cs|, cs, |pre| + 1 + 3 * |cs|)
  {
    RoundTrip(cs, pre, rest, count0);
    assert cs[..|cs|] == cs;
  }

  /** Where send puts the count and the entries it sends. */
  lemma SendBodyLayout(cs: seq<CellState>, pre: seq<Token>, rest: seq<Token>)
    ensures BodyAt(pre + SendBody(cs) + rest, |pre|, cs[..|cs| % CountModulus])
  {
    var xs := cs[..|cs| % CountModulus];
    assert SendBody(cs) == [U32(|xs|)] + EncodeCellStates(xs);
    CountThenEncoded(pre, xs, rest);
    assert pre + SendBody(cs) + rest == (pre + [U32(|xs|)]) + EncodeCellStates(xs) + rest;
  }

  /** The count followed by the encoded entries is a body at the count's position. */
  lemma CountThenEncoded(pre: seq<Token>, cs: seq<CellState>, rest: seq<Token>)
    ensures BodyAt((pre + [U32(|cs|)]) + EncodeCellStates(cs) + rest, |pre|, cs)
  {
    EncodingIsEncodedAt(pre + [U32(|cs|)], cs, rest);
  }

  /** A count followed by that many encoded entries is read back as that count and those entries. */
  lemma ReadsBody(ts: seq<Token>, pos: nat, cs: seq<CellState>, count0: nat)
    requires BodyAt(ts, pos, cs)
    ensures ReadBody(ts, pos, count0) == (|cs|, cs, pos + 1 + 3 * |cs|)
  {
    ReadsEncoded(ts, pos + 1, cs, |cs|);
    assert cs[..|cs|] == cs;
  }

  /** Encoded entries sit at their places, whatever comes before and after them. */
  lemma {:induction false} EncodingIsEncodedAt(pre: seq<Token>, cs: seq<CellState>, rest: seq<Token>)
    ensures EncodedAt(pre + EncodeCellStates(cs) + rest, |pre|, cs)
    decreases |cs|
  {
    if cs != [] {
      var init := cs[..|cs| - 1];
      var last := cs[|cs| - 1];
      var tail := CellStateTokens(last) + rest;
      assert pre + EncodeCellStates(cs) + rest == pre + EncodeCellStates(init) + tail;
      EncodingIsEncodedAt(pre, init, tail);
      var ts := pre + EncodeCellStates(cs) + rest;
      var p := |pre| + 3 * |init|;
      assert ts[p] == tail[0] && ts[p + 1] == tail[1] && ts[p + 2] == tail[2];
      forall k | 0 <= k < |cs|
        ensures ts[|pre| + 3 * k] == Int(cs[k].stateType) && ts[|pre| + 3 * k + 1] == Data(cs[k].data)
          && ts[|pre| + 3 * k + 2] == Str(cs[k].name)
      {
        if k < |init| {
          assert cs[k] == init[k];
        }
      }
    }
  }

  /** The player whose cell-state changes the packet carries. */
  class BasePlayer {
    var guid: nat
    var cellStateChanges: CellStateChanges

    constructor (guid: nat, changes: CellStateChanges)
      ensures this.guid == guid && cellStateChanges == changes
    {
      this.guid := guid;
      cellStateChanges := changes;
    }
  }

  /** The three RW calls for a cell state's type, data and name. */
  method RWCellState(bs: BitStream, c: CellState, send: bool) returns (r: CellState)
    modifies bs`tokens, bs`readPos
    ensures send ==> r == c && bs.tokens == old(bs.tokens) + CellStateTokens(c) && bs.readPos == old(bs.readPos)
    ensures !send ==> bs.tokens == old(bs.tokens) && (r, bs.readPos) == ReadCellState(bs.tokens, old(bs.readPos), c)
  {
    var t1 := bs.RW(Int(c.stateType), send);
    var t2 := bs.RW(Data(c.data), send);
    var t3 := bs.RW(Str(c.name), send);
    r := CellState(t1.i, t2.d, t3.s);
  }

  /**
   * Packet(bs, send). Sending sets count to the list's size as an unsigned
   * int and writes the header and the body, changing nothing else; reading
   * clears the list and fills it with exactly count entries.
   */
  method Packet(player: BasePlayer, packetID: nat, bs: BitStream, send: bool)
    modifies player`cellStateChanges, bs`tokens, bs`readPos
    ensures send ==>
      player.cellStateChanges == old(player.cellStateChanges).(count := |old(player.cellStateChanges.cellStates)| % CountModulus)
      && bs.tokens == old(bs.tokens) + Header(packetID, player.guid) + SendBody(old(player.cellStateChanges.cellStates))
      && bs.readPos == old(bs.readPos)
    ensures !send ==>
      bs.tokens == old(bs.tokens)
      && (player.cellStateChanges.count, player.cellStateChanges.cellStates, bs.readPos)
         == ReadBody(bs.tokens, old(bs.readPos), old(player.cellStateChanges.count))
  {
    bs.WriteHeader(packetID, player.guid, send);
    ghost var start := bs.tokens;
    var count := player.cellStateChanges.count;
    var states := player.cellStateChanges.cellStates;
    if send {
      count := |states| % CountModulus;
    } else {
      states := [];
    }
    var t := bs.RW(U32(count), send);
    count := t.n;
    ghost var p0 := bs.readPos;
    for i := 0 to count
      invariant send ==> count == |old(player.cellStateChanges.cellStates)| % CountModulus
      invariant send ==> states == old(player.cellStateChanges.cellStates) && bs.readPos == old(bs.readPos)
      invariant send ==> bs.tokens == start + [U32(count)] + EncodeCellStates(states[..i])
      invariant !send ==> bs.tokens == old(bs.tokens) && (states, bs.readPos) == ReadCellStates(bs.tokens, p0, i)
    {
      var cellState := DefaultCellState;
      if send {
        cellState := states[i];
      }
      cellState := RWCellState(bs, cellState, send);
      if !send {
        states := states + [cellState];
      } else {
        EncodePrefixStep(states, i);
      }
    }
    player.cellStateChanges := CellStateChanges(count, states);
  }
}
