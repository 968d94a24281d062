// The serialisation stream packets are written to and read from, as a
// sequence of typed tokens. RW(x, send) either appends x or reads the next
// token into x; a read that finds no token of the right kind fails, leaving x
// and the read position as they were (as a failed BitStream Read does).

module BitStreams {

  /** ESM::Cell::DATA, written as one block. */
  datatype CellData = CellData(flags: int, x: int, y: int)

  /** One serialised field. U32 is an unsigned int count; Int a signed or narrower integer field. */
  datatype Token =
    | Id(id: nat)
    | Guid(guid: nat)
    | U32(n: nat)
    | Int(i: int)
    | Bool(b: bool)
    | Real(r: real)
    | Str(s: string)
    | Data(d: CellData)

  /** 2^32: (unsigned int) of a container size keeps it modulo this. */
  const CountModulus: nat := 0x1_0000_0000

  /** Two tokens of the same kind: a read of one can fill the other. */
  predicate SameKind(a: Token, b: Token)
  {
    a.Id? == b.Id? && a.Guid? == b.Guid? && a.U32? == b.U32? && a.Int? == b.Int?
    && a.Bool? == b.Bool? && a.Real? == b.Real? && a.Str? == b.Str? && a.Data? == b.Data?
  }

  /**
   * Reading into x at pos: the next token and the following position when one
   * of x's kind is there, x itself and pos otherwise.
   */
  function ReadAt(ts: seq<Token>, pos: nat, x: Token): (r: (Token, nat))
    ensures SameKind(r.0, x)
  {
    if pos < |ts| && SameKind(ts[pos], x) then (ts[pos], pos + 1) else (x, pos)
  }

  /** A token written at pos is read back, whatever value the target held. */
  lemma ReadWritten(ts: seq<Token>, pos: nat, t: Token, x: Token)
    requires pos < |ts| && ts[pos] == t && SameKind(t, x)
    ensures ReadAt(ts, pos, x) == (t, pos + 1)
  {
  }

  /** BasePacket::Packet: on send, the packet id and the guid come first; a read starts after them. */
  function Header(packetID: nat, guid: nat): (r: seq<Token>)
  {
    [Id(packetID), Guid(guid)]
  }

  class BitStream {
    var tokens: seq<Token>
    var readPos: nat

    /** A stream holding the given tokens, to be read from pos. */
    constructor (ts: seq<Token>, pos: nat)
      ensures tokens == ts && readPos == pos
    {
      tokens := ts;
      readPos := pos;
    }

    method Write(t: Token)
      modifies this`tokens
      ensures tokens == old(tokens) + [t]
    {
      tokens := tokens + [t];
    }

    method Read(x: Token) returns (r: Token)
      modifies this`readPos
      ensures (r, readPos) == ReadAt(tokens, old(readPos), x)
    {
      var next := ReadAt(tokens, readPos, x);
      r := next.0;
      readPos := next.1;
    }

    /** RW(x, send): the value x holds afterwards. */
    method RW(x: Token, send: bool) returns (r: Token)
      modifies this`tokens, this`readPos
      ensures SameKind(r, x)
      ensures send ==> r == x && tokens == old(tokens) + [x] && readPos == old(readPos)
      ensures !send ==> tokens == old(tokens) && (r, readPos) == ReadAt(tokens, old(readPos), x)
    {
      if send {
        Write(x);
        r := x;
      } else {
        r := Read(x);
      }
    }

    /** BasePacket::Packet. */
    method WriteHeader(packetID: nat, guid: nat, send: bool)
      modifies this`tokens
      ensures tokens == old(tokens) + (if send then Header(packetID, guid) else [])
    {
      if send {
        Write(Id(packetID));
        Write(Guid(guid));
      }
    }
  }
}
