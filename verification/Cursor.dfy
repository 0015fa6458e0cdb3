// A reading and writing position over a byte buffer, as std::io::Cursor with the byteorder methods.
module Cursors {
  import opened Common

  class Cursor {
    var data: seq<byte>
    var pos: nat

    constructor (data: seq<byte>)
      ensures this.data == data && pos == 0
    {
      this.data := data;
      pos := 0;
    }

    method SetPosition(p: nat)
      modifies this`pos
      ensures pos == p
    {
      pos := p;
    }

    // A read past the end fails and leaves the position where it was.

    method ReadU8() returns (r: Option<byte>)
      modifies this`pos
      ensures r == if old(pos) < |data| then Some(data[old(pos)]) else None
      ensures pos == if r.Some? then old(pos) + 1 else old(pos)
    {
      if pos < |data| {
        r := Some(data[pos]);
        pos := pos + 1;
      } else {
        r := None;
      }
    }

    method ReadU16Le() returns (r: Option<u16>)
      modifies this`pos
      ensures r == if old(pos) + 2 <= |data| then Some(FromLe16(data[old(pos)], data[old(pos) + 1])) else None
      ensures pos == if r.Some? then old(pos) + 2 else old(pos)
    {
      if pos + 2 <= |data| {
        r := Some(FromLe16(data[pos], data[pos + 1]));
        pos := pos + 2;
      } else {
        r := None;
      }
    }

    method ReadU16Be() returns (r: Option<u16>)
      modifies this`pos
      ensures r == if old(pos) + 2 <= |data| then Some(FromBe16(data[old(pos)], data[old(pos) + 1])) else None
      ensures pos == if r.Some? then old(pos) + 2 else old(pos)
    {
      if pos + 2 <= |data| {
        r := Some(FromBe16(data[pos], data[pos + 1]));
        pos := pos + 2;
      } else {
        r := None;
      }
    }

    method ReadU32Be() returns (r: Option<u32>)
      modifies this`pos
      ensures r == if old(pos) + 4 <= |data|
                   then Some(FromBe32(data[old(pos)], data[old(pos) + 1], data[old(pos) + 2], data[old(pos) + 3]))
                   else None
      ensures pos == if r.Some? then old(pos) + 4 else old(pos)
    {
      if pos + 4 <= |data| {
        r := Some(FromBe32(data[pos], data[pos + 1], data[pos + 2], data[pos + 3]));
        pos := pos + 4;
      } else {
        r := None;
      }
    }

    /** Overwrites two bytes in place. */
    method WriteU16Le(x: u16)
      requires pos + 2 <= |data|
      modifies this
      ensures data == old(data[..pos]) + Le16(x) + old(data[pos + 2..])
      ensures pos == old(pos) + 2
    {
      data := data[..pos] + Le16(x) + data[pos + 2..];
      pos := pos + 2;
    }
  }
}
