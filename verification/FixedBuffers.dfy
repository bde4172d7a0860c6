/** FixedBuffer<SIZE>: a cursor moving over an array that never grows. */
module FixedBuffers {
  class FixedBuffer {
    const data: array<char>
    var cur: nat

    ghost predicate Valid()
      reads this`cur
    {
      cur <= data.Length
    }

    ghost function Contents(): string
      reads this`cur, data
      requires Valid()
    {
      data[..cur]
    }

    constructor (size: nat)
      ensures Valid() && Contents() == "" && cur == 0 && data.Length == size && fresh(data)
    {
      data := new char[size];
      cur := 0;
    }

    function Avail(): (n: nat)
      requires Valid()
      reads this`cur
    {
      data.Length - cur
    }

    function Length(): nat
      reads this`cur
    {
      cur
    }

    /** Takes all len characters, or none when fewer than len + 1 are free; len is a size_t, which may be more than
        the caller has when it will not be taken. */
    method Append(buf: string, len: nat)
      requires Valid() && (Avail() > len ==> len <= |buf|)
      modifies this`cur, data
      ensures Valid() && Contents() == old(Contents()) + if old(Avail()) > len then buf[..len] else ""
      ensures old(Avail()) > 0 ==> Avail() > 0
    {
      if Avail() > len {
        forall i | 0 <= i < len {
          data[cur + i] := buf[i];
        }
        cur := cur + len;
      }
    }

    method Reset()
      modifies this`cur
      ensures Valid() && Contents() == ""
    {
      cur := 0;
    }

    /** Moves the cursor over characters written in place. */
    method Add(len: nat)
      requires Valid() && len <= Avail()
      modifies this`cur
      ensures Valid() && Contents() == data[..old(cur) + len] && cur == old(cur) + len
    {
      cur := cur + len;
    }
  }
}
