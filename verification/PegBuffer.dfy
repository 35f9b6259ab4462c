/** The matcher runtime reads its input one byte at a time into a growing buffer and
    shifts the buffer down after each parse.  The four tests on the buffer have the
    same effect as the tests on the whole input. */
module PegBuffer {
  import opened Common
  import opened Peg
  import opened PegMatch

  const START_SIZE: nat := 1024

  class Greg {
    const input: seq<Byte>   // everything the input will ever deliver
    var read: nat            // how much of it has been delivered
    var buf: array<Byte>     // buf.Length is buflen
    var offset: nat
    var pos: nat
    var limit: nat
    var begin: int           // the captured text, relative to the buffer
    var end: int
    var thunkpos: nat        // how many actions are queued

    /** The buffer holds exactly the part of the input between `offset` and what was read. */
    ghost predicate Valid()
      reads this, buf
    {
      && pos <= limit <= buf.Length && 0 < buf.Length
      && offset + limit == read <= |input|
      && forall k | 0 <= k < limit :: buf[k] == input[offset + k]
    }

    /** The position in the whole input. */
    ghost function At(): nat
      reads this
    {
      offset + pos
    }

    constructor (input: seq<Byte>)
      ensures Valid() && fresh(buf) && buf.Length == 1024 && this.input == input && At() == 0
    {
      this.input := input;
      read, offset, pos, limit := 0, 0, 0, 0;
      begin, end, thunkpos := 0, 0, 0;
      buf := new Byte[START_SIZE](_ => 0);
    }

    /** One byte from the input, or none. */
    method YyInput() returns (c: Option<Byte>)
      requires read <= |input|
      modifies this`read
      ensures if old(read) < |input| then c == Some(input[old(read)]) && read == old(read) + 1
              else c == None && read == old(read)
    {
      if read < |input| {
        c := Some(input[read]);
        read := read + 1;
      } else {
        c := None;
      }
    }

    /** Double the buffer until there is room for 512 bytes from `pos` on. */
    method Grow()
      requires Valid()
      modifies this`buf
      ensures Valid() && buf.Length - pos >= 512 && (buf == old(buf) || fresh(buf))
    {
      var len := buf.Length;
      while len - pos < 512
        invariant 0 < len && buf.Length <= len
        decreases 512 + pos - len
      {
        len := len * 2;
      }
      if len != buf.Length {
        var was := buf;
        buf := new Byte[len](i requires 0 <= i reads was => if i < was.Length then was[i] else 0);
      }
    }

    /** Called with nothing left between `pos` and `limit`.  Stores at `pos`. */
    method YyRefill() returns (more: bool)
      requires Valid() && pos == limit
      modifies this, buf
      ensures Valid() && At() == old(At()) && offset == old(offset)
      ensures (buf == old(buf) || fresh(buf)) && read >= old(read)
      ensures more <==> At() < |input|
      ensures more ==> pos < limit
    {
      Grow();
      var c := YyInput();
      if c.None? { return false; }
      buf[pos] := c.value;
      limit := limit + 1;
      return true;
    }

    /** Make sure there is a byte at `pos`. */
    method Available() returns (more: bool)
      requires Valid()
      modifies this, buf
      ensures Valid() && At() == old(At()) && offset == old(offset)
      ensures (buf == old(buf) || fresh(buf)) && read >= old(read)
      ensures more <==> At() < |input|
      ensures more ==> pos < limit && buf[pos] == input[At()]
    {
      more := true;
      if pos >= limit { more := YyRefill(); }
    }

    method YyMatchDot() returns (ok: bool)
      requires Valid()
      modifies this, buf
      ensures Valid() && (buf == old(buf) || fresh(buf)) && offset == old(offset) && read >= old(read)
      ensures Hit(ok, At()) == DotAt(input, old(At()))
    {
      ok := Available();
      if ok { pos := pos + 1; }
    }

    method YyMatchChar(c: Byte) returns (ok: bool)
      requires Valid()
      modifies this, buf
      ensures Valid() && (buf == old(buf) || fresh(buf)) && offset == old(offset) && read >= old(read)
      ensures Hit(ok, At()) == CharAt(input, old(At()), c)
    {
      ok := Available();
      if ok {
        if buf[pos] == c { pos := pos + 1; } else { ok := false; }
      }
    }

    method YyMatchClass(members: set<Byte>) returns (ok: bool)
      requires Valid()
      modifies this, buf
      ensures Valid() && (buf == old(buf) || fresh(buf)) && offset == old(offset) && read >= old(read)
      ensures Hit(ok, At()) == ClassAt(input, old(At()), members)
    {
      ok := Available();
      if ok {
        if buf[pos] in members { pos := pos + 1; } else { ok := false; }
      }
    }

    /** Fails with the position put back on a mismatch, and where it got to on end of input. */
    method YyMatchString(s: seq<Byte>) returns (ok: bool)
      requires Valid()
      modifies this, buf
      ensures Valid() && (buf == old(buf) || fresh(buf)) && offset == old(offset) && read >= old(read)
      ensures Hit(ok, At()) == StringAt(input, old(At()), old(At()), s)
    {
      var saved := pos;
      var i := 0;
      while i < |s|
        invariant 0 <= i <= |s|
        invariant Valid() && (buf == old(buf) || fresh(buf))
        invariant offset == old(offset) && saved <= pos && read >= old(read)
        invariant StringAt(input, old(At()), old(At()), s) == StringAt(input, old(At()), At(), s[i..])
      {
        var more := Available();
        if !more { return false; }
        if buf[pos] != s[i] {
          pos := saved;
          return false;
        }
        assert s[i..][1..] == s[i + 1..];
        i := i + 1;
        pos := pos + 1;
      }
      return true;
    }

    /** Go back to, or stay at, a position that has been read. */
    method Reset(saved: nat)
      requires Valid() && saved <= limit
      modifies this`pos
      ensures Valid() && pos == saved
    {
      pos := saved;
    }

    /** The text between `<` and `>` is captured. */
    method YyBegin()
      requires Valid()
      modifies this`begin
      ensures Valid() && offset + begin == At()
    {
      begin := pos;
    }

    method YyEnd()
      requires Valid()
      modifies this`end
      ensures Valid() && offset + end == At()
    {
      end := pos;
    }

    /** Drop what has been consumed and the queue; the places in the whole input stay. */
    method YyCommit()
      requires Valid()
      modifies this, buf
      ensures Valid() && buf == old(buf) && At() == old(At()) && pos == 0 && thunkpos == 0
      ensures offset + begin == old(offset + begin) && offset + end == old(offset + end)
    {
      limit := limit - pos;
      ghost var was := buf[..];
      ghost var from := pos;
      var i := 0;
      while i < limit
        invariant 0 <= i <= limit
        invariant forall k | 0 <= k < i :: buf[k] == was[from + k]
        invariant forall k | i <= k < buf.Length :: buf[k] == was[k]
        modifies buf
      {
        buf[i] := buf[i + pos];
        i := i + 1;
      }
      offset := offset + pos;
      begin, end := begin - pos, end - pos;
      pos, thunkpos := 0, 0;
    }
  }
}
