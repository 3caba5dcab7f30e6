/** Reading a whole file of unknown size into a reused, growing buffer. */
module Slurp {
  import opened Common

  /** How one Read call behaves: at most `max` bytes, end of file reported at once or next time. */
  datatype Reply = Data(max: nat, eager: bool) | Fault

  datatype Status = More | Eof | Failed

  /** An open file. Any pattern of short reads is a script; once it runs out reads are full. */
  class File {
    const content: seq<byte>
    var pos: nat
    var script: seq<Reply>
    var faulted: bool

    constructor (content: seq<byte>, script: seq<Reply>)
      ensures this.content == content && this.script == script && pos == 0 && !faulted
    {
      this.content := content;
      this.script := script;
      pos, faulted := 0, false;
    }

    /** Reads into buf[lo..]; at least one byte must be free. */
    method Read(buf: array<byte>, lo: nat) returns (n: nat, status: Status)
      requires lo < buf.Length && pos <= |content| && !faulted
      modifies buf, this`pos, this`script, this`faulted
      ensures pos == old(pos) + n <= |content| && lo + n <= buf.Length
      ensures buf[..lo] == old(buf[..lo]) && buf[lo..lo + n] == content[old(pos)..pos]
      ensures faulted <==> status == Failed
      ensures faulted ==> Fault in old(script)
      ensures forall x :: x in script ==> x in old(script)
      ensures status == Eof ==> pos == |content|
      ensures status == More ==> |script| < |old(script)| || (script == old(script) && n > 0)
    {
      var reply := Data(buf.Length, false);
      if script != [] {
        reply := script[0];
        script := script[1..];
      }
      match reply
      case Fault =>
        faulted := true;
        return 0, Failed;
      case Data(max, eager) =>
        n := Fill(buf, lo, max);
        status := if pos == |content| && (n == 0 || eager) then Eof else More;
    }

    /** Copies what fits, what is left and no more than max, whichever is least. */
    method Fill(buf: array<byte>, lo: nat, max: nat) returns (n: nat)
      requires lo < buf.Length && pos <= |content|
      modifies buf, this`pos
      ensures pos == old(pos) + n <= |content| && lo + n <= buf.Length
      ensures n == max || lo + n == buf.Length || pos == |content|
      ensures buf[..lo] == old(buf[..lo]) && buf[lo..lo + n] == content[old(pos)..pos]
    {
      n := 0;
      while n < max && lo + n < buf.Length && pos < |content|
        invariant n <= max && lo + n <= buf.Length && pos == old(pos) + n <= |content|
        invariant buf[..lo] == old(buf[..lo])
        invariant forall k :: lo <= k < lo + n ==> buf[k] == content[old(pos) + (k - lo)]
      {
        buf[lo + n] := content[pos];
        n, pos := n + 1, pos + 1;
      }
    }
  }

  class Reader {
    var buf: array<byte>   // its length is the capacity
    var len: nat

    constructor ()
      ensures fresh(buf) && buf.Length == 4096 && len == 0
    {
      buf, len := new byte[4096], 0;
    }

    /** A larger buffer with the same bytes in front. */
    method Grow()
      requires len == buf.Length
      modifies this`buf
      ensures fresh(buf) && buf.Length == 2 * old(buf.Length) + 1
      ensures buf[..len] == old(buf[..len])
    {
      var grown := new byte[2 * buf.Length + 1];
      forall i | 0 <= i < len {
        grown[i] := buf[i];
      }
      buf := grown;
    }

    /** One Read into the free part of the buffer. */
    method Advance(f: File) returns (status: Status)
      requires len < buf.Length && len == f.pos <= |f.content| && !f.faulted
      requires buf[..len] == f.content[..f.pos]
      modifies this`len, buf, f`pos, f`script, f`faulted
      ensures len <= buf.Length && old(f.pos) <= f.pos == len <= |f.content|
      ensures buf[..len] == f.content[..f.pos]
      ensures f.faulted <==> status == Failed
      ensures f.faulted ==> Fault in old(f.script)
      ensures forall x :: x in f.script ==> x in old(f.script)
      ensures status == Eof ==> f.pos == |f.content|
      ensures status == More ==>
                |f.script| < |old(f.script)| || (f.script == old(f.script) && f.pos > old(f.pos))
    {
      var n;
      n, status := f.Read(buf, len);
      assert buf[..len + n] == buf[..len] + buf[len..len + n];
      assert f.content[..f.pos] == f.content[..len] + f.content[len..f.pos];
      len := len + n;
    }

    /**
     The file's whole content, however the reads are cut and whatever the buffer held before;
     nothing only if a read failed. The buffer never grows beyond twice the bytes read plus one.
     */
    method Slurp(f: File) returns (r: Option<seq<byte>>)
      requires f.pos == 0 && !f.faulted
      modifies this, buf, f`pos, f`script, f`faulted
      ensures r.Some? ==> r.value == f.content && len <= buf.Length && buf[..len] == f.content
      ensures r.None? <==> f.faulted
      ensures f.faulted ==> Fault in old(f.script)
      ensures f.pos <= |f.content|
      ensures buf.Length <= if old(buf.Length) < 2 * f.pos + 1 then 2 * f.pos + 1 else old(buf.Length)
      ensures buf == old(buf) || fresh(buf)
    {
      len := 0;
      while true
        invariant len <= buf.Length && len == f.pos <= |f.content| && !f.faulted
        invariant buf[..len] == f.content[..f.pos]
        invariant buf == old(buf) || fresh(buf)
        invariant buf.Length <= if old(buf.Length) < 2 * f.pos + 1 then 2 * f.pos + 1 else old(buf.Length)
        invariant forall x :: x in f.script ==> x in old(f.script)
        decreases |f.script|, |f.content| - f.pos
      {
        if len == buf.Length {
          Grow();
        }
        var status := Advance(f);
        match status {
          case More =>
          case Eof =>
            assert f.content[..f.pos] == f.content;
            return Some(buf[..len]);
          case Failed =>
            return None;
        }
      }
    }
  }
}
