/** The ring buffer of lines, as a value and as the global array it lives in. */
module LineBuffer {
  import opened Counting

  type Line = string

  datatype Ring = Ring(cells: seq<Line>, start: nat, length: nat) {
    ghost predicate Valid() {
      length <= |cells| && (|cells| > 0 ==> start < |cells|)
    }

    /** The lines in the buffer, oldest first. */
    function Contents(): (q: seq<Line>)
      requires Valid()
    {
      seq(length, j requires 0 <= j < length => cells[Around(start, j, |cells|)])
    }

    predicate Full() { length == |cells| }

    predicate Empty() { length == 0 }

    function Push(line: Line): Ring
      requires Valid() && !Full()
    {
      Ring(cells[(start + length) % |cells| := line], start, length + 1)
    }

    function First(): Line
      requires Valid() && !Empty()
    {
      cells[start % |cells|]
    }

    function Pop(): Ring
      requires Valid() && !Empty()
    {
      Ring(cells, (start + 1) % |cells|, length - 1)
    }
  }

  lemma PushAppends(r: Ring, line: Line)
    requires r.Valid() && !r.Full()
    ensures r.Push(line).Valid() && |r.Push(line).cells| == |r.cells|
    ensures r.Push(line).Contents() == r.Contents() + [line]
  {
    WrapOnce(r.start, r.length, |r.cells|);
  }

  lemma PopTakesTheOldest(r: Ring)
    requires r.Valid() && !r.Empty()
    ensures r.Pop().Valid() && |r.Pop().cells| == |r.cells|
    ensures r.Contents() == [r.First()] + r.Pop().Contents()
  {
    WrapOnce(r.start, 0, |r.cells|);
    WrapOnce(r.start, 1, |r.cells|);
  }

  /** The global variables buffer, buffer_size, buffer_start and buffer_length. */
  class Buffer {
    var buffer: array<Line>
    var buffer_start: int
    var buffer_length: int

    ghost predicate Valid()
      reads this, buffer
    {
      0 <= buffer_start && 0 <= buffer_length && View().Valid()
    }

    ghost function View(): Ring
      requires 0 <= buffer_start && 0 <= buffer_length
      reads this, buffer
    {
      Ring(buffer[..], buffer_start, buffer_length)
    }

    /** buffer_init */
    constructor (size: nat)
      ensures Valid() && fresh(buffer)
      ensures buffer.Length == size && View().Contents() == []
    {
      buffer := new Line[size](_ => "");
      buffer_start, buffer_length := 0, 0;
    }

    method IsEmpty() returns (r: bool)
      requires Valid()
      ensures r <==> View().Contents() == []
    {
      r := buffer_length == 0;
    }

    method IsFull() returns (r: bool)
      requires Valid()
      ensures r <==> |View().Contents()| == buffer.Length
    {
      r := buffer_length == buffer.Length;
    }

    /** False is the error return for a full buffer. */
    method Push(line: Line) returns (ok: bool)
      requires Valid()
      modifies this, buffer
      ensures Valid() && buffer == old(buffer)
      ensures ok <==> |old(View()).Contents()| < buffer.Length
      ensures ok ==> View().Contents() == old(View()).Contents() + [line] && View() == old(View()).Push(line)
      ensures !ok ==> View() == old(View())
    {
      var full := IsFull();
      if full {
        return false;
      }
      PushAppends(View(), line);
      buffer[(buffer_start + buffer_length) % buffer.Length] := line;
      buffer_length := buffer_length + 1;
      return true;
    }

    /** False is the error return for an empty buffer. */
    method Pop() returns (ok: bool, line: Line)
      requires Valid()
      modifies this
      ensures Valid() && buffer == old(buffer)
      ensures ok <==> old(View()).Contents() != []
      ensures ok ==> old(View()).Contents() == [line] + View().Contents()
      ensures ok ==> line == old(View()).First() && View() == old(View()).Pop()
      ensures !ok ==> View() == old(View())
    {
      var empty := IsEmpty();
      if empty {
        return false, "";
      }
      PopTakesTheOldest(View());
      line := buffer[buffer_start % buffer.Length];
      buffer_start := (buffer_start + 1) % buffer.Length;
      buffer_length := buffer_length - 1;
      return true, line;
    }
  }
}
