/** A file of records behind its cursor, in the mode that uses the system calls directly. */
module RecordFile {
  import opened StableSort

  const SIZE_RANGE: nat := 0x1_0000_0000_0000_0000
  const OFFSET_MAX: int := 0x7fff_ffff_ffff_ffff

  /** An int operand of an operation on size_t. */
  function AsSize(x: int): nat {
    x % SIZE_RANGE
  }

  /** A size_t read back as the signed off_t. */
  function AsOffset(x: nat): int {
    if x <= OFFSET_MAX then x else x - SIZE_RANGE
  }

  /** The third argument of lseek: the product is taken in size_t. */
  function ByteOffset(rows: int, size: nat): int {
    AsOffset((AsSize(rows) * size) % SIZE_RANGE)
  }

  lemma AddWraps(x: int, n: int)
    ensures (x + n * SIZE_RANGE) % SIZE_RANGE == x % SIZE_RANGE
  {
  }

  /** Reading a wrapped number back as signed gives the number exactly when an off_t can hold it. */
  lemma WrapReadsBack(x: int)
    ensures AsOffset(x % SIZE_RANGE) == x <==> -OFFSET_MAX - 1 <= x <= OFFSET_MAX
  {
  }

  /** The product of the wrapped factor wraps to what the product wraps to. */
  lemma ProductWraps(rows: int, size: nat)
    ensures AsSize(rows) * size >= 0
    ensures (AsSize(rows) * size) % SIZE_RANGE == (rows * size) % SIZE_RANGE
  {
    var q := rows / SIZE_RANGE;
    assert rows == q * SIZE_RANGE + AsSize(rows);
    Distribute(rows, q, size);
    AddWraps(rows * size, -q * size);
  }

  lemma Distribute(rows: int, q: int, size: nat)
    ensures (rows - q * SIZE_RANGE) * size == rows * size + (-q * size) * SIZE_RANGE
  {
  }

  /** The wrapped product is the intended one, negative or not, exactly when an off_t can hold that. */
  lemma OffsetIsIntended(rows: int, size: nat)
    ensures ByteOffset(rows, size) == rows * size <==> -OFFSET_MAX - 1 <= rows * size <= OFFSET_MAX
  {
    ProductWraps(rows, size);
    WrapReadsBack(rows * size);
  }

  /** Any other product ends up in the range of off_t, a multiple of 2^64 away. */
  lemma OffsetWraps(rows: int, size: nat)
    ensures ByteOffset(rows, size) ==
            (rows * size + 0x8000_0000_0000_0000) % 0x1_0000_0000_0000_0000 - 0x8000_0000_0000_0000
  {
    ProductWraps(rows, size);
    WrapsToSigned(rows * size);
  }

  lemma WrapsToSigned(x: int)
    ensures AsOffset(x % SIZE_RANGE) ==
            (x + 0x8000_0000_0000_0000) % 0x1_0000_0000_0000_0000 - 0x8000_0000_0000_0000
  {
  }

  // ----- bytes and rows -----

  /** A write at position `at`; a gap behind the end is filled with zeros. */
  function Overwrite(bytes: seq<byte>, at: nat, data: seq<byte>): seq<byte> {
    if at + |data| <= |bytes| then bytes[..at] + data + bytes[at + |data|..]
    else if at <= |bytes| then bytes[..at] + data
    else bytes + seq(at - |bytes|, _ => 0) + data
  }

  /** The file holds at least count rows of the given size. */
  ghost predicate HasRows(bytes: seq<byte>, size: nat, count: nat) {
    0 < size && count * size <= |bytes| <= OFFSET_MAX
  }

  lemma RowFits(bytes: seq<byte>, size: nat, count: nat, i: nat)
    requires HasRows(bytes, size, count) && i < count
    ensures 0 <= i * size && i * size + size <= count * size
    ensures (i + 1) * size == i * size + size
  {
    ProductOrder(0, i, size);
    ProductOrder(i + 1, count, size);
    ProductOfSum(i, 1, size);
  }

  lemma RowsApart(size: nat, i: nat, j: nat)
    requires i < j
    ensures i * size + size <= j * size
  {
    ProductOrder(i + 1, j, size);
    ProductOfSum(i, 1, size);
  }

  ghost function RowAt(bytes: seq<byte>, size: nat, count: nat, i: nat): Row
    requires HasRows(bytes, size, count) && i < count
  {
    RowFits(bytes, size, count, i);
    bytes[i * size..i * size + size]
  }

  ghost function Rows(bytes: seq<byte>, size: nat, count: nat): (rows: seq<Row>)
    requires HasRows(bytes, size, count)
    ensures |rows| == count
  {
    seq(count, i requires 0 <= i < count => RowAt(bytes, size, count, i))
  }

  /** What follows the rows. */
  ghost function Rest(bytes: seq<byte>, size: nat, count: nat): seq<byte>
    requires HasRows(bytes, size, count)
  {
    bytes[count * size..]
  }

  lemma SliceOfOverwrite(bytes: seq<byte>, at: nat, data: seq<byte>, lo: nat, hi: nat)
    requires at + |data| <= |bytes| && lo <= hi <= |bytes| && (hi <= at || at + |data| <= lo)
    ensures |Overwrite(bytes, at, data)| == |bytes|
    ensures Overwrite(bytes, at, data)[lo..hi] == bytes[lo..hi]
  {
    var now := Overwrite(bytes, at, data);
    assert forall k :: lo <= k < hi ==> now[k] == bytes[k];
  }

  lemma SliceWritten(bytes: seq<byte>, at: nat, data: seq<byte>)
    requires at + |data| <= |bytes|
    ensures |Overwrite(bytes, at, data)| == |bytes|
    ensures Overwrite(bytes, at, data)[at..at + |data|] == data
  {
  }

  lemma OverwriteRow(bytes: seq<byte>, size: nat, count: nat, i: nat, row: Row)
    requires HasRows(bytes, size, count) && i < count && |row| == size
    ensures 0 <= i * size
    ensures var now := Overwrite(bytes, i * size, row);
      && |now| == |bytes|
      && Rows(now, size, count) == Rows(bytes, size, count)[i := row]
      && Rest(now, size, count) == Rest(bytes, size, count)
  {
    RowFits(bytes, size, count, i);
    var now := Overwrite(bytes, i * size, row);
    SliceWritten(bytes, i * size, row);
    SliceOfOverwrite(bytes, i * size, row, count * size, |bytes|);
    forall j | 0 <= j < count
      ensures RowAt(now, size, count, j) == if j == i then row else RowAt(bytes, size, count, j)
    {
      RowFits(bytes, size, count, j);
      if j < i {
        RowsApart(size, j, i);
        SliceOfOverwrite(bytes, i * size, row, j * size, j * size + size);
      } else if i < j {
        RowsApart(size, i, j);
        SliceOfOverwrite(bytes, i * size, row, j * size, j * size + size);
      }
    }
  }

  // ----- the file -----

  /** What a read of n bytes at the cursor gets: no more than there are. */
  function Got(bytes: seq<byte>, at: nat, n: nat): (r: seq<byte>)
    ensures |r| <= n
  {
    if at >= |bytes| then [] else if at + n <= |bytes| then bytes[at..at + n] else bytes[at..]
  }

  /** A file and the cursor of its descriptor. */
  datatype Disk = Disk(bytes: seq<byte>, cursor: nat)

  function AfterRead(d: Disk, n: nat): Disk {
    d.(cursor := d.cursor + |Got(d.bytes, d.cursor, n)|)
  }

  /** A buffer after the read; what the read does not reach stays. */
  function Filled(d: Disk, buffer: seq<byte>): (r: seq<byte>)
    ensures |r| == |buffer|
  {
    var got := Got(d.bytes, d.cursor, |buffer|);
    got + buffer[|got|..]
  }

  function Written(d: Disk, data: seq<byte>): (r: Disk)
    ensures |r.bytes| >= |d.bytes| && |r.bytes| >= d.cursor + |data|
  {
    Disk(Overwrite(d.bytes, d.cursor, data), d.cursor + |data|)
  }

  /** A seek to the start of a row; a negative target is an error and moves nothing. */
  function Sought(d: Disk, row: nat, size: nat): Disk {
    var target := ByteOffset(row, size);
    if target < 0 then d else d.(cursor := target)
  }

  /** A seek from the cursor; a target outside the range of off_t is an error and moves nothing. */
  function SoughtBy(d: Disk, rows: int, size: nat): Disk {
    var target := d.cursor + ByteOffset(rows, size);
    if 0 <= target <= OFFSET_MAX then d.(cursor := target) else d
  }

  class File {
    var bytes: seq<byte>
    var cursor: nat

    function Now(): Disk reads this {
      Disk(bytes, cursor)
    }

    /** fd_read of record_size bytes */
    method Read(buffer: array<byte>)
      modifies this`cursor, buffer
      ensures cursor == if old(cursor) + buffer.Length <= |bytes| then old(cursor) + buffer.Length
                        else if old(cursor) <= |bytes| then |bytes| else old(cursor)
      ensures Now() == AfterRead(old(Now()), buffer.Length)
      ensures buffer[..] == Filled(old(Now()), old(buffer[..]))
      ensures forall j :: 0 <= j < buffer.Length ==>
                buffer[j] == if old(cursor) + j < |bytes| then bytes[old(cursor) + j] else old(buffer[..])[j]
    {
      var got := Got(bytes, cursor, buffer.Length);
      for i := 0 to |got|
        invariant forall j :: 0 <= j < buffer.Length ==> buffer[j] == if j < i then got[j] else old(buffer[..])[j]
        modifies buffer
      {
        buffer[i] := got[i];
      }
      cursor := cursor + |got|;
    }

    /** fd_write */
    method Write(buffer: array<byte>)
      modifies this
      ensures Now() == Written(old(Now()), buffer[..])
      ensures cursor == old(cursor) + buffer.Length
      ensures |bytes| == if cursor > |old(bytes)| then cursor else |old(bytes)|
      ensures forall k :: 0 <= k < |bytes| ==>
                bytes[k] == if old(cursor) <= k < cursor then buffer[k - old(cursor)]
                            else if k < |old(bytes)| then old(bytes)[k] else 0
    {
      bytes := Overwrite(bytes, cursor, buffer[..]);
      cursor := cursor + buffer.Length;
    }

    /** fd_seek_row */
    method SeekRow(row: nat, size: nat)
      modifies this`cursor
      ensures Now() == Sought(old(Now()), row, size)
      ensures cursor == if row * size % 0x1_0000_0000_0000_0000 < 0x8000_0000_0000_0000
                        then row * size % 0x1_0000_0000_0000_0000 else old(cursor)
    {
      ProductWraps(row, size);
      var target := ByteOffset(row, size);
      if target >= 0 {
        cursor := target;
      }
    }

    /** fd_seek_row_rel */
    method SeekRowRel(rows: int, size: nat)
      modifies this`cursor
      ensures Now() == SoughtBy(old(Now()), rows, size)
      ensures var target :=
                old(cursor) + (rows * size + 0x8000_0000_0000_0000) % 0x1_0000_0000_0000_0000 - 0x8000_0000_0000_0000;
        cursor == if 0 <= target < 0x8000_0000_0000_0000 then target else old(cursor)
    {
      OffsetWraps(rows, size);
      var target := cursor + ByteOffset(rows, size);
      if 0 <= target <= OFFSET_MAX {
        cursor := target;
      }
    }
  }

  lemma ProductOrder(a: int, b: int, size: nat)
    requires a <= b
    ensures a * size <= b * size
  {
    var d := b - a;
    assert d * size >= 0;
    assert b * size == a * size + d * size by {
      ProductOfSum(a, d, size);
    }
  }

  lemma ProductOfSum(a: int, b: int, size: nat)
    ensures (a + b) * size == a * size + b * size
  {
  }

  lemma SeekLands(size: nat, count: nat, row: nat)
    requires 0 < size && count * size <= OFFSET_MAX && row <= count
    ensures ByteOffset(row, size) == row * size >= 0
  {
    ProductOrder(row, count, size);
    ProductOrder(0, row, size);
    OffsetIsIntended(row, size);
  }

  /** Going back n rows from a row of the file. */
  lemma SeekBackLands(size: nat, count: nat, row: nat, n: nat)
    requires 0 < size && count * size <= OFFSET_MAX && n <= row <= count
    ensures ByteOffset(0 - n, size) == (0 - n) * size
    ensures 0 <= row * size + ByteOffset(0 - n, size) == (row - n) * size <= OFFSET_MAX
  {
    BackInRange(size, count, row, n);
    OffsetIsIntended(0 - n, size);
  }

  lemma BackInRange(size: nat, count: nat, row: nat, n: nat)
    requires count * size <= OFFSET_MAX && n <= row <= count
    ensures -OFFSET_MAX <= (0 - n) * size <= 0
    ensures 0 <= row * size + (0 - n) * size == (row - n) * size <= OFFSET_MAX
  {
    ProductOrder(0, row - n, size);
    ProductOrder(row - n, count, size);
    ProductOrder(0 - count, 0 - n, size);
    ProductOrder(0 - n, 0, size);
    ProductOfSum(count, 0 - count, size);
    ProductOfSum(row, 0 - n, size);
    assert row + (0 - n) == row - n && count + (0 - count) == 0;
  }
}
