/** The growing read/write buffer in front of a stream socket: `begin` is index 0, `end` is `data.Length`. */
module StreamBuffer {
  import opened ByteOrder

  const DEFAULT_SIZE: nat := 2048

  class Buffer {
    var data: array<Byte>
    var r: nat
    var w: nat

    ghost predicate Valid()
      reads this
    {
      r <= w <= data.Length
    }

    /** What has been written and not yet processed. */
    ghost function Content(): (bytes: seq<Byte>)
      requires Valid()
      reads this, data
    {
      data[r..w]
    }

    constructor (initial: nat)
      ensures Valid() && fresh(data) && data.Length == initial && Content() == []
      ensures forall k | 0 <= k < initial :: data[k] == 0
    {
      data := new Byte[initial](_ => 0);
      r, w := 0, 0;
    }

    method Pending() returns (n: nat)
      requires Valid()
      ensures n == |Content()|
    {
      n := w - r;
    }

    method Writable() returns (n: nat)
      requires Valid()
      ensures w + n == data.Length
    {
      n := data.Length - w;
    }

    method Processed(bytes: nat)
      requires Valid() && bytes <= |Content()|
      modifies `r
      ensures Valid() && Content() == old(Content())[bytes..]
    {
      r := r + bytes;
    }

    method Written(bytes: nat)
      requires Valid() && w + bytes <= data.Length
      modifies `w
      ensures Valid() && w == old(w) + bytes
    {
      w := w + bytes;
    }

    /** The bytes go behind the content; when they do not fit the storage first grows by their number. */
    method Append(bytes: seq<Byte>)
      requires Valid()
      modifies this, data
      ensures Valid() && (data == old(data) || fresh(data))
      ensures Content() == old(Content()) + bytes
      ensures data.Length == old(data.Length) + if old(data.Length - w) < |bytes| then |bytes| else 0
    {
      var room := Writable();
      if room < |bytes| {
        ExpandTo(data.Length + |bytes|);
      }
      CopyIn(bytes);
      Written(|bytes|);
    }

    /** `memcpy` to the write pointer. */
    method CopyIn(bytes: seq<Byte>)
      requires Valid() && w + |bytes| <= data.Length
      modifies data
      ensures data[r..w + |bytes|] == old(Content()) + bytes
    {
      forall k | 0 <= k < |bytes| {
        data[w + k] := bytes[k];
      }
      assert data[r..w] == old(data[r..w]);
      assert data[w..w + |bytes|] == bytes;
      assert data[r..w + |bytes|] == data[r..w] + data[w..w + |bytes|];
    }

    /** Both pointers go back to the beginning; whatever was pending is dropped. */
    method Reset()
      requires Valid()
      modifies `r, `w
      ensures Valid() && Content() == [] && w == 0
    {
      r, w := 0, 0;
    }

    /** `realloc`: everything before `w` is kept, everything after it is zero. */
    method ExpandTo(size: nat)
      requires Valid() && size >= data.Length
      modifies this
      ensures Valid() && fresh(data) && data.Length == size && r == old(r) && w == old(w)
      ensures data[..w] == old(data[..w]) && Content() == old(Content())
      ensures forall k | w <= k < size :: data[k] == 0
    {
      var readPos, writePos := r, w;
      var old' := data;
      data := new Byte[size](k requires 0 <= k < size reads old' => if k < old'.Length then old'[k] else 0);
      r, w := readPos, writePos;
      assert data[..w] == old(data[..w]);
      assert data[r..w] == data[..w][r..];
      forall k | w <= k < size {
        data[k] := 0;
      }
      assert data[..w] == old(data[..w]);
      assert data[r..w] == data[..w][r..];
    }
  }
}
