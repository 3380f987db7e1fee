/** `cgcAttachment`: a buffer that grows and is used again, and the bytes it holds. */
module Attachment {
  import opened Integers

  class CgcAttachment {
    var name: string
    var total: int
    var index: int
    var len: nat
    var data: array?<Byte>
    var bufferSize: nat

    /** The length never exceeds the capacity, and the capacity is that of the buffer. */
    ghost predicate Valid()
      reads this
    {
      len <= bufferSize && if data == null then bufferSize == 0 else bufferSize == data.Length
    }

    ghost function Contents(): seq<Byte>
      requires Valid()
      reads this, data
    {
      if data == null then [] else data[..len]
    }

    constructor ()
      ensures Valid() && Contents() == [] && name == "" && total == index == 0 && bufferSize == 0
    {
      name, total, index, len, data, bufferSize := "", 0, 0, 0, null, 0;
    }

    method ClearAttachData(clearBuffer: bool)
      requires Valid()
      modifies this`len, this`bufferSize, this`data
      ensures Valid() && Contents() == [] && len == 0
      ensures bufferSize == if clearBuffer then 0 else old(bufferSize)
      ensures data == if clearBuffer then null else old(data)
    {
      len := 0;
      if clearBuffer {
        bufferSize := 0;
        data := null;
      }
    }

    method Clear(clearBuffer: bool)
      requires Valid()
      modifies this
      ensures Valid() && Contents() == [] && name == "" && total == index == 0
      ensures bufferSize == if clearBuffer then 0 else old(bufferSize)
      ensures data == if clearBuffer then null else old(data)
    {
      ClearAttachData(clearBuffer);
      name, total, index := "", 0, 0;
    }

    /** The bytes are copied; a buffer that is large enough is kept, a new one has a byte to spare.
        Nothing to attach clears the name and the numbers too. */
    method SetAttach(bytes: seq<Byte>)
      requires Valid()
      modifies this, data
      ensures Valid() && Contents() == bytes && (data == old(data) || data == null || fresh(data))
      ensures bytes == [] ==> name == "" && total == index == 0 && data == old(data)
      ensures bytes != [] ==> name == old(name) && total == old(total) && index == old(index)
      ensures bufferSize == if old(bufferSize) < |bytes| then |bytes| + 1 else old(bufferSize)
    {
      if bytes == [] {
        Clear(false);
        return;
      }
      if bufferSize < |bytes| {
        ClearAttachData(true);
        bufferSize := |bytes| + 1;
        data := new Byte[bufferSize](_ => 0);
      }
      len := |bytes|;
      forall i | 0 <= i < |bytes| {
        data[i] := bytes[i];
      }
    }

    /** Makes room; a buffer that grows loses its bytes, one that does not keeps its length, and with
        `zeros` its first bytes become zero. */
    method RebuildBuffer(size: nat, zeros: bool)
      requires Valid()
      modifies this`bufferSize, this`data, this`len, data
      ensures Valid() && data != null && bufferSize >= size
      ensures old(data) != null && old(bufferSize) >= size ==> data == old(data) && len == old(len)
      ensures old(data) == null || old(bufferSize) < size ==> fresh(data) && bufferSize == size && len == 0
      ensures zeros ==> forall i :: 0 <= i < size ==> data[i] == 0
      ensures !zeros && data == old(data) ==> Contents() == old(Contents())
    {
      if data == null {
        bufferSize := size;
        data := new Byte[size];
      } else if bufferSize < size {
        ClearAttachData(true);
        bufferSize := size;
        data := new Byte[size];
      }
      if zeros {
        forall i | 0 <= i < size {
          data[i] := 0;
        }
      }
    }
  }
}
