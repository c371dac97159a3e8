/**
 A receive buffer that is read from an offset and compacted now and then. The WebSocket server and the
 HTTP server compact once the consumed prefix reaches 4096 bytes or half of the buffer, the WebSocket
 client at 65536 bytes or a quarter.
 */
module StreamBuffer {

  class StreamBuffer<T> {
    const floor: nat
    const factor: nat
    var buffer: seq<T>
    var offset: nat

    constructor (floor: nat, factor: nat)
      ensures this.floor == floor && this.factor == factor
      ensures Valid() && View() == []
    {
      this.floor, this.factor := floor, factor;
      buffer, offset := [], 0;
    }

    ghost predicate Valid()
      reads this
    {
      offset <= |buffer|
    }

    function View(): seq<T>
      reads this
    {
      if offset >= |buffer| then [] else buffer[offset..]
    }

    method Append(data: seq<T>)
      requires Valid()
      modifies this
      ensures Valid() && View() == old(View()) + data
    {
      if offset == 0 && |buffer| == 0 {
        buffer := data;
      } else {
        buffer := buffer + data;
      }
    }

    /** Compaction never changes the view, and leaves no consumed prefix that is both long and mostly waste. */
    method Compact()
      requires Valid()
      modifies this
      ensures Valid() && View() == old(View())
      ensures offset == 0 || (offset < floor && offset * factor < |buffer|)
    {
      if offset == 0 {
        return;
      }
      if offset >= |buffer| {
        buffer, offset := [], 0;
        return;
      }
      if offset < floor && offset * factor < |buffer| {
        return;
      }
      buffer := buffer[offset..];
      offset := 0;
    }

    method Consume(n: nat)
      requires Valid() && n <= |View()|
      modifies this
      ensures Valid() && View() == old(View())[n..]
      ensures offset == 0 || (offset < floor && offset * factor < |buffer|)
    {
      offset := offset + n;
      Compact();
    }

    method Clear()
      modifies this
      ensures Valid() && View() == []
    {
      buffer, offset := [], 0;
    }
  }
}
