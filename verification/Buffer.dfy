/** The growing, compacting byte buffer (src/network/buffer.cc) and the plain byte queue
    it stands for. Exceptions become `ok == false` with the buffer left as it was. */
module Buffer {
  import opened Basics

  const PREPEND: nat := 0
  const PACKETSIZE: nat := 40960

  // ----- the abstract byte queue -----

  /** One call on the buffer, as its client sees it. */
  datatype Call = Append(data: seq<char>) | EnsureSpace(len: nat) | Retrieve(len: nat)

  /** The readable bytes after a call; an over-long retrieve throws and changes nothing. */
  function After(s: seq<char>, call: Call): seq<char> {
    match call
    case Append(data) => s + data
    case EnsureSpace(_) => s
    case Retrieve(len) => if len <= |s| then s[len..] else s
  }

  /** The bytes a call takes out. */
  function Taken(s: seq<char>, call: Call): seq<char> {
    if call.Retrieve? && call.len <= |s| then s[..call.len] else []
  }

  function AfterAll(s: seq<char>, calls: seq<Call>): seq<char> {
    if |calls| == 0 then s else After(AfterAll(s, calls[..|calls| - 1]), calls[|calls| - 1])
  }

  function AppendedAll(calls: seq<Call>): seq<char> {
    if |calls| == 0 then []
    else
      var last := calls[|calls| - 1];
      AppendedAll(calls[..|calls| - 1]) + if last.Append? then last.data else []
  }

  function TakenAll(s: seq<char>, calls: seq<Call>): seq<char> {
    if |calls| == 0 then []
    else
      var front := calls[..|calls| - 1];
      TakenAll(s, front) + Taken(AfterAll(s, front), calls[|calls| - 1])
  }

  lemma SeqAssoc<T>(a: seq<T>, b: seq<T>, c: seq<T>)
    ensures a + (b + c) == (a + b) + c
  {
  }

  /** Over every run of calls nothing is lost, duplicated or reordered. */
  lemma {:induction false} QueueConserves(s: seq<char>, calls: seq<Call>)
    ensures s + AppendedAll(calls) == TakenAll(s, calls) + AfterAll(s, calls)
  {
    if |calls| > 0 {
      var front, last := calls[..|calls| - 1], calls[|calls| - 1];
      QueueConserves(s, front);
      var held := AfterAll(s, front);
      assert held + (if last.Append? then last.data else []) == Taken(held, last) + After(held, last);
      SeqAssoc(s, AppendedAll(front), if last.Append? then last.data else []);
      SeqAssoc(TakenAll(s, front), held, if last.Append? then last.data else []);
      SeqAssoc(TakenAll(s, front), Taken(held, last), After(held, last));
    }
  }

  /** The first newline at or after position `from`. */
  ghost predicate IsFirstEol(s: seq<char>, from: nat, eol: Option<nat>) {
    match eol
    case None => from <= |s| && '\n' !in s[from..]
    case Some(k) => from <= k < |s| && s[k] == '\n' && '\n' !in s[from..k]
  }

  // ----- the implementation -----

  class ArrayBuffer {
    var readerIndex: nat
    var writerIndex: nat
    var buffer: array<char>

    ghost predicate Valid()
      reads this
    {
      PREPEND <= readerIndex <= writerIndex <= buffer.Length
    }

    ghost function Contents(): seq<char>
      reads this, buffer
      requires Valid()
    {
      buffer[readerIndex..writerIndex]
    }

    constructor (initSize: nat)
      ensures Valid() && fresh(buffer)
      ensures Contents() == [] && buffer.Length == initSize
    {
      readerIndex, writerIndex := PREPEND, PREPEND;
      buffer := new char[initSize];
    }

    function ReadableBytes(): nat
      reads this
      requires Valid()
    {
      writerIndex - readerIndex
    }

    function WritableBytes(): nat
      reads this
      requires Valid()
    {
      buffer.Length - writerIndex
    }

    /** The readable bytes, as the pointer and length handed to `write`. */
    function Peek(): (s: seq<char>)
      reads this, buffer
      requires Valid()
      ensures s == Contents()
    {
      buffer[readerIndex..writerIndex]
    }

    method Swap(that: ArrayBuffer)
      requires Valid() && that.Valid()
      modifies this, that
      ensures Valid() && that.Valid()
      ensures buffer == old(that.buffer) && that.buffer == old(buffer)
      ensures Contents() == old(that.Contents()) && that.Contents() == old(Contents())
    {
      buffer, that.buffer := that.buffer, buffer;
      readerIndex, that.readerIndex := that.readerIndex, readerIndex;
      writerIndex, that.writerIndex := that.writerIndex, writerIndex;
    }

    /** Position of the first newline in the readable bytes (`memchr`). */
    method FindEol() returns (eol: Option<nat>)
      requires Valid()
      ensures IsFirstEol(Contents(), 0, eol)
    {
      var ok;
      ok, eol := FindEolFrom(0);
    }

    /** The same search from a given position, which must lie within the readable bytes. */
    method FindEolFrom(start: int) returns (ok: bool, eol: Option<nat>)
      requires Valid()
      ensures ok <==> 0 <= start <= |Contents()|
      ensures ok ==> IsFirstEol(Contents(), start, eol)
    {
      if start < 0 || start > ReadableBytes() {
        return false, None;
      }
      var k: nat := start;
      while k < ReadableBytes()
        invariant start <= k <= ReadableBytes()
        invariant '\n' !in Contents()[start..k]
      {
        if buffer[readerIndex + k] == '\n' {
          return true, Some(k);
        }
        assert Contents()[start..k + 1] == Contents()[start..k] + [Contents()[k]];
        k := k + 1;
      }
      return true, None;
    }

    method RetrieveAll()
      requires Valid()
      modifies this`readerIndex, this`writerIndex
      ensures Valid() && Contents() == []
    {
      readerIndex, writerIndex := PREPEND, PREPEND;
    }

    method Retrieve(len: nat) returns (ok: bool)
      requires Valid()
      modifies this`readerIndex, this`writerIndex
      ensures Valid() && ok == (len <= |old(Contents())|)
      ensures Contents() == After(old(Contents()), Call.Retrieve(len))
      ensures ok ==> Contents() == old(Contents())[len..]
    {
      if len > ReadableBytes() {
        return false;
      }
      if len < ReadableBytes() {
        readerIndex := readerIndex + len;
      } else {
        RetrieveAll();
      }
      ok := true;
    }

    /** Retrieve up to the readable position `end`. */
    method RetrieveUntil(end: int) returns (ok: bool)
      requires Valid()
      modifies this`readerIndex, this`writerIndex
      ensures Valid() && ok == (0 <= end <= |old(Contents())|)
      ensures Contents() == if ok then old(Contents())[end..] else old(Contents())
    {
      if end < 0 || end > ReadableBytes() {
        return false;
      }
      ok := Retrieve(end);
    }

    method RetrieveAsString(len: nat) returns (ok: bool, result: seq<char>)
      requires Valid()
      modifies this`readerIndex, this`writerIndex
      ensures Valid() && ok == (len <= |old(Contents())|)
      ensures Contents() == After(old(Contents()), Call.Retrieve(len))
      ensures result == Taken(old(Contents()), Call.Retrieve(len))
      ensures ok ==> result == old(Contents())[..len] && Contents() == old(Contents())[len..]
    {
      if len > ReadableBytes() {
        return false, [];
      }
      result := buffer[readerIndex..readerIndex + len];
      ok := Retrieve(len);
    }

    /** A null pointer, `None`, is refused. */
    method Append(data: Option<seq<char>>) returns (ok: bool)
      requires Valid()
      modifies this, buffer
      ensures Valid() && (buffer == old(buffer) || fresh(buffer))
      ensures ok == data.Some?
      ensures Contents() == if ok then old(Contents()) + data.value else old(Contents())
      ensures ok ==> Contents() == After(old(Contents()), Call.Append(data.value))
      ensures ok ==> (|old(Contents())| + |data.value| <= old(buffer.Length) <==> buffer == old(buffer))
      ensures !ok ==> buffer == old(buffer)
    {
      if data.None? {
        return false;
      }
      EnsureWritableBytes(|data.value|);
      CopyBehind(data.value);
      ok := HasWritten(|data.value|);
    }

    /** `std::copy` of `data` behind the readable bytes. */
    method CopyBehind(data: seq<char>)
      requires Valid() && |data| <= WritableBytes()
      modifies buffer
      ensures Contents() == old(Contents())
      ensures buffer[writerIndex..writerIndex + |data|] == data
    {
      for k := 0 to |data|
        invariant Contents() == old(Contents())
        invariant buffer[writerIndex..writerIndex + k] == data[..k]
      {
        buffer[writerIndex + k] := data[k];
        assert buffer[writerIndex..writerIndex + k + 1] == buffer[writerIndex..writerIndex + k] + [data[k]];
      }
    }

    method EnsureWritableBytes(len: nat)
      requires Valid()
      modifies this, buffer
      ensures Valid() && (buffer == old(buffer) || fresh(buffer))
      ensures Contents() == After(old(Contents()), EnsureSpace(len)) == old(Contents()) && WritableBytes() >= len
      ensures |old(Contents())| + len <= old(buffer.Length) <==> buffer == old(buffer)
    {
      if WritableBytes() < len {
        MakeSpace(len);
      }
    }

    /** Takes in `len` bytes that were stored behind the readable ones. */
    method HasWritten(len: nat) returns (ok: bool)
      requires Valid()
      modifies this`writerIndex
      ensures Valid() && ok == (len <= old(WritableBytes()))
      ensures Contents() ==
        if ok then old(Contents()) + buffer[old(writerIndex)..old(writerIndex) + len] else old(Contents())
    {
      if len > WritableBytes() {
        return false;
      }
      writerIndex := writerIndex + len;
      ok := true;
    }

    /** Grows the storage when the live bytes and the request cannot both fit in it, and
        otherwise slides the live bytes to the front with an overlapping forward copy. */
    method MakeSpace(len: nat)
      requires Valid() && WritableBytes() < len
      modifies this, buffer
      ensures Valid() && (buffer == old(buffer) || fresh(buffer))
      ensures Contents() == old(Contents()) && WritableBytes() >= len
      ensures |old(Contents())| + len <= old(buffer.Length) <==> buffer == old(buffer)
    {
      if WritableBytes() + readerIndex < len + PREPEND {
        Resize(writerIndex + len);
      } else {
        var readable := ReadableBytes();
        SlideToFront();
        readerIndex := PREPEND;
        writerIndex := readerIndex + readable;
      }
    }

    /** `std::vector::resize` to a larger size. */
    method Resize(size: nat)
      requires Valid() && size > buffer.Length
      modifies this`buffer
      ensures Valid() && fresh(buffer) && buffer.Length == size && Contents() == old(Contents())
    {
      var bigger := new char[size](_ => '\0');
      for k := 0 to buffer.Length
        invariant buffer == old(buffer) && buffer[..] == old(buffer[..])
        invariant bigger[..k] == buffer[..k]
      {
        bigger[k] := buffer[k];
      }
      assert bigger[readerIndex..writerIndex] == bigger[..buffer.Length][readerIndex..writerIndex];
      assert buffer[readerIndex..writerIndex] == buffer[..buffer.Length][readerIndex..writerIndex];
      buffer := bigger;
    }

    /** `std::copy` of the readable bytes to the start of the storage. */
    method SlideToFront()
      requires Valid()
      modifies buffer
      ensures buffer[PREPEND..PREPEND + ReadableBytes()] == old(Contents())
    {
      ghost var held := Contents();
      for k := 0 to ReadableBytes()
        invariant buffer[PREPEND..PREPEND + k] == held[..k]
        invariant forall j :: readerIndex + k <= j < writerIndex ==> buffer[j] == held[j - readerIndex]
      {
        buffer[PREPEND + k] := buffer[readerIndex + k];
        assert buffer[PREPEND..PREPEND + k + 1] == buffer[PREPEND..PREPEND + k] + [held[k]];
      }
      assert held[..|held|] == held;
    }
  }
}
