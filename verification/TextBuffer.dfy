/** Copying and appending text in a fixed buffer, in place: what the string functions see of the buffer afterwards
    is what `CopyText` and `AppendText` say. */
module TextBuffer {
  import opened Core

  lemma {:induction false} TextEnds(buffer: Bytes, n: nat)
    requires n < |buffer| && buffer[n] == '\0'
    ensures CText(buffer) == CText(buffer[..n])
  {
    if n == 0 || buffer[0] == '\0' {
    } else {
      assert buffer[..n][1..] == buffer[1..][..n - 1];
      TextEnds(buffer[1..], n - 1);
    }
  }

  lemma {:induction false} TextBefore(buffer: Bytes, n: nat)
    requires n <= |buffer| && '\0' !in buffer[..n] && (n < |buffer| ==> buffer[n] == '\0')
    ensures CText(buffer) == buffer[..n]
  {
    if n < |buffer| {
      TextEnds(buffer, n);
    } else {
      assert buffer[..n] == buffer;
    }
  }

  /** `memcpy` of a whole value to a place in the buffer. */
  method Write(buffer: array<byte>, at: nat, value: Bytes)
    requires at + |value| <= buffer.Length
    modifies buffer
    ensures buffer[..at + |value|] == old(buffer[..at]) + value
    ensures forall i :: at + |value| <= i < buffer.Length ==> buffer[i] == old(buffer[i])
  {
    forall i | 0 <= i < |value| {
      buffer[at + i] := value[i];
    }
  }

  /** Writing the NUL. */
  method Close(buffer: array<byte>, at: nat)
    requires at < buffer.Length
    modifies buffer
    ensures buffer[..at] == old(buffer[..at]) && CText(buffer[..]) == CText(buffer[..at])
    ensures forall i :: at < i < buffer.Length ==> buffer[i] == old(buffer[i])
  {
    buffer[at] := '\0';
    TextEnds(buffer[..], at);
    assert buffer[..][..at] == buffer[..at];
  }

  /** `CopyIpsecString`.  Nothing behind the terminating NUL is touched. */
  method CopyInto(buffer: array<byte>, source: Bytes) returns (error: Error)
    modifies buffer
    ensures buffer.Length == 0 ==> error == InvalidArgument
    ensures 0 < buffer.Length ==> (CText(buffer[..]), error) == CopyText(buffer.Length, source)
    ensures error == Ok ==> buffer[..|source|] == source
    ensures forall i :: (if error == Ok then |source| else 0) < i < buffer.Length ==> buffer[i] == old(buffer[i])
  {
    if buffer.Length == 0 {
      error := InvalidArgument;
    } else if |source| >= buffer.Length {
      buffer[0] := '\0';
      error := BufferTooSmall;
      TextBefore(buffer[..], 0);
    } else {
      Write(buffer, 0, source);
      assert buffer[..|source|] == source;
      Close(buffer, |source|);
      error := Ok;
    }
  }

  /** `strnlen`. */
  method UsedLength(buffer: array<byte>) returns (used: nat)
    ensures used <= buffer.Length && buffer[..used] == CText(buffer[..])
    ensures used < buffer.Length ==> buffer[used] == '\0'
  {
    used := 0;
    while used < buffer.Length && buffer[used] != '\0'
      invariant 0 <= used <= buffer.Length && '\0' !in buffer[..used]
    {
      used := used + 1;
    }
    assert buffer[..][..used] == buffer[..used];
    TextBefore(buffer[..], used);
  }

  /** The separator, the value and the NUL. */
  method WriteBehind(buffer: array<byte>, used: nat, separator: Bytes, value: Bytes)
    requires used + |separator| + |value| < buffer.Length
    modifies buffer
    ensures CText(buffer[..]) == CText(old(buffer[..used]) + separator + value)
  {
    ghost var text := buffer[..used];
    var middle := used + |separator|;
    var end := middle + |value|;
    Write(buffer, used, separator);
    ghost var before := buffer[..middle];
    assert before == text + separator;
    Write(buffer, middle, value);
    assert buffer[..end] == before + value;
    Close(buffer, end);
  }

  /** `AppendIpsecText`.  A buffer without a terminating NUL is full; a failure changes nothing. */
  method AppendInto(buffer: array<byte>, value: Bytes, separator: CString) returns (error: Error)
    modifies buffer
    ensures buffer.Length == 0 ==> error == InvalidArgument
    ensures var text := old(CText(buffer[..]));
            0 < buffer.Length ==>
              if |text| == buffer.Length then error == BufferTooSmall
              else (CText(buffer[..]), error) == AppendText(buffer.Length, text, value, separator)
    ensures error != Ok ==> buffer[..] == old(buffer[..])
  {
    if buffer.Length == 0 {
      return InvalidArgument;
    }
    var used := UsedLength(buffer);
    var behind: CString := if 0 < used then separator else [];
    if used >= buffer.Length || |behind| > buffer.Length - used - 1 || |value| > buffer.Length - used - |behind| - 1 {
      return BufferTooSmall;
    }
    WriteBehind(buffer, used, behind, value);
    error := Ok;
  }
}
