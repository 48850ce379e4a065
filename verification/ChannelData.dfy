/** TURN ChannelData frames: a channel number, a length, the data, and padding to four octets. */
module ChannelData {
  import opened Bytes

  const CHANNEL_MIN := 0x4000
  const CHANNEL_MAX := 0x7FFF
  const HEADER := 4
  const MAX_DATA := 0xFFFF

  predicate ChannelValid(channel: nat) { CHANNEL_MIN <= channel <= CHANNEL_MAX }

  /** What the wire carries for `data` on `channel`. */
  function Frame(channel: nat, data: seq<Byte>): (f: seq<Byte>)
    ensures |f| == HEADER + Padded(|data|)
  {
    U16(channel) + U16(|data|) + data + Zeros(Padded(|data|) - |data|)
  }

  /** `wrapChannelData`: nothing for a bad channel number or data too long for the length field. */
  method Wrap(channel: nat, data: seq<Byte>) returns (size: nat, out: seq<Byte>)
    ensures size == |out|
    ensures out == if ChannelValid(channel) && |data| <= MAX_DATA then Frame(channel, data) else []
  {
    if !ChannelValid(channel) || |data| > MAX_DATA { return 0, []; }
    var padded := Padded(|data|);
    out := U16(channel) + U16(|data|) + data;
    for i := |data| to padded
      invariant out == U16(channel) + U16(|data|) + data + Zeros(i - |data|)
    {
      assert Zeros(i + 1 - |data|) == Zeros(i - |data|) + [0];
      out := out + [0];
    }
    size := |out|;
  }

  /** `unwrapChannelData`: the data of the frame at the front of a buffer; none is reported as length zero. */
  datatype Unwrapped = Unwrapped(channel: nat, data: seq<Byte>, frameSize: nat) | NotAFrame

  function Unwrap(buf: seq<Byte>): Unwrapped
  {
    if |buf| < HEADER then NotAFrame
    else
      var channel := ReadU16(buf);
      var len := ReadU16(buf[2..]);
      if !ChannelValid(channel) || len > |buf| - HEADER then NotAFrame
      else Unwrapped(channel, buf[HEADER..HEADER + len], HEADER + Min(Padded(len), |buf| - HEADER))
  }

  lemma FrameFields(channel: nat, data: seq<Byte>, tail: seq<Byte>)
    requires ChannelValid(channel) && |data| <= MAX_DATA
    ensures var b := Frame(channel, data) + tail;
            && ReadU16(b) == channel && ReadU16(b[2..]) == |data|
            && b[HEADER..HEADER + |data|] == data
  {
    var b := Frame(channel, data) + tail;
    var rest := data + Zeros(Padded(|data|) - |data|) + tail;
    assert b == U16(channel) + (U16(|data|) + rest);
    assert b[2..] == U16(|data|) + rest;
    U16RoundTrip(channel, U16(|data|) + rest);
    U16RoundTrip(|data|, rest);
  }

  /** Whatever follows it, a wrapped frame is unwrapped to the same channel, data and extent. */
  lemma RoundTrip(channel: nat, data: seq<Byte>, tail: seq<Byte>)
    requires ChannelValid(channel) && |data| <= MAX_DATA
    ensures Unwrap(Frame(channel, data) + tail) == Unwrapped(channel, data, |Frame(channel, data)|)
  {
    FrameFields(channel, data, tail);
  }
}
