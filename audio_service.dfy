/** The PCM decoder of services/audioService.ts: base64 text to bytes, bytes to
    mono 16-bit little-endian samples, samples to values in [-1, 1). Sample
    values are exact rationals (`real`); every int16 / 32768 is exactly
    representable in a 32-bit float, so nothing is lost by that choice. */
module AudioService {
  import opened Types
  import Base64

  /** A signed 16-bit integer, one element of an `Int16Array`. */
  type int16 = x: int | -32768 <= x < 32768

  /** The sample rate `decodeAudioData` assumes when none is given. */
  const DefaultSampleRate: nat := 24000

  /** The divisor that maps int16 samples into [-1, 1). */
  const Scale: real := 32768.0

  /** The decoded audio: a one-channel buffer as the Web Audio API creates it. */
  datatype AudioBuffer = AudioBuffer(numberOfChannels: nat, sampleRate: nat, channelData: seq<real>)

  /** Why decoding rejected: `atob` threw InvalidCharacterError, or the
      `Int16Array` constructor threw RangeError over an odd byte count. */
  datatype DecodeError = InvalidCharacter | OddByteLength

  /** The int16 read from a little-endian pair of bytes (two's complement). */
  function Int16FromBytes(lo: byte, hi: byte): (x: int16)
    ensures (x + 65536) % 65536 == lo + 256 * hi
  {
    var u := lo + 256 * hi;
    if u >= 32768 then u - 65536 else u
  }

  /** The bytes of a binary string: its character codes, in order. */
  function CharCodes(bin: string): (bs: seq<byte>)
    requires forall i :: 0 <= i < |bin| ==> bin[i] as int < 256
    ensures |bs| == |bin|
    ensures forall i :: 0 <= i < |bin| ==> bs[i] == bin[i] as int
  {
    seq(|bin|, i requires 0 <= i < |bin| => bin[i] as int)
  }

  /** The bytes `decodeBase64` returns for a base64 text, or the error `atob` throws. */
  function DecodedBytes(base64: string): (r: Result<seq<byte>, DecodeError>)
    ensures r.Ok? <==> Base64.Atob(base64).Some?
    ensures r.Err? ==> r.error == InvalidCharacter
  {
    match Base64.Atob(base64)
    case None => Err(InvalidCharacter)
    case Some(bin) => Ok(CharCodes(bin))
  }

  /** `decodeBase64` yields one byte per character of the binary string `atob`
      returns, and byte i is the code of character i. */
  lemma DecodedBytesAreCharCodes(base64: string)
    requires Base64.Atob(base64).Some?
    ensures var bin, bytes := Base64.Atob(base64).value, DecodedBytes(base64).value;
            && |bytes| == |bin|
            && forall i :: 0 <= i < |bin| ==> bytes[i] == bin[i] as int
  {
  }

  /** The `Int16Array` view of an even-length byte buffer on a little-endian platform. */
  function Int16View(bs: seq<byte>): (xs: seq<int16>)
    requires |bs| % 2 == 0
    ensures |xs| == |bs| / 2
    ensures forall i :: 0 <= i < |xs| ==> xs[i] == Int16FromBytes(bs[2 * i], bs[2 * i + 1])
  {
    seq(|bs| / 2, i requires 0 <= i < |bs| / 2 => Int16FromBytes(bs[2 * i], bs[2 * i + 1]))
  }

  /** One sample divided by 32768: a value in [-1, 1) that scales back to the sample. */
  function SampleValue(x: int16): (y: real)
    ensures y * Scale == x as real
    ensures -1.0 <= y < 1.0
  {
    x as real / Scale
  }

  /** Each sample divided by 32768. */
  function Normalise(xs: seq<int16>): (ys: seq<real>)
    ensures |ys| == |xs|
    ensures forall i :: 0 <= i < |xs| ==> ys[i] == SampleValue(xs[i])
  {
    seq(|xs|, i requires 0 <= i < |xs| => SampleValue(xs[i]))
  }

  /** What `decodeAudioData` resolves to or rejects with, as a function of its inputs. */
  function DecodedAudio(base64: string, sampleRate: nat): (r: Result<AudioBuffer, DecodeError>)
    ensures r.Ok? ==> r.value.numberOfChannels == 1 && r.value.sampleRate == sampleRate
    ensures r.Ok? ==> DecodedBytes(base64).Ok? && 2 * |r.value.channelData| == |DecodedBytes(base64).value|
  {
    match DecodedBytes(base64)
    case Err(e) => Err(e)
    case Ok(bytes) =>
      if |bytes| % 2 != 0 then Err(OddByteLength)
      else Ok(AudioBuffer(1, sampleRate, Normalise(Int16View(bytes))))
  }

  /** `decodeBase64`: `atob`, then one byte per character of the binary string,
      copied into a fresh byte array by a loop. */
  method DecodeBase64(base64: string) returns (r: Result<seq<byte>, DecodeError>)
    ensures r == DecodedBytes(base64)
  {
    var decoded := Base64.Atob(base64);
    if decoded.None? {
      return Err(InvalidCharacter);
    }
    var binaryString := decoded.value;
    var len := |binaryString|;
    var bytes := new byte[len];
    for i := 0 to len
      invariant forall k :: 0 <= k < i ==> bytes[k] == binaryString[k] as int
    {
      bytes[i] := binaryString[i] as int;
    }
    r := Ok(bytes[..]);
    assert bytes[..] == CharCodes(binaryString);
  }

  lemma DecodedAudioOfBytes(base64: string, sampleRate: nat, bytes: seq<byte>)
    requires DecodedBytes(base64) == Ok(bytes)
    ensures |bytes| % 2 != 0 ==> DecodedAudio(base64, sampleRate) == Err(OddByteLength)
    ensures |bytes| % 2 == 0 ==>
              DecodedAudio(base64, sampleRate) == Ok(AudioBuffer(1, sampleRate, Normalise(Int16View(bytes))))
  {
  }

  /** The channel fill loop of `decodeAudioData`: a fresh float array of one
      entry per sample, entry i set to sample i divided by 32768. */
  method FillChannel(dataInt16: seq<int16>) returns (samples: seq<real>)
    ensures samples == Normalise(dataInt16)
  {
    var frameCount := |dataInt16|;
    var channelData := new real[frameCount];
    for i := 0 to frameCount
      invariant forall k :: 0 <= k < i ==> channelData[k] == SampleValue(dataInt16[k])
    {
      channelData[i] := SampleValue(dataInt16[i]);
    }
    samples := channelData[..];
  }

  /** `decodeAudioData`: decode the bytes, view them as int16 samples and fill
      the single channel with each sample divided by 32768. */
  method DecodeAudioData(base64String: string, sampleRate: nat := DefaultSampleRate)
    returns (r: Result<AudioBuffer, DecodeError>)
    ensures r == DecodedAudio(base64String, sampleRate)
  {
    var audioData := DecodeBase64(base64String);
    if audioData.Err? {
      return Err(audioData.error);
    }
    var bytes := audioData.value;
    DecodedAudioOfBytes(base64String, sampleRate, bytes);
    if |bytes| % 2 != 0 {
      return Err(OddByteLength);
    }
    var numChannels := 1;
    var dataInt16 := Int16View(bytes);
    var channelData := FillChannel(dataInt16);
    r := Ok(AudioBuffer(numChannels, sampleRate, channelData));
  }

  // ---------------------------------------------------------------------
  // Properties of the decoder.

  /** The little-endian byte pair of an int16 (two's complement). */
  function LittleEndian16(x: int16): (pair: seq<byte>)
    ensures |pair| == 2 && Int16FromBytes(pair[0], pair[1]) == x
  {
    var u := if x < 0 then x + 65536 else x;
    [u % 256, u / 256]
  }

  /** A sample sequence laid out as little-endian 16-bit PCM bytes. */
  function PcmBytes(xs: seq<int16>): (bs: seq<byte>)
    ensures |bs| == 2 * |xs|
  {
    if xs == [] then [] else LittleEndian16(xs[0]) + PcmBytes(xs[1..])
  }

  lemma {:induction false} PcmBytesAt(xs: seq<int16>, i: nat)
    requires i < |xs|
    ensures PcmBytes(xs)[2 * i] == LittleEndian16(xs[i])[0]
    ensures PcmBytes(xs)[2 * i + 1] == LittleEndian16(xs[i])[1]
  {
    if i > 0 {
      PcmBytesAt(xs[1..], i - 1);
    }
  }

  /** Reading little-endian PCM bytes back as int16 gives the same samples. */
  lemma Int16ViewOfPcmBytes(xs: seq<int16>)
    ensures Int16View(PcmBytes(xs)) == xs
  {
    var view := Int16View(PcmBytes(xs));
    forall i | 0 <= i < |xs| ensures view[i] == xs[i] {
      PcmBytesAt(xs, i);
    }
  }

  /** Round trip: int16 samples written as little-endian bytes and then as
      base64 decode to a one-channel buffer holding each sample / 32768, in order. */
  lemma DecodeRoundTrip(xs: seq<int16>, sampleRate: nat)
    ensures DecodedAudio(Base64.Encode(PcmBytes(xs)), sampleRate)
         == Ok(AudioBuffer(1, sampleRate, Normalise(xs)))
  {
    var bs := PcmBytes(xs);
    Base64.AtobEncode(bs);
    assert CharCodes(Base64.BinaryString(bs)) == bs;
    Int16ViewOfPcmBytes(xs);
  }

  /** The shape of every decoded buffer: one channel, half as many frames as
      decoded bytes, sample i built from bytes 2i (low) and 2i+1 (high) and
      equal to that int16 divided by 32768, so inside [-1, 1). */
  lemma DecodedShape(base64: string, sampleRate: nat)
    requires DecodedAudio(base64, sampleRate).Ok?
    ensures var buffer := DecodedAudio(base64, sampleRate).value;
            var bytes := DecodedBytes(base64).value;
            && buffer.numberOfChannels == 1
            && buffer.sampleRate == sampleRate
            && 2 * |buffer.channelData| == |bytes|
            && forall i :: 0 <= i < |buffer.channelData| ==>
                 && buffer.channelData[i] == SampleValue(Int16FromBytes(bytes[2 * i], bytes[2 * i + 1]))
                 && -1.0 <= buffer.channelData[i] < 1.0
  {
  }

  /** Decoding fails exactly when `atob` rejects the text or yields an odd
      number of bytes; an odd count is an error, never a truncation. */
  lemma DecodeFailsIff(base64: string, sampleRate: nat)
    ensures DecodedAudio(base64, sampleRate).Err? <==>
            (Base64.Atob(base64).None? || |Base64.Atob(base64).value| % 2 == 1)
    ensures DecodedAudio(base64, sampleRate) == Err(OddByteLength) <==>
            (Base64.Atob(base64).Some? && |Base64.Atob(base64).value| % 2 == 1)
  {
  }

  /** An empty payload is a zero-frame one-channel buffer, not an error. */
  lemma DecodeEmpty(sampleRate: nat)
    ensures DecodedAudio("", sampleRate) == Ok(AudioBuffer(1, sampleRate, []))
  {
    assert Base64.StripAsciiWhitespace("") == "";
  }
}
