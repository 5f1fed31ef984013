/** DNS over TCP: two-byte length prefixes (section 4.2.2 of RFC 1035). */
module Framing {
  import Digits
  import opened Wire
  import opened Store

  /** `(resp.len() as u16).to_be_bytes()` and the message; the cast drops high bits. */
  function Frame(m: Bytes): Bytes { Be(|m| % 0x1_0000, 2) + m }

  function Stream(ms: seq<Bytes>): Bytes {
    if ms == [] then [] else Frame(ms[0]) + Stream(ms[1..])
  }

  function LengthAt(s: Bytes): U16
    requires |s| >= 2
  {
    U16Of(s[..2])
  }

  /** Messages read until the stream ends or breaks off inside one. */
  function ReadAll(s: Bytes): seq<Bytes>
    decreases |s|
  {
    if |s| < 2 || |s| < 2 + LengthAt(s) then []
    else [s[2..2 + LengthAt(s)]] + ReadAll(s[2 + LengthAt(s)..])
  }

  predicate Fits(ms: seq<Bytes>) {
    forall m | m in ms :: |m| <= MAX_MESSAGE
  }

  lemma {:induction false} StreamAppend(ms: seq<Bytes>, m: Bytes)
    ensures Stream(ms + [m]) == Stream(ms) + Frame(m)
  {
    hide Frame;
    if ms == [] {
      assert ms + [m] == [m];
      assert Stream([m]) == Frame(m) + Stream([]);
    } else {
      assert (ms + [m])[1..] == ms[1..] + [m];
      StreamAppend(ms[1..], m);
    }
  }

  lemma FrameLength(m: Bytes, rest: Bytes)
    ensures LengthAt(Frame(m) + rest) == |m| % 0x1_0000
  {
    BeBounds();
    Digits.DecodeEncode(0x100, |m| % 0x1_0000, 2);
    assert (Frame(m) + rest)[..2] == Be(|m| % 0x1_0000, 2);
  }

  lemma ReadFrame(m: Bytes, rest: Bytes)
    requires |m| <= MAX_MESSAGE
    ensures ReadAll(Frame(m) + rest) == [m] + ReadAll(rest)
  {
    hide LengthAt;
    FrameLength(m, rest);
    var s := Frame(m) + rest;
    assert s[2..2 + |m|] == m && s[2 + |m|..] == rest;
  }

  /** Frames written before others are read before them. */
  lemma {:induction false} ReadStream(ms: seq<Bytes>, rest: Bytes)
    requires Fits(ms)
    ensures ReadAll(Stream(ms) + rest) == ms + ReadAll(rest)
  {
    hide ReadAll, Frame;
    if ms == [] {
      assert Stream(ms) + rest == rest;
    } else {
      var tail := Stream(ms[1..]);
      assert Stream(ms) + rest == Frame(ms[0]) + (tail + rest);
      ReadFrame(ms[0], tail + rest);
      ReadStream(ms[1..], rest);
      assert ms == [ms[0]] + ms[1..];
    }
  }

  /**
   * A stream cut anywhere reads back as exactly the whole messages before the cut: `k` of them fit,
   * and the next one does not.
   */
  lemma {:induction false} ReadCut(ms: seq<Bytes>, n: nat) returns (k: nat)
    requires Fits(ms) && n <= |Stream(ms)|
    ensures k <= |ms| && ReadAll(Stream(ms)[..n]) == ms[..k]
    ensures |Stream(ms[..k])| <= n && (k < |ms| ==> n < |Stream(ms[..k + 1])|)
    decreases |ms|
  {
    hide ReadAll, Frame;
    if ms == [] {
      k := 0;
      NothingToRead();
      assert Stream(ms)[..n] == [];
    } else {
      var head, tail := Frame(ms[0]), Stream(ms[1..]);
      if n < |head| {
        k := 0;
        CutInside(ms[0], tail, n);
        StreamOfOne(ms);
      } else {
        k := ReadCut(ms[1..], n - |head|);
        assert (head + tail)[..n] == head + tail[..n - |head|];
        ReadFrame(ms[0], tail[..n - |head|]);
        StreamPrefix(ms, k);
        if k + 1 < |ms| {
          StreamPrefix(ms, k + 1);
        }
        k := k + 1;
      }
    }
  }

  lemma NothingToRead()
    ensures ReadAll([]) == []
  {
  }

  lemma StreamOfOne(ms: seq<Bytes>)
    requires ms != []
    ensures Stream(ms[..0]) == [] && Stream(ms[..1]) == Frame(ms[0])
  {
    hide Frame;
    assert ms[..1][1..] == [];
  }

  lemma StreamPrefix(ms: seq<Bytes>, k: nat)
    requires k < |ms|
    ensures Stream(ms[..k + 1]) == Frame(ms[0]) + Stream(ms[1..][..k])
    ensures ms[..k + 1] == [ms[0]] + ms[1..][..k]
  {
    hide Frame;
    assert ms[..k + 1][1..] == ms[1..][..k];
  }

  lemma CutInside(m: Bytes, rest: Bytes, n: nat)
    requires |m| <= MAX_MESSAGE && n < |Frame(m)|
    ensures ReadAll((Frame(m) + rest)[..n]) == []
  {
    FrameLength(m, rest);
    var s := Frame(m) + rest;
    if n >= 2 {
      assert s[..n][..2] == s[..2];
    }
  }

  lemma {:induction false} ReadFits(s: Bytes)
    ensures Fits(ReadAll(s))
    decreases |s|
  {
    hide LengthAt;
    if |s| >= 2 && |s| >= 2 + LengthAt(s) {
      ReadFits(s[2 + LengthAt(s)..]);
    }
  }

  /** A whole stream reads back exactly when every message fits. */
  lemma StreamSurvivesIff(ms: seq<Bytes>)
    ensures ReadAll(Stream(ms)) == ms <==> Fits(ms)
  {
    hide ReadAll, Stream, Fits;
    ReadFits(Stream(ms));
    if Fits(ms) {
      ReadStream(ms, []);
      NothingToRead();
      assert Stream(ms) + [] == Stream(ms);
    }
  }

  /** A single message survives framing exactly when its length fits the prefix. */
  lemma FrameSurvivesIff(m: Bytes)
    ensures ReadAll(Frame(m)) == [m] <==> |m| <= MAX_MESSAGE
  {
    hide LengthAt;
    FrameLength(m, []);
    assert Frame(m) + [] == Frame(m);
    if |m| <= MAX_MESSAGE {
      ReadFrame(m, []);
      assert [m] + ReadAll([]) == [m];
    } else {
      var n := |m| % 0x1_0000;
      assert ReadAll(Frame(m))[0] == Frame(m)[2..2 + n];
      assert |ReadAll(Frame(m))[0]| == n != |m|;
    }
  }

  /** The read loop of a connection: length, body, until the peer closes or stalls. */
  method ReadMessages(stream: Bytes) returns (messages: seq<Bytes>)
    ensures messages == ReadAll(stream)
  {
    hide LengthAt;
    messages := [];
    var rest := stream;
    while true
      invariant messages + ReadAll(rest) == ReadAll(stream)
      decreases |rest|
    {
      if |rest| < 2 {
        break;
      }
      var len: nat := LengthAt(rest);
      if |rest| < 2 + len {
        break;
      }
      messages := messages + [rest[2..2 + len]];
      rest := rest[2 + len..];
    }
  }
}
