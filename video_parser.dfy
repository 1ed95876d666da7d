/** The control logic of the video frame iterator: a buffer of demuxed
    video packets refilled ten at a time, fed one by one to the decoder,
    and an end-of-stream flush. The demuxer is the sequence of packets it
    still has to deliver; the decoder is a script of its answers plus a log
    of what it was sent. */
module VideoParser {
  import opened Common

  /** A demuxed packet: the index of its stream and an opaque payload. */
  datatype StreamPacket = StreamPacket(streamIndex: nat, payload: nat)

  /** The decoder's answer to `receive_frame`, after scaling to RGBA:
      a frame, nothing buffered, or a scaling / buffer failure. */
  datatype Receive = Frame(image: RgbaImage) | NoFrame | DecodeFailure(message: string)

  /** What the decoder accepted: a packet, or the end-of-stream marker. */
  datatype DecoderInput = SentPacket(packet: StreamPacket) | SentEof

  datatype VideoParserError = Io(message: string) | Ffmpeg(message: string) | Decode(message: string)

  /** The packets of one stream, in demuxer order. */
  function VideoPackets(s: seq<StreamPacket>, video: nat): (v: seq<StreamPacket>)
    ensures |v| <= |s|
    ensures forall i :: 0 <= i < |v| ==> v[i].streamIndex == video
  {
    if s == [] then [] else (if s[0].streamIndex == video then [s[0]] else []) + VideoPackets(s[1..], video)
  }

  lemma {:induction false} VideoPacketsAppend(a: seq<StreamPacket>, b: seq<StreamPacket>, video: nat)
    ensures VideoPackets(a + b, video) == VideoPackets(a, video) + VideoPackets(b, video)
    decreases |a|
  {
    if a == [] {
      assert a + b == b;
    } else {
      assert (a + b)[1..] == a[1..] + b;
      VideoPacketsAppend(a[1..], b, video);
    }
  }

  /** Where `load_packets`, started at item `from` and wanting `want` more
      video packets, stops consuming demuxer items: just after the
      `want`-th video packet, or at the end. */
  function LoadEnd(demux: seq<StreamPacket>, video: nat, from: nat, want: nat): (k: nat)
    requires want >= 1 && from <= |demux|
    ensures from <= k <= |demux|
    decreases |demux| - from
  {
    if from == |demux| then from
    else if demux[from].streamIndex == video then
      (if want == 1 then from + 1 else LoadEnd(demux, video, from + 1, want - 1))
    else LoadEnd(demux, video, from + 1, want)
  }

  /** How many demuxer items `load_packets` consumes when it wants `want`
      video packets: up to and including the `want`-th one, or all. */
  function LoadSplit(demux: seq<StreamPacket>, video: nat, want: nat): (k: nat)
    requires want >= 1
    ensures k <= |demux|
  {
    LoadEnd(demux, video, 0, want)
  }

  /** One more item: the video packets from item i on. */
  lemma VideoPacketsFrom(demux: seq<StreamPacket>, video: nat, i: nat)
    requires i < |demux|
    ensures |VideoPackets(demux[i..], video)| == (if demux[i].streamIndex == video then 1 else 0) + |VideoPackets(demux[i + 1..], video)|
  {
    assert demux[i..][1..] == demux[i + 1..];
  }

  /** `loaded >= count` is checked after a push, so a count of 0 loads one. */
  function Want(count: nat): nat { if count == 0 then 1 else count }

  /** What one `load_packets` call takes: never more than it wants and only
      video packets; the demuxer runs dry (exhausted) exactly when it holds
      fewer than wanted, and then all of it is consumed; otherwise exactly
      the wanted number is taken. In particular an empty load means the
      demuxer is exhausted. */
  lemma LoadProperties(demux: seq<StreamPacket>, video: nat, want: nat)
    requires want >= 1
    ensures var k := LoadSplit(demux, video, want);
      var taken := VideoPackets(demux[..k], video);
      var exhausted := |VideoPackets(demux, video)| < want;
      && |taken| <= want
      && (exhausted ==> k == |demux| && taken == VideoPackets(demux, video))
      && (!exhausted ==> |taken| == want && k >= 1 && demux[k - 1].streamIndex == video)
      && (taken == [] ==> exhausted)
  {
    LoadEndProperties(demux, video, 0, want);
    assert demux[0..] == demux;
    assert demux[0..LoadSplit(demux, video, want)] == demux[..LoadSplit(demux, video, want)];
  }

  lemma LoadEndProperties(demux: seq<StreamPacket>, video: nat, from: nat, want: nat)
    requires want >= 1 && from <= |demux|
    ensures var k := LoadEnd(demux, video, from, want);
      var taken := VideoPackets(demux[from..k], video);
      var exhausted := |VideoPackets(demux[from..], video)| < want;
      && |taken| <= want
      && (exhausted ==> k == |demux| && taken == VideoPackets(demux[from..], video))
      && (!exhausted ==> |taken| == want && k > from && demux[k - 1].streamIndex == video)
      && (taken == [] ==> exhausted)
  {
    LoadEndShort(demux, video, from, want);
    LoadEndFull(demux, video, from, want);
    if |VideoPackets(demux[from..], video)| >= want {
      LoadEndLast(demux, video, from, want);
    }
  }

  /** With enough video packets, the last item consumed is a video packet. */
  lemma {:induction false} LoadEndLast(demux: seq<StreamPacket>, video: nat, from: nat, want: nat)
    requires want >= 1 && from <= |demux| && |VideoPackets(demux[from..], video)| >= want
    ensures var k := LoadEnd(demux, video, from, want);
      k > from && demux[k - 1].streamIndex == video
    decreases |demux| - from
  {
    if from == |demux| {
      assert false;
    } else {
      VideoPacketsFrom(demux, video, from);
      if demux[from].streamIndex == video {
        if want > 1 {
          LoadEndLast(demux, video, from + 1, want - 1);
        }
      } else {
        LoadEndLast(demux, video, from + 1, want);
      }
    }
  }

  /** With fewer video packets than wanted, the load runs to the end. */
  lemma {:induction false} LoadEndShort(demux: seq<StreamPacket>, video: nat, from: nat, want: nat)
    requires want >= 1 && from <= |demux|
    ensures var k := LoadEnd(demux, video, from, want);
      var taken := VideoPackets(demux[from..k], video);
      && |taken| <= want
      && (|VideoPackets(demux[from..], video)| < want ==> k == |demux| && taken == VideoPackets(demux[from..], video))
    decreases |demux| - from
  {
    var k := LoadEnd(demux, video, from, want);
    if from < |demux| {
      assert demux[from..k][1..] == demux[from + 1..k];
      VideoPacketsFrom(demux, video, from);
      assert demux[from..][1..] == demux[from + 1..];
      if demux[from].streamIndex == video {
        if want > 1 {
          LoadEndShort(demux, video, from + 1, want - 1);
        } else {
          assert demux[from..k][1..] == [];
        }
      } else {
        LoadEndShort(demux, video, from + 1, want);
      }
    }
  }

  /** With enough video packets, the load stops right after the wanted
      number, on a video packet. */
  lemma {:induction false} LoadEndFull(demux: seq<StreamPacket>, video: nat, from: nat, want: nat)
    requires want >= 1 && from <= |demux|
    ensures var k := LoadEnd(demux, video, from, want);
      var taken := VideoPackets(demux[from..k], video);
      && (|VideoPackets(demux[from..], video)| >= want ==> |taken| == want)
    decreases |demux| - from
  {
    var k := LoadEnd(demux, video, from, want);
    if from < |demux| {
      assert demux[from..k][1..] == demux[from + 1..k];
      VideoPacketsFrom(demux, video, from);
      if demux[from].streamIndex == video {
        if want > 1 {
          LoadEndFull(demux, video, from + 1, want - 1);
        } else {
          assert demux[from..k][1..] == [];
        }
      } else {
        LoadEndFull(demux, video, from + 1, want);
      }
    } else {
      assert demux[from..] == [];
    }
  }

  /** Taking item i: the video packets before and after it. */
  lemma TakeItem(demux: seq<StreamPacket>, video: nat, i: nat)
    requires i < |demux|
    ensures demux[i..][1..] == demux[i + 1..]
    ensures VideoPackets(demux[..i + 1], video)
            == VideoPackets(demux[..i], video) + (if demux[i].streamIndex == video then [demux[i]] else [])
    ensures |VideoPackets(demux[i..], video)| == (if demux[i].streamIndex == video then 1 else 0) + |VideoPackets(demux[i + 1..], video)|
  {
    assert demux[..i + 1] == demux[..i] + [demux[i]];
    VideoPacketsAppend(demux[..i], [demux[i]], video);
    assert VideoPackets([demux[i]], video) == (if demux[i].streamIndex == video then [demux[i]] else []);
    VideoPacketsFrom(demux, video, i);
  }

  /** The demuxer loop of `load_packets`: items of other streams are
      skipped, video packets collected until `loaded >= count` right after a
      push; running out of items means exhaustion. */
  method TakeVideoPackets(demux: seq<StreamPacket>, video: nat, count: nat)
    returns (taken: seq<StreamPacket>, rest: seq<StreamPacket>, exhausted: bool)
    ensures var k := LoadSplit(demux, video, Want(count));
      && rest == demux[k..]
      && taken == VideoPackets(demux[..k], video)
      && exhausted == (|VideoPackets(demux, video)| < Want(count))
  {
    ghost var want := Want(count);
    ghost var i := 0;
    taken, rest := [], demux;
    var loaded := 0;
    while rest != []
      invariant i <= |demux| && rest == demux[i..]
      invariant taken == VideoPackets(demux[..i], video)
      invariant loaded == |taken| < want
      invariant LoadSplit(demux, video, want) == LoadEnd(demux, video, i, want - loaded)
      invariant |VideoPackets(demux, video)| == loaded + |VideoPackets(demux[i..], video)|
    {
      var item := rest[0];
      TakeItem(demux, video, i);
      rest := rest[1..];
      i := i + 1;
      if item.streamIndex == video {
        taken := taken + [item];
        loaded := loaded + 1;
        if loaded >= count {
          return taken, rest, false;
        }
      }
    }
    assert demux[..|demux|] == demux;
    exhausted := true;
  }

  function AsSent(packets: seq<StreamPacket>): (s: seq<DecoderInput>)
    ensures |s| == |packets|
  {
    seq(|packets|, i requires 0 <= i < |packets| => SentPacket(packets[i]))
  }

  function NextReceive(script: seq<Receive>): Receive {
    if script == [] then NoFrame else script[0]
  }

  function Rest<T>(script: seq<T>): seq<T> {
    if script == [] then [] else script[1..]
  }

  /** The iterator's invariant, over the values of its fields: the buffers
      hold the video packets the demuxer has delivered, in order; the
      decoder has been sent exactly those the index has passed, then EOF
      once flushing; the index never passes the buffer; exhaustion means
      the demuxer is empty, and flushing means everything was sent. */
  ghost predicate Consistent(source: seq<StreamPacket>, video: nat, demux: seq<StreamPacket>,
                             loadedBefore: seq<StreamPacket>, packetBuffer: seq<StreamPacket>, packetIndex: nat,
                             sent: seq<DecoderInput>, packetsExhausted: bool, flushing: bool)
  {
    && |demux| <= |source|
    && demux == source[|source| - |demux|..]
    && loadedBefore + packetBuffer == VideoPackets(source[..|source| - |demux|], video)
    && packetIndex <= |packetBuffer|
    && sent == AsSent(loadedBefore + packetBuffer[..packetIndex]) + (if flushing then [SentEof] else [])
    && (packetsExhausted ==> demux == [])
    && (flushing ==> packetsExhausted && packetIndex == |packetBuffer|)
  }

  /** Sending the packet at the index, once accepted, and moving past it. */
  lemma SendPacketStep(source: seq<StreamPacket>, video: nat, demux: seq<StreamPacket>,
                       loadedBefore: seq<StreamPacket>, packetBuffer: seq<StreamPacket>, packetIndex: nat,
                       sent: seq<DecoderInput>, packetsExhausted: bool)
    requires Consistent(source, video, demux, loadedBefore, packetBuffer, packetIndex, sent, packetsExhausted, false)
    requires packetIndex < |packetBuffer|
    ensures Consistent(source, video, demux, loadedBefore, packetBuffer, packetIndex + 1,
                       sent + [SentPacket(packetBuffer[packetIndex])], packetsExhausted, false)
  {
    assert (loadedBefore + packetBuffer[..packetIndex + 1])
        == (loadedBefore + packetBuffer[..packetIndex]) + [packetBuffer[packetIndex]];
  }

  /** Sending EOF, once accepted, starts the flush. */
  lemma SendEofStep(source: seq<StreamPacket>, video: nat, demux: seq<StreamPacket>,
                    loadedBefore: seq<StreamPacket>, packetBuffer: seq<StreamPacket>, packetIndex: nat,
                    sent: seq<DecoderInput>)
    requires Consistent(source, video, demux, loadedBefore, packetBuffer, packetIndex, sent, true, false)
    requires packetIndex >= |packetBuffer|
    ensures Consistent(source, video, demux, loadedBefore, packetBuffer, packetIndex, sent + [SentEof], true, true)
  {
  }

  /** Clearing a consumed buffer and loading ten more packets keeps the
      invariant; the new buffer is empty only if the demuxer ran dry, and
      every packet loaded took at least one item off the demuxer. */
  lemma RefillStep(source: seq<StreamPacket>, video: nat, demux: seq<StreamPacket>,
                   loadedBefore: seq<StreamPacket>, packetBuffer: seq<StreamPacket>, packetIndex: nat,
                   sent: seq<DecoderInput>)
    requires Consistent(source, video, demux, loadedBefore, packetBuffer, packetIndex, sent, false, false)
    requires packetIndex >= |packetBuffer|
    ensures var k := LoadSplit(demux, video, 10);
      var loaded := VideoPackets(demux[..k], video);
      var exhausted := |VideoPackets(demux, video)| < 10;
      && Consistent(source, video, demux[k..], loadedBefore + packetBuffer, loaded, 0, sent, exhausted, false)
      && (loaded == [] ==> exhausted)
      && |demux[k..]| + |loaded| <= |demux|
      && (|loaded| > 0 ==> |demux[k..]| + |loaded| - 1 < |demux|)
  {
    var consumed := |source| - |demux|;
    var k := LoadSplit(demux, video, 10);
    LoadProperties(demux, video, 10);
    assert packetBuffer[..packetIndex] == packetBuffer;
    assert source[..consumed + k] == source[..consumed] + demux[..k];
    VideoPacketsAppend(source[..consumed], demux[..k], video);
    assert demux[k..] == source[consumed + k..];
    var loaded := VideoPackets(demux[..k], video);
    assert loaded[..0] == [];
    assert |loaded| <= k;
  }

  /** `VideoFrameIterator`. `source` is everything the demuxer delivers,
      `demux` what it has not delivered yet; `loadedBefore` holds the
      packets of buffers already cleared. */
  class VideoFrameIterator {
    ghost const source: seq<StreamPacket>
    const videoStreamIndex: nat
    var demux: seq<StreamPacket>
    var decoderOutputs: seq<Receive>
    var sendReplies: seq<Option<string>>
    var sent: seq<DecoderInput>
    var packetBuffer: seq<StreamPacket>
    ghost var loadedBefore: seq<StreamPacket>
    var packetIndex: nat
    var packetsExhausted: bool
    var flushing: bool

    /** The iterator's invariant, `Consistent` of its fields. */
    ghost predicate Valid()
      reads this
    {
      Consistent(source, videoStreamIndex, demux, loadedBefore, packetBuffer, packetIndex, sent, packetsExhausted, flushing)
    }

    /** The state `VideoFrameIterator::new` leaves: an empty buffer, nothing
        sent, not exhausted, not flushing. */
    constructor (source: seq<StreamPacket>, videoStreamIndex: nat,
                 decoderOutputs: seq<Receive>, sendReplies: seq<Option<string>>)
      ensures Valid()
      ensures this.source == source && this.demux == source && this.videoStreamIndex == videoStreamIndex
      ensures this.decoderOutputs == decoderOutputs && this.sendReplies == sendReplies
      ensures packetBuffer == [] && packetIndex == 0 && !packetsExhausted && !flushing && sent == []
    {
      this.source := source;
      this.videoStreamIndex := videoStreamIndex;
      this.demux := source;
      this.decoderOutputs := decoderOutputs;
      this.sendReplies := sendReplies;
      this.sent := [];
      this.packetBuffer := [];
      this.loadedBefore := [];
      this.packetIndex := 0;
      this.packetsExhausted := false;
      this.flushing := false;
      new;
      assert source[|source| - |source|..] == source && source[..0] == [];
    }

    /** `load_packets`: nothing once exhausted; otherwise the next video
        packets up to the wanted number, with exhaustion recorded only when
        the demuxer runs out first. */
    method LoadPackets(count: nat)
      modifies this
      ensures old(packetsExhausted) ==> unchanged(this)
      ensures !old(packetsExhausted) ==>
        var k := LoadSplit(old(demux), videoStreamIndex, Want(count));
        && demux == old(demux)[k..]
        && packetBuffer == old(packetBuffer) + VideoPackets(old(demux)[..k], videoStreamIndex)
        && packetsExhausted == (|VideoPackets(old(demux), videoStreamIndex)| < Want(count))
      ensures decoderOutputs == old(decoderOutputs) && sendReplies == old(sendReplies) && sent == old(sent)
      ensures loadedBefore == old(loadedBefore) && packetIndex == old(packetIndex) && flushing == old(flushing)
    {
      if packetsExhausted {
        return;
      }
      var taken, rest, exhausted := TakeVideoPackets(demux, videoStreamIndex, count);
      packetBuffer := packetBuffer + taken;
      demux := rest;
      if exhausted {
        packetsExhausted := true;
      }
    }

    /** `decoder.receive_frame` followed by the RGBA conversion. */
    method DecodeFrame() returns (r: Result<Option<RgbaImage>, VideoParserError>)
      modifies this
      ensures decoderOutputs == Rest(old(decoderOutputs))
      ensures NextReceive(old(decoderOutputs)).Frame? ==> r == Ok(Some(NextReceive(old(decoderOutputs)).image))
      ensures NextReceive(old(decoderOutputs)).NoFrame? ==> r == Ok(None)
      ensures NextReceive(old(decoderOutputs)).DecodeFailure? ==>
        r == Err(Decode(NextReceive(old(decoderOutputs)).message))
      ensures demux == old(demux) && sendReplies == old(sendReplies) && sent == old(sent)
      ensures packetBuffer == old(packetBuffer) && loadedBefore == old(loadedBefore)
      ensures packetIndex == old(packetIndex) && packetsExhausted == old(packetsExhausted) && flushing == old(flushing)
    {
      var answer := NextReceive(decoderOutputs);
      decoderOutputs := Rest(decoderOutputs);
      match answer
      case Frame(image) => r := Ok(Some(image));
      case NoFrame => r := Ok(None);
      case DecodeFailure(message) => r := Err(Decode(message));
    }

    /** `send_packet` / `send_eof`: the decoder's next reply, and on success
        the input is logged as accepted. */
    method Send(input: DecoderInput) returns (failure: Option<string>)
      modifies this
      ensures sendReplies == Rest(old(sendReplies))
      ensures failure == (if old(sendReplies) == [] then None else old(sendReplies)[0])
      ensures sent == if failure.None? then old(sent) + [input] else old(sent)
      ensures demux == old(demux) && decoderOutputs == old(decoderOutputs)
      ensures packetBuffer == old(packetBuffer) && loadedBefore == old(loadedBefore)
      ensures packetIndex == old(packetIndex) && packetsExhausted == old(packetsExhausted) && flushing == old(flushing)
    {
      failure := if sendReplies == [] then None else sendReplies[0];
      sendReplies := Rest(sendReplies);
      if failure.None? {
        sent := sent + [input];
      }
    }

    /** Clearing the consumed buffer and loading the next ten packets. */
    method Refill()
      requires Valid() && packetIndex >= |packetBuffer| && !packetsExhausted && !flushing
      modifies this
      ensures Valid() && !flushing && packetIndex == 0
      ensures packetBuffer == [] ==> packetsExhausted
      ensures |demux| + |packetBuffer| <= |old(demux)|
      ensures |packetBuffer| > 0 ==> |demux| + |packetBuffer| - 1 < |old(demux)|
      ensures sent == old(sent) && decoderOutputs == old(decoderOutputs) && sendReplies == old(sendReplies)
    {
      RefillStep(source, videoStreamIndex, demux, loadedBefore, packetBuffer, packetIndex, sent);
      loadedBefore := loadedBefore + packetBuffer;
      packetBuffer := [];
      packetIndex := 0;
      LoadPackets(10);
    }

    /** The part of one round of `next` after the decoder had no frame and
        the iterator is not flushing: send EOF once the buffer is consumed
        and the demuxer exhausted, else refill a consumed buffer, then send
        the next packet. Each round that does not fail makes progress:
        flushing starts, or fewer packets remain to be sent. */
    method Advance() returns (failure: Option<VideoParserError>)
      requires Valid() && !flushing
      modifies this
      ensures Valid()
      ensures failure.None? ==>
        flushing || |demux| + |packetBuffer| - packetIndex < |old(demux)| + |old(packetBuffer)| - old(packetIndex)
      ensures flushing ==> old(packetIndex) >= |old(packetBuffer)| && packetsExhausted
      ensures |old(sent)| <= |sent| && sent[..|old(sent)|] == old(sent)
      ensures decoderOutputs == old(decoderOutputs)
    {
      if packetIndex >= |packetBuffer| {
        if packetsExhausted {
          failure := SendEof();
          return;
        }

        Refill();

        if packetBuffer == [] && packetsExhausted {
          failure := SendEof();
          return;
        }
      }

      if packetIndex < |packetBuffer| {
        failure := SendNextPacket();
        return;
      }
      return None;
    }

    /** `decoder.send_eof()` once the buffer is consumed and the demuxer
        exhausted: accepted, it starts the flush; refused, it is the error. */
    method SendEof() returns (failure: Option<VideoParserError>)
      requires Valid() && !flushing && packetsExhausted && packetIndex >= |packetBuffer|
      modifies this
      ensures Valid() && packetsExhausted && packetIndex == old(packetIndex) && packetBuffer == old(packetBuffer)
      ensures flushing <==> failure.None?
      ensures |old(sent)| <= |sent| && sent[..|old(sent)|] == old(sent)
      ensures decoderOutputs == old(decoderOutputs)
    {
      SendEofStep(source, videoStreamIndex, demux, loadedBefore, packetBuffer, packetIndex, sent);
      var eofFailure := Send(SentEof);
      if eofFailure.Some? {
        return Some(Ffmpeg(eofFailure.value));
      }
      flushing := true;
      return None;
    }

    /** `decoder.send_packet` on the packet at the index; accepted, the
        index moves past it. */
    method SendNextPacket() returns (failure: Option<VideoParserError>)
      requires Valid() && !flushing && packetIndex < |packetBuffer|
      modifies this
      ensures Valid() && !flushing
      ensures demux == old(demux) && packetBuffer == old(packetBuffer)
      ensures packetIndex == if failure.None? then old(packetIndex) + 1 else old(packetIndex)
      ensures |old(sent)| <= |sent| && sent[..|old(sent)|] == old(sent)
      ensures decoderOutputs == old(decoderOutputs)
    {
      var packet := packetBuffer[packetIndex];
      SendPacketStep(source, videoStreamIndex, demux, loadedBefore, packetBuffer, packetIndex, sent, packetsExhausted);
      var sendFailure := Send(SentPacket(packet));
      if sendFailure.Some? {
        return Some(Ffmpeg(sendFailure.value));
      }
      packetIndex := packetIndex + 1;
      return None;
    }

    /** `Iterator::next`. A frame or a decode error the decoder holds is
        returned before any packet is sent; once flushing, a call that finds
        no frame returns `None` and changes nothing else, so the iterator
        stays finished; EOF is sent only when the buffer is consumed and the
        demuxer exhausted, and flushing starts only after it was accepted. */
    method Next() returns (item: Option<Result<RgbaImage, VideoParserError>>)
      requires Valid()
      modifies this
      ensures Valid()
      ensures NextReceive(old(decoderOutputs)).Frame? ==>
        item == Some(Ok(NextReceive(old(decoderOutputs)).image)) && sent == old(sent)
      ensures NextReceive(old(decoderOutputs)).DecodeFailure? ==>
        item == Some(Err(Decode(NextReceive(old(decoderOutputs)).message))) && sent == old(sent)
      ensures old(flushing) ==>
        && flushing && sent == old(sent) && demux == old(demux) && packetBuffer == old(packetBuffer)
        && packetIndex == old(packetIndex) && sendReplies == old(sendReplies)
        && decoderOutputs == Rest(old(decoderOutputs))
      ensures old(flushing) && NextReceive(old(decoderOutputs)).NoFrame? ==> item == None
      ensures item == None ==> flushing && sent != [] && sent[|sent| - 1] == SentEof
      ensures |old(sent)| <= |sent| && sent[..|old(sent)|] == old(sent)
    {
      while true
        invariant Valid()
        invariant |old(sent)| <= |sent| && sent[..|old(sent)|] == old(sent)
        invariant old(flushing) || !NextReceive(old(decoderOutputs)).NoFrame? ==> unchanged(this)
        decreases (if flushing then 0 else 1), |demux| + |packetBuffer| - packetIndex
      {
        var decoded := DecodeFrame();
        match decoded
        case Ok(Some(frame)) => return Some(Ok(frame));
        case Err(e) => return Some(Err(e));
        case Ok(None) =>
        if flushing {
          return None;
        }
        var failure := Advance();
        if failure.Some? {
          return Some(Err(failure.value));
        }
      }
    }
  }

  /** `VideoFrameIterator::new`. FFmpeg's own failures are inputs:
      `inputFailure` is the error of `ffmpeg::init` or `format::input`,
      raised before the stream lookup, and `decoderFailure` that of the
      codec context, the video decoder or the scaler, raised after it. A
      container without a video stream is the error "No video stream
      found"; otherwise the iterator starts on the best video stream's
      packets. */
  method Open(source: seq<StreamPacket>, bestVideoStream: Option<nat>,
              inputFailure: Option<string>, decoderFailure: Option<string>,
              decoderOutputs: seq<Receive>, sendReplies: seq<Option<string>>)
    returns (r: Result<VideoFrameIterator, VideoParserError>)
    ensures inputFailure.Some? ==> r == Err(Ffmpeg(inputFailure.value))
    ensures r == Err(Decode("No video stream found")) <==> inputFailure.None? && bestVideoStream.None?
    ensures inputFailure.None? && bestVideoStream.Some? && decoderFailure.Some? ==>
      r == Err(Ffmpeg(decoderFailure.value))
    ensures r.Ok? <==> inputFailure.None? && bestVideoStream.Some? && decoderFailure.None?
    ensures !r.Panic?
    ensures r.Ok? ==> fresh(r.value) && r.value.Valid() && r.value.videoStreamIndex == bestVideoStream.value
    ensures r.Ok? ==> r.value.demux == source && r.value.packetBuffer == [] && !r.value.flushing
  {
    if inputFailure.Some? {
      return Err(Ffmpeg(inputFailure.value));
    }
    if bestVideoStream.None? {
      return Err(Decode("No video stream found"));
    }
    if decoderFailure.Some? {
      return Err(Ffmpeg(decoderFailure.value));
    }
    var it := new VideoFrameIterator(source, bestVideoStream.value, decoderOutputs, sendReplies);
    return Ok(it);
  }
}
