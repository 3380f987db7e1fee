/** `CSotpRtpFrame`: the buffers of one frame, changed in place. */
module SotpRtpFrame {
  import opened Integers
  import opened RtpReceive

  class FrameBuffer {
    var head: Head
    var firstSeq: Seq16
    var number: Seq16
    var expireTime: U32
    const filled: array<bool>
    var payload: array<Byte>

    ghost predicate Valid()
      reads this
    {
      filled.Length == SOTP_RTP_MAX_PACKETS_PER_FRAME && filled as object != payload as object
      && this as object != filled as object && this as object != payload as object
    }

    /** What the frame owns. */
    ghost function Repr(): set<object>
      reads this
    {
      {this, filled, payload}
    }

    /** The frame as the value the receiver's functions work on. */
    ghost function View(): Frame
      reads this, filled, payload
    {
      Frame(head, firstSeq, number, expireTime, filled[..], payload[..])
    }

    constructor (h: Head)
      ensures Valid() && fresh(filled) && fresh(payload) && head == h && payload.Length == 0
      ensures firstSeq == 0 && number == 0 && expireTime == 0
      ensures forall i :: 0 <= i < SOTP_RTP_MAX_PACKETS_PER_FRAME ==> !filled[i]
    {
      head, firstSeq, number, expireTime := h, 0, 0, 0;
      filled := new bool[SOTP_RTP_MAX_PACKETS_PER_FRAME](_ => false);
      payload := new Byte[0](_ => 0);
    }

    /** A frame taken from the pool starts over. */
    method Init(h: Head)
      requires Valid()
      modifies this`head, this`firstSeq, this`number, this`expireTime, filled
      ensures Valid() && head == h && firstSeq == 0 && number == 0 && expireTime == 0
      ensures forall i :: 0 <= i < SOTP_RTP_MAX_PACKETS_PER_FRAME ==> !filled[i]
    {
      head, firstSeq, number, expireTime := h, 0, 0, 0;
      for i := 0 to SOTP_RTP_MAX_PACKETS_PER_FRAME
        modifies filled
        invariant forall j :: 0 <= j < i ==> !filled[j]
      {
        filled[i] := false;
      }
    }

    /** The buffer only grows; a new one has arbitrary contents. */
    method BuildBuffer(size: nat)
      requires Valid()
      modifies this`payload
      ensures Valid() && payload.Length >= size
      ensures payload.Length == if old(payload).Length < size then size else old(payload).Length
      ensures payload == old(payload) || fresh(payload)
      ensures old(payload).Length >= size ==> payload == old(payload)
    {
      if payload.Length < size {
        payload := new Byte[size];
      }
    }

    /** Looking past the 512 places has no meaning in the source; here nothing is found there. */
    method IsWholeFrame() returns (whole: bool)
      requires Valid()
      ensures whole == IsWhole(View())
    {
      var i := 0;
      while i < number
        invariant 0 <= i <= number && i <= filled.Length
        invariant forall j :: 0 <= j < i ==> filled[j]
      {
        if i >= filled.Length || !filled[i] {
          assert i < filled.Length ==> !View().filled[i];
          return false;
        }
        i := i + 1;
      }
      return true;
    }

    /** The end of `PushRtpData`: the packet's bytes go to their place, once. */
    method FillData(h: Head, data: seq<Byte>)
      requires Valid() && h.index < SOTP_RTP_MAX_PACKETS_PER_FRAME
      modifies filled, payload
      ensures Valid() && View() == Fill(old(View()), h, data)
    {
      if !filled[h.index] {
        if |data| == DataLength(h) {
          filled[h.index] := true;
          CopyBytes(payload, DataOffset(h), data);
        }
      }
    }
  }

  /** Neither frame is a buffer of the other, and they share none. */
  ghost predicate Apart(f: FrameBuffer, g: FrameBuffer)
    reads f, g
  {
    && g as object !in {f.filled as object, f.payload}
    && g.filled as object !in {f.filled as object, f.payload}
    && g.payload as object !in {f.filled as object, f.payload}
  }

  /** The frame holds what `v` says. */
  ghost predicate Shows(f: FrameBuffer, v: Frame)
    reads f, f.filled, f.payload
  {
    f.Valid() && f.View() == v
  }

  /** Every frame and its buffers belong to `repr`, they are apart from each other, and `views` tells what
      each holds. */
  ghost predicate Sound(frames: map<U32, FrameBuffer>, views: map<U32, Frame>, repr: set<object>)
    reads repr
  {
    && frames.Keys == views.Keys
    && (forall t :: t in frames ==> Owned(frames[t], repr) && Shows(frames[t], views[t]))
    && (forall s, t :: s in frames && t in frames && s != t ==> frames[s] != frames[t] && Apart(frames[s], frames[t]))
  }

  ghost predicate Owned(f: FrameBuffer, repr: set<object>)
    reads repr
  {
    f in repr && f.filled in repr && f.payload in repr
  }

  lemma SoundWith(frames: map<U32, FrameBuffer>, views: map<U32, Frame>, repr: set<object>, ts: U32, f: FrameBuffer)
    requires Sound(frames, views, repr) && ts !in frames && f.Valid() && f.Repr() !! repr
    ensures Sound(frames[ts := f], views[ts := f.View()], repr + f.Repr())
  {
    forall t | t in frames ensures frames[t] != f && Apart(f, frames[t]) && Apart(frames[t], f) {
      assert Owned(frames[t], repr);
    }
    assert Shows(f, f.View());
    hide Shows, Apart, FrameBuffer.View;
  }

  lemma SoundWithout(frames: map<U32, FrameBuffer>, views: map<U32, Frame>, repr: set<object>, ts: U32)
    requires Sound(frames, views, repr)
    ensures Sound(frames - {ts}, views - {ts}, repr)
  {
    hide Shows, Apart, Owned;
    assert (frames - {ts}).Keys == (views - {ts}).Keys;
  }

  /** `m_pReceiveFrames`: the frames being put together, ordered by timestamp. */
  class FrameTable {
    var frames: map<U32, FrameBuffer>
    ghost var views: map<U32, Frame>
    ghost var repr: set<object>

    ghost predicate Valid()
      reads this, repr
    {
      this !in repr && Sound(frames, views, repr)
    }

    constructor ()
      ensures Valid() && views == map[] && repr == {}
    {
      frames, views, repr := map[], map[], {};
    }

    method Insert(ts: U32, f: FrameBuffer)
      requires Valid() && ts !in views && f.Valid() && this !in f.Repr() && f.Repr() !! repr
      modifies this
      ensures Valid() && views == old(views)[ts := f.View()] && repr == old(repr) + f.Repr()
    {
      SoundWith(frames, views, repr, ts, f);
      hide Sound, FrameBuffer.View, FrameBuffer.Repr;
      frames, views, repr := frames[ts := f], views[ts := f.View()], repr + f.Repr();
    }

    method Has(ts: U32) returns (has: bool)
      requires Valid()
      ensures has == (ts in views)
    {
      has := ts in frames;
    }

    /** The fields of the frame, which the receiver reads in passing. */
    method Get(ts: U32) returns (head: Head, firstSeq: int, number: int, expireTime: U32)
      requires Valid() && ts in views
      ensures var f := views[ts]; head == f.head && firstSeq == f.firstSeq && number == f.number && expireTime == f.expireTime
    {
      var f := frames[ts];
      assert Shows(f, views[ts]);
      return f.head, f.firstSeq, f.number, f.expireTime;
    }

    method IsWholeAt(ts: U32) returns (whole: bool)
      requires Valid() && ts in views
      ensures whole == IsWhole(views[ts])
    {
      assert Shows(frames[ts], views[ts]);
      whole := frames[ts].IsWholeFrame();
    }

    /** The frame's bytes change and no other frame's. */
    method FillAt(ts: U32, h: Head, data: seq<Byte>)
      requires Valid() && ts in views && h.index < SOTP_RTP_MAX_PACKETS_PER_FRAME
      modifies this`views, repr
      ensures Valid() && views == old(views)[ts := Fill(old(views)[ts], h, data)]
    {
      hide *;
      BuffersOwned(ts);
      views := FillBuffers(ts, h, data);
      Rejoin();
    }

    lemma BuffersOwned(ts: U32)
      requires Valid() && ts in views
      ensures this !in repr && ts in frames && frames[ts].filled in repr && frames[ts].payload in repr
    {
      assert Owned(frames[ts], repr);
    }

    lemma Rejoin()
      requires this !in repr && Sound(frames, views, repr)
      ensures Valid()
    {
    }

    method FillBuffers(ts: U32, h: Head, data: seq<Byte>) returns (ghost after: map<U32, Frame>)
      requires Valid() && ts in frames && ts in views && h.index < SOTP_RTP_MAX_PACKETS_PER_FRAME
      modifies frames[ts].filled, frames[ts].payload
      ensures Sound(frames, after, repr) && after == views[ts := Fill(views[ts], h, data)]
    {
      var f := frames[ts];
      assert Shows(f, views[ts]);
      hide Fill, DataLength, DataOffset, FrameBuffer.View;
      f.FillData(h, data);
      after := views[ts := f.View()];
      forall t | t in frames ensures Shows(frames[t], after[t]) {
        assert t != ts ==> old(Apart(f, frames[t]));
        assert old(Shows(frames[t], views[t]));
      }
    }

    /** The frame `begin()` points at. */
    method First() returns (ts: U32)
      requires Valid() && views != map[]
      ensures ts in views && ts == FirstKey(views)
    {
      assert frames.Keys != {};
      var keys := frames.Keys;
      ts :| ts in keys;
      keys := keys - {ts};
      while keys != {}
        invariant keys <= frames.Keys && ts in frames
        invariant forall k :: k in frames && k !in keys ==> ts <= k
        decreases keys
      {
        var k :| k in keys;
        if k < ts { ts := k; }
        keys := keys - {k};
      }
    }

    method Empty() returns (empty: bool)
      requires Valid()
      ensures empty == (views == map[])
    {
      empty := frames == map[];
      assert empty <==> frames.Keys == {};
    }

    method Erase(ts: U32)
      requires Valid() && ts in views
      modifies this`frames, this`views
      ensures Valid() && views == old(views) - {ts}
    {
      SoundWithout(frames, views, repr, ts);
      hide Sound;
      frames, views := frames - {ts}, views - {ts};
    }

    /** What the callback gets of a frame. */
    method Copy(ts: U32) returns (f: Frame)
      requires Valid() && ts in views
      ensures f == views[ts]
    {
      var b := frames[ts];
      assert Shows(b, views[ts]);
      f := Frame(b.head, b.firstSeq, b.number, b.expireTime, b.filled[..], b.payload[..]);
    }
  }

  /** Bytes that would go past the buffer are not written. */
  method CopyBytes(buffer: array<Byte>, at: nat, data: seq<Byte>)
    modifies buffer
    ensures buffer[..] == Overwrite(old(buffer[..]), at, data)
  {
    if at + |data| > buffer.Length { return; }
    ghost var was := buffer[..];
    for i := 0 to |data|
      invariant forall j :: 0 <= j < buffer.Length ==> buffer[j] == if at <= j < at + i then data[j - at] else was[j]
    {
      buffer[at + i] := data[i];
    }
  }
}
