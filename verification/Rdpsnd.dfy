/** Sound from the server (internal/rdpsnd/rdpsnd.go; section 2.2.3 of
    [MS-RDPEA]): blocks put together, played in turn, and each confirmed. */
module Rdpsnd {
  import opened Helpers

  type Byte = b: int | 0 <= b < 256
  type Bytes = seq<Byte>

  /** A format stands for all that describes one. */
  type Format = nat

  datatype Block = Block(format: Option<Format>, pcm: Bytes, timestamp: nat, blockNo: Byte)

  /** What of a Formats PDU's list can be played, if its header can be read. */
  type Offers = Bytes -> Option<seq<Format>>

  const CLOSE: Byte := 0x01
  const WAVE: Byte := 0x02
  const FORMATS: Byte := 0x07
  const WAVE2: Byte := 0x0D
  const QUEUE := 64

  function U16(lo: Byte, hi: Byte): nat {
    lo + 256 * hi
  }

  /** What Process keeps between PDUs. */
  datatype Parser = Parser(pending: Option<Block>, waveLen: int, formats: seq<Format>)

  function FormatOf(formats: seq<Format>, n: nat): Option<Format> {
    if n < |formats| then Some(formats[n]) else None
  }

  /** One PDU, and the block it completes, if any. */
  function Feed(p: Parser, offers: Offers, s: Bytes): (Parser, seq<Block>) {
    if p.pending.Some? then (p.(pending := None), [Finished(p.pending.value, p.waveLen, s)])
    else if |s| < 4 then (p, [])
    else if s[0] == FORMATS then
      var o := offers(s[4..]);
      (if o.Some? then p.(formats := o.value) else p, [])
    else if s[0] == WAVE && |s| >= 16 then
      (p.(pending := Some(Block(FormatOf(p.formats, U16(s[6], s[7])), s[12..16], U16(s[4], s[5]), s[8])),
          waveLen := U16(s[2], s[3]) - 12), [])
    else if s[0] == WAVE2 && |s| >= 16 then
      (p, [Block(FormatOf(p.formats, U16(s[6], s[7])), s[16..], U16(s[4], s[5]), s[8])])
    else (p, [])
  }

  function Finished(b: Block, waveLen: int, s: Bytes): Block {
    var rest := if |s| >= 4 then s[4..] else [];
    b.(pcm := b.pcm + if 0 <= waveLen < |rest| then rest[..waveLen] else rest)
  }

  // ── What the server sends ──────────────────────────────────────────────────

  /** A block as the server has it: a format's number, not the format. */
  datatype Sound = Sound(formatNo: nat, pcm: Bytes, timestamp: nat, blockNo: Byte)

  /** Numbers have their lower byte first. */
  function Number(lo: nat, hi: nat): nat {
    0x100 * hi + lo
  }

  predicate Fields(s: Bytes, b: Sound)
    requires |s| >= 9
  {
    b.timestamp == Number(s[4], s[5]) && b.formatNo == Number(s[6], s[7]) && b.blockNo == s[8]
  }

  /** The first half: a body size of the samples and eight, which the field has
      the last sixteen bits of, and the first four bytes of the samples. */
  predicate IsWaveInfo(s: Bytes, b: Sound) {
    && |s| == 16 && s[0] == WAVE && |b.pcm| >= 4 && Fields(s, b)
    && (|b.pcm| + 8) % 0x1_0000 == Number(s[2], s[3]) && s[12..] == b.pcm[..4]
  }

  /** The second: four bytes of padding, and the rest. */
  predicate IsWave(s: Bytes, b: Sound) {
    |s| == |b.pcm| >= 4 && s[4..] == b.pcm[4..]
  }

  predicate IsWave2(s: Bytes, b: Sound) {
    |s| >= 16 && s[0] == WAVE2 && Fields(s, b) && s[16..] == b.pcm
  }

  /** A block as it is played: in the format of that number agreed on, if there is
      one. */
  function Received(formats: seq<Format>, b: Sound): Block {
    var format := if b.formatNo < |formats| then Some(formats[b.formatNo]) else None;
    Block(format, b.pcm, b.timestamp, b.blockNo)
  }

  /** The size that arrives is the size sent, or one too small to be one, which
      counts as none given. */
  predicate SizeFits(n: nat) {
    n + 8 < 65536 || (n + 8) % 65536 < 12
  }

  /** What is kept of the first half. */
  function Begun(formats: seq<Format>, b: Sound): Parser
    requires |b.pcm| >= 4
  {
    Parser(Some(Received(formats, b).(pcm := b.pcm[..4])), (|b.pcm| + 8) % 65536 - 12, formats)
  }

  lemma FirstHalf(p: Parser, offers: Offers, b: Sound, s: Bytes)
    requires p.pending.None? && IsWaveInfo(s, b)
    ensures Feed(p, offers, s) == (Begun(p.formats, b), [])
  {
    assert s[12..16] == s[12..];
    assert U16(s[2], s[3]) == Number(s[2], s[3]) && U16(s[4], s[5]) == b.timestamp && U16(s[6], s[7]) == b.formatNo;
  }

  lemma SecondHalf(formats: seq<Format>, offers: Offers, b: Sound, t: Bytes)
    requires IsWave(t, b)
    ensures var (p, done) := Feed(Begun(formats, b), offers, t);
            && p.pending.None? && p.formats == formats && |done| == 1
            && (done == [Received(formats, b)] <==> SizeFits(|b.pcm|))
  {
    var p1 := Begun(formats, b);
    var (_, done) := Feed(p1, offers, t);
    assert b.pcm[..4] + b.pcm[4..] == b.pcm;
    if SizeFits(|b.pcm|) {
      assert done[0].pcm == b.pcm;
    } else {
      assert |done[0].pcm| == 4 + p1.waveLen;
    }
  }

  /** A block in two halves arrives whole, its first four bytes of samples first,
      if and only if its size does. */
  lemma TwoHalves(p: Parser, offers: Offers, b: Sound, s: Bytes, t: Bytes)
    requires p.pending.None? && IsWaveInfo(s, b) && IsWave(t, b)
    ensures var (p1, none) := Feed(p, offers, s);
            var (p2, done) := Feed(p1, offers, t);
            && none == [] && p2.pending.None? && p2.formats == p.formats && |done| == 1
            && (done == [Received(p.formats, b)] <==> SizeFits(|b.pcm|))
  {
    FirstHalf(p, offers, b, s);
    SecondHalf(p.formats, offers, b, t);
  }

  function FeedAll(p: Parser, offers: Offers, pdus: seq<Bytes>): (Parser, seq<Block>)
    decreases |pdus|
  {
    if pdus == [] then (p, [])
    else
      var (p1, done) := Feed(p, offers, pdus[0]);
      var (p2, rest) := FeedAll(p1, offers, pdus[1..]);
      (p2, done + rest)
  }

  /** What a server may send next: a block, in either form, or a PDU of another
      kind, a format list among them. */
  datatype Sending =
    | Halves(b: Sound, s: Bytes, t: Bytes)
    | Whole(b: Sound, s: Bytes)
    | Else(s: Bytes)

  predicate CanSend(x: Sending) {
    match x
    case Halves(b, s, t) => IsWaveInfo(s, b) && IsWave(t, b) && SizeFits(|b.pcm|)
    case Whole(b, s) => IsWave2(s, b)
    case Else(s) => |s| < 4 || (s[0] != WAVE && s[0] != WAVE2)
  }

  function Pdus(xs: seq<Sending>): seq<Bytes> {
    if xs == [] then []
    else (if xs[0].Halves? then [xs[0].s, xs[0].t] else [xs[0].s]) + Pdus(xs[1..])
  }

  /** The formats agreed on once s has been sent. */
  function Agreed(formats: seq<Format>, offers: Offers, s: Bytes): seq<Format> {
    if |s| >= 4 && s[0] == FORMATS && offers(s[4..]).Some? then offers(s[4..]).value else formats
  }

  /** The blocks sent, each in its format of those last agreed on before it. */
  function Blocks(formats: seq<Format>, offers: Offers, xs: seq<Sending>): seq<Block>
    decreases |xs|
  {
    if xs == [] then []
    else if xs[0].Else? then Blocks(Agreed(formats, offers, xs[0].s), offers, xs[1..])
    else [Received(formats, xs[0].b)] + Blocks(formats, offers, xs[1..])
  }

  /** Every block arrives, once, in order, its samples the server's and its format
      of the list last sent, whatever comes between blocks. */
  lemma {:induction false} EveryBlockArrives(p: Parser, offers: Offers, xs: seq<Sending>)
    requires p.pending.None? && forall i :: 0 <= i < |xs| ==> CanSend(xs[i])
    ensures FeedAll(p, offers, Pdus(xs)).1 == Blocks(p.formats, offers, xs)
    ensures FeedAll(p, offers, Pdus(xs)).0.pending.None?
    decreases |xs|
  {
    if xs != [] {
      var all, x := Pdus(xs), xs[0];
      assert CanSend(x);
      var p1 := Feed(p, offers, x.s).0;
      if x.Halves? {
        TwoHalves(p, offers, x.b, x.s, x.t);
        var p2 := Feed(p1, offers, x.t).0;
        assert all[0] == x.s && all[1..][0] == x.t && all[1..][1..] == Pdus(xs[1..]);
        EveryBlockArrives(p2, offers, xs[1..]);
        assert FeedAll(p1, offers, all[1..]).1 == [Received(p.formats, x.b)] + FeedAll(p2, offers, Pdus(xs[1..])).1;
      } else {
        assert all[0] == x.s && all[1..] == Pdus(xs[1..]);
        assert p1.pending.None? && p1.formats == if x.Else? then Agreed(p.formats, offers, x.s) else p.formats;
        EveryBlockArrives(p1, offers, xs[1..]);
      }
    }
  }

  // ── The channel ────────────────────────────────────────────────────────────

  /** A Wave Confirm PDU: the block's timestamp and the milliseconds it spent
      here, and its number. */
  datatype Confirm = Confirm(timestamp: nat, blockNo: Byte)

  /** The confirmation of a block that spent so many milliseconds here. */
  function Confirmation(b: Block, delay: nat): Confirm {
    Confirm((b.timestamp + delay) % 65536, b.blockNo)
  }

  /** The server, taking its own time from a confirmation's, has how long the block
      was here, of anything up to a minute. */
  lemma LatencyIsMeasured(b: Block, delay: nat)
    requires b.timestamp < 65536 && delay < 65536
    ensures var c := Confirmation(b, delay);
            c.blockNo == b.blockNo && c.timestamp < 65536 && (c.timestamp - b.timestamp) % 65536 == delay
  {}

  /** What a Wave2 PDU's body is, if it is long enough. */
  function Wave2Block(formats: seq<Format>, body: Bytes): seq<Block> {
    if |body| < 12 then []
    else [Block(FormatOf(formats, U16(body[2], body[3])), body[12..], U16(body[0], body[1]), body[4])]
  }

  lemma Wave2Feeds(p: Parser, offers: Offers, s: Bytes)
    requires p.pending.None? && |s| >= 4 && s[0] == WAVE2
    ensures Feed(p, offers, s) == (p, Wave2Block(p.formats, s[4..]))
  {
    if |s| >= 16 {
      assert s[4..][12..] == s[16..];
    }
  }

  /** The queue, and what is confirmed at once, when done, of one block or none, is
      completed. */
  function Queued(queue: seq<Block>, closed: bool, done: seq<Block>): seq<Block> {
    if !closed && |queue| < QUEUE then queue + done else queue
  }

  function Dropped(queue: seq<Block>, closed: bool, done: seq<Block>, delay: nat): seq<Confirm> {
    if done != [] && !closed && |queue| >= QUEUE then [Confirmation(done[0], delay)] else []
  }

  /** A block completed goes to the end of the queue, or is confirmed at once with 64
      waiting, or, after Close, neither. */
  lemma BlockGoes(queue: seq<Block>, closed: bool, b: Block, delay: nat)
    ensures var q, c := Queued(queue, closed, [b]), Dropped(queue, closed, [b], delay);
            if closed then q == queue && c == []
            else if |queue| < 64 then q == queue + [b] && c == []
            else q == queue && c == [Confirmation(b, delay)]
    ensures Queued(queue, closed, []) == queue && Dropped(queue, closed, [], delay) == []
  {}

  lemma MultisetOfMore(s: seq<Block>, b: Block)
    ensures multiset(s + [b]) == multiset(s) + multiset{b}
  {}

  class Channel {
    var pending: Option<Block>
    var waveLen: int
    var formats: seq<Format>
    var queue: seq<Block>
    var closed: bool
    var playing: seq<Block>  // none, or the one the playback goroutine has
    var sent: seq<Confirm>
    var played: seq<(Format, Bytes)>

    /** History: the blocks the server has completed, and those confirmed. */
    ghost var completed: seq<Block>
    ghost var confirmed: seq<Block>

    function Parsing(): Parser
      reads this
    {
      Parser(pending, waveLen, formats)
    }

    /** Until Close every block is confirmed, queued or playing, and just once;
        after it some may be none of these, and still none is twice. */
    ghost predicate Valid()
      reads this
    {
      && |queue| <= QUEUE && |playing| <= 1 && |sent| == |confirmed|
      && (forall i :: 0 <= i < |sent| ==> sent[i].blockNo == confirmed[i].blockNo)
      && multiset(confirmed) + multiset(queue) + multiset(playing) <= multiset(completed)
      && (!closed ==> multiset(confirmed) + multiset(queue) + multiset(playing) == multiset(completed))
    }

    constructor ()
      ensures Valid() && completed == [] && confirmed == [] && queue == [] && !closed
      ensures Parsing() == Parser(None, 0, [])
    {
      pending, waveLen, formats, queue, closed, playing, sent, played := None, 0, [], [], false, [], [], [];
      completed, confirmed := [], [];
    }

    /** confirm, delay milliseconds after the block was received. */
    method ConfirmBlock(b: Block, delay: nat)
      modifies `sent, `confirmed
      ensures confirmed == old(confirmed) + [b]
      ensures sent == old(sent) + [Confirmation(b, delay)]
    {
      sent := sent + [Confirm((b.timestamp + delay) % 65536, b.blockNo)];
      confirmed := confirmed + [b];
    }

    /** enqueue: a full queue drops the block but confirms it; a closed one just
        drops it. */
    method Enqueue(b: Block, delay: nat)
      requires Valid()
      modifies `queue, `sent, `confirmed, `completed
      ensures Valid() && completed == old(completed) + [b]
      ensures queue == Queued(old(queue), closed, [b])
      ensures confirmed == if !closed && |old(queue)| == QUEUE then old(confirmed) + [b] else old(confirmed)
      ensures sent == old(sent) + Dropped(old(queue), closed, [b], delay)
    {
      MultisetOfMore(completed, b);
      MultisetOfMore(queue, b);
      MultisetOfMore(confirmed, b);
      completed := completed + [b];
      if closed {
        return;
      }
      if |queue| < QUEUE {
        queue := queue + [b];
      } else {
        ConfirmBlock(b, delay);
      }
    }

    method Process(s: Bytes, offers: Offers, delay: nat)
      requires Valid()
      modifies this
      ensures Valid() && closed == old(closed) && playing == old(playing)
      ensures Parsing() == Feed(old(Parsing()), offers, s).0
      ensures var done := Feed(old(Parsing()), offers, s).1;
              && completed == old(completed) + done
              && queue == Queued(old(queue), closed, done) && sent == old(sent) + Dropped(old(queue), closed, done, delay)
    {
      if pending.Some? {
        FinishWave(s, delay);
      } else if |s| >= 4 && s[0] == WAVE2 {
        Wave2Feeds(Parsing(), offers, s);
        OnWave2(s[4..], delay);
      } else {
        assert completed + [] == completed && queue + [] == queue && sent + [] == sent;
        OnOther(s, offers);
      }
    }

    /** The PDUs that complete no block. */
    method OnOther(s: Bytes, offers: Offers)
      requires pending.None? && (|s| < 4 || s[0] != WAVE2)
      modifies `pending, `waveLen, `formats
      ensures Parsing() == Feed(old(Parsing()), offers, s).0 && Feed(old(Parsing()), offers, s).1 == []
    {
      if |s| < 4 {
        return;
      }
      if s[0] == FORMATS {
        var o := offers(s[4..]);
        if o.Some? {
          formats := o.value;
        }
      } else if s[0] == WAVE {
        OnWaveInfo(s);
      }
    }

    method OnWaveInfo(s: Bytes)
      requires |s| >= 4
      modifies `pending, `waveLen
      ensures |s| < 16 ==> pending == old(pending) && waveLen == old(waveLen)
      ensures |s| >= 16 ==>
                && pending == Some(Block(FormatOf(formats, U16(s[6], s[7])), s[12..16], U16(s[4], s[5]), s[8]))
                && waveLen == U16(s[2], s[3]) - 12
    {
      if |s| < 16 {
        return;
      }
      var bodySize: int := U16(s[2], s[3]);
      var body := s[4..];
      var formatNo := U16(body[2], body[3]);
      var format := if formatNo < |formats| then Some(formats[formatNo]) else None;
      assert body[8..12] == s[12..16];
      pending := Some(Block(format, body[8..12], U16(body[0], body[1]), body[4]));
      waveLen := bodySize - 12;
    }

    method FinishWave(s: Bytes, delay: nat)
      requires Valid() && pending.Some?
      modifies `pending, `queue, `sent, `confirmed, `completed
      ensures Valid() && pending.None?
      ensures completed == old(completed) + [Finished(old(pending).value, waveLen, s)]
      ensures var b := Finished(old(pending).value, waveLen, s);
              queue == Queued(old(queue), closed, [b]) && sent == old(sent) + Dropped(old(queue), closed, [b], delay)
    {
      var b := WithRest(pending.value, s);
      pending := None;
      assert Valid();
      Enqueue(b, delay);
    }

    method WithRest(b: Block, s: Bytes) returns (r: Block)
      ensures r == Finished(b, waveLen, s)
    {
      r := b;
      if |s| >= 4 {
        var rest := s[4..];
        if waveLen >= 0 && waveLen < |rest| {
          rest := rest[..waveLen];
        }
        r := r.(pcm := r.pcm + rest);
      } else {
        assert b.pcm + [] == b.pcm;
      }
    }

    method OnWave2(body: Bytes, delay: nat)
      requires Valid()
      modifies `queue, `sent, `confirmed, `completed
      ensures Valid()
      ensures var done := Wave2Block(formats, body);
              && completed == old(completed) + done
              && queue == Queued(old(queue), closed, done) && sent == old(sent) + Dropped(old(queue), closed, done, delay)
    {
      assert completed + [] == completed && queue + [] == queue && sent + [] == sent;
      if |body| < 12 {
        return;
      }
      var formatNo := U16(body[2], body[3]);
      var format := if formatNo < |formats| then Some(formats[formatNo]) else None;
      Enqueue(Block(format, body[12..], U16(body[0], body[1]), body[4]), delay);
    }

    /** The playback goroutine takes a block... */
    method Take()
      requires Valid() && queue != [] && playing == []
      modifies `queue, `playing
      ensures Valid() && playing == [old(queue)[0]] && queue == old(queue)[1..]
    {
      assert queue == [queue[0]] + queue[1..];
      playing, queue := [queue[0]], queue[1..];
    }

    /** ...and has played it, if it is in a format that was offered. */
    method Done(delay: nat)
      requires Valid() && playing != []
      modifies `playing, `played, `sent, `confirmed
      ensures Valid() && playing == [] && confirmed == old(confirmed) + old(playing)
      ensures sent == old(sent) + [Confirmation(old(playing)[0], delay)]
      ensures played == old(played) +
                if old(playing)[0].format.Some? then [(old(playing)[0].format.value, old(playing)[0].pcm)] else []
    {
      var b := playing[0];
      assert playing == [b];
      if b.format.Some? {
        played := played + [(b.format.value, b.pcm)];
      }
      playing := [];
      ConfirmBlock(b, delay);
    }

    method Close()
      requires Valid()
      modifies `closed
      ensures Valid() && closed
    {
      closed := true;
    }
  }
}
