/** What one side sends the other receives: message by message, whatever else is
    on the stream. */
module DvcRoundTrip {
  import opened Helpers
  import opened Dvc

  lemma HeaderReads(cmd: nat, sp: nat, cb: nat)
    requires cmd < 16 && sp < 4 && cb < 4
    ensures var h := Header(cmd, sp, cb); h / 16 == cmd && h / 4 % 4 == sp && h % 4 == cb
  {}

  lemma ParsesData(id: nat, data: seq<Byte>)
    requires id < TWO_32
    ensures Parse(DataPdu(id, data)) == Data(id, data)
  {
    HeaderReads(DATA, 0, IdSize(id));
    ReadsWhatWasWritten(id, data);
    assert DataPdu(id, data)[1..] == WriteVar(id) + data;
  }

  lemma ParsesFirst(id: nat, total: nat, data: seq<Byte>)
    requires id < TWO_32 && total < TWO_32
    ensures Parse(FirstPdu(id, total, data)) == First(id, total, data)
  {
    HeaderReads(DATA_FIRST, IdSize(total), IdSize(id));
    var rest := WriteVar(total) + data;
    assert FirstPdu(id, total, data)[1..] == WriteVar(id) + rest;
    assert FirstPdu(id, total, data)[0] == Header(DATA_FIRST, IdSize(total), IdSize(id));
    ReadsWhatWasWritten(id, rest);
    ReadsWhatWasWritten(total, data);
  }

  // ── One channel out of many ────────────────────────────────────────────────

  /** The PDUs of a stream that concern channel id. */
  function Only(id: nat, ps: seq<Pdu>): seq<Pdu> {
    if ps == [] then []
    else (if Addressed(ps[0]) == Some(id) then [ps[0]] else []) + Only(id, ps[1..])
  }

  function EventsOf(id: nat, es: seq<Event>): seq<Event> {
    if es == [] then [] else (if es[0].id == id then [es[0]] else []) + EventsOf(id, es[1..])
  }

  /** Channel id fed its own PDUs. */
  function FeedOwn(listeners: set<string>, id: nat, ch: Option<Channel>, ps: seq<Pdu>): (Option<Channel>, seq<Event>)
    decreases |ps|
  {
    if ps == [] then (ch, [])
    else
      var (c1, e1) := OnChannel(listeners, id, ch, Parse(ps[0]));
      var (c2, e2) := FeedOwn(listeners, id, c1, ps[1..]);
      (c2, e1 + e2)
  }

  lemma {:induction false} EventsOfBoth(id: nat, a: seq<Event>, b: seq<Event>)
    ensures EventsOf(id, a + b) == EventsOf(id, a) + EventsOf(id, b)
  {
    if a == [] {
      assert a + b == b;
    } else {
      EventsOfBoth(id, a[1..], b);
      assert (a + b)[1..] == a[1..] + b;
    }
  }

  lemma OneEvent(listeners: set<string>, id: nat, ch: Option<Channel>, p: Parsed)
    ensures var es := OnChannel(listeners, id, ch, p).1;
            && |es| <= 1 && EventsOf(id, es) == es
            && forall other :: other != id ==> EventsOf(other, es) == []
  {}

  /** A PDU does to the channel it concerns what it would do to that one alone,
      and nothing to any other. */
  lemma StepIsLocal(listeners: set<string>, open: Channels, p: Pdu, id: nat)
    ensures var (o, es) := Step(listeners, open, p);
            if Addressed(p) == Some(id) then
              var (c, e) := OnChannel(listeners, id, At(open, id), Parse(p));
              At(o, id) == c && EventsOf(id, es) == e
            else At(o, id) == At(open, id) && EventsOf(id, es) == []
  {
    var to := Addressed(p);
    if to.Some? {
      OneEvent(listeners, to.value, At(open, to.value), Parse(p));
    }
  }

  /** However the PDUs of several channels are mixed, each channel sees its own,
      in order, and nothing else. */
  lemma {:induction false} ChannelsDoNotMix(listeners: set<string>, open: Channels, ps: seq<Pdu>, id: nat)
    ensures At(Feed(listeners, open, ps).0, id) == FeedOwn(listeners, id, At(open, id), Only(id, ps)).0
    ensures EventsOf(id, Feed(listeners, open, ps).1) == FeedOwn(listeners, id, At(open, id), Only(id, ps)).1
    decreases |ps|
  {
    if ps != [] {
      var (o1, e1) := Step(listeners, open, ps[0]);
      var (o2, e2) := Feed(listeners, o1, ps[1..]);
      StepIsLocal(listeners, open, ps[0], id);
      ChannelsDoNotMix(listeners, o1, ps[1..], id);
      EventsOfBoth(id, e1, e2);
      if Addressed(ps[0]) == Some(id) {
        assert Only(id, ps)[0] == ps[0] && Only(id, ps)[1..] == Only(id, ps[1..]);
      } else {
        assert Only(id, ps) == Only(id, ps[1..]);
        assert EventsOf(id, e1) + EventsOf(id, e2) == EventsOf(id, e2);
      }
    }
  }

  lemma FeedOwnOne(listeners: set<string>, id: nat, ch: Option<Channel>, p: Pdu, ps: seq<Pdu>)
    ensures var (c, e) := OnChannel(listeners, id, ch, Parse(p));
            && FeedOwn(listeners, id, ch, [p] + ps).0 == FeedOwn(listeners, id, c, ps).0
            && FeedOwn(listeners, id, ch, [p] + ps).1 == e + FeedOwn(listeners, id, c, ps).1
  {
    assert ([p] + ps)[1..] == ps;
  }

  lemma {:induction false} FeedOwnBoth(listeners: set<string>, id: nat, ch: Option<Channel>, a: seq<Pdu>, b: seq<Pdu>)
    ensures var c1 := FeedOwn(listeners, id, ch, a).0;
            && FeedOwn(listeners, id, ch, a + b).0 == FeedOwn(listeners, id, c1, b).0
            && FeedOwn(listeners, id, ch, a + b).1 == FeedOwn(listeners, id, ch, a).1 + FeedOwn(listeners, id, c1, b).1
    decreases |a|
  {
    if a == [] {
      assert a + b == b;
    } else {
      var c := OnChannel(listeners, id, ch, Parse(a[0])).0;
      FeedOwnOne(listeners, id, ch, a[0], a[1..]);
      FeedOwnOne(listeners, id, ch, a[0], a[1..] + b);
      assert a == [a[0]] + a[1..] && a + b == [a[0]] + (a[1..] + b);
      FeedOwnBoth(listeners, id, c, a[1..], b);
    }
  }

  // ── One message ────────────────────────────────────────────────────────────

  predicate Idle(ch: Option<Channel>) {
    ch.Some? && ch.value.buf.None?
  }

  lemma {:induction false} RestCompletes(listeners: set<string>, id: nat, ch: Channel, data: seq<Byte>)
    requires id < TWO_32 && ch.buf.Some?
    requires |ch.buf.value| < ch.total == |ch.buf.value| + |data|
    ensures FeedOwn(listeners, id, Some(ch), Rest(id, data)).0 == Some(ch.(buf := None))
    ensures FeedOwn(listeners, id, Some(ch), Rest(id, data)).1 == [Message(id, ch.buf.value + data)]
    decreases |data|
  {
    var n := Dvc.Take(data, MAX_PDU - 1 - IdLen(id));
    ParsesData(id, data[..n]);
    var p := Rest(id, data);
    assert p[0] == DataPdu(id, data[..n]) && p[1..] == Rest(id, data[n..]);
    assert ch.buf.value + data[..n] + data[n..] == ch.buf.value + data;
    if n < |data| {
      RestCompletes(listeners, id, ch.(buf := Some(ch.buf.value + data[..n])), data[n..]);
    } else {
      assert data[..n] == data && Rest(id, data[n..]) == [];
    }
  }

  /** A message of less than 2^32 bytes arrives as it was, once, and leaves the
      channel ready for the next. */
  lemma OnePduArrives(listeners: set<string>, id: nat, ch: Channel, data: seq<Byte>)
    requires id < TWO_32 && ch.buf.None?
    ensures FeedOwn(listeners, id, Some(ch), [DataPdu(id, data)]).0 == Some(ch)
    ensures FeedOwn(listeners, id, Some(ch), [DataPdu(id, data)]).1 == [Message(id, data)]
  {
    ParsesData(id, data);
    FeedOwnOne(listeners, id, Some(ch), DataPdu(id, data), []);
    assert [DataPdu(id, data)] + [] == [DataPdu(id, data)];
  }

  lemma ManyPdusArrive(listeners: set<string>, id: nat, ch: Channel, data: seq<Byte>, n: nat)
    requires id < TWO_32 && ch.buf.None? && n < |data| < TWO_32
    ensures var ps := [FirstPdu(id, |data|, data[..n])] + Rest(id, data[n..]);
            && FeedOwn(listeners, id, Some(ch), ps).0 == Some(ch.(total := |data|))
            && FeedOwn(listeners, id, Some(ch), ps).1 == [Message(id, data)]
  {
    var p := FirstPdu(id, |data|, data[..n]);
    var c := ch.(buf := Some(data[..n]), total := |data|);
    ParsesFirst(id, |data|, data[..n]);
    assert OnChannel(listeners, id, Some(ch), Parse(p)) == (Some(c), []);
    FeedOwnOne(listeners, id, Some(ch), p, Rest(id, data[n..]));
    RestCompletes(listeners, id, c, data[n..]);
    assert data[..n] + data[n..] == data;
  }

  lemma SmallRemainder(n: nat)
    requires n < TWO_32
    ensures n % TWO_32 == n
  {}

  lemma FragmentsAre(id: nat, data: seq<Byte>) returns (n: nat)
    requires id < TWO_32 && |data| < TWO_32 && 1 + IdLen(id) + |data| > MAX_PDU
    ensures n < |data| && Fragments(id, data) == [FirstPdu(id, |data|, data[..n])] + Rest(id, data[n..])
  {
    SmallRemainder(|data|);
    n := Dvc.Take(data, MAX_PDU - 1 - IdLen(id) - IdLen(|data|));
  }

  lemma MessageArrives(listeners: set<string>, id: nat, ch: Channel, data: seq<Byte>)
    requires id < TWO_32 && ch.buf.None? && |data| < TWO_32
    ensures var (c, es) := FeedOwn(listeners, id, Some(ch), Fragments(id, data));
            es == [Message(id, data)] && Idle(c)
  {
    if 1 + IdLen(id) + |data| <= MAX_PDU {
      OnePduArrives(listeners, id, ch, data);
    } else {
      var n := FragmentsAre(id, data);
      ManyPdusArrive(listeners, id, ch, data, n);
    }
  }

  /** A total that is too small by a PDU or more: the message is handed over
      before it is all there. */
  lemma {:induction false} RestCutShort(listeners: set<string>, id: nat, ch: Channel, data: seq<Byte>)
    requires id < TWO_32 && ch.buf.Some?
    requires |ch.buf.value| < ch.total && ch.total + MAX_PDU <= |ch.buf.value| + |data|
    ensures var es := FeedOwn(listeners, id, Some(ch), Rest(id, data)).1;
            es != [] && es[0].Message? && |es[0].data| < |ch.buf.value| + |data|
    decreases |data|
  {
    var n := Dvc.Take(data, MAX_PDU - 1 - IdLen(id));
    ParsesData(id, data[..n]);
    var p := Rest(id, data);
    assert p[0] == DataPdu(id, data[..n]) && p[1..] == Rest(id, data[n..]);
    if |ch.buf.value| + n < ch.total {
      RestCutShort(listeners, id, ch.(buf := Some(ch.buf.value + data[..n])), data[n..]);
    }
  }

  /** The length field has 32 bits: a message of 2^32 bytes or more is cut
      short. */
  lemma LongMessageIsCut(listeners: set<string>, id: nat, ch: Channel, data: seq<Byte>)
    requires id < TWO_32 && ch.buf.None? && |data| >= TWO_32
    ensures FeedOwn(listeners, id, Some(ch), Fragments(id, data)).1 != [Message(id, data)]
  {
    var total := |data| % TWO_32;
    var n := Dvc.Take(data, MAX_PDU - 1 - IdLen(id) - IdLen(total));
    var p := Fragments(id, data);
    ParsesFirst(id, total, data[..n]);
    assert p[0] == FirstPdu(id, total, data[..n]) && p[1..] == Rest(id, data[n..]);
    if n < total {
      var c := ch.(buf := Some(data[..n]), total := total);
      RestCutShort(listeners, id, c, data[n..]);
      assert OnChannel(listeners, id, Some(ch), Parse(p[0])) == (Some(c), []);
      var es := FeedOwn(listeners, id, Some(c), p[1..]).1;
      assert [] + es == es;
    } else {
      assert FeedOwn(listeners, id, Some(ch), p).1[0] == Message(id, data[..n]);
    }
  }

  /** The round trip, exactly. */
  lemma ArrivesIffShort(listeners: set<string>, id: nat, ch: Channel, data: seq<Byte>)
    requires id < TWO_32 && ch.buf.None?
    ensures FeedOwn(listeners, id, Some(ch), Fragments(id, data)).1 == [Message(id, data)] <==> |data| < TWO_32
  {
    if |data| < TWO_32 {
      MessageArrives(listeners, id, ch, data);
    } else {
      LongMessageIsCut(listeners, id, ch, data);
    }
  }

  // ── All messages of all channels ───────────────────────────────────────────

  function Stream(id: nat, msgs: seq<seq<Byte>>): seq<Pdu> {
    if msgs == [] then [] else Fragments(id, msgs[0]) + Stream(id, msgs[1..])
  }

  function Messages(id: nat, msgs: seq<seq<Byte>>): seq<Event> {
    seq(|msgs|, i requires 0 <= i < |msgs| => Message(id, msgs[i]))
  }

  lemma {:induction false} StreamArrives(listeners: set<string>, id: nat, ch: Channel, msgs: seq<seq<Byte>>)
    requires id < TWO_32 && ch.buf.None?
    requires forall i :: 0 <= i < |msgs| ==> |msgs[i]| < TWO_32
    ensures FeedOwn(listeners, id, Some(ch), Stream(id, msgs)).1 == Messages(id, msgs)
    decreases |msgs|
  {
    if msgs != [] {
      MessageArrives(listeners, id, ch, msgs[0]);
      var (c, es) := FeedOwn(listeners, id, Some(ch), Fragments(id, msgs[0]));
      FeedOwnBoth(listeners, id, Some(ch), Fragments(id, msgs[0]), Stream(id, msgs[1..]));
      StreamArrives(listeners, id, c.value, msgs[1..]);
      assert Messages(id, msgs) == [Message(id, msgs[0])] + Messages(id, msgs[1..]);
    }
  }

  /** Any mixture of PDUs — other channels' messages, openings, closings,
      nonsense — in which channel id's own are those of a series of messages
      delivers exactly those messages to its listener, in order. */
  lemma EveryChannelGetsItsMessages(listeners: set<string>, open: Channels, ps: seq<Pdu>,
                                    id: nat, msgs: seq<seq<Byte>>)
    requires id < TWO_32 && Idle(At(open, id)) && Only(id, ps) == Stream(id, msgs)
    requires forall i :: 0 <= i < |msgs| ==> |msgs[i]| < TWO_32
    ensures EventsOf(id, Feed(listeners, open, ps).1) == Messages(id, msgs)
  {
    ChannelsDoNotMix(listeners, open, ps, id);
    StreamArrives(listeners, id, open[id], msgs);
  }
}
