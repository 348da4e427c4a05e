/** What a server's PDUs do, read off their bytes ([MS-RDPEDYC] section 2.2): a
    channel's life from its Create to its Close, among others, however the server
    cuts its messages. */
module DvcSession {
  import opened Helpers
  import opened Dvc
  import opened DvcRoundTrip

  // ── Bytes ──────────────────────────────────────────────────────────────────

  function Number(a: nat, b: nat, c: nat, d: nat): nat {
    a + 0x100 * b + 0x1_0000 * c + 0x100_0000 * d
  }

  /** A number at the start of s, of one, two or four bytes, the lowest first, and
      what follows it. */
  function NumberAt(s: seq<Byte>, code: nat): Option<(nat, seq<Byte>)> {
    if code == 0 && |s| >= 1 then Some((s[0], s[1..]))
    else if code == 1 && |s| >= 2 then Some((Number(s[0], s[1], 0, 0), s[2..]))
    else if code >= 2 && |s| >= 4 then Some((Number(s[0], s[1], s[2], s[3]), s[4..]))
    else None
  }

  lemma ValueOne(a: Byte)
    ensures Value([a]) == a
  {
    assert [a][1..] == [];
  }

  lemma ValueMore(a: Byte, s: seq<Byte>)
    ensures Value([a] + s) == a + 256 * Value(s)
  {
    assert ([a] + s)[1..] == s;
  }

  lemma ReadsNumber(s: seq<Byte>, code: nat)
    ensures ReadVar(s, code) == NumberAt(s, code)
  {
    if code == 0 && |s| >= 1 {
      assert s[..1] == [s[0]];
      ValueOne(s[0]);
    } else if code == 1 && |s| >= 2 {
      assert s[..2] == [s[0]] + [s[1]];
      ValueOne(s[1]);
      ValueMore(s[0], [s[1]]);
    } else if code >= 2 && |s| >= 4 {
      assert s[..4] == [s[0]] + ([s[1]] + ([s[2]] + [s[3]]));
      ValueOne(s[3]);
      ValueMore(s[2], [s[3]]);
      ValueMore(s[1], [s[2]] + [s[3]]);
      ValueMore(s[0], [s[1]] + ([s[2]] + [s[3]]));
    }
  }

  /** p is command cmd about channel id; rest follows the id. */
  predicate Asks(p: Pdu, cmd: nat, id: nat, rest: seq<Byte>) {
    |p| >= 1 && p[0] / 16 == cmd && NumberAt(p[1..], p[0] % 4) == Some((id, rest))
  }

  /** name, up to a zero or the end. */
  predicate Names(s: seq<Byte>, name: string) {
    && |name| <= |s| && (|name| == |s| || s[|name|] == 0)
    && forall i :: 0 <= i < |name| ==> s[i] != 0 && name[i] as int == s[i]
  }

  lemma {:induction false} ReadsName(s: seq<Byte>, name: string)
    requires Names(s, name)
    ensures CString(s) == name
  {
    if name == "" {
    } else {
      ReadsName(s[1..], name[1..]);
      assert name == [name[0]] + name[1..];
    }
  }

  lemma ParsedAs(p: Pdu, cmd: nat, id: nat, rest: seq<Byte>)
    requires Asks(p, cmd, id, rest) && (cmd == 1 || cmd == 3 || cmd == 4)
    ensures Parse(p) == if cmd == 1 then Create(id, CString(rest)) else if cmd == 3 then Data(id, rest) else Close(id)
  {
    ReadsNumber(p[1..], p[0] % 4);
  }

  /** A PDU of this side's, about id. */
  lemma Written(cmd: nat, id: nat, rest: seq<Byte>)
    requires cmd < 16 && id < TWO_32
    ensures Asks([Header(cmd, 0, IdSize(id))] + WriteVar(id) + rest, cmd, id, rest)
  {
    var p := [Header(cmd, 0, IdSize(id))] + WriteVar(id) + rest;
    HeaderReads(cmd, 0, IdSize(id));
    assert p[1..] == WriteVar(id) + rest;
    ReadsWhatWasWritten(id, rest);
    ReadsNumber(p[1..], IdSize(id));
  }

  lemma NumberFits(s: seq<Byte>, code: nat)
    ensures NumberAt(s, code).Some? ==> NumberAt(s, code).value.0 < TWO_32
  {}

  // ── One PDU ────────────────────────────────────────────────────────────────

  lemma StatusBytes()
    ensures LittleEndian(0, 4) == [0, 0, 0, 0] && LittleEndian(STATUS_NOT_FOUND, 4) == [0x25, 0x02, 0x00, 0xC0]
  {
    assert LittleEndian(0, 1) == [0] && LittleEndian(0, 2) == [0, 0] && LittleEndian(0, 3) == [0, 0, 0];
    assert LittleEndian(0xC0, 1) == [0xC0] && LittleEndian(0xC000, 2) == [0, 0xC0];
    assert LittleEndian(0xC0_0002, 3) == [2, 0, 0xC0];
  }

  /** A Create opens the channel, idle, tells its listener once, and is answered
      with status 0, if and only if there is a listener of that name; else it
      changes nothing and the answer says not found. */
  lemma CreateOpens(listeners: set<string>, open: Channels, p: Pdu, id: nat, rest: seq<Byte>, name: string)
    requires Asks(p, 1, id, rest) && Names(rest, name)
    ensures var (o, es) := Step(listeners, open, p);
            if name in listeners then o == open[id := Channel(name, None, 0)] && es == [Opened(id)]
            else o == open && es == []
    ensures var w := Reply(listeners, open, Parse(p));
            && |w| == 1 && w[0][0] / 4 == 4
            && Asks(w[0], 1, id, if name in listeners then [0, 0, 0, 0] else [0x25, 0x02, 0x00, 0xC0])
  {
    ParsedAs(p, 1, id, rest);
    ReadsName(rest, name);
    NumberFits(p[1..], p[0] % 4);
    StatusBytes();
    var status := if name in listeners then LittleEndian(0, 4) else LittleEndian(STATUS_NOT_FOUND, 4);
    Written(CREATE, id, status);
    assert With(open, id, At(open, id)) == open;
  }

  /** A Close ends the channel, tells its listener, and is answered by one that
      names it, just when it was open. */
  lemma CloseCloses(listeners: set<string>, open: Channels, p: Pdu, id: nat, rest: seq<Byte>)
    requires Asks(p, 4, id, rest)
    ensures var (o, es) := Step(listeners, open, p);
            && id !in o && (forall other :: other != id ==> At(o, other) == At(open, other))
            && es == if id in open then [Closed(id)] else []
    ensures var w := Reply(listeners, open, Parse(p));
            if id in open then |w| == 1 && w[0][0] / 4 == 16 && Asks(w[0], 4, id, []) else w == []
  {
    ParsedAs(p, 4, id, rest);
    NumberFits(p[1..], p[0] % 4);
    Written(CLOSE, id, []);
    assert [Header(CLOSE, 0, IdSize(id))] + WriteVar(id) + [] == [Header(CLOSE, 0, IdSize(id))] + WriteVar(id);
  }

  /** Capabilities are answered with version 2, whatever is offered. */
  lemma CapsAnswered(listeners: set<string>, open: Channels, p: Pdu)
    requires |p| >= 1 && p[0] / 16 == 5
    ensures Step(listeners, open, p) == (open, []) && Reply(listeners, open, Parse(p)) == [[0x50, 0x00, 0x02, 0x00]]
  {}

  /** Data of a channel that is not open is dropped; of an idle one it is a
      message; of one with a message begun it is more of that, handed over once it
      is long enough. */
  lemma DataIs(listeners: set<string>, open: Channels, p: Pdu, id: nat, data: seq<Byte>)
    requires Asks(p, 3, id, data)
    ensures Reply(listeners, open, Parse(p)) == []
    ensures var (o, es) := Step(listeners, open, p);
            if id !in open then o == open && es == []
            else if open[id].buf.None? then o == open && es == [Message(id, data)]
            else
              var all := open[id].buf.value + data;
              if |all| < open[id].total then o == open[id := open[id].(buf := Some(all))] && es == []
              else o == open[id := open[id].(buf := None)] && es == [Message(id, all)]
  {
    ParsedAs(p, 3, id, data);
    if id in open {
      assert open[id := open[id]] == open;
    } else {
      assert With(open, id, None) == open;
    }
  }

  /** The first of a message of total bytes, whatever was begun before. */
  lemma FirstIs(listeners: set<string>, open: Channels, p: Pdu, id: nat, rest: seq<Byte>, total: nat, data: seq<Byte>)
    requires Asks(p, 2, id, rest) && NumberAt(rest, p[0] / 4 % 4) == Some((total, data))
    ensures Reply(listeners, open, Parse(p)) == []
    ensures var (o, es) := Step(listeners, open, p);
            if id !in open then o == open && es == []
            else if |data| < total then o == open[id := open[id].(buf := Some(data), total := total)] && es == []
            else o == open[id := open[id].(buf := None, total := total)] && es == [Message(id, data)]
  {
    ReadsNumber(p[1..], p[0] % 4);
    ReadsNumber(rest, p[0] / 4 % 4);
    if id !in open {
      assert With(open, id, None) == open;
    }
  }

  /** Anything else is dropped. */
  lemma NonsenseIsDropped(listeners: set<string>, open: Channels, p: Pdu)
    requires
      || |p| == 0 || p[0] / 16 == 0 || p[0] / 16 > 5 || (p[0] / 16 < 5 && NumberAt(p[1..], p[0] % 4).None?)
      || (p[0] / 16 == 2 && NumberAt(NumberAt(p[1..], p[0] % 4).value.1, p[0] / 4 % 4).None?)
    ensures Step(listeners, open, p) == (open, []) && Reply(listeners, open, Parse(p)) == []
  {
    if |p| > 0 {
      ReadsNumber(p[1..], p[0] % 4);
      if NumberAt(p[1..], p[0] % 4).Some? {
        ReadsNumber(NumberAt(p[1..], p[0] % 4).value.1, p[0] / 4 % 4);
      }
    }
  }

  // ── One message, however it is cut ─────────────────────────────────────────

  function Flat(chunks: seq<seq<Byte>>): seq<Byte> {
    if chunks == [] then [] else chunks[0] + Flat(chunks[1..])
  }

  /** ps are Data PDUs of channel id, of chunks. */
  predicate Carries(id: nat, chunks: seq<seq<Byte>>, ps: seq<Pdu>) {
    |ps| == |chunks| && forall i :: 0 <= i < |ps| ==> Asks(ps[i], 3, id, chunks[i])
  }

  /** A message in one Data PDU. */
  predicate SendsWhole(id: nat, m: seq<Byte>, ps: seq<Pdu>) {
    |ps| == 1 && Asks(ps[0], 3, id, m)
  }

  /** A message in a first PDU, which has its length, and others. */
  predicate SendsCut(id: nat, m: seq<Byte>, ps: seq<Pdu>, rest: seq<Byte>, first: seq<Byte>, chunks: seq<seq<Byte>>) {
    && |ps| >= 1 && Asks(ps[0], 2, id, rest) && NumberAt(rest, ps[0][0] / 4 % 4) == Some((|m|, first))
    && Carries(id, chunks, ps[1..]) && first + Flat(chunks) == m && (chunks != [] ==> chunks[|chunks| - 1] != [])
  }

  ghost predicate Sends(id: nat, m: seq<Byte>, ps: seq<Pdu>) {
    SendsWhole(id, m, ps) || exists rest, first, chunks :: SendsCut(id, m, ps, rest, first, chunks)
  }

  lemma {:induction false} FlatEnds(chunks: seq<seq<Byte>>)
    requires chunks != [] && chunks[|chunks| - 1] != []
    ensures |Flat(chunks)| > 0 && (|chunks| > 1 ==> |chunks[0]| < |Flat(chunks)|)
  {
    if |chunks| > 1 {
      FlatEnds(chunks[1..]);
    }
  }

  lemma {:induction false} RestArrives(listeners: set<string>, id: nat, ch: Channel, chunks: seq<seq<Byte>>, ps: seq<Pdu>)
    requires Carries(id, chunks, ps) && chunks != [] && chunks[|chunks| - 1] != []
    requires ch.buf.Some? && |ch.buf.value| + |Flat(chunks)| == ch.total
    ensures FeedOwn(listeners, id, Some(ch), ps).0 == Some(ch.(buf := None))
    ensures FeedOwn(listeners, id, Some(ch), ps).1 == [Message(id, ch.buf.value + Flat(chunks))]
    decreases |ps|
  {
    FlatEnds(chunks);
    ParsedAs(ps[0], 3, id, chunks[0]);
    var all := ch.buf.value + chunks[0];
    assert all + Flat(chunks[1..]) == ch.buf.value + Flat(chunks);
    assert ps == [ps[0]] + ps[1..];
    FeedOwnOne(listeners, id, Some(ch), ps[0], ps[1..]);
    if |chunks| > 1 {
      RestArrives(listeners, id, ch.(buf := Some(all)), chunks[1..], ps[1..]);
    } else {
      assert Flat(chunks[1..]) == [] && ps[1..] == [] && all + [] == all;
      assert [Message(id, all)] + [] == [Message(id, all)];
    }
  }

  lemma FirstArrives(listeners: set<string>, id: nat, ch: Channel, m: seq<Byte>, ps: seq<Pdu>,
                     rest: seq<Byte>, first: seq<Byte>, chunks: seq<seq<Byte>>)
    requires ch.buf.None? && SendsCut(id, m, ps, rest, first, chunks)
    ensures FeedOwn(listeners, id, Some(ch), ps).0 == Some(ch.(total := |m|))
    ensures FeedOwn(listeners, id, Some(ch), ps).1 == [Message(id, m)]
  {
    ReadsNumber(ps[0][1..], ps[0][0] % 4);
    ReadsNumber(rest, ps[0][0] / 4 % 4);
    assert Parse(ps[0]) == First(id, |m|, first);
    assert ps == [ps[0]] + ps[1..];
    FeedOwnOne(listeners, id, Some(ch), ps[0], ps[1..]);
    if chunks == [] {
      assert first == m && ps[1..] == [];
    } else {
      FlatEnds(chunks);
      RestArrives(listeners, id, ch.(buf := Some(first), total := |m|), chunks, ps[1..]);
    }
  }

  /** A message arrives whole and once however it is cut, and leaves the channel
      idle. */
  lemma CutMessageArrives(listeners: set<string>, id: nat, ch: Channel, m: seq<Byte>, ps: seq<Pdu>)
    requires ch.buf.None? && Sends(id, m, ps)
    ensures var (c, es) := FeedOwn(listeners, id, Some(ch), ps);
            es == [Message(id, m)] && Idle(c) && c.value.name == ch.name
  {
    if SendsWhole(id, m, ps) {
      ParsedAs(ps[0], 3, id, m);
      assert ps == [ps[0]] + [];
      FeedOwnOne(listeners, id, Some(ch), ps[0], []);
    } else {
      var rest, first, chunks :| SendsCut(id, m, ps, rest, first, chunks);
      FirstArrives(listeners, id, ch, m, ps, rest, first, chunks);
    }
  }

  // ── A channel's life ───────────────────────────────────────────────────────

  function Joined(groups: seq<seq<Pdu>>): seq<Pdu> {
    if groups == [] then [] else groups[0] + Joined(groups[1..])
  }

  /** Each message by a group of PDUs. */
  ghost predicate SendsAll(id: nat, msgs: seq<seq<Byte>>, groups: seq<seq<Pdu>>) {
    |groups| == |msgs| && forall i :: 0 <= i < |msgs| ==> Sends(id, msgs[i], groups[i])
  }

  lemma OneMoreArrives(listeners: set<string>, id: nat, ch: Channel, m: seq<Byte>, msgs: seq<seq<Byte>>,
                       a: seq<Pdu>, b: seq<Pdu>, c: Option<Channel>)
    requires FeedOwn(listeners, id, Some(ch), a) == (c, [Message(id, m)])
    requires FeedOwn(listeners, id, c, b).1 == Messages(id, msgs)
    ensures FeedOwn(listeners, id, Some(ch), a + b).1 == Messages(id, [m] + msgs)
    ensures FeedOwn(listeners, id, Some(ch), a + b).0 == FeedOwn(listeners, id, c, b).0
  {
    FeedOwnBoth(listeners, id, Some(ch), a, b);
    assert Messages(id, [m] + msgs) == [Message(id, m)] + Messages(id, msgs);
  }

  lemma {:induction false} AllArrive(listeners: set<string>, id: nat, ch: Channel, msgs: seq<seq<Byte>>,
                                     groups: seq<seq<Pdu>>)
    requires ch.buf.None? && SendsAll(id, msgs, groups)
    ensures FeedOwn(listeners, id, Some(ch), Joined(groups)).1 == Messages(id, msgs)
    ensures Idle(FeedOwn(listeners, id, Some(ch), Joined(groups)).0)
    decreases |msgs|
  {
    if msgs != [] {
      CutMessageArrives(listeners, id, ch, msgs[0], groups[0]);
      var c := FeedOwn(listeners, id, Some(ch), groups[0]).0;
      AllArrive(listeners, id, c.value, msgs[1..], groups[1..]);
      OneMoreArrives(listeners, id, ch, msgs[0], msgs[1..], groups[0], Joined(groups[1..]), c);
      assert [msgs[0]] + msgs[1..] == msgs;
    }
  }

  /** Not open, and a Create of no listener: nothing comes of it. */
  lemma {:induction false} NothingOf(listeners: set<string>, id: nat, ps: seq<Pdu>)
    requires forall i :: 0 <= i < |ps| ==> !Parse(ps[i]).Create?
    ensures FeedOwn(listeners, id, None, ps) == (None, [])
    decreases |ps|
  {
    if ps != [] {
      NothingOf(listeners, id, ps[1..]);
      assert ps == [ps[0]] + ps[1..];
      FeedOwnOne(listeners, id, None, ps[0], ps[1..]);
    }
  }

  lemma OwnLife(listeners: set<string>, id: nat, was: Option<Channel>, create: Pdu, body: seq<seq<Pdu>>, close: Pdu,
                r: seq<Byte>, name: string, r': seq<Byte>, msgs: seq<seq<Byte>>)
    requires Asks(create, 1, id, r) && Names(r, name) && Asks(close, 4, id, r') && SendsAll(id, msgs, body)
    requires name in listeners
    ensures FeedOwn(listeners, id, was, [create] + Joined(body) + [close])
            == (None, [Opened(id)] + Messages(id, msgs) + [Closed(id)])
  {
    ParsedAs(create, 1, id, r);
    ReadsName(r, name);
    ParsedAs(close, 4, id, r');
    var ch := Channel(name, None, 0);
    assert [create] + Joined(body) + [close] == [create] + (Joined(body) + [close]);
    FeedOwnOne(listeners, id, was, create, Joined(body) + [close]);
    FeedOwnBoth(listeners, id, Some(ch), Joined(body), [close]);
    AllArrive(listeners, id, ch, msgs, body);
    var c := FeedOwn(listeners, id, Some(ch), Joined(body)).0;
    assert [close] == [close] + [];
    FeedOwnOne(listeners, id, c, close, []);
    assert [Closed(id)] + [] == [Closed(id)];
    assert [Opened(id)] + (Messages(id, msgs) + [Closed(id)]) == [Opened(id)] + Messages(id, msgs) + [Closed(id)];
  }

  /** From its Create to its Close, mixed in any way with other PDUs: the listener
      is told that it is open, of every message, and that it is closed, once each
      and in order; and the channel is not open any more. */
  lemma ChannelsLife(listeners: set<string>, open: Channels, ps: seq<Pdu>, id: nat, name: string,
                     create: Pdu, body: seq<seq<Pdu>>, close: Pdu, r: seq<Byte>, r': seq<Byte>, msgs: seq<seq<Byte>>)
    requires Only(id, ps) == [create] + Joined(body) + [close]
    requires Asks(create, 1, id, r) && Names(r, name) && Asks(close, 4, id, r') && SendsAll(id, msgs, body)
    requires name in listeners
    ensures EventsOf(id, Feed(listeners, open, ps).1) == [Opened(id)] + Messages(id, msgs) + [Closed(id)]
    ensures id !in Feed(listeners, open, ps).0
  {
    ChannelsDoNotMix(listeners, open, ps, id);
    OwnLife(listeners, id, At(open, id), create, body, close, r, name, r', msgs);
  }

  /** Without a listener of that name: nothing, whatever else is sent it. */
  lemma NoListenerNoLife(listeners: set<string>, open: Channels, ps: seq<Pdu>, id: nat, name: string,
                         create: Pdu, body: seq<Pdu>, r: seq<Byte>)
    requires Only(id, ps) == [create] + body && Asks(create, 1, id, r) && Names(r, name)
    requires forall i :: 0 <= i < |body| ==> !Parse(body[i]).Create?
    requires name !in listeners && id !in open
    ensures EventsOf(id, Feed(listeners, open, ps).1) == [] && id !in Feed(listeners, open, ps).0
  {
    ChannelsDoNotMix(listeners, open, ps, id);
    ParsedAs(create, 1, id, r);
    ReadsName(r, name);
    FeedOwnOne(listeners, id, None, create, body);
    NothingOf(listeners, id, body);
  }

  // ── What this side sends ───────────────────────────────────────────────────

  lemma {:induction false} RestIsCut(id: nat, data: seq<Byte>) returns (chunks: seq<seq<Byte>>)
    requires id < TWO_32
    ensures Carries(id, chunks, Rest(id, data)) && Flat(chunks) == data
    ensures chunks != [] ==> chunks[|chunks| - 1] != []
    decreases |data|
  {
    if data == [] {
      chunks := [];
    } else {
      var n := Dvc.Take(data, MAX_PDU - 1 - IdLen(id));
      var more := RestIsCut(id, data[n..]);
      chunks := [data[..n]] + more;
      Written(DATA, id, data[..n]);
      assert chunks[1..] == more && data[..n] + data[n..] == data;
      assert Rest(id, data) == [DataPdu(id, data[..n])] + Rest(id, data[n..]);
    }
  }

  lemma {:induction false} RestIsFull(id: nat, data: seq<Byte>)
    ensures forall i :: 0 <= i < |Rest(id, data)| - 1 ==> |Rest(id, data)[i]| == MAX_PDU
    decreases |data|
  {
    if data != [] {
      var n := Dvc.Take(data, MAX_PDU - 1 - IdLen(id));
      RestIsFull(id, data[n..]);
      assert Rest(id, data) == [DataPdu(id, data[..n])] + Rest(id, data[n..]);
    }
  }

  lemma FirstWritten(id: nat, total: nat, first: seq<Byte>)
    requires id < TWO_32 && total < TWO_32
    ensures var p := FirstPdu(id, total, first);
            Asks(p, 2, id, WriteVar(total) + first) && NumberAt(WriteVar(total) + first, p[0] / 4 % 4) == Some((total, first))
  {
    var p, rest := FirstPdu(id, total, first), WriteVar(total) + first;
    HeaderReads(DATA_FIRST, IdSize(total), IdSize(id));
    assert p[1..] == WriteVar(id) + rest && p[0] == Header(DATA_FIRST, IdSize(total), IdSize(id));
    ReadsWhatWasWritten(id, rest);
    ReadsNumber(p[1..], IdSize(id));
    ReadsWhatWasWritten(total, first);
    ReadsNumber(rest, IdSize(total));
  }

  /** What this side sends is cut so, and every PDU but the last is as large as it
      may be. */
  lemma FragmentsSend(id: nat, data: seq<Byte>)
    requires id < TWO_32 && |data| < TWO_32
    ensures Sends(id, data, Fragments(id, data))
    ensures forall i :: 0 <= i < |Fragments(id, data)| - 1 ==> |Fragments(id, data)[i]| == MAX_PDU
  {
    var ps := Fragments(id, data);
    if 1 + IdLen(id) + |data| <= MAX_PDU {
      Written(DATA, id, data);
      assert SendsWhole(id, data, ps);
    } else {
      var n := FragmentsAre(id, data);
      CutSends(id, data, n);
      SmallRemainder(|data|);
      RestIsFull(id, data[n..]);
      assert ps[1..] == Rest(id, data[n..]);
    }
  }

  lemma CutSends(id: nat, data: seq<Byte>, n: nat)
    requires id < TWO_32 && |data| < TWO_32 && n < |data|
    ensures Sends(id, data, [FirstPdu(id, |data|, data[..n])] + Rest(id, data[n..]))
  {
    var ps := [FirstPdu(id, |data|, data[..n])] + Rest(id, data[n..]);
    FirstWritten(id, |data|, data[..n]);
    var chunks := RestIsCut(id, data[n..]);
    assert ps[1..] == Rest(id, data[n..]) && data[..n] + data[n..] == data;
    assert SendsCut(id, data, ps, WriteVar(|data|) + data[..n], data[..n], chunks);
  }
}
