/** The dynamic virtual channel transport (internal/dvc/dvc.go; [MS-RDPEDYC]
    section 2.2.3): messages cut into PDUs of at most 1600 bytes and put
    together again, several channels over one stream. */
module Dvc {
  import opened Helpers

  type Byte = n: int | 0 <= n < 256
  type Pdu = seq<Byte>

  const CREATE := 1
  const DATA_FIRST := 2
  const DATA := 3
  const CLOSE := 4
  const CAPS := 5
  const MAX_PDU := 1600
  const STATUS_NOT_FOUND := 0xC000_0225
  const TWO_32 := 0x1_0000_0000

  // ── Variable-length numbers ────────────────────────────────────────────────

  /** idSize. */
  function IdSize(v: nat): (r: nat)
    ensures r <= 2
  {
    if v <= 0xFF then 0 else if v <= 0xFFFF then 1 else 2
  }

  function IdLen(v: nat): (r: nat)
    ensures r == 1 || r == 2 || r == 4
  {
    if IdSize(v) == 0 then 1 else if IdSize(v) == 1 then 2 else 4
  }

  function LittleEndian(v: nat, n: nat): (r: seq<Byte>)
    ensures |r| == n
  {
    if n == 0 then [] else [v % 256] + LittleEndian(v / 256, n - 1)
  }

  function Value(s: seq<Byte>): nat {
    if s == [] then 0 else s[0] + 256 * Value(s[1..])
  }

  /** writeVar. */
  function WriteVar(v: nat): (r: seq<Byte>)
    ensures |r| == IdLen(v)
  {
    LittleEndian(v, IdLen(v))
  }

  function VarLen(size: nat): nat {
    if size == 0 then 1 else if size == 1 then 2 else 4
  }

  /** readVar: the number and what follows it. */
  function ReadVar(s: seq<Byte>, size: nat): Option<(nat, seq<Byte>)> {
    var n := VarLen(size);
    if |s| < n then None else Some((Value(s[..n]), s[n..]))
  }

  function Pow256(n: nat): nat {
    if n == 0 then 1 else 256 * Pow256(n - 1)
  }

  lemma {:induction false} ValueOfLittleEndian(v: nat, n: nat)
    requires v < Pow256(n)
    ensures Value(LittleEndian(v, n)) == v
  {
    if n > 0 {
      ValueOfLittleEndian(v / 256, n - 1);
      assert LittleEndian(v, n)[1..] == LittleEndian(v / 256, n - 1);
    }
  }

  lemma ReadsWhatWasWritten(v: nat, rest: seq<Byte>)
    requires v < TWO_32
    ensures ReadVar(WriteVar(v) + rest, IdSize(v)) == Some((v, rest))
  {
    assert Pow256(1) == 256 && Pow256(2) == 0x1_0000 && Pow256(4) == TWO_32 by {
      assert Pow256(3) == 256 * Pow256(2);
    }
    ValueOfLittleEndian(v, IdLen(v));
    assert (WriteVar(v) + rest)[..IdLen(v)] == WriteVar(v);
    assert (WriteVar(v) + rest)[IdLen(v)..] == rest;
  }

  /** In as few bytes as it takes: of one, two and four the first that hold it. */
  lemma ShortestLength(v: nat)
    requires v < TWO_32
    ensures |WriteVar(v)| in {1, 2, 4} && v < Pow256(|WriteVar(v)|)
    ensures |WriteVar(v)| > 1 ==> v >= Pow256(|WriteVar(v)| / 2)
    ensures |WriteVar(v)| == VarLen(IdSize(v))
  {
    assert Pow256(1) == 256 && Pow256(2) == 0x1_0000 && Pow256(4) == TWO_32 by {
      assert Pow256(3) == 256 * Pow256(2);
    }
  }

  // ── Sending ────────────────────────────────────────────────────────────────

  function Header(cmd: nat, sp: nat, cb: nat): Byte
    requires cmd < 16 && sp < 4 && cb < 4
  {
    cmd * 16 + sp * 4 + cb
  }

  function DataPdu(id: nat, data: seq<Byte>): Pdu {
    [Header(DATA, 0, IdSize(id))] + WriteVar(id) + data
  }

  function FirstPdu(id: nat, total: nat, data: seq<Byte>): Pdu {
    [Header(DATA_FIRST, IdSize(total), IdSize(id))] + WriteVar(id) + WriteVar(total) + data
  }

  function Take(data: seq<Byte>, n: nat): nat {
    if n > |data| then |data| else n
  }

  /** The DATA fragments of what is left of a message. */
  function Rest(id: nat, data: seq<Byte>): seq<Pdu>
    decreases |data|
  {
    if data == [] then []
    else
      var n := Take(data, MAX_PDU - 1 - IdLen(id));
      [DataPdu(id, data[..n])] + Rest(id, data[n..])
  }

  /** All the PDUs of one message. Its length goes into 32 bits. */
  function Fragments(id: nat, data: seq<Byte>): seq<Pdu> {
    if 1 + IdLen(id) + |data| <= MAX_PDU then [DataPdu(id, data)]
    else
      var total := |data| % TWO_32;
      var n := Take(data, MAX_PDU - 1 - IdLen(id) - IdLen(total));
      [FirstPdu(id, total, data[..n])] + Rest(id, data[n..])
  }

  /** What sendData has still to send. */
  function ToSend(id: nat, data: seq<Byte>, left: seq<Byte>, first: bool): seq<Pdu> {
    if first then Fragments(id, data) else Rest(id, left)
  }

  /** One turn of sendData's loop. */
  lemma SentSoFar(id: nat, data: seq<Byte>, left: seq<Byte>, first: bool, wrote: seq<Pdu>, b: seq<Byte>, n: nat)
    requires left != [] && 1 + IdLen(id) + |data| > MAX_PDU && (first ==> left == data)
    requires var total := |data| % TWO_32;
             b == if first then [Header(DATA_FIRST, IdSize(total), IdSize(id))] + WriteVar(id) + WriteVar(total)
                  else [Header(DATA, 0, IdSize(id))] + WriteVar(id)
    requires n == Take(left, MAX_PDU - |b|)
    ensures wrote + [b + left[..n]] + Rest(id, left[n..]) == wrote + ToSend(id, data, left, first)
  {
    OneTurn(id, data, left, first, b, n);
    Associates(wrote, b + left[..n], Rest(id, left[n..]));
  }

  lemma Associates(wrote: seq<Pdu>, p: Pdu, rest: seq<Pdu>)
    ensures wrote + [p] + rest == wrote + ([p] + rest)
  {}

  lemma OneTurn(id: nat, data: seq<Byte>, left: seq<Byte>, first: bool, b: seq<Byte>, n: nat)
    requires left != [] && 1 + IdLen(id) + |data| > MAX_PDU && (first ==> left == data)
    requires var total := |data| % TWO_32;
             b == if first then [Header(DATA_FIRST, IdSize(total), IdSize(id))] + WriteVar(id) + WriteVar(total)
                  else [Header(DATA, 0, IdSize(id))] + WriteVar(id)
    requires n == Take(left, MAX_PDU - |b|)
    ensures ToSend(id, data, left, first) == [b + left[..n]] + Rest(id, left[n..])
  {
    if first {
      assert b + left[..n] == FirstPdu(id, |data| % TWO_32, data[..n]);
    } else {
      assert b + left[..n] == DataPdu(id, left[..n]);
    }
  }

  lemma {:induction false} RestFits(id: nat, data: seq<Byte>)
    ensures forall i :: 0 <= i < |Rest(id, data)| ==> |Rest(id, data)[i]| <= MAX_PDU
    decreases |data|
  {
    if data != [] {
      RestFits(id, data[Take(data, MAX_PDU - 1 - IdLen(id))..]);
    }
  }

  /** No PDU is larger than either side may send. */
  lemma EveryPduFits(id: nat, data: seq<Byte>)
    ensures forall i :: 0 <= i < |Fragments(id, data)| ==> |Fragments(id, data)[i]| <= MAX_PDU
  {
    if 1 + IdLen(id) + |data| > MAX_PDU {
      RestFits(id, data[Take(data, MAX_PDU - 1 - IdLen(id) - IdLen(|data| % TWO_32))..]);
    }
  }

  // ── Receiving ──────────────────────────────────────────────────────────────

  /** A channel's reassembly: nothing pending, or the start of a message. */
  datatype Channel = Channel(name: string, buf: Option<seq<Byte>>, total: nat)

  /** What a listener is told. */
  datatype Event = Opened(id: nat) | Message(id: nat, data: seq<Byte>) | Closed(id: nat)

  /** What a PDU is, read as far as Process reads it. */
  datatype Parsed =
    | Nothing
    | Caps
    | Create(id: nat, name: string)
    | First(id: nat, total: nat, data: seq<Byte>)
    | Data(id: nat, data: seq<Byte>)
    | Close(id: nat)

  /** readCString. */
  function CString(s: seq<Byte>): string {
    if s == [] || s[0] == 0 then "" else [s[0] as char] + CString(s[1..])
  }

  function Parse(p: Pdu): Parsed {
    if |p| < 1 then Nothing
    else
      var cmd, sp, cb := p[0] / 16, p[0] / 4 % 4, p[0] % 4;
      if cmd == CAPS then Caps
      else if cmd < CREATE || cmd > CLOSE then Nothing
      else
        match ReadVar(p[1..], cb)
        case None => Nothing
        case Some((id, r)) =>
          if cmd == CREATE then Create(id, CString(r))
          else if cmd == CLOSE then Close(id)
          else if cmd == DATA then Data(id, r)
          else
            match ReadVar(r, sp)
            case None => Nothing
            case Some((total, rest)) => First(id, total, rest)
  }

  /** The channel a PDU concerns. */
  function Addressed(p: Pdu): Option<nat> {
    match Parse(p)
    case Nothing => None
    case Caps => None
    case Create(id, _) => Some(id)
    case First(id, _, _) => Some(id)
    case Data(id, _) => Some(id)
    case Close(id) => Some(id)
  }

  /** A message as it grows: handed over once it is long enough. */
  function Grown(ch: Channel, id: nat, buf: seq<Byte>, total: nat): (Channel, seq<Event>) {
    if |buf| >= total then (ch.(buf := None, total := total), [Message(id, buf)])
    else (ch.(buf := Some(buf), total := total), [])
  }

  /** What a PDU addressed to channel id does to it. */
  function OnChannel(listeners: set<string>, id: nat, ch: Option<Channel>, p: Parsed): (Option<Channel>, seq<Event>) {
    match p
    case Nothing => (ch, [])
    case Caps => (ch, [])
    case Create(_, name) =>
      if name in listeners then (Some(Channel(name, None, 0)), [Opened(id)]) else (ch, [])
    case First(_, total, data) =>
      if ch.None? then (ch, [])
      else var (c, e) := Grown(ch.value, id, data, total); (Some(c), e)
    case Data(_, data) =>
      if ch.None? then (ch, [])
      else if ch.value.buf.None? then (ch, [Message(id, data)])
      else var (c, e) := Grown(ch.value, id, ch.value.buf.value + data, ch.value.total); (Some(c), e)
    case Close(_) => if ch.None? then (ch, []) else (None, [Closed(id)])
  }

  function Reply(listeners: set<string>, open: map<nat, Channel>, p: Parsed): seq<Pdu> {
    match p
    case Caps => [[Header(CAPS, 0, 0), 0, 2, 0]]
    case Create(id, name) =>
      [[Header(CREATE, 0, IdSize(id))] + WriteVar(id)
       + LittleEndian(if name in listeners then 0 else STATUS_NOT_FOUND, 4)]
    case Close(id) => if id in open then [[Header(CLOSE, 0, IdSize(id))] + WriteVar(id)] else []
    case _ => []
  }

  type Channels = map<nat, Channel>

  function At(open: Channels, id: nat): Option<Channel> {
    if id in open then Some(open[id]) else None
  }

  function With(open: Channels, id: nat, ch: Option<Channel>): Channels {
    if ch.None? then open - {id} else open[id := ch.value]
  }

  function Step(listeners: set<string>, open: Channels, p: Pdu): (Channels, seq<Event>) {
    match Addressed(p)
    case None => (open, [])
    case Some(id) =>
      var (ch, events) := OnChannel(listeners, id, At(open, id), Parse(p));
      (With(open, id, ch), events)
  }

  /** A whole stream of PDUs. */
  function Feed(listeners: set<string>, open: Channels, ps: seq<Pdu>): (Channels, seq<Event>)
    decreases |ps|
  {
    if ps == [] then (open, [])
    else
      var (o1, e1) := Step(listeners, open, ps[0]);
      var (o2, e2) := Feed(listeners, o1, ps[1..]);
      (o2, e1 + e2)
  }

  /** The client: what it has open, what its listeners have been told, what it
      has written. */
  class Transport {
    const listeners: set<string>
    var open: Channels
    var told: seq<Event>
    var wrote: seq<Pdu>

    constructor (listeners: set<string>)
      ensures this.listeners == listeners && open == map[] && told == [] && wrote == []
    {
      this.listeners := listeners;
      open, told, wrote := map[], [], [];
    }

    /** Process: one PDU from the server. */
    method Process(s: Pdu)
      modifies this
      ensures open == Step(listeners, old(open), s).0
      ensures told == old(told) + Step(listeners, old(open), s).1
      ensures wrote == old(wrote) + Reply(listeners, old(open), Parse(s))
    {
      if |s| < 1 {
        return;
      }
      var cmd, sp, cb := s[0] / 16, s[0] / 4 % 4, s[0] % 4;
      if cmd == CAPS {
        wrote := wrote + [[Header(CAPS, 0, 0), 0, 2, 0]];
        return;
      }
      if cmd < CREATE || cmd > CLOSE {
        return;
      }
      var v := ReadVar(s[1..], cb);
      if v.None? {
        return;
      }
      var (id, r) := v.value;
      if cmd == CREATE {
        var name := ReadCString(r);
        var status := if name in listeners then 0 else STATUS_NOT_FOUND;
        wrote := wrote + [[Header(CREATE, 0, IdSize(id))] + WriteVar(id) + LittleEndian(status, 4)];
        if name in listeners {
          open := open[id := Channel(name, None, 0)];
          told := told + [Opened(id)];
        } else {
          assert With(open, id, At(open, id)) == open;
        }
      } else if cmd == DATA_FIRST {
        var t := ReadVar(r, sp);
        if t.None? {
          return;
        }
        if id !in open {
          assert With(open, id, None) == open;
          return;
        }
        var (total, rest) := t.value;
        var ch := open[id].(buf := Some(rest), total := total);
        if |rest| >= total {
          told := told + [Message(id, rest)];
          ch := ch.(buf := None);
        }
        open := open[id := ch];
      } else if cmd == DATA {
        if id !in open {
          assert With(open, id, None) == open;
          return;
        }
        var ch := open[id];
        if ch.buf.Some? {
          ch := ch.(buf := Some(ch.buf.value + r));
          if |ch.buf.value| >= ch.total {
            told := told + [Message(id, ch.buf.value)];
            ch := ch.(buf := None);
          }
          open := open[id := ch];
          return;
        }
        assert With(open, id, Some(ch)) == open;
        told := told + [Message(id, r)];
      } else {
        if id in open {
          open := open - {id};
          told := told + [Closed(id)];
          wrote := wrote + [[Header(CLOSE, 0, IdSize(id))] + WriteVar(id)];
        } else {
          assert With(open, id, None) == open;
        }
      }
    }

    static method ReadCString(r: seq<Byte>) returns (s: string)
      ensures s == CString(r)
    {
      s := "";
      var i := 0;
      while i < |r| && r[i] != 0
        invariant 0 <= i <= |r| && s + CString(r[i..]) == CString(r)
      {
        s := s + [r[i] as char];
        i := i + 1;
      }
    }

    /** sendData. */
    method SendData(id: nat, data: seq<Byte>)
      modifies this`wrote
      ensures wrote == old(wrote) + Fragments(id, data)
    {
      if 1 + IdLen(id) + |data| <= MAX_PDU {
        wrote := wrote + [DataPdu(id, data)];
        return;
      }
      var total := |data| % TWO_32;
      var first, left := true, data;
      while |left| > 0
        invariant first ==> left == data
        invariant wrote + ToSend(id, data, left, first) == old(wrote) + Fragments(id, data)
      {
        var b := if first then [Header(DATA_FIRST, IdSize(total), IdSize(id))] + WriteVar(id) + WriteVar(total)
                 else [Header(DATA, 0, IdSize(id))] + WriteVar(id);
        var n := MAX_PDU - |b|;
        if n > |left| {
          n := |left|;
        }
        SentSoFar(id, data, left, first, wrote, b, n);
        wrote := wrote + [b + left[..n]];
        left := left[n..];
        first := false;
      }
    }

    /** CloseAll: every channel that was open is closed, once, in any order. */
    method CloseAll() returns (ghost ended: seq<Event>)
      modifies this`open, this`told
      ensures open == map[] && told == old(told) + ended && |ended| == |old(open).Keys|
      ensures forall e :: e in ended <==> e.Closed? && e.id in old(open)
    {
      ended := [];
      var todo := open.Keys;
      open := map[];
      while todo != {}
        invariant open == map[] && todo <= old(open).Keys && told == old(told) + ended
        invariant |ended| + |todo| == |old(open).Keys|
        invariant forall e :: e in ended <==> e.Closed? && e.id in old(open) && e.id !in todo
        decreases todo
      {
        var id :| id in todo;
        todo := todo - {id};
        told := told + [Closed(id)];
        ended := ended + [Closed(id)];
      }
    }
  }
}
