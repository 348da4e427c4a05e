/** The engine's command pipe: a line reader over a fixed buffer compacted in
    place (engine/sc-rdp.c:87-129). */
module Lines {
  import opened Helpers

  type Byte = n: int | 0 <= n < 256
  const NEWLINE: Byte := 10
  const SIZE := 8192

  /** The first newline, or |s|. */
  function Find(s: seq<Byte>): (k: nat)
    ensures k <= |s|
    ensures k < |s| ==> s[k] == NEWLINE
    ensures forall i :: 0 <= i < k ==> s[i] != NEWLINE
  {
    if s == [] || s[0] == NEWLINE then 0 else 1 + Find(s[1..])
  }

  lemma FindIs(s: seq<Byte>, k: nat)
    requires k <= |s| && (k < |s| ==> s[k] == NEWLINE) && forall i :: 0 <= i < k ==> s[i] != NEWLINE
    ensures Find(s) == k
  {}

  /** What next_line makes of a stream: its next line and what follows it. A
      buffer full of bytes without a newline is thrown away. */
  function Next(s: seq<Byte>): Option<(seq<Byte>, seq<Byte>)>
    decreases |s|
  {
    var k := Find(s);
    if k >= SIZE then Next(s[SIZE..])
    else if k == |s| then None
    else Some((s[..k], s[k + 1..]))
  }

  /** How much of a line of k bytes is thrown away, in whole buffers. */
  function Lost(k: nat): nat {
    if k < SIZE then 0 else SIZE + Lost(k - SIZE)
  }

  lemma {:induction false} LostIs(k: nat)
    ensures Lost(k) <= k < Lost(k) + SIZE && Lost(k) % SIZE == 0
  {
    if k >= SIZE {
      LostIs(k - SIZE);
    }
  }

  lemma SliceFrom(s: seq<Byte>, n: nat, a: nat, b: nat)
    requires n + a <= n + b <= |s|
    ensures s[n..][a..b] == s[n + a..n + b] && s[n..][b..] == s[n + b..]
  {}

  lemma Split(a: seq<Byte>, b: seq<Byte>, n: nat)
    requires n <= |b|
    ensures a + b == a + b[..n] + b[n..]
  {}

  lemma FoundLater(s: seq<Byte>, k: nat)
    requires SIZE <= k < |s| && Find(s) == k
    ensures Find(s[SIZE..]) == k - SIZE
  {
    FindIs(s[SIZE..], k - SIZE);
  }

  lemma Shorter(s: seq<Byte>, k: nat)
    requires SIZE <= k < |s| && Find(s) == k
    ensures var t := s[SIZE..];
            && Find(t) == k - SIZE && Lost(k - SIZE) <= k - SIZE && Lost(k) <= k
            && t[Lost(k - SIZE)..k - SIZE] == s[Lost(k)..k] && t[k - SIZE + 1..] == s[k + 1..]
  {
    FoundLater(s, k);
    LostIs(k);
    LostIs(k - SIZE);
    SliceFrom(s, SIZE, Lost(k - SIZE), k - SIZE);
    SliceFrom(s, SIZE, 0, k - SIZE + 1);
  }

  /** Next gives the stream's line whole if and only if it has at most 8191
      bytes; of a longer one it gives what is left over of whole buffers. */
  lemma {:induction false} NextIsTheLine(s: seq<Byte>)
    ensures Find(s) == |s| ==> Next(s) == None
    ensures Lost(Find(s)) <= Find(s)
    ensures Find(s) < |s| ==> Next(s) == Some((s[Lost(Find(s))..Find(s)], s[Find(s) + 1..]))
    ensures Find(s) < |s| ==> (Next(s).value.0 == s[..Find(s)] <==> Find(s) < SIZE)
    decreases |s|
  {
    var k := Find(s);
    LostIs(k);
    if k >= SIZE {
      NextIsTheLine(s[SIZE..]);
      if k < |s| {
        Shorter(s, k);
      } else {
        FindIs(s[SIZE..], k - SIZE);
      }
    }
  }

  /** struct lines, and the pipe behind it: unread is what it has still to give,
      in pieces of whatever size. */
  class Reader {
    const buf: array<Byte>
    var start: nat
    var end: nat
    var unread: seq<Byte>

    ghost predicate Valid()
      reads this
    {
      start <= end <= buf.Length == SIZE
    }

    /** What has not been returned as a line yet. */
    ghost function Remaining(): seq<Byte>
      requires Valid()
      reads this, buf
    {
      buf[start..end] + unread
    }

    constructor (stream: seq<Byte>)
      ensures Valid() && Remaining() == stream && fresh(buf)
    {
      buf := new Byte[SIZE](_ => 0);
      start, end, unread := 0, 0, stream;
    }

    /** memchr for a newline among the bytes buffered. */
    method NewlineAt() returns (k: nat)
      requires Valid()
      ensures start <= k <= end && k - start == Find(buf[start..end])
    {
      k := start;
      while k < end && buf[k] != NEWLINE
        invariant start <= k <= end
        invariant forall i :: start <= i < k ==> buf[i] != NEWLINE
      {
        k := k + 1;
      }
      FindIs(buf[start..end], k - start);
    }

    /** line_ready: whether a newline is buffered; then the next line can be had
        without reading. */
    method LineReady() returns (ready: bool)
      requires Valid()
      ensures ready <==> Find(buf[start..end]) < end - start
      ensures ready <==> NEWLINE in buf[start..end]
      ensures ready ==> Next(Remaining()).Some?
    {
      var k := NewlineAt();
      ready := k < end;
      if ready {
        FindIs(Remaining(), k - start);
      }
    }

    /** read: some of what the pipe has, as much as there is room for at most. */
    method Read() returns (n: nat)
      requires Valid() && end < SIZE
      modifies this`unread, this`end, buf
      ensures Valid() && Remaining() == old(Remaining())
      ensures n == 0 <==> old(unread) == []
      ensures n == 0 ==> end == old(end)
      ensures |unread| == |old(unread)| - n
    {
      if unread == [] {
        return 0;
      }
      n :| 0 < n <= |unread| && n <= SIZE - end;
      forall i | 0 <= i < n {
        buf[end + i] := unread[i];
      }
      assert buf[start..end + n] == old(buf[start..end]) + unread[..n];
      Split(old(buf[start..end]), unread, n);
      unread := unread[n..];
      end := end + n;
    }

    /** memmove: the bytes buffered go to the front. */
    method Compact()
      requires Valid()
      modifies this`start, this`end, buf
      ensures Valid() && start == 0 && end == old(end) - old(start)
      ensures buf[start..end] == old(buf[start..end])
    {
      forall i | 0 <= i < end - start {
        buf[i] := buf[start + i];
      }
      end := end - start;
      start := 0;
    }

    /** What is returned is where line is in the buffer, a zero in its newline's
        place. */
    ghost predicate Terminated(line: seq<Byte>)
      reads this, buf
    {
      |line| < start <= buf.Length && buf[start - 1 - |line|..start] == line + [0]
    }

    /** The line up to a newline in the buffer. */
    method TakeLine(nl: nat) returns (line: seq<Byte>)
      requires Valid() && start <= nl < end && nl - start == Find(buf[start..end])
      modifies this`start, buf
      ensures Valid() && Next(old(Remaining())) == Some((line, Remaining())) && Terminated(line)
    {
      ghost var s := Remaining();
      FindIs(s, nl - start);
      line := buf[start..nl];
      assert s[..nl - start] == line;
      assert s[nl - start + 1..] == buf[nl + 1..end] + unread;
      buf[nl] := 0;
      start := nl + 1;
    }

    /** Room to read into, when no line is buffered; one too long to be ours
        goes. */
    method MakeRoom()
      requires Valid() && Find(buf[start..end]) == end - start
      modifies this`start, this`end, buf
      ensures Valid() && start == 0 && end < SIZE && Find(buf[start..end]) == end
      ensures Next(Remaining()) == Next(old(Remaining()))
    {
      if start > 0 {
        Compact();
      }
      if end == SIZE {
        ghost var s := Remaining();
        assert forall i :: 0 <= i < SIZE ==> s[i] == buf[0..SIZE][i];
        assert s[SIZE..] == unread;
        LongPrefix(s);
        end := 0;
        assert Remaining() == unread;
      }
    }

    /** next_line: for every way the pipe may cut the stream up, what Next makes
        of it. The buffer is never overrun, and a NULL stays a NULL. */
    method NextLine() returns (line: Option<seq<Byte>>)
      requires Valid()
      modifies this, buf
      ensures Valid() && |unread| <= |old(unread)|
      ensures match Next(old(Remaining()))
              case None => line.None? && Next(Remaining()).None?
              case Some((l, rest)) => line == Some(l) && Remaining() == rest && Terminated(l)
    {
      while true
        invariant Valid() && |unread| <= |old(unread)|
        invariant Next(Remaining()) == Next(old(Remaining()))
        decreases |unread|
      {
        var nl := NewlineAt();
        if nl < end {
          var l := TakeLine(nl);
          return Some(l);
        }
        MakeRoom();
        var n := Read();
        if n == 0 {
          assert Remaining() == buf[start..end];
          return None;
        }
      }
    }
  }

  /** A full buffer without a newline is skipped. */
  lemma LongPrefix(s: seq<Byte>)
    requires |s| >= SIZE && forall i :: 0 <= i < SIZE ==> s[i] != NEWLINE
    ensures Next(s) == Next(s[SIZE..])
  {
    assert Find(s) >= SIZE;
  }
}
