/** Unpacking an update into a system slot (internal/update/update.go:332-481).
    What the disk and the network answer is given beforehand and arbitrary: io
    says which operations work, the download says what the stream held. */
module Unpack {

  type Data = string

  const MAX_FILES := 32
  const MAX_FILE := 0x2000_0000
  const PARTIAL := ".part"
  const LOST_FOUND := "lost+found"

  datatype Kind = Regular | Directory | Special

  datatype Entry = Entry(name: string, kind: Kind, data: Data)

  /** A download: the archive's entries, and how it ended. */
  datatype Download = Download(
    entries: seq<Entry>,
    broken: bool,     // the archive ends in an error rather than at its end
    stalled: bool,    // the watchdog bit
    drained: bool,    // the rest of the stream could be read
    sum: string)      // SHA-256 of all of it

  datatype Release = Release(tag: string, sum: string)

  datatype Op =
    | Get
    | ReadDir(again: bool)
    | Remove(name: string, again: bool)
    | Write(name: string)
    | ReadBack
    | Rename(name: string)

  datatype Outcome = Done | GetFailed | ClearFailed | Stopped | Stalled | Damaged | NotTheRelease | RenameFailed

  // ── Names ──────────────────────────────────────────────────────────────────

  predicate HasSuffix(s: string, t: string) {
    |t| <= |s| && s[|s| - |t|..] == t
  }

  function TrimDotSlash(s: string): string {
    if |s| >= 2 && s[..2] == "./" then s[2..] else s
  }

  predicate ValidChar(c: char) {
    'a' <= c <= 'z' || '0' <= c <= '9' || c == '.' || c == '-' || c == '_'
  }

  /** validName. */
  predicate ValidName(n: string) {
    && n != "" && |n| <= 64 && n[0] != '.' && n[0] != '-' && !HasSuffix(n, PARTIAL)
    && forall i :: 0 <= i < |n| ==> ValidChar(n[i])
  }

  const LETTERS := "abcdefghijklmnopqrstuvwxyz0123456789.-_"

  lemma {:induction false} AnyOf(c: char)
    ensures ValidChar(c) <==> c in LETTERS
  {
    assert forall i :: 0 <= i < 26 ==> LETTERS[i] == ('a' as int + i) as char;
    assert forall i :: 26 <= i < 36 ==> LETTERS[i] == ('0' as int + i - 26) as char;
    if 'a' <= c <= 'z' {
      assert LETTERS[c as int - 'a' as int] == c;
    } else if '0' <= c <= '9' {
      assert LETTERS[26 + c as int - '0' as int] == c;
    } else {
      assert LETTERS[36] == '.' && LETTERS[37] == '-' && LETTERS[38] == '_';
    }
  }

  /** The names a slot's files have: no way out of the slot. */
  lemma ValidNameIs(n: string)
    ensures ValidName(n) <==>
              && 1 <= |n| <= 64 && (forall c :: c in n ==> c in LETTERS)
              && n[0] !in ".-" && !(exists m: string :: n == m + ".part")
    ensures ValidName(n) ==> '/' !in n && n != "." && n != ".."
  {
    forall c: char ensures ValidChar(c) <==> c in LETTERS {
      AnyOf(c);
    }
    SuffixIs(n, PARTIAL);
    if ValidName(n) && '/' in n {
      AnyOf('/');
    }
  }

  lemma SuffixIs(s: string, t: string)
    ensures HasSuffix(s, t) <==> exists m: string :: s == m + t
  {
    if HasSuffix(s, t) {
      assert s == s[..|s| - |t|] + t;
    }
    if m: string :| s == m + t {
      assert s[|s| - |t|..] == t;
    }
  }

  /** A pending path is never a final name nor lost+found, and two are the same
      only for the same file. */
  lemma PendingNeverCollides(a: string, b: string)
    ensures ValidName(b) ==> a + PARTIAL != b
    ensures a + PARTIAL == b + PARTIAL ==> a == b
    ensures ValidName(b) ==> b != LOST_FOUND
    ensures a + PARTIAL != LOST_FOUND
  {
    assert (a + PARTIAL)[|a|..] == PARTIAL;
    if a + PARTIAL == b + PARTIAL {
      assert (a + PARTIAL)[..|a|] == a && (b + PARTIAL)[..|b|] == b;
    }
    if b == LOST_FOUND {
      assert !ValidChar(b[4]);
    }
    assert (a + PARTIAL)[|a + PARTIAL| - 1] == 't';
  }

  // ── What an archive stands for ─────────────────────────────────────────────

  /** The top directory itself, which an archive may list. */
  predicate Skipped(e: Entry) {
    e.kind.Directory? && TrimDotSlash(e.name) == ""
  }

  /** A file's name is what follows "./", or all of it. */
  lemma Slashed(n: string)
    ensures TrimDotSlash("./" + n) == n
    ensures (|n| < 2 || n[0] != '.' || n[1] != '/') ==> TrimDotSlash(n) == n
  {
    assert ("./" + n)[..2] == "./" && ("./" + n)[2..] == n;
    if |n| >= 2 && n[..2] == "./" {
      assert n[..2][0] == '.' && n[..2][1] == '/';
    }
  }

  /** The only entry passed over is the top directory, as tar writes it. */
  lemma SkippedIs(e: Entry)
    ensures Skipped(e) <==> e.kind == Directory && e.name in {"", "./"}
  {
    Slashed("");
    assert "./" + "" == "./";
    if |e.name| >= 2 && e.name[..2] == "./" && e.name[2..] == "" {
      assert e.name == "./";
    }
  }

  /** The files of an archive, in order. */
  function Files(es: seq<Entry>): seq<Entry> {
    if es == [] then []
    else
      var r := Files(es[..|es| - 1]);
      var e := es[|es| - 1];
      if Skipped(e) then r else r + [e.(name := TrimDotSlash(e.name))]
  }

  /** An archive extract takes whole: at most 32 regular files with valid and
      different names, none too large. */
  predicate Acceptable(es: seq<Entry>) {
    var f := Files(es);
    && |f| <= MAX_FILES
    && (forall i :: 0 <= i < |f| ==> f[i].kind.Regular? && ValidName(f[i].name) && |f[i].data| <= MAX_FILE)
    && (forall i, j :: 0 <= i < j < |f| ==> f[i].name != f[j].name)
  }

  lemma {:induction false} FilesOfPrefix(es: seq<Entry>, n: nat)
    requires n <= |es|
    ensures |Files(es[..n])| <= |Files(es)|
    ensures Files(es[..n]) == Files(es)[..|Files(es[..n])|]
    ensures Acceptable(es) ==> Acceptable(es[..n])
  {
    if n < |es| {
      FilesOfPrefix(es[..|es| - 1], n);
      assert es[..|es| - 1][..n] == es[..n];
    } else {
      assert es[..n] == es;
    }
  }

  /** Whether one more entry of an archive is taken. */
  predicate Takes(f: seq<Entry>, e: Entry) {
    var name := TrimDotSlash(e.name);
    Skipped(e) ||
    (e.kind.Regular? && ValidName(name) && |e.data| <= MAX_FILE && |f| < MAX_FILES
     && forall i :: 0 <= i < |f| ==> f[i].name != name)
  }

  lemma OneMoreEntry(es: seq<Entry>, e: Entry)
    ensures Files(es + [e]) == if Skipped(e) then Files(es) else Files(es) + [e.(name := TrimDotSlash(e.name))]
    ensures Acceptable(es + [e]) <==> Acceptable(es) && Takes(Files(es), e)
  {
    assert (es + [e])[..|es|] == es;
    var (f, g) := (Files(es), Files(es + [e]));
    assert Skipped(e) || g[|f|] == e.(name := TrimDotSlash(e.name));
    assert forall i :: 0 <= i < |f| ==> g[i] == f[i];
  }

  function IndexOf(f: seq<Entry>, name: string): (k: nat)
    ensures k <= |f|
    ensures k < |f| ==> f[k].name == name
    ensures forall i :: 0 <= i < k ==> f[i].name != name
  {
    if f == [] then 0 else if f[0].name == name then 0 else 1 + IndexOf(f[1..], name)
  }

  predicate Space(c: char) {
    c in " \t\n\r" || c == 11 as char || c == 12 as char
  }

  function TrimSpace(s: string): string {
    if s == "" then s
    else if Space(s[0]) then TrimSpace(s[1..])
    else if Space(s[|s| - 1]) then TrimSpace(s[..|s| - 1])
    else s
  }

  predicate Spaces(s: string) {
    forall c :: c in s ==> c in " \t\n\r" || c == 11 as char || c == 12 as char
  }

  /** White space goes at both ends, and nothing else. */
  lemma {:induction false} Trimmed(a: string, t: string, b: string)
    requires Spaces(a) && Spaces(b) && (t != "" ==> !Space(t[0]) && !Space(t[|t| - 1]))
    ensures TrimSpace(a + t + b) == t
    decreases |a| + |b|
  {
    var s := a + t + b;
    if a != "" {
      assert s[0] == a[0] && a[0] in a && s[1..] == a[1..] + t + b;
      Trimmed(a[1..], t, b);
    } else if b != "" && t != "" {
      assert s[0] == t[0] && s[|s| - 1] == b[|b| - 1] && b[|b| - 1] in b && s[..|s| - 1] == a + t + b[..|b| - 1];
      Trimmed(a, t, b[..|b| - 1]);
    } else if b != "" {
      assert s[0] == b[0] && b[0] in b && s[1..] == a + t + b[1..];
      Trimmed(a, t, b[1..]);
    } else {
      assert s == t;
    }
  }

  /** check: a system slot of release tag. */
  predicate IsRelease(f: seq<Entry>, tag: string) {
    && IndexOf(f, "slot.cfg") < |f|
    && IndexOf(f, "version") < |f|
    && TrimSpace(f[IndexOf(f, "version")].data) == tag
  }

  /** The download is all of release r. */
  predicate Complete(d: Download, r: Release) {
    && Acceptable(d.entries) && !d.broken && d.drained
    && d.sum == r.sum && IsRelease(Files(d.entries), r.tag)
  }

  /** An update as they are made: the top directory, the release's name on a line
      of its own, and what GRUB boots the slot by. */
  function Update(tag: string, cfg: Data): seq<Entry> {
    [Entry("./", Directory, ""), Entry("version", Regular, tag + "\n"), Entry("./slot.cfg", Regular, cfg)]
  }

  lemma OneFile(top: Entry, x: Entry)
    requires Skipped(top) && !Skipped(x)
    ensures Files([top, x]) == [x.(name := TrimDotSlash(x.name))]
  {
    OneMoreEntry([], top);
    OneMoreEntry([top], x);
    assert [] + [top] == [top] && [top] + [x] == [top, x];
  }

  lemma TwoFiles(top: Entry, x: Entry, y: Entry)
    requires Skipped(top) && !Skipped(x) && !Skipped(y)
    ensures Files([top, x, y]) == [x.(name := TrimDotSlash(x.name)), y.(name := TrimDotSlash(y.name))]
  {
    OneFile(top, x);
    OneMoreEntry([top, x], y);
    assert [top, x] + [y] == [top, x, y];
  }

  lemma UpdateFiles(tag: string, cfg: Data)
    ensures Files(Update(tag, cfg)) == [Entry("version", Regular, tag + "\n"), Entry("slot.cfg", Regular, cfg)]
  {
    Slashed("");
    Slashed("slot.cfg");
    assert "./" + "" == "./" && "./" + "slot.cfg" == "./slot.cfg";
    assert "version"[..2][0] == 'v' && TrimDotSlash("version") == "version";
    TwoFiles(Entry("./", Directory, ""), Entry("version", Regular, tag + "\n"), Entry("./slot.cfg", Regular, cfg));
  }

  lemma UpdateNames()
    ensures ValidName("version") && ValidName("slot.cfg")
    ensures "version" != "slot.cfg"
  {
    assert "version"[|"version"| - 1] == 'n' && "slot.cfg"[|"slot.cfg"| - 1] == 'g' && PARTIAL[|PARTIAL| - 1] == 't';
  }

  /** Such an update is complete, whatever the release's name, without white space
      around it. */
  lemma UpdateIsComplete(tag: string, cfg: Data, sum: string)
    requires (tag != "" ==> !Space(tag[0]) && !Space(tag[|tag| - 1])) && |tag| < MAX_FILE && |cfg| <= MAX_FILE
    ensures Complete(Download(Update(tag, cfg), false, false, true, sum), Release(tag, sum))
  {
    UpdateFiles(tag, cfg);
    UpdateNames();
    var f := Files(Update(tag, cfg));
    assert IndexOf(f, "version") == 0;
    assert IndexOf(f[1..], "slot.cfg") == 0 && IndexOf(f, "slot.cfg") == 1;
    Trimmed("", tag, "\n");
    assert "" + tag + "\n" == tag + "\n";
  }

  // ── The slot ───────────────────────────────────────────────────────────────

  /** The slot holds what mkfs left in it, the first k files under their own
      names, the others under their pending ones, and nothing else. */
  ghost predicate Holding(files: map<string, Data>, mkfs: map<string, Data>, f: seq<Entry>, k: int) {
    && 0 <= k <= |f|
    && (forall n :: n in mkfs ==> n in files && files[n] == mkfs[n])
    && (forall i :: 0 <= i < k ==> f[i].name in files && files[f[i].name] == f[i].data)
    && (forall i :: k <= i < |f| ==>
          f[i].name + PARTIAL in files && files[f[i].name + PARTIAL] == f[i].data)
    && (forall n :: n in files ==> n in mkfs || Named(f, k, n))
  }

  /** n is one of the first k final names or a later pending one. */
  ghost predicate Named(f: seq<Entry>, k: int, n: string) {
    || (exists i :: 0 <= i < k <= |f| && f[i].name == n)
    || (exists i :: 0 <= k <= i < |f| && f[i].name + PARTIAL == n)
  }

  /** What mkfs left in a file system. */
  function Mkfs(files: map<string, Data>): map<string, Data> {
    map n | n in files && n == LOST_FOUND :: files[n]
  }

  // ── What GRUB sees ─────────────────────────────────────────────────────────

  /** No file but pending ones: to GRUB, an empty slot. */
  ghost predicate NoneOwn(files: map<string, Data>) {
    forall n :: n in files ==> n == LOST_FOUND || HasSuffix(n, PARTIAL)
  }

  /** Every file of the release has its own name. */
  ghost predicate AllOwn(files: map<string, Data>, f: seq<Entry>) {
    forall i :: 0 <= i < |f| ==> f[i].name in files && files[f[i].name] == f[i].data
  }

  /** since, of a slot's past: the first k renames. */
  ghost predicate Moments(past: seq<map<string, Data>>, since: seq<map<string, Data>>, mkfs: map<string, Data>,
                          f: seq<Entry>, k: nat)
  {
    && |since| == |past| + k && past <= since
    && forall i :: |past| <= i < |since| ==> Holding(since[i], mkfs, f, i - |past| + 1)
  }

  /** What is left of a file system that is being cleared. */
  ghost predicate Rest(files: map<string, Data>, before: map<string, Data>) {
    forall n :: n in files ==> n in before && files[n] == before[n]
  }

  /** Files of the release under their own or their pending names, and others of
      neither kind. */
  ghost predicate PartOf(files: map<string, Data>, f: seq<Entry>) {
    forall n :: n in files ==>
      n == LOST_FOUND || HasSuffix(n, PARTIAL) || exists i :: 0 <= i < |f| && n == f[i].name && files[n] == f[i].data
  }

  /** The archive may be taken for the release asked for. */
  ghost predicate Matches(d: Download, r: Release) {
    Acceptable(d.entries) && d.sum == r.sum && IsRelease(Files(d.entries), r.tag)
  }

  ghost predicate Between(files: map<string, Data>, before: map<string, Data>, d: Download, r: Release) {
    Rest(files, before) || NoneOwn(files) || (Matches(d, r) && PartOf(files, Files(d.entries)))
  }

  /** Every moment from past to since. */
  ghost predicate AllBetween(past: seq<map<string, Data>>, since: seq<map<string, Data>>, before: map<string, Data>,
                             d: Download, r: Release)
  {
    past <= since && forall i :: |past| <= i < |since| ==> Between(since[i], before, d, r)
  }

  /** The last moment is now, if there has been one since. */
  predicate Followed(past: seq<map<string, Data>>, before: map<string, Data>, since: seq<map<string, Data>>,
                     files: map<string, Data>)
  {
    past <= since && if since == past then files == before else since[|since| - 1] == files
  }

  class Slot {
    var files: map<string, Data>

    /** What a power cut would have left, at every moment so far. */
    ghost var past: seq<map<string, Data>>

    constructor ()
      ensures files == map[] && past == []
    {
      files := map[];
      past := [];
    }

    /** clearSlot, in whatever order the directory is read: it works just when every
        removal does, and nothing goes that cannot be removed; each that goes is a
        moment. */
    method ClearSlot(io: Op -> bool, again: bool) returns (ok: bool)
      modifies this
      ensures ok <==> io(ReadDir(again)) && forall n :: n in old(files) && n != LOST_FOUND ==> io(Remove(n, again))
      ensures ok ==> files == Mkfs(old(files))
      ensures Mkfs(files) == Mkfs(old(files)) && Rest(files, old(files))
      ensures !io(ReadDir(again)) ==> files == old(files)
      ensures forall n :: n in old(files) && !io(Remove(n, again)) ==> n in files
      ensures old(past) <= past && forall i :: |old(past)| <= i < |past| ==> Rest(past[i], old(files))
      ensures Followed(old(past), old(files), past, files) && |past| - |old(past)| == |old(files)| - |files|
    {
      if !io(ReadDir(again)) {
        return false;
      }
      var left := files.Keys - {LOST_FOUND};
      while left != {}
        invariant left == files.Keys - {LOST_FOUND}
        invariant Mkfs(files) == Mkfs(old(files))
        invariant Rest(files, old(files)) && old(past) <= past
        invariant Followed(old(past), old(files), past, files) && |past| + |files| == |old(past)| + |old(files)|
        invariant forall n :: n in old(files) && n !in files ==> n != LOST_FOUND && io(Remove(n, again))
        invariant forall i :: |old(past)| <= i < |past| ==> Rest(past[i], old(files))
        decreases left
      {
        var n :| n in left;
        if !io(Remove(n, again)) {
          return false;
        }
        files := files - {n};
        past := past + [files];
        left := left - {n};
      }
      assert forall n :: n in files ==> n == LOST_FOUND || n in left;
      assert files == Mkfs(files);
      ok := true;
    }

    /** writeFile: a write that fails leaves any part of the file, or none. */
    method WriteFile(path: string, data: Data, io: Op -> bool, name: string) returns (ok: bool)
      modifies this
      ensures ok == io(Write(name))
      ensures ok ==> files == old(files)[path := data]
      ensures files - {path} == old(files) - {path}
      ensures old(past) <= past && forall i :: |old(past)| <= i < |past| ==> past[i] - {path} == old(files) - {path}
      ensures Followed(old(past), old(files), past, files) && |past| <= |old(past)| + 2 && (ok ==> |past| == |old(past)| + 2)
    {
      ok := io(Write(name));
      var created: bool, part: Data := *, *;
      if ok || created {
        files := files[path := part];
        past := past + [files];
      }
      if ok {
        files := files[path := data];
        past := past + [files];
      }
    }

    /** One more of the archive's files, under its pending name. */
    method WritePending(e: Entry, io: Op -> bool, ghost mkfs: map<string, Data>, ghost f: seq<Entry>)
      returns (ok: bool)
      requires Holding(files, mkfs, f, 0) && NoneOwn(files) && ValidName(e.name)
      requires forall n :: n in mkfs ==> n == LOST_FOUND
      requires forall i :: 0 <= i < |f| ==> f[i].name != e.name
      modifies this
      ensures ok == io(Write(e.name))
      ensures Mkfs(files) == Mkfs(old(files))
      ensures old(past) <= past && forall i :: |old(past)| <= i < |past| ==> NoneOwn(past[i])
      ensures NoneOwn(files)
      ensures ok ==> Holding(files, mkfs, f + [e], 0)
    {
      var path := e.name + PARTIAL;
      PendingNeverCollides(e.name, e.name);
      ok := WriteFile(path, e.data, io, e.name);
      WritesAreNotOwn(old(files), old(past), past, e.name);
      OthersAreNotOwn(old(files), files, e.name);
      MkfsBut(old(files), files, path);
      if ok {
        OneMorePending(old(files), files, mkfs, f, e);
      }
    }

    /** One turn of extract's loop, after the entries in done. */
    method ExtractOne(h: Entry, names0: seq<string>, io: Op -> bool, ghost mkfs: map<string, Data>,
                      ghost done: seq<Entry>)
      returns (names: seq<string>, ok: bool)
      requires Acceptable(done) && Holding(files, mkfs, Files(done), 0) && NoneOwn(files)
      requires forall n :: n in mkfs ==> n == LOST_FOUND
      requires |names0| == |Files(done)| && forall k :: 0 <= k < |names0| ==> names0[k] == Files(done)[k].name
      modifies this
      ensures Mkfs(files) == Mkfs(old(files))
      ensures old(past) <= past && forall i :: |old(past)| <= i < |past| ==> NoneOwn(past[i])
      ensures NoneOwn(files)
      ensures ok ==>
                && Acceptable(done + [h]) && Holding(files, mkfs, Files(done + [h]), 0)
                && |names| == |Files(done + [h])|
                && forall k :: 0 <= k < |names| ==> names[k] == Files(done + [h])[k].name
      ensures Acceptable(done + [h]) && (forall n :: io(Write(n))) ==> ok
    {
      OneMoreEntry(done, h);
      names := names0;
      var name := TrimDotSlash(h.name);
      if h.kind.Directory? && name == "" {
        return names, true;
      }
      if !h.kind.Regular? || !ValidName(name) || |h.data| > MAX_FILE || |names| == MAX_FILES || name in names {
        return names, false;
      }
      names := names + [name];
      ok := WritePending(h.(name := name), io, mkfs, Files(done));
    }

    /** extract: the files of the archive under their pending names, or the
        names of those begun when something is not as it should be. */
    method Extract(d: Download, io: Op -> bool) returns (names: seq<string>, ok: bool)
      requires forall n :: n in files ==> n == LOST_FOUND
      modifies this
      ensures Mkfs(files) == old(files)
      ensures old(past) <= past && forall i :: |old(past)| <= i < |past| ==> NoneOwn(past[i])
      ensures NoneOwn(files)
      ensures ok ==>
                && Acceptable(d.entries) && !d.broken
                && |names| == |Files(d.entries)|
                && (forall i :: 0 <= i < |names| ==> names[i] == Files(d.entries)[i].name)
                && Holding(files, old(files), Files(d.entries), 0)
      ensures Acceptable(d.entries) && !d.broken && (forall n :: io(Write(n))) ==> ok
    {
      names := [];
      ghost var done: seq<Entry> := [];
      for i := 0 to |d.entries|
        invariant done == d.entries[..i] && Acceptable(done)
        invariant i == |d.entries| ==> done == d.entries
        invariant |names| == |Files(done)|
        invariant forall k :: 0 <= k < |names| ==> names[k] == Files(done)[k].name
        invariant Holding(files, old(files), Files(done), 0)
        invariant Mkfs(files) == old(files)
        invariant old(past) <= past && forall i :: |old(past)| <= i < |past| ==> NoneOwn(past[i])
        invariant NoneOwn(files)
      {
        var h := d.entries[i];
        assert done + [h] == d.entries[..i + 1];
        FilesOfPrefix(d.entries, i + 1);
        names, ok := ExtractOne(h, names, io, old(files), done);
        if !ok {
          return;
        }
        done := done + [h];
      }
      ok := !d.broken;
    }

    /** The middle of unpack: the pending files, checked; or why they are not the
        release. */
    method Receive(r: Release, d: Download, io: Op -> bool) returns (names: seq<string>, res: Outcome)
      requires forall n :: n in files ==> n == LOST_FOUND
      modifies this
      ensures Mkfs(files) == old(files) && NoneOwn(files)
      ensures old(past) <= past && forall i :: |old(past)| <= i < |past| ==> NoneOwn(past[i])
      ensures res == Done ==>
                && Matches(d, r) && Holding(files, old(files), Files(d.entries), 0)
                && |names| == |Files(d.entries)| && forall i :: 0 <= i < |names| ==> names[i] == Files(d.entries)[i].name
      ensures res in {Done, Stalled, Stopped, Damaged, NotTheRelease}
      ensures (res == Stalled ==> d.stalled) && (res == Stopped ==> !d.stalled)
      ensures res == Damaged ==> Acceptable(d.entries) && d.sum != r.sum
      ensures res == NotTheRelease ==> d.sum == r.sum && !(io(ReadBack) && IsRelease(Files(d.entries), r.tag))
      ensures (forall op :: io(op)) && Complete(d, r) ==> res == Done
    {
      var ok;
      names, ok := Extract(d, io);
      if !(ok && d.drained) {
        res := if d.stalled then Stalled else Stopped;
      } else if d.sum != r.sum {
        res := Damaged;
      } else {
        var good := Check(d, names, r.tag, io, old(files));
        res := if good then Done else NotTheRelease;
      }
    }

    /** unpack. */
    method Unpack(r: Release, d: Download, io: Op -> bool) returns (res: Outcome)
      modifies this
      // Done: exactly the archive's files, of the release asked for.
      ensures res == Done ==>
                && Acceptable(d.entries) && d.sum == r.sum && IsRelease(Files(d.entries), r.tag)
                && Holding(files, Mkfs(old(files)), Files(d.entries), |Files(d.entries)|)
      // Failed once the download had begun: empty, if files can be removed.
      ensures res != Done && res != GetFailed
              && (forall again :: io(ReadDir(again))) && (forall n, again :: io(Remove(n, again)))
              ==> files == Mkfs(old(files))
      // Not begun: as it was.
      ensures res == GetFailed <==> !io(Get)
      ensures res == GetFailed ==> files == old(files)
      // Which failure: the watchdog's, the stream's, its checksum's, its version's.
      ensures (res == Stalled ==> d.stalled) && (res == Stopped ==> !d.stalled)
      ensures (res == Damaged ==> d.sum != r.sum) && (res == NotTheRelease ==> d.sum == r.sum)
      // At every moment: what the slot held, going; nothing of its own; or, the
      // download being the release asked for, some of its files.
      ensures AllBetween(old(past), past, old(files), d, r)
      // And every number of its files, one after another.
      ensures res == Done ==>
                exists before :: Moments(before, past, Mkfs(old(files)), Files(d.entries), |Files(d.entries)|)
      // It fails for no other reason.
      ensures (forall op :: io(op)) && Complete(d, r) ==> res == Done
    {
      if !io(Get) {
        return GetFailed;
      }
      ghost var mkfs := Mkfs(files);
      var cleared := ClearSlot(io, false);
      if !cleared {
        // The source returns here with what could not be removed in place.
        assert Mkfs(files) == mkfs;
        return ClearFailed;
      }
      var names;
      names, res := Receive(r, d, io);
      ghost var f := Files(d.entries);
      if res == Done {
        ghost var since := past;
        var renamed, k := RenameAll(names, io, mkfs, f);
        res := if renamed then Done else RenameFailed;
        HoldingIsPart(files, mkfs, f, k);
        MomentsAreBetween(old(past), since, past, old(files), mkfs, d, r, k);
      }
      if res != Done {
        ClearAgain(io, old(past), old(files), d, r);
      }
    }

    /** clearSlot, at the end of an unpack of d that failed. */
    method ClearAgain(io: Op -> bool, ghost first: seq<map<string, Data>>, ghost before: map<string, Data>,
                      ghost d: Download, ghost r: Release)
      requires AllBetween(first, past, before, d, r) && Between(files, before, d, r)
      modifies this
      ensures AllBetween(first, past, before, d, r) && Mkfs(files) == Mkfs(old(files))
      ensures io(ReadDir(true)) && (forall n :: io(Remove(n, true))) ==> files == Mkfs(files)
    {
      ghost var was, since := files, past;
      var _ := ClearSlot(io, true);
      RestIsBetween(first, since, past, was, before, d, r);
    }

    /** k renames done, since the past was first. */
    ghost predicate Renamed(first: seq<map<string, Data>>, mkfs: map<string, Data>, f: seq<Entry>, k: nat)
      reads this
    {
      k <= |f| && Holding(files, mkfs, f, k) && Mkfs(files) == mkfs && Moments(first, past, mkfs, f, k)
    }

    /** unpack's last loop: the files take their own names, until one cannot. */
    method RenameAll(names: seq<string>, io: Op -> bool, ghost mkfs: map<string, Data>, ghost f: seq<Entry>)
      returns (ok: bool, ghost k: nat)
      requires Holding(files, mkfs, f, 0) && Mkfs(files) == mkfs
      requires |names| == |f| && forall i :: 0 <= i < |f| ==> names[i] == f[i].name && ValidName(f[i].name)
      requires forall i, j :: 0 <= i < j < |f| ==> f[i].name != f[j].name
      modifies this
      ensures Renamed(old(past), mkfs, f, k)
      ensures ok ==> k == |f|
      ensures (forall n :: io(Rename(n))) ==> ok
    {
      ok, k := true, 0;
      for i := 0 to |names|
        invariant Renamed(old(past), mkfs, f, k) && (ok ==> k == i)
        invariant (forall n :: io(Rename(n))) ==> ok
      {
        if ok {
          ok := RenameOne(names[i], io, mkfs, f, k, old(past));
          if ok {
            k := k + 1;
          }
        }
      }
    }

    method RenameOne(name: string, io: Op -> bool, ghost mkfs: map<string, Data>, ghost f: seq<Entry>, ghost k: nat,
                     ghost first: seq<map<string, Data>>)
      returns (ok: bool)
      requires k < |f| && name == f[k].name && Renamed(first, mkfs, f, k)
      requires forall i :: 0 <= i < |f| ==> ValidName(f[i].name)
      requires forall i, j :: 0 <= i < j < |f| ==> f[i].name != f[j].name
      modifies this
      ensures ok == io(Rename(name))
      ensures Renamed(first, mkfs, f, if ok then k + 1 else k)
      ensures !ok ==> files == old(files) && past == old(past)
    {
      ok := io(Rename(name));
      if ok {
        ghost var before := files;
        PendingNeverCollides(name, name);
        files := (files - {name + PARTIAL})[name := files[name + PARTIAL]];
        OneMoreRenamed(before, files, mkfs, f, k);
        SameMkfs(before, files, name);
        OneMoreMoment(first, past, files, mkfs, f, k);
        past := past + [files];
      }
    }

    /** check, on the pending files. */
    method Check(d: Download, names: seq<string>, tag: string, io: Op -> bool, ghost mkfs: map<string, Data>)
      returns (good: bool)
      requires |names| == |Files(d.entries)|
      requires forall i :: 0 <= i < |names| ==> names[i] == Files(d.entries)[i].name
      requires Acceptable(d.entries) && Holding(files, mkfs, Files(d.entries), 0)
      ensures good ==> IsRelease(Files(d.entries), tag)
      ensures io(ReadBack) && IsRelease(Files(d.entries), tag) ==> good
    {
      ghost var f := Files(d.entries);
      if "slot.cfg" !in names || "version" !in names || !io(ReadBack) {
        return false;
      }
      ghost var k :| 0 <= k < |names| && names[k] == "version";
      assert IndexOf(f, "version") == k;
      assert f[k].name + PARTIAL in files;
      assert "version" + PARTIAL in files;
      good := TrimSpace(files["version" + PARTIAL]) == tag;
    }
  }

  /** And unpacked, where every call works: the slot then holds it, and what mkfs
      left. */
  method UnpackUpdate(slot: Slot, tag: string, cfg: Data, sum: string, io: Op -> bool) returns (res: Outcome)
    requires (tag != "" ==> !Space(tag[0]) && !Space(tag[|tag| - 1])) && |tag| < MAX_FILE && |cfg| <= MAX_FILE
    requires forall op :: io(op)
    modifies slot
    ensures res == Done
    ensures slot.files == Mkfs(old(slot.files))["version" := tag + "\n"]["slot.cfg" := cfg]
  {
    UpdateIsComplete(tag, cfg, sum);
    UpdateFiles(tag, cfg);
    res := slot.Unpack(Release(tag, sum), Download(Update(tag, cfg), false, false, true, sum), io);
    HoldsUpdate(slot.files, Mkfs(old(slot.files)), tag, cfg);
  }

  lemma HoldsUpdate(files: map<string, Data>, mkfs: map<string, Data>, tag: string, cfg: Data)
    requires Holding(files, mkfs, Files(Update(tag, cfg)), 2) && forall n :: n in mkfs ==> n == LOST_FOUND
    ensures files == mkfs["version" := tag + "\n"]["slot.cfg" := cfg]
  {
    UpdateFiles(tag, cfg);
    UpdateNames();
    var f := Files(Update(tag, cfg));
    PendingNeverCollides("", "version");
    PendingNeverCollides("", "slot.cfg");
    assert f[0].name == "version" && f[1].name == "slot.cfg";
    forall n | n in files ensures n in mkfs || n == "version" || n == "slot.cfg" {
      assert n in mkfs || Named(f, 2, n);
    }
  }

  lemma RestIsBetween(past: seq<map<string, Data>>, since: seq<map<string, Data>>, now: seq<map<string, Data>>,
                      n: map<string, Data>, before: map<string, Data>, d: Download, r: Release)
    requires AllBetween(past, since, before, d, r) && Between(n, before, d, r)
    requires since <= now && forall i :: |since| <= i < |now| ==> Rest(now[i], n)
    ensures AllBetween(past, now, before, d, r)
  {
    forall i | |past| <= i < |now| ensures Between(now[i], before, d, r) {
      if i < |since| {
        assert now[i] == since[i];
      } else {
        assert Rest(now[i], n);
      }
    }
  }

  lemma HoldingIsPart(files: map<string, Data>, mkfs: map<string, Data>, f: seq<Entry>, k: nat)
    requires Holding(files, mkfs, f, k) && forall n :: n in mkfs ==> n == LOST_FOUND
    ensures PartOf(files, f)
  {
    forall n | n in files && n !in mkfs
      ensures HasSuffix(n, PARTIAL) || exists i :: 0 <= i < |f| && n == f[i].name && files[n] == f[i].data
    {
      assert Named(f, k, n);
      if i :| k <= i < |f| && f[i].name + PARTIAL == n {
      } else {
        var i :| 0 <= i < k && f[i].name == n;
        assert 0 <= i < |f| && n == f[i].name && files[n] == f[i].data;
      }
    }
  }

  lemma OneMoreMoment(past: seq<map<string, Data>>, since: seq<map<string, Data>>, files: map<string, Data>,
                      mkfs: map<string, Data>, f: seq<Entry>, k: nat)
    requires Moments(past, since, mkfs, f, k) && Holding(files, mkfs, f, k + 1)
    ensures Moments(past, since + [files], mkfs, f, k + 1)
  {}

  lemma MomentsAreBetween(past: seq<map<string, Data>>, since: seq<map<string, Data>>, now: seq<map<string, Data>>,
                          before: map<string, Data>, mkfs: map<string, Data>, d: Download, r: Release, k: nat)
    requires AllBetween(past, since, before, d, r) && Matches(d, r)
    requires Moments(since, now, mkfs, Files(d.entries), k) && forall n :: n in mkfs ==> n == LOST_FOUND
    ensures AllBetween(past, now, before, d, r)
  {
    var f := Files(d.entries);
    forall i | |past| <= i < |now| ensures Between(now[i], before, d, r) {
      if i < |since| {
        assert now[i] == since[i];
      } else {
        HoldingIsPart(now[i], mkfs, f, i - |since| + 1);
      }
    }
  }

  lemma PendingIsNotOwn(files: map<string, Data>, mkfs: map<string, Data>, f: seq<Entry>)
    requires Holding(files, mkfs, f, 0) && forall n :: n in mkfs ==> n == LOST_FOUND
    ensures NoneOwn(files)
  {
    forall n | n in files && n !in mkfs ensures HasSuffix(n, PARTIAL) {
      assert Named(f, 0, n);
      var i :| 0 <= i < |f| && f[i].name + PARTIAL == n;
    }
  }

  lemma OthersAreNotOwn(before: map<string, Data>, after: map<string, Data>, name: string)
    requires NoneOwn(before) && after - {name + PARTIAL} == before - {name + PARTIAL}
    ensures NoneOwn(after)
  {
    forall n | n in after ensures n == LOST_FOUND || HasSuffix(n, PARTIAL) {
      if n != name + PARTIAL {
        assert n in after - {name + PARTIAL};
      }
    }
  }

  lemma WritesAreNotOwn(before: map<string, Data>, past: seq<map<string, Data>>, since: seq<map<string, Data>>, name: string)
    requires NoneOwn(before) && past <= since
    requires forall i :: |past| <= i < |since| ==> since[i] - {name + PARTIAL} == before - {name + PARTIAL}
    ensures forall i :: |past| <= i < |since| ==> NoneOwn(since[i])
  {
    forall i | |past| <= i < |since| ensures NoneOwn(since[i]) {
      OthersAreNotOwn(before, since[i], name);
    }
  }

  lemma OneMorePending(before: map<string, Data>, after: map<string, Data>, mkfs: map<string, Data>,
                       f: seq<Entry>, e: Entry)
    requires Holding(before, mkfs, f, 0) && after == before[e.name + PARTIAL := e.data]
    requires forall n :: n in mkfs ==> n == LOST_FOUND
    requires forall i :: 0 <= i < |f| ==> f[i].name != e.name
    ensures Holding(after, mkfs, f + [e], 0)
  {
    var g := f + [e];
    forall n | n in mkfs ensures n in after && after[n] == mkfs[n] {
      PendingNeverCollides(e.name, n);
    }
    forall i | 0 <= i < |g| ensures g[i].name + PARTIAL in after && after[g[i].name + PARTIAL] == g[i].data {
      if i < |f| {
        PendingNeverCollides(f[i].name, e.name);
      }
    }
    forall n | n in after ensures n in mkfs || Named(g, 0, n) {
      if n == e.name + PARTIAL {
        assert g[|f|].name + PARTIAL == n;
      } else if n !in mkfs {
        assert Named(f, 0, n);
        var i :| 0 <= i < |f| && f[i].name + PARTIAL == n;
        assert g[i].name + PARTIAL == n;
      }
    }
  }

  lemma NoneAnother(f: seq<Entry>, k: nat)
    requires k < |f| && (forall i :: 0 <= i < |f| ==> ValidName(f[i].name))
    requires forall i, j :: 0 <= i < j < |f| ==> f[i].name != f[j].name
    ensures f[k].name + PARTIAL != LOST_FOUND && f[k].name != LOST_FOUND
    ensures forall i :: 0 <= i < |f| ==>
              && f[i].name != f[k].name + PARTIAL && f[i].name + PARTIAL != f[k].name
              && (i != k ==> f[i].name != f[k].name && f[i].name + PARTIAL != f[k].name + PARTIAL)
  {
    forall i | 0 <= i < |f|
      ensures f[i].name != f[k].name + PARTIAL && f[i].name + PARTIAL != f[k].name
              && (i != k ==> f[i].name + PARTIAL != f[k].name + PARTIAL)
    {
      PendingNeverCollides(f[k].name, f[i].name);
      PendingNeverCollides(f[i].name, f[k].name);
    }
    PendingNeverCollides(f[k].name, f[k].name);
  }

  lemma OneMoreRenamed(before: map<string, Data>, after: map<string, Data>, mkfs: map<string, Data>,
                       f: seq<Entry>, k: nat)
    requires k < |f| && Holding(before, mkfs, f, k)
    requires forall n :: n in mkfs ==> n == LOST_FOUND
    requires forall i :: 0 <= i < |f| ==> ValidName(f[i].name)
    requires forall i, j :: 0 <= i < j < |f| ==> f[i].name != f[j].name
    requires after == (before - {f[k].name + PARTIAL})[f[k].name := before[f[k].name + PARTIAL]]
    ensures Holding(after, mkfs, f, k + 1)
  {
    var (e, p) := (f[k], f[k].name + PARTIAL);
    NoneAnother(f, k);
    forall n | n in after ensures n in mkfs || Named(f, k + 1, n) {
      if n != e.name && n !in mkfs {
        assert n in before && n != p;
        StillNamed(f, k, n);
      }
    }
  }

  lemma StillNamed(f: seq<Entry>, k: nat, n: string)
    requires k < |f| && Named(f, k, n) && n != f[k].name + PARTIAL
    ensures Named(f, k + 1, n)
  {}

  lemma MkfsBut(before: map<string, Data>, after: map<string, Data>, path: string)
    requires after - {path} == before - {path} && path != LOST_FOUND
    ensures Mkfs(after) == Mkfs(before)
  {
    forall n | n != path ensures n in before <==> n in after
                         ensures n in before ==> before[n] == after[n]
    {
      assert n in before <==> n in before - {path};
      assert n in after <==> n in after - {path};
      if n in before {
        assert (before - {path})[n] == (after - {path})[n];
      }
    }
  }

  lemma SameMkfs(before: map<string, Data>, after: map<string, Data>, name: string)
    requires ValidName(name) && name + PARTIAL in before
    requires after == (before - {name + PARTIAL})[name := before[name + PARTIAL]]
    ensures Mkfs(after) == Mkfs(before)
  {
    PendingNeverCollides(name, name);
  }

  /** To GRUB a slot among the renames holds nothing or the release if and only
      if none is done or all are; what is still pending it does not see. */
  lemma PowerCutAmongRenames(files: map<string, Data>, mkfs: map<string, Data>, f: seq<Entry>, k: nat)
    requires Holding(files, mkfs, f, k)
    requires forall n :: n in mkfs ==> n == LOST_FOUND
    requires forall i :: 0 <= i < |f| ==> ValidName(f[i].name)
    requires forall i, j :: 0 <= i < j < |f| ==> f[i].name != f[j].name
    ensures NoneOwn(files) <==> k == 0
    ensures AllOwn(files, f) <==> k == |f|
    ensures k == |f| ==> forall n :: n in files ==> n == LOST_FOUND || !HasSuffix(n, PARTIAL)
  {
    if k == 0 {
      PendingIsNotOwn(files, mkfs, f);
    } else {
      PendingNeverCollides(f[0].name, f[0].name);
      assert f[0].name in files;
    }
    if k < |f| {
      forall i | 0 <= i < |f| ensures f[i].name + PARTIAL != f[k].name {
        PendingNeverCollides(f[i].name, f[k].name);
      }
      PendingNeverCollides(f[k].name, f[k].name);
      assert !Named(f, k, f[k].name);
      assert f[k].name !in files;
    }
  }
}
