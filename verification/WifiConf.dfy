/** The wpa_supplicant configuration the kiosk keeps its network in
    (internal/wifi/wifi.go:236-386): what Encode writes Parse reads back. Strings
    are of bytes. */
module WifiConf {
  import opened Helpers
  import opened Strings

  predicate Bytes(s: string) {
    forall i :: 0 <= i < |s| ==> s[i] as int < 256
  }

  datatype Security = Open | PSK | SAE | EAP | WEP

  datatype Config = Config(ssid: string, security: Security, key: string, identity: string)

  const NONE := Config("", Open, "", "")

  datatype Error = ErrName | ErrPassphrase | ErrIdentity | ErrUnsupported

  datatype Result = Ok(c: Config) | Err(e: Error)

  // ── Hex ────────────────────────────────────────────────────────────────────

  function Digit(n: nat): char
    requires n < 16
  {
    if n < 10 then ('0' as int + n) as char else ('a' as int + n - 10) as char
  }

  function DigitOf(c: char): Option<nat> {
    if '0' <= c <= '9' then Some(c as int - '0' as int)
    else if 'a' <= c <= 'f' then Some(c as int - 'a' as int + 10)
    else if 'A' <= c <= 'F' then Some(c as int - 'A' as int + 10)
    else None
  }

  /** hex.EncodeToString. */
  function Hex(s: string): (r: string)
    requires Bytes(s)
    ensures |r| == 2 * |s|
    ensures forall i :: 0 <= i < |r| ==> DigitOf(r[i]).Some?
  {
    if s == "" then ""
    else [Digit(s[0] as int / 16), Digit(s[0] as int % 16)] + Hex(s[1..])
  }

  /** hex.DecodeString. */
  function Unhex(v: string): Option<string> {
    if v == "" then Some("")
    else if |v| == 1 then None
    else
      var a, b, rest := DigitOf(v[0]), DigitOf(v[1]), Unhex(v[2..]);
      if a.None? || b.None? || rest.None? || a.value > 15 || b.value > 15 then None
      else Some([(a.value * 16 + b.value) as char] + rest.value)
  }

  lemma DigitIsBack(n: nat)
    requires n < 16
    ensures DigitOf(Digit(n)) == Some(n)
  {}

  lemma {:induction false} UnhexOfHex(s: string)
    requires Bytes(s)
    ensures Unhex(Hex(s)) == Some(s)
  {
    if s != "" {
      UnhexOfHex(s[1..]);
      var n := s[0] as int;
      DigitIsBack(n / 16);
      DigitIsBack(n % 16);
      assert Hex(s)[0] == Digit(n / 16) && Hex(s)[1] == Digit(n % 16);
      assert (n / 16 * 16 + n % 16) as char == s[0];
      assert s == [s[0]] + s[1..];
      assert Hex(s)[2..] == Hex(s[1..]);
    }
  }

  // ── NewConfig ──────────────────────────────────────────────────────────────

  /** PBKDF2 of a passphrase and a name, and the MD4 of a password: bytes. */
  datatype Hashes = Hashes(pbkdf2: (string, string) -> string, md4: string -> string)

  ghost predicate GiveBytes(h: Hashes) {
    && (forall p, s :: Bytes(h.pbkdf2(p, s)) && |h.pbkdf2(p, s)| == 32)
    && (forall p :: Bytes(h.md4(p)) && |h.md4(p)| == 16)
  }

  function NewConfig(ssid: string, security: Security, identity: string, passphrase: string, h: Hashes): Result
    requires Bytes(h.pbkdf2(passphrase, ssid)) && Bytes(h.md4(passphrase))
  {
    if ssid == "" || |ssid| > 32 then Err(ErrName)
    else match security
      case PSK =>
        if |passphrase| < 8 || |passphrase| > 63 then Err(ErrPassphrase)
        else Ok(Config(ssid, PSK, Hex(h.pbkdf2(passphrase, ssid)), ""))
      case SAE => if passphrase == "" then Err(ErrPassphrase) else Ok(Config(ssid, SAE, passphrase, ""))
      case EAP => if identity == "" then Err(ErrIdentity) else Ok(Config(ssid, EAP, Hex(h.md4(passphrase)), identity))
      case WEP => Err(ErrUnsupported)
      case Open => Ok(Config(ssid, Open, "", ""))
  }

  /** What can be typed for a network of each kind. */
  predicate Typed(security: Security, identity: string, passphrase: string) {
    match security
    case Open => true
    case PSK => 8 <= |passphrase| <= 63
    case SAE => |passphrase| >= 1
    case EAP => |identity| >= 1
    case WEP => false
  }

  /** A network is made just when its name is of 1 to 32 bytes and what it takes was
      typed; the key of each kind can be told from it. */
  lemma NewConfigIs(ssid: string, security: Security, identity: string, passphrase: string, h: Hashes)
    requires Bytes(h.pbkdf2(passphrase, ssid)) && Bytes(h.md4(passphrase))
    ensures var n := NewConfig(ssid, security, identity, passphrase, h);
            && (n.Ok? <==> 1 <= |ssid| <= 32 && Typed(security, identity, passphrase))
            && (n == Err(ErrName) <==> !(1 <= |ssid| <= 32))
            && (n == Err(ErrPassphrase) <==> 1 <= |ssid| <= 32 && security in {PSK, SAE} && !Typed(security, identity, passphrase))
            && (n == Err(ErrIdentity) <==> 1 <= |ssid| <= 32 && security == EAP && identity == "")
    ensures var n := NewConfig(ssid, security, identity, passphrase, h);
            n.Ok? ==>
              && n.c.ssid == ssid && n.c.security == security
              && n.c.identity == (if security == EAP then identity else "")
              && (security == SAE ==> n.c.key == passphrase) && (security == Open ==> n.c.key == "")
              && (security == PSK ==> Unhex(n.c.key) == Some(h.pbkdf2(passphrase, ssid)))
              && (security == EAP ==> Unhex(n.c.key) == Some(h.md4(passphrase)))
  {
    UnhexOfHex(h.pbkdf2(passphrase, ssid));
    UnhexOfHex(h.md4(passphrase));
  }

  // ── Encode ─────────────────────────────────────────────────────────────────

  predicate AllBytes(c: Config) {
    Bytes(c.ssid) && Bytes(c.key) && Bytes(c.identity)
  }

  /** A setting, indented. */
  function Setting(k: string, v: string): string {
    "\t" + k + "=" + v
  }

  /** The settings of a kind of network: their names, and their values. */
  function Keys(c: Config): seq<string> {
    match c.security
    case PSK => ["key_mgmt", "psk"]
    case SAE => ["key_mgmt", "ieee80211w", "sae_password"]
    case EAP => ["key_mgmt", "eap", "identity", "password", "phase2"]
    case Open => ["key_mgmt"]
    case WEP => []
  }

  function Values(c: Config): (r: seq<string>)
    requires AllBytes(c)
    ensures |r| == |Keys(c)|
  {
    match c.security
    case PSK => ["WPA-PSK", c.key]
    case SAE => ["SAE", "2", Hex(c.key)]
    case EAP => ["WPA-EAP", "PEAP", Hex(c.identity), "hash:" + c.key, "\"auth=MSCHAPV2\""]
    case Open => ["NONE"]
    case WEP => []
  }

  function Settings(c: Config): (r: seq<string>)
    requires AllBytes(c)
    ensures |r| == |Keys(c)|
  {
    seq(|Keys(c)|, i requires 0 <= i < |Keys(c)| => Setting(Keys(c)[i], Values(c)[i]))
  }

  function Block(c: Config): seq<string>
    requires AllBytes(c)
  {
    ["network={", Setting("ssid", Hex(c.ssid)), Setting("scan_ssid", "1")] + Settings(c) + ["}"]
  }

  const HEAD := ["ctrl_interface=/run/wpa_supplicant", "update_config=0"]

  /** The lines of the file. */
  function Lines(c: Config): seq<string>
    requires AllBytes(c)
  {
    HEAD + if c.ssid == "" then [] else Block(c)
  }

  function Encode(c: Config): string
    requires AllBytes(c)
  {
    Join(Lines(c))
  }

  function Join(lines: seq<string>): string {
    if lines == [] then "" else lines[0] + "\n" + Join(lines[1..])
  }

  // ── Parse ──────────────────────────────────────────────────────────────────

  /** bufio.Scanner's longest line, with its newline. */
  const LIMIT := 65536

  predicate IsSpace(c: char) {
    c == ' ' || c == '\t' || c == '\n' || c == '\r' || c == 11 as char || c == 12 as char
  }

  function Trim(s: string): string {
    if s != "" && IsSpace(s[0]) then Trim(s[1..])
    else if s != "" && IsSpace(s[|s| - 1]) then Trim(s[..|s| - 1])
    else s
  }

  /** The lines up to one too long, at which the scan ends. */
  function Scan(b: string): seq<string>
    decreases |b|
  {
    var i := Index(b, '\n');
    if b == "" || i >= LIMIT then []
    else if i == |b| then [b]
    else [b[..i]] + Scan(b[i + 1..])
  }

  /** What Parse has, and whether it is inside the network's block. */
  datatype Parser = Parser(c: Config, inside: bool)

  function Unhexed(v: string): string {
    if Unhex(v).Some? then Unhex(v).value else ""
  }

  function Set(c: Config, k: string, v: string): Config {
    if k == "ssid" then c.(ssid := Unhexed(v))
    else if k == "key_mgmt" then
      c.(security := if v == "WPA-PSK" then PSK else if v == "SAE" then SAE else if v == "WPA-EAP" then EAP
                     else c.security)
    else if k == "psk" then c.(key := v)
    else if k == "sae_password" then c.(key := Unhexed(v))
    else if k == "identity" then c.(identity := Unhexed(v))
    else if k == "password" then c.(key := if "hash:" <= v then v[5..] else v)
    else c
  }

  function TakeLine(p: Parser, line: string): Parser {
    var l := Trim(line);
    if l == "network={" then p.(inside := true)
    else if l == "}" then p.(inside := false)
    else if !p.inside then p
    else
      var i := Index(l, '=');
      if i == |l| then p else p.(c := Set(p.c, l[..i], l[i + 1..]))
  }

  function TakeLines(p: Parser, lines: seq<string>): Parser
    decreases |lines|
  {
    if lines == [] then p else TakeLines(TakeLine(p, lines[0]), lines[1..])
  }

  /** The network read, and whether there is one. */
  function Parsed(b: string): (Config, bool) {
    var c := TakeLines(Parser(NONE, false), Scan(b)).c;
    (c, c.ssid != "")
  }

  method Parse(b: string) returns (c: Config, ok: bool)
    ensures (c, ok) == Parsed(b)
  {
    var lines := Scan(b);
    var p := Parser(NONE, false);
    for i := 0 to |lines|
      invariant TakeLines(p, lines[i..]) == TakeLines(Parser(NONE, false), lines)
    {
      assert lines[i..][1..] == lines[i + 1..];
      p := TakeLine(p, lines[i]);
    }
    return p.c, p.c.ssid != "";
  }

  // ── The round trip ─────────────────────────────────────────────────────────

  predicate Short(line: string) {
    '\n' !in line && |line| < LIMIT
  }

  lemma ScanFirst(line: string, rest: string)
    requires '\n' !in line
    ensures Scan(line + "\n" + rest) == if |line| < LIMIT then [line] + Scan(rest) else []
  {
    var b := line + "\n" + rest;
    IndexIs(line, '\n', rest);
    assert b == line + ['\n'] + rest;
    assert b[..|line|] == line && b[|line| + 1..] == rest;
  }

  lemma ScanFirstLine(lines: seq<string>)
    requires lines != [] && '\n' !in lines[0]
    ensures Scan(Join(lines)) == if |lines[0]| < LIMIT then [lines[0]] + Scan(Join(lines[1..])) else []
  {
    assert Join(lines) == lines[0] + "\n" + Join(lines[1..]);
    ScanFirst(lines[0], Join(lines[1..]));
  }

  lemma FirstOf(lines: seq<string>, n: nat)
    requires 0 < n <= |lines|
    ensures lines[..n] == [lines[0]] + lines[1..][..n - 1]
  {}

  /** Lines are read back up to the first that is too long. */
  lemma {:induction false} ScanOfJoin(lines: seq<string>, n: nat)
    requires n <= |lines| && forall i :: 0 <= i < |lines| ==> '\n' !in lines[i]
    requires forall i :: 0 <= i < n ==> |lines[i]| < LIMIT
    requires n < |lines| ==> |lines[n]| >= LIMIT
    ensures Scan(Join(lines)) == lines[..n]
    decreases |lines|
  {
    if lines == [] {
      assert Join(lines) == "";
    } else if n == 0 {
      ScanFirstLine(lines);
    } else {
      ScanFirstLine(lines);
      ScanOfJoin(lines[1..], n - 1);
      FirstOf(lines, n);
    }
  }

  /** A setting, as Parse takes it. */
  lemma SettingTrimmed(k: string, v: string)
    requires k != "" && !IsSpace(k[0]) && v != "" && !IsSpace(v[|v| - 1])
    ensures Trim(Setting(k, v)) == k + "=" + v
  {
    var s, l := Setting(k, v), k + "=" + v;
    assert s[1..] == l && IsSpace(s[0]) && !IsSpace(l[0]) && !IsSpace(l[|l| - 1]);
    assert Trim(s) == Trim(l) == l;
  }

  lemma SettingCut(k: string, v: string)
    requires '=' !in k
    ensures var l := k + "=" + v;
            Index(l, '=') == |k| < |l| && l[..|k|] == k && l[|k| + 1..] == v
  {
    IndexIs(k, '=', v);
    assert k + "=" + v == k + ['='] + v;
  }

  lemma SettingIsTaken(p: Parser, k: string, v: string)
    requires p.inside && k != "" && !IsSpace(k[0]) && '=' !in k && k != "network"
    requires v != "" && !IsSpace(v[|v| - 1])
    ensures TakeLine(p, Setting(k, v)) == p.(c := Set(p.c, k, v))
  {
    SettingTrimmed(k, v);
    SettingCut(k, v);
    SettingCut("network", "{");
    assert "network={" == "network" + "=" + "{";
  }

  lemma HexEnds(s: string)
    requires Bytes(s) && s != ""
    ensures Hex(s) != "" && !IsSpace(Hex(s)[|Hex(s)| - 1])
  {}

  lemma TakeMore(p: Parser, lines: seq<string>, line: string)
    ensures TakeLines(p, lines + [line]) == TakeLine(TakeLines(p, lines), line)
    decreases |lines|
  {
    if lines == [] {
      assert [line][1..] == [];
      assert lines + [line] == [line];
    } else {
      assert (lines + [line])[1..] == lines[1..] + [line];
      TakeMore(TakeLine(p, lines[0]), lines[1..], line);
    }
  }

  lemma HeadLines()
    ensures |HEAD| == 2
    ensures forall i :: 0 <= i < 2 ==>
              && 1 < |HEAD[i]| < LIMIT && !IsSpace(HEAD[i][0]) && !IsSpace(HEAD[i][|HEAD[i]| - 1]) && HEAD[i][0] != 'n'
              && '\n' !in HEAD[i]
  {}

  lemma OutsideIsSkipped(p: Parser, l: string)
    requires !p.inside && |l| > 1 && !IsSpace(l[0]) && !IsSpace(l[|l| - 1]) && l[0] != 'n'
    ensures TakeLine(p, l) == p
  {
    assert Trim(l) == l;
    assert "network={"[0] == 'n';
  }

  lemma OpeningIsTaken(p: Parser)
    ensures TakeLine(p, "network={") == p.(inside := true)
  {
    assert Trim("network={") == "network={";
  }

  lemma ClosingIsTaken(p: Parser)
    ensures TakeLine(p, "}") == p.(inside := false)
  {
    assert Trim("}") == "}" && "}" != "network={";
  }

  /** The lines up to the network's name. */
  lemma HeadIsTaken()
    ensures TakeLines(Parser(NONE, false), HEAD + ["network={"]) == Parser(NONE, true)
  {
    var p := Parser(NONE, false);
    HeadLines();
    OutsideIsSkipped(p, HEAD[0]);
    OutsideIsSkipped(p, HEAD[1]);
    OpeningIsTaken(p);
    TakeMore(p, HEAD, "network={");
    TakeMore(p, [HEAD[0]], HEAD[1]);
    assert HEAD == [HEAD[0]] + [HEAD[1]];
    assert TakeLines(p, [HEAD[0]]) == TakeLines(p, [HEAD[0]][1..]) == p;
  }

  /** What is read of a network's own settings, the first n of them. */
  function Taken(c: Config, n: nat): Config
    requires AllBytes(c) && n <= |Settings(c)|
  {
    if n == 0 then NONE.(ssid := c.ssid)
    else Set(Taken(c, n - 1), Keys(c)[n - 1], Values(c)[n - 1])
  }

  /** All the lines up to the n-th setting. */
  function UpTo(c: Config, n: nat): seq<string>
    requires AllBytes(c) && n <= |Settings(c)|
  {
    HEAD + ["network={"] + [Setting("ssid", Hex(c.ssid)), Setting("scan_ssid", "1")] + Settings(c)[..n]
  }

  lemma UpToZero(c: Config)
    requires AllBytes(c)
    ensures UpTo(c, 0) == HEAD + ["network={"] + [Setting("ssid", Hex(c.ssid))] + [Setting("scan_ssid", "1")]
    ensures |UpTo(c, 0)| == 5
  {}

  lemma UpToMore(c: Config, n: nat)
    requires AllBytes(c) && 0 < n <= |Settings(c)|
    ensures UpTo(c, n) == UpTo(c, n - 1) + [Settings(c)[n - 1]]
    ensures Settings(c)[n - 1] == Setting(Keys(c)[n - 1], Values(c)[n - 1])
  {
    assert Settings(c)[..n] == Settings(c)[..n - 1] + [Settings(c)[n - 1]];
  }

  lemma NameIsTaken(c: Config)
    requires AllBytes(c) && c.ssid != ""
    ensures TakeLines(Parser(NONE, false), HEAD + ["network={"] + [Setting("ssid", Hex(c.ssid))])
            == Parser(NONE.(ssid := c.ssid), true)
  {
    HeadIsTaken();
    HexEnds(c.ssid);
    UnhexOfHex(c.ssid);
    SettingIsTaken(Parser(NONE, true), "ssid", Hex(c.ssid));
    TakeMore(Parser(NONE, false), HEAD + ["network={"], Setting("ssid", Hex(c.ssid)));
  }

  lemma StartIsTaken(c: Config)
    requires AllBytes(c) && c.ssid != ""
    ensures TakeLines(Parser(NONE, false), UpTo(c, 0)) == Parser(NONE.(ssid := c.ssid), true)
  {
    NameIsTaken(c);
    SettingIsTaken(Parser(NONE.(ssid := c.ssid), true), "scan_ssid", "1");
    TakeMore(Parser(NONE, false), HEAD + ["network={"] + [Setting("ssid", Hex(c.ssid))], Setting("scan_ssid", "1"));
    UpToZero(c);
  }

  predicate CanTake(k: string, v: string) {
    k != "" && !IsSpace(k[0]) && '=' !in k && k != "network" && v != "" && !IsSpace(v[|v| - 1])
  }

  lemma OneMoreTaken(c: Config, n: nat)
    requires AllBytes(c) && 0 < n <= |Settings(c)| && CanTake(Keys(c)[n - 1], Values(c)[n - 1])
    ensures TakeLine(Parser(Taken(c, n - 1), true), Settings(c)[n - 1]) == Parser(Taken(c, n), true)
  {
    UpToMore(c, n);
    SettingIsTaken(Parser(Taken(c, n - 1), true), Keys(c)[n - 1], Values(c)[n - 1]);
  }

  /** A config as NewConfig makes them. */
  ghost predicate Made(c: Config, h: Hashes) {
    exists ssid, security, identity, passphrase ::
      && Bytes(ssid) && Bytes(identity) && Bytes(passphrase)
      && Bytes(h.pbkdf2(passphrase, ssid)) && Bytes(h.md4(passphrase))
      && NewConfig(ssid, security, identity, passphrase, h) == Ok(c)
  }

  predicate Shaped(c: Config) {
    && AllBytes(c) && 0 < |c.ssid| <= 32
    && match c.security
       case PSK => |c.key| == 64 && c.identity == "" && (forall i :: 0 <= i < |c.key| ==> DigitOf(c.key[i]).Some?)
       case SAE => c.key != "" && c.identity == ""
       case EAP => |c.key| == 32 && c.identity != "" && (forall i :: 0 <= i < |c.key| ==> DigitOf(c.key[i]).Some?)
       case Open => c.key == "" && c.identity == ""
       case WEP => false
  }

  lemma MadeIsShaped(c: Config, h: Hashes)
    requires GiveBytes(h) && Made(c, h)
    ensures Shaped(c)
  {}

  lemma KeyCanBeTaken(c: Config, i: nat)
    requires i < |Keys(c)|
    ensures var k := Keys(c)[i]; k != "" && !IsSpace(k[0]) && '=' !in k && k != "network"
  {
    assert "network"[0] == 'n';
  }

  lemma ShapedCanBeTaken(c: Config, i: nat)
    requires Shaped(c) && i < |Keys(c)|
    ensures CanTake(Keys(c)[i], Values(c)[i])
  {
    KeyCanBeTaken(c, i);
    match c.security
    case PSK =>
    case SAE => HexEnds(c.key);
    case EAP => HexEnds(c.identity);
    case Open =>
  }

  /** The first n of its own lines have been taken. */
  ghost predicate IsTaken(c: Config, n: nat)
    requires Shaped(c) && n <= |Settings(c)|
  {
    TakeLines(Parser(NONE, false), UpTo(c, n)) == Parser(Taken(c, n), true)
  }

  lemma UpToOneMore(c: Config, n: nat)
    requires Shaped(c) && 0 < n <= |Settings(c)| && IsTaken(c, n - 1)
    ensures IsTaken(c, n)
  {
    ShapedCanBeTaken(c, n - 1);
    OneMoreTaken(c, n);
    UpToMore(c, n);
    TakeMore(Parser(NONE, false), UpTo(c, n - 1), Settings(c)[n - 1]);
  }

  lemma {:induction false} UpToIsTaken(c: Config, n: nat)
    requires Shaped(c) && n <= |Settings(c)|
    ensures IsTaken(c, n)
  {
    if n == 0 {
      StartIsTaken(c);
    } else {
      UpToIsTaken(c, n - 1);
      UpToOneMore(c, n);
    }
  }

  lemma TakenIsAll(c: Config)
    requires Shaped(c)
    ensures Taken(c, |Settings(c)|) == c
  {
    match c.security
    case PSK => assert Taken(c, 1) == Set(Taken(c, 0), "key_mgmt", "WPA-PSK");
    case SAE =>
      UnhexOfHex(c.key);
      assert Taken(c, 1) == Set(Taken(c, 0), "key_mgmt", "SAE");
      assert Taken(c, 2) == Taken(c, 1);
    case EAP =>
      UnhexOfHex(c.identity);
      assert Taken(c, 1) == Set(Taken(c, 0), "key_mgmt", "WPA-EAP");
      assert Taken(c, 2) == Taken(c, 1);
      assert Taken(c, 3) == Taken(c, 2).(identity := c.identity);
      assert ("hash:" + c.key)[5..] == c.key;
      assert Taken(c, 4) == c;
      assert Taken(c, 5) == c;
    case Open => assert Taken(c, 1) == Set(Taken(c, 0), "key_mgmt", "NONE");
  }

  /** The one line that what was typed can make too long for the scan. */
  predicate Fits(c: Config) {
    && (c.security == SAE ==> |"\tsae_password="| + 2 * |c.key| < LIMIT)
    && (c.security == EAP ==> |"\tidentity="| + 2 * |c.identity| < LIMIT)
  }

  lemma HexIsClean(s: string)
    requires forall i :: 0 <= i < |s| ==> DigitOf(s[i]).Some?
    ensures '\n' !in s
  {}

  lemma KeyIsClean(c: Config, i: nat)
    requires i < |Keys(c)|
    ensures '\n' !in Keys(c)[i] && |Keys(c)[i]| <= 12
  {}

  lemma ValueIsClean(c: Config, i: nat)
    requires Shaped(c) && i < |Keys(c)|
    ensures '\n' !in Values(c)[i] && (i != 2 ==> |Values(c)[i]| <= 64)
  {
    match c.security
    case PSK => HexIsClean(c.key);
    case SAE => HexIsClean(Hex(c.key));
    case EAP => HexIsClean(Hex(c.identity)); HexIsClean(c.key);
    case Open =>
  }

  lemma SettingIsClean(c: Config, i: nat)
    requires Shaped(c) && i < |Keys(c)|
    ensures '\n' !in Settings(c)[i]
    ensures i == 2 ==> (|Settings(c)[i]| < LIMIT <==> Fits(c))
    ensures i != 2 ==> |Settings(c)[i]| < LIMIT
  {
    KeyIsClean(c, i);
    ValueIsClean(c, i);
    assert |Settings(c)[i]| == |Keys(c)[i]| + |Values(c)[i]| + 2;
  }

  lemma StartIsClean(c: Config, i: nat)
    requires Shaped(c) && i < 5
    ensures |UpTo(c, 0)| == 5 && Short(UpTo(c, 0)[i])
  {
    HexIsClean(Hex(c.ssid));
    HeadLines();
    assert UpTo(c, 0) == [HEAD[0], HEAD[1], "network={", Setting("ssid", Hex(c.ssid)), Setting("scan_ssid", "1")];
  }

  /** How many of the settings are read. */
  function Reached(c: Config): (n: nat)
    requires AllBytes(c)
    ensures n <= |Settings(c)|
  {
    if Fits(c) then |Settings(c)| else 2
  }

  lemma SevenOf(first: seq<string>, ss: seq<string>, last: string)
    requires |first| == 5 && |ss| >= 2
    ensures |first + ss + [last]| > 7 && (first + ss + [last])[..7] == first + ss[..2]
  {}

  lemma FirstSeven(c: Config)
    requires Shaped(c) && !Fits(c)
    ensures |Lines(c)| > 7 && Lines(c)[..7] == UpTo(c, 2) + []
  {
    LinesAre(c);
    UpToZero(c);
    SevenOf(UpTo(c, 0), Settings(c), "}");
    assert UpTo(c, 2) == UpTo(c, 0) + Settings(c)[..2];
  }

  /** What is lost with the line too long. */
  lemma CutShort(c: Config)
    requires Shaped(c) && !Fits(c)
    ensures Taken(c, 2) != c
  {
    var t := Taken(c, 0);
    assert Taken(c, 1) == Set(t, "key_mgmt", Values(c)[0]);
    assert Taken(c, 2) == Taken(c, 1);
  }

  lemma LinesAre(c: Config)
    requires Shaped(c)
    ensures Lines(c) == UpTo(c, |Settings(c)|) + ["}"] && |Lines(c)| == |Settings(c)| + 6
    ensures Lines(c) == UpTo(c, 0) + Settings(c) + ["}"] && |UpTo(c, 0)| == 5
  {
    assert Settings(c)[..|Settings(c)|] == Settings(c);
  }

  lemma LineIsClean(c: Config, i: nat)
    requires Shaped(c) && i < |Lines(c)|
    ensures '\n' !in Lines(c)[i] && (|Lines(c)[i]| >= LIMIT <==> i == 7 && !Fits(c))
  {
    LinesAre(c);
    if i < 5 {
      StartIsClean(c, i);
      assert Lines(c)[i] == UpTo(c, 0)[i];
    } else if i < |Lines(c)| - 1 {
      assert Lines(c)[i] == Settings(c)[i - 5];
      SettingIsClean(c, i - 5);
    } else {
      assert Lines(c)[i] == "}";
    }
  }

  lemma ScanOfLines(c: Config)
    requires Shaped(c)
    ensures Scan(Encode(c)) == UpTo(c, Reached(c)) + if Fits(c) then ["}"] else []
  {
    var ls := Lines(c);
    LinesAre(c);
    forall i | 0 <= i < |ls| ensures '\n' !in ls[i] && (|ls[i]| >= LIMIT <==> i == 7 && !Fits(c)) {
      LineIsClean(c, i);
    }
    var n := if Fits(c) then |ls| else 7;
    ScanOfJoin(ls, n);
    if Fits(c) {
      assert ls[..|ls|] == ls;
    } else {
      FirstSeven(c);
    }
  }

  /** Parse reads back what Encode wrote of every network NewConfig makes, if and
      only if nothing typed for it is so long that its line ends the scan. */
  lemma RoundTrip(c: Config, h: Hashes)
    requires GiveBytes(h) && Made(c, h)
    ensures Parsed(Encode(c)) == (c, true) <==> Fits(c)
  {
    MadeIsShaped(c, h);
    ScanOfLines(c);
    var p, n := Parser(NONE, false), Reached(c);
    UpToIsTaken(c, n);
    TakenIsAll(c);
    if Fits(c) {
      TakeMore(p, UpTo(c, n), "}");
      ClosingIsTaken(Parser(c, true));
    } else {
      assert UpTo(c, 2) + [] == UpTo(c, 2);
      CutShort(c);
    }
  }

  /** The zero Config reads back as no network. */
  lemma NoneRoundTrip()
    ensures Parsed(Encode(NONE)) == (NONE, false)
  {
    var p := Parser(NONE, false);
    var ls := Lines(NONE);
    HeadLines();
    assert ls == HEAD + [] == HEAD;
    ScanOfJoin(ls, 2);
    assert ls[..2] == ls;
    OutsideIsSkipped(p, HEAD[0]);
    OutsideIsSkipped(p, HEAD[1]);
    TakeMore(p, [HEAD[0]], HEAD[1]);
    assert HEAD == [HEAD[0]] + [HEAD[1]];
    assert TakeLines(p, [HEAD[0]]) == TakeLines(p, [HEAD[0]][1..]) == p;
  }

  // ── The file ───────────────────────────────────────────────────────────────

  /** What every network's file begins with, hidden ones looked for too. */
  lemma FixedLines(c: Config)
    requires AllBytes(c) && c.ssid != ""
    ensures |Lines(c)| == |Settings(c)| + 6
    ensures Lines(c)[0] == "ctrl_interface=/run/wpa_supplicant" && Lines(c)[1] == "update_config=0"
    ensures Lines(c)[2] == "network={" && Lines(c)[3] == "\tssid=" + Hex(c.ssid) && Lines(c)[4] == "\tscan_ssid=1"
    ensures Lines(c)[5..|Lines(c)| - 1] == Settings(c) && Lines(c)[|Lines(c)| - 1] == "}"
  {
    assert Setting("ssid", Hex(c.ssid)) == "\tssid=" + Hex(c.ssid);
    assert Setting("scan_ssid", "1") == "\tscan_ssid=1";
  }

  /** And what joins one of its kind: only by PEAP with MSCHAPv2, where a name is
      given; protected, where it is WPA3. */
  lemma KindLines(c: Config)
    requires AllBytes(c)
    ensures c.security == Open ==> Settings(c) == ["\tkey_mgmt=NONE"]
    ensures c.security == PSK ==> Settings(c) == ["\tkey_mgmt=WPA-PSK", "\tpsk=" + c.key]
  {
    assert Setting("key_mgmt", "NONE") == "\tkey_mgmt=NONE";
    assert Setting("key_mgmt", "WPA-PSK") == "\tkey_mgmt=WPA-PSK";
    assert Setting("psk", c.key) == "\tpsk=" + c.key;
  }

  lemma SaeLines(c: Config)
    requires AllBytes(c) && c.security == SAE
    ensures Settings(c) == ["\tkey_mgmt=SAE", "\tieee80211w=2", "\tsae_password=" + Hex(c.key)]
  {
    assert Setting("key_mgmt", "SAE") == "\tkey_mgmt=SAE";
    assert Setting("ieee80211w", "2") == "\tieee80211w=2";
    assert Setting("sae_password", Hex(c.key)) == "\tsae_password=" + Hex(c.key);
  }

  lemma EapLines(c: Config)
    requires AllBytes(c) && c.security == EAP
    ensures Settings(c) == ["\tkey_mgmt=WPA-EAP", "\teap=PEAP", "\tidentity=" + Hex(c.identity),
                            "\tpassword=" + "hash:" + c.key, "\tphase2=\"auth=MSCHAPV2\""]
  {
    assert Setting("key_mgmt", "WPA-EAP") == "\tkey_mgmt=WPA-EAP";
    assert Setting("eap", "PEAP") == "\teap=PEAP";
    assert Setting("identity", Hex(c.identity)) == "\tidentity=" + Hex(c.identity);
    assert Setting("password", "hash:" + c.key) == "\tpassword=" + "hash:" + c.key;
    assert Setting("phase2", "\"auth=MSCHAPV2\"") == "\tphase2=\"auth=MSCHAPV2\"";
  }
}
