/**
 The systemd unit the concentrator is installed with, and reading the pairing values back out of it:
 `unit_text` and `installed_settings` of turbobond/bond/provision.py.
 */
module Provision {
  import opened Bytes

  /** `reorder` is the printed reorder time; its float formatting is not modelled. */
  datatype Settings = Settings(psk: string, port: int, serverIp: string, peerIp: string, mtu: int, reorder: string)

  // ----- Python string operations

  predicate IsBreak(c: char) {
    var n := c as int;
    0x0A <= n <= 0x0D || 0x1C <= n <= 0x1E || n == 0x85 || n == 0x2028 || n == 0x2029
  }

  predicate IsSpace(c: char) {
    var n := c as int;
    || 0x09 <= n <= 0x0D || 0x1C <= n <= 0x20 || n == 0x85 || n == 0xA0 || n == 0x1680 || 0x2000 <= n <= 0x200A
    || n == 0x2028 || n == 0x2029 || n == 0x202F || n == 0x205F || n == 0x3000
  }

  function FirstBreak(s: string): (k: nat)
    ensures k <= |s|
  {
    if s == "" || IsBreak(s[0]) then 0 else 1 + FirstBreak(s[1..])
  }

  /** str.splitlines: a carriage return and line feed together end one line. */
  function SplitLines(s: string): seq<string>
    decreases |s|
  {
    if s == "" then []
    else
      var k := FirstBreak(s);
      if k == |s| then [s]
      else
        var width := if s[k] == '\r' && k + 1 < |s| && s[k + 1] == '\n' then 2 else 1;
        [s[..k]] + SplitLines(s[k + width..])
  }

  function LStrip(s: string): string {
    if s != "" && IsSpace(s[0]) then LStrip(s[1..]) else s
  }

  function RStrip(s: string): string {
    if s != "" && IsSpace(s[|s| - 1]) then RStrip(s[..|s| - 1]) else s
  }

  function Strip(s: string): string {
    RStrip(LStrip(s))
  }

  /** s.rstrip(" \\") */
  function RStripContinuation(s: string): string {
    if s != "" && s[|s| - 1] in " \\" then RStripContinuation(s[..|s| - 1]) else s
  }

  function After(s: string, c: char): Option<string> {
    if s == "" then None else if s[0] == c then Some(s[1..]) else After(s[1..], c)
  }

  function AfterLast(s: string, c: char): string
    decreases |s|
  {
    match After(s, c)
    case None => s
    case Some(rest) => if |rest| < |s| then AfterLast(rest, c) else rest
  }

  function Before(s: string, c: char): string {
    if s == "" || s[0] == c then "" else [s[0]] + Before(s[1..], c)
  }

  function Word(s: string): string {
    if s == "" || IsSpace(s[0]) then "" else [s[0]] + Word(s[1..])
  }

  function DropWord(s: string): string {
    if s == "" || IsSpace(s[0]) then s else DropWord(s[1..])
  }

  /** s.split()[1]; None is the IndexError. */
  function SecondWord(s: string): Option<string> {
    var rest := LStrip(DropWord(LStrip(s)));
    if rest == "" then None else Some(Word(rest))
  }

  predicate IsDigit(c: char) {
    '0' <= c <= '9'
  }

  function Decimal(n: nat): string {
    if n < 10 then [('0' as int + n) as char] else Decimal(n / 10) + [('0' as int + n % 10) as char]
  }

  function PrintInt(n: int): string {
    if n < 0 then "-" + Decimal(-n) else Decimal(n)
  }

  predicate AllDigits(s: string) {
    forall i :: 0 <= i < |s| ==> IsDigit(s[i])
  }

  function DigitsValue(s: string): nat
    requires AllDigits(s)
  {
    if s == "" then 0 else DigitsValue(s[..|s| - 1]) * 10 + (s[|s| - 1] as int - '0' as int)
  }

  /** int(s) for an optional sign and ASCII digits; None is the ValueError. */
  function ParseInt(s: string): Option<int> {
    var t := Strip(s);
    var digits := if t != "" && t[0] in "+-" then t[1..] else t;
    if digits == "" || !AllDigits(digits) then None
    else
      var value: int := DigitsValue(digits);
      Some(if t[0] == '-' then -value else value)
  }

  // ----- writing the unit

  const PSK_PREFIX: string := "Environment=TURBOBOND_PSK="
  const SERVER_BIN: string := "/usr/local/bin/turbobond-server"
  const CAPABILITIES: string := "CAP_NET_ADMIN CAP_NET_RAW"

  function Head(): seq<string> {
    ["[Unit]", "Description=" + "turbobond bonding concentrator",
     "Documentation=" + "https://github.com/" + "aegisdigitalsolutions/turbobond",
     "After=network-online.target", "Wants=network-online.target", "", "[Service]", "Type=simple"]
  }

  function Tail(): seq<string> {
    ["Restart=always", "RestartSec=3", "AmbientCapabilities=" + CAPABILITIES, "CapabilityBoundingSet=" + CAPABILITIES,
     "LimitNOFILE=131072", "", "[Install]", "WantedBy=multi-user.target"]
  }

  function Listen(port: int): string { "    " + ("--listen 0.0.0.0:" + PrintInt(port) + " \\") }
  function LocalCidr(ip: string): string { "    " + ("--local-cidr " + ip + "/30 \\") }
  function PeerIp(ip: string): string { "    " + ("--peer-ip " + ip + " \\") }
  function Mtu(mtu: int): string { "    " + ("--mtu " + PrintInt(mtu) + " \\") }
  function ReorderMs(text: string): string { "    " + ("--reorder-ms " + text) }

  /** The key, and the command line with its continuation lines. */
  function Middle(s: Settings): seq<string> {
    [PSK_PREFIX + s.psk, "ExecStart=" + SERVER_BIN + " \\", Listen(s.port), LocalCidr(s.serverIp),
     PeerIp(s.peerIp), Mtu(s.mtu), ReorderMs(s.reorder)]
  }

  function UnitLines(s: Settings): seq<string> {
    Head() + (Middle(s) + Tail())
  }

  function Joined(lines: seq<string>): string {
    if lines == [] then "" else lines[0] + "\n" + Joined(lines[1..])
  }

  function UnitText(s: Settings): string {
    Joined(UnitLines(s))
  }

  // ----- reading it back

  datatype Parsed = Parsed(psk: string, port: int, serverIp: string, peerIp: string)

  const DEFAULTS := Parsed("", 5310, "10.77.0.1", "10.77.0.2")

  function AfterSecondEquals(line: string): Option<string> {
    match After(line, '=')
    case None => None
    case Some(rest) => After(rest, '=')
  }

  /** One line of the unit; None is an exception raised on it. */
  function ParseLine(p: Parsed, raw: string): Option<Parsed> {
    var line := Strip(raw);
    if PSK_PREFIX <= line then
      match AfterSecondEquals(line)
      case None => None
      case Some(psk) => Some(p.(psk := psk))
    else if "--listen" <= line then
      match ParseInt(RStripContinuation(AfterLast(line, ':')))
      case None => None
      case Some(port) => Some(p.(port := port))
    else if "--local-cidr" <= line then
      match SecondWord(line)
      case None => None
      case Some(word) => Some(p.(serverIp := Before(word, '/')))
    else if "--peer-ip" <= line then
      match SecondWord(line)
      case None => None
      case Some(word) => Some(p.(peerIp := RStripContinuation(word)))
    else Some(p)
  }

  function ParseLines(p: Parsed, lines: seq<string>): Option<Parsed>
    decreases |lines|
  {
    if lines == [] then Some(p)
    else
      match ParseLine(p, lines[0])
      case None => None
      case Some(p1) => ParseLines(p1, lines[1..])
  }

  datatype Outcome = Raised | NotInstalled | Installed(settings: Settings)

  function InstalledSettings(text: string): Outcome {
    match ParseLines(DEFAULTS, SplitLines(text))
    case None => Raised
    case Some(p) =>
      if p.psk == "" then NotInstalled
      else Installed(Settings(p.psk, p.port, p.serverIp, p.peerIp, 1380, "90.0"))
  }

  /** The parsing loop of `installed_settings`, line by line over its local variables. */
  method ReadInstalled(text: string) returns (r: Outcome)
    ensures r == InstalledSettings(text)
  {
    var lines := SplitLines(text);
    var psk, port, serverIp, peerIp := "", 5310, "10.77.0.1", "10.77.0.2";
    var k := 0;
    hide Strip, After, AfterLast, ParseInt, SecondWord, RStripContinuation, SplitLines;
    while k < |lines|
      invariant 0 <= k <= |lines|
      invariant ParseLines(DEFAULTS, lines) == ParseLines(Parsed(psk, port, serverIp, peerIp), lines[k..])
    {
      assert lines[k..][0] == lines[k] && lines[k..][1..] == lines[k + 1..];
      var line := Strip(lines[k]);
      if PSK_PREFIX <= line {
        var value := AfterSecondEquals(line);
        if value.None? { return Raised; }
        psk := value.value;
      } else if "--listen" <= line {
        var value := ParseInt(RStripContinuation(AfterLast(line, ':')));
        if value.None? { return Raised; }
        port := value.value;
      } else if "--local-cidr" <= line {
        var value := SecondWord(line);
        if value.None? { return Raised; }
        serverIp := Before(value.value, '/');
      } else if "--peer-ip" <= line {
        var value := SecondWord(line);
        if value.None? { return Raised; }
        peerIp := RStripContinuation(value.value);
      }
      k := k + 1;
    }
    if psk == "" {
      return NotInstalled;
    }
    r := Installed(Settings(psk, port, serverIp, peerIp, 1380, "90.0"));
  }

  // ----- splitting the text gives back the lines

  predicate Printable(s: string) {
    forall i :: 0 <= i < |s| ==> ' ' <= s[i] <= '~'
  }

  lemma {:induction false} FirstBreakAt(line: string, rest: string)
    requires Printable(line)
    ensures FirstBreak(line + "\n" + rest) == |line|
  {
    var s := line + "\n" + rest;
    if line == "" {
      assert s[0] == '\n';
    } else {
      assert s[0] == line[0] && s[1..] == line[1..] + "\n" + rest;
      FirstBreakAt(line[1..], rest);
    }
  }

  lemma {:induction false} SplitFirst(line: string, rest: string)
    requires Printable(line)
    ensures SplitLines(line + "\n" + rest) == [line] + SplitLines(rest)
  {
    var s := line + "\n" + rest;
    FirstBreakAt(line, rest);
    assert s[|line|] == '\n' && s[..|line|] == line && s[|line| + 1..] == rest;
  }

  lemma {:induction false} SplitJoined(lines: seq<string>)
    requires forall i :: 0 <= i < |lines| ==> Printable(lines[i])
    ensures SplitLines(Joined(lines)) == lines
    decreases |lines|
  {
    if lines != [] {
      SplitFirst(lines[0], Joined(lines[1..]));
      hide SplitLines, Printable;
      SplitJoined(lines[1..]);
      assert lines == [lines[0]] + lines[1..];
    }
  }

  // ----- stripping

  predicate Solid(s: string) {
    s != "" && !IsSpace(s[0]) && !IsSpace(s[|s| - 1])
  }

  lemma {:induction false} RStripPrefix(s: string)
    ensures RStrip(s) <= s
  {
    if s != "" && IsSpace(s[|s| - 1]) { RStripPrefix(s[..|s| - 1]); }
  }

  lemma StripIndented(body: string)
    requires body != "" && !IsSpace(body[0])
    ensures Strip("    " + body) <= body && Strip(body) <= body
    ensures Solid(body) ==> Strip("    " + body) == body && Strip(body) == body
  {
    var s := "    " + body;
    assert s[0] == ' ' && s[1..][0] == ' ' && s[1..][1..][0] == ' ' && s[1..][1..][1..][0] == ' ';
    assert s[1..][1..][1..][1..] == body;
    assert LStrip(s) == LStrip(s[1..]) == LStrip(s[1..][1..]) == LStrip(s[1..][1..][1..]) == LStrip(body) == body;
    RStripPrefix(body);
  }

  // ----- lines that set nothing

  /** No parsed prefix can match a line whose first visible characters rule all four out. */
  predicate Bland(body: string) {
    body == "" ||
    (!IsSpace(body[0]) && (body[0] == 'E' ==> |body| > 1 && body[1] != 'n')
     && (body[0] == '-' ==> |body| > 2 && body[1] == '-' && body[2] !in "lp"))
  }

  lemma BlandSetsNothing(p: Parsed, body: string, raw: string)
    requires Bland(body) && (raw == body || (raw == "    " + body && body != ""))
    ensures ParseLine(p, raw) == Some(p)
  {
    if body != "" { StripIndented(body); }
    var line := Strip(raw);
    assert line <= body;
    assert PSK_PREFIX[0] == 'E' && PSK_PREFIX[1] == 'n' && |PSK_PREFIX| >= 2;
    assert "--listen"[2] == 'l' && "--local-cidr"[2] == 'l' && "--peer-ip"[2] == 'p';
    assert "--listen"[0] == '-' && "--local-cidr"[0] == '-' && "--peer-ip"[0] == '-';
    assert |"--listen"| == 8 && |"--local-cidr"| == 12 && |"--peer-ip"| == 9;
    hide Strip, After, AfterLast, ParseInt, SecondWord;
  }

  lemma {:induction false} BlandLines(p: Parsed, lines: seq<string>)
    requires forall i :: 0 <= i < |lines| ==> Bland(lines[i])
    ensures ParseLines(p, lines) == Some(p)
    decreases |lines|
  {
    if lines != [] {
      BlandSetsNothing(p, lines[0], lines[0]);
      hide ParseLine, Bland;
      BlandLines(p, lines[1..]);
    }
  }

  lemma {:induction false} ParseAppend(p: Parsed, lines: seq<string>, more: seq<string>)
    requires ParseLines(p, lines).Some?
    ensures ParseLines(p, lines + more) == ParseLines(ParseLines(p, lines).value, more)
    decreases |lines|
  {
    hide ParseLine;
    if lines == [] {
      assert lines + more == more;
    } else {
      assert (lines + more)[0] == lines[0] && (lines + more)[1..] == lines[1..] + more;
      ParseAppend(ParseLine(p, lines[0]).value, lines[1..], more);
    }
  }

  // ----- the four lines that matter

  lemma {:induction false} AfterSkips(pre: string, c: char, rest: string)
    requires c !in pre
    ensures After(pre + [c] + rest, c) == Some(rest)
  {
    var s := pre + [c] + rest;
    if pre == "" {
      assert s[1..] == rest;
    } else {
      assert s[0] == pre[0] && s[1..] == pre[1..] + [c] + rest;
      AfterSkips(pre[1..], c, rest);
    }
  }

  lemma {:induction false} AfterNone(s: string, c: char)
    requires c !in s
    ensures After(s, c) == None
  {
    if s != "" { AfterNone(s[1..], c); }
  }

  lemma {:induction false} BeforeStops(pre: string, c: char, rest: string)
    requires c !in pre
    ensures Before(pre + [c] + rest, c) == pre
  {
    var s := pre + [c] + rest;
    if pre != "" {
      assert s[0] == pre[0] && s[1..] == pre[1..] + [c] + rest;
      BeforeStops(pre[1..], c, rest);
    }
  }

  predicate NoSpaces(s: string) {
    forall i :: 0 <= i < |s| ==> !IsSpace(s[i])
  }

  lemma {:induction false} WordStops(w: string, rest: string)
    requires NoSpaces(w) && (rest == "" || IsSpace(rest[0]))
    ensures Word(w + rest) == w && DropWord(w + rest) == rest
  {
    var s := w + rest;
    if w == "" {
      assert s == rest;
    } else {
      assert s[0] == w[0] && s[1..] == w[1..] + rest;
      WordStops(w[1..], rest);
    }
  }

  lemma SecondWordIs(first: string, second: string, rest: string)
    requires NoSpaces(first) && NoSpaces(second) && first != "" && second != "" && (rest == "" || IsSpace(rest[0]))
    ensures SecondWord(first + " " + second + rest) == Some(second)
  {
    var s := first + " " + second + rest;
    var tail := " " + (second + rest);
    assert s == first + tail;
    WordStops(first, tail);
    assert LStrip(s) == s;
    assert tail[1..] == second + rest && (second + rest)[0] == second[0];
    assert LStrip(tail) == LStrip(tail[1..]) == second + rest;
    WordStops(second, rest);
  }

  lemma DecimalChar(n: nat)
    requires n < 10
    ensures var c := ('0' as int + n) as char; IsDigit(c) && c as int - '0' as int == n
  {
  }

  lemma {:induction false} DecimalRoundTrip(n: nat)
    ensures Decimal(n) != "" && AllDigits(Decimal(n)) && DigitsValue(Decimal(n)) == n
  {
    DecimalChar(n % 10);
    var s := Decimal(n);
    if n >= 10 {
      DecimalRoundTrip(n / 10);
      assert s[..|s| - 1] == Decimal(n / 10);
    } else {
      assert s[..0] == "";
    }
  }

  lemma SignedDigits(d: string, negative: bool)
    requires d != "" && AllDigits(d)
    ensures var s := if negative then "-" + d else d;
            Solid(s) && Printable(s) && ':' !in s && s[|s| - 1] !in " \\"
  {
    var s := if negative then "-" + d else d;
    assert forall i :: 0 <= i < |s| ==> IsDigit(s[i]) || s[i] == '-';
    assert s[|s| - 1] == d[|d| - 1];
  }

  lemma {:induction false} ParsedInt(n: int, d: string)
    requires d != "" && AllDigits(d) && DigitsValue(d) == if n < 0 then -n else n
    ensures ParseInt(if n < 0 then "-" + d else d) == Some(n)
  {
    hide DigitsValue;
    var s := if n < 0 then "-" + d else d;
    assert IsDigit(d[0]) && IsDigit(d[|d| - 1]);
    assert LStrip(s) == s && RStrip(s) == s;
    if n < 0 { assert s[1..] == d; }
  }

  lemma PrintedInt(n: int)
    ensures var s := PrintInt(n);
            Solid(s) && Printable(s) && ':' !in s && s[|s| - 1] !in " \\" && ParseInt(s) == Some(n)
  {
    hide Decimal, DigitsValue, ParseInt, AllDigits;
    var d := Decimal(if n < 0 then -n else n);
    DecimalRoundTrip(if n < 0 then -n else n);
    SignedDigits(d, n < 0);
    ParsedInt(n, d);
  }

  lemma {:induction false} StripContinuationOf(s: string)
    requires s != "" && s[|s| - 1] !in " \\"
    ensures RStripContinuation(s + " \\") == s && RStripContinuation(s) == s
  {
    var t := s + " \\";
    assert t[|t| - 1] == '\\' && t[..|t| - 1] == s + " ";
    var u := s + " ";
    assert u[|u| - 1] == ' ' && u[..|u| - 1] == s;
    assert RStripContinuation(t) == RStripContinuation(u) == RStripContinuation(s);
  }

  predicate Dotted(ip: string) {
    ip != "" && forall i :: 0 <= i < |ip| ==> IsDigit(ip[i]) || ip[i] == '.'
  }

  predicate Hex(psk: string) {
    psk != "" && forall i :: 0 <= i < |psk| ==> IsDigit(psk[i]) || 'a' <= psk[i] <= 'f' || 'A' <= psk[i] <= 'F'
  }

  lemma KeyStrips(psk: string)
    requires Hex(psk)
    ensures Strip(PSK_PREFIX + psk) == PSK_PREFIX + psk
  {
    var line := PSK_PREFIX + psk;
    assert line[0] == 'E' && line[|line| - 1] == psk[|psk| - 1];
    assert Solid(line);
    hide IsSpace, Hex, Strip;
    StripIndented(line);
  }

  lemma KeyFollows(psk: string)
    ensures AfterSecondEquals(PSK_PREFIX + psk) == Some(psk)
  {
    hide After;
    var rest := "TURBOBOND_PSK" + ['='] + psk;
    assert PSK_PREFIX + psk == "Environment" + ['='] + rest;
    AfterSkips("Environment", '=', rest);
    AfterSkips("TURBOBOND_PSK", '=', psk);
  }

  lemma PskSets(p: Parsed, psk: string)
    requires Hex(psk)
    ensures ParseLine(p, PSK_PREFIX + psk) == Some(p.(psk := psk))
  {
    KeyStrips(psk);
    KeyFollows(psk);
    hide Strip, AfterSecondEquals, ParseInt, SecondWord, AfterLast, Hex;
    assert PSK_PREFIX <= PSK_PREFIX + psk;
  }

  /** A body that begins like an option is not the key line. */
  lemma OptionLine(body: string)
    requires |body| > 0 && body[0] == '-'
    ensures !(PSK_PREFIX <= body)
  {
    assert PSK_PREFIX[0] == 'E' && |PSK_PREFIX| > 0;
  }

  lemma ListenSets(p: Parsed, port: int)
    ensures ParseLine(p, Listen(port)) == Some(p.(port := port))
  {
    PrintedInt(port);
    var number := PrintInt(port);
    hide PrintInt, ParseInt;
    var rest := number + " \\";
    var body := "--listen 0.0.0.0:" + number + " \\";
    assert body == "--listen 0.0.0.0" + [':'] + rest;
    assert body[0] == '-' && body[|body| - 1] == '\\';
    StripIndented(body);
    OptionLine(body);
    AfterSkips("--listen 0.0.0.0", ':', rest);
    AfterNone(rest, ':');
    assert AfterLast(body, ':') == AfterLast(rest, ':') == rest;
    StripContinuationOf(number);
    assert "--listen" <= body;
    hide Strip, AfterLast, After, RStripContinuation;
  }

  lemma LocalCidrSets(p: Parsed, ip: string)
    requires Dotted(ip)
    ensures ParseLine(p, LocalCidr(ip)) == Some(p.(serverIp := ip))
  {
    var body := "--local-cidr " + ip + "/30 \\";
    assert body[0] == '-' && body[|body| - 1] == '\\';
    StripIndented(body);
    OptionLine(body);
    assert body == "--local-cidr" + " " + (ip + "/30") + " \\";
    assert NoSpaces(ip + "/30");
    SecondWordIs("--local-cidr", ip + "/30", " \\");
    assert ip + "/30" == ip + ['/'] + "30";
    BeforeStops(ip, '/', "30");
    assert "--local-cidr" <= body && body[3] == 'o' && "--listen"[3] == 'i';
    hide Strip, SecondWord, Before;
  }

  lemma PeerIpSets(p: Parsed, ip: string)
    requires Dotted(ip)
    ensures ParseLine(p, PeerIp(ip)) == Some(p.(peerIp := ip))
  {
    hide Strip, SecondWord, RStripContinuation, ParseInt, AfterLast, After;
    var body := "--peer-ip " + ip + " \\";
    assert body[0] == '-' && body[|body| - 1] == '\\';
    StripIndented(body);
    OptionLine(body);
    assert body == "--peer-ip" + " " + ip + " \\";
    SecondWordIs("--peer-ip", ip, " \\");
    StripContinuationOf(ip);
    assert "--peer-ip" <= body && body[2] == 'p' && "--listen"[2] == 'l' && "--local-cidr"[2] == 'l';
  }

  // ----- the round trip

  /** A line that sets nothing and splits off whole. */
  predicate Harmless(line: string) {
    Bland(line) && Printable(line)
  }

  lemma PrintableConcat(a: string, b: string)
    requires Printable(a) && Printable(b)
    ensures Printable(a + b)
  {
  }

  lemma HarmlessConcat(a: string, b: string)
    requires a != "" && a[0] != 'E' && a[0] != '-' && !IsSpace(a[0]) && Printable(a) && Printable(b)
    ensures Harmless(a + b)
  {
    PrintableConcat(a, b);
    assert (a + b)[0] == a[0];
  }

  lemma HarmlessDescription()
    ensures Harmless("Description=" + "turbobond bonding concentrator")
  {
    HarmlessConcat("Description=", "turbobond bonding concentrator");
  }

  lemma HarmlessDocumentation()
    ensures Harmless("Documentation=" + "https://github.com/" + "aegisdigitalsolutions/turbobond")
  {
    PrintableConcat("Documentation=", "https://github.com/");
    assert ("Documentation=" + "https://github.com/")[0] == 'D';
    HarmlessConcat("Documentation=" + "https://github.com/", "aegisdigitalsolutions/turbobond");
  }

  lemma HarmlessOrdering()
    ensures Harmless("After=network-online.target") && Harmless("Wants=network-online.target")
  {
  }

  lemma HarmlessSections()
    ensures Harmless("[Unit]") && Harmless("") && Harmless("[Service]") && Harmless("[Install]")
  {
  }

  lemma HarmlessKeys()
    ensures Harmless("Type=simple") && Harmless("Restart=always") && Harmless("RestartSec=3")
    ensures Harmless("LimitNOFILE=131072")
  {
  }

  lemma HarmlessCapabilities()
    ensures Harmless("AmbientCapabilities=" + CAPABILITIES) && Harmless("CapabilityBoundingSet=" + CAPABILITIES)
    ensures Harmless("WantedBy=multi-user.target")
  {
    HarmlessConcat("AmbientCapabilities=", CAPABILITIES);
    HarmlessConcat("CapabilityBoundingSet=", CAPABILITIES);
  }

  lemma HeadBland()
    ensures forall i :: 0 <= i < |Head()| ==> Bland(Head()[i]) && Printable(Head()[i])
  {
    HarmlessSections();
    HarmlessDescription();
    HarmlessDocumentation();
    HarmlessOrdering();
    HarmlessKeys();
    hide Bland, Printable;
    assert forall i :: 0 <= i < |Head()| ==> Harmless(Head()[i]);
  }

  lemma TailBland()
    ensures forall i :: 0 <= i < |Tail()| ==> Bland(Tail()[i]) && Printable(Tail()[i])
  {
    HarmlessSections();
    HarmlessKeys();
    HarmlessCapabilities();
    hide Bland, Printable;
    assert forall i :: 0 <= i < |Tail()| ==> Harmless(Tail()[i]);
  }

  lemma MtuBland(p: Parsed, mtu: int)
    ensures ParseLine(p, Mtu(mtu)) == Some(p)
  {
    var body := "--mtu " + PrintInt(mtu) + " \\";
    assert body[0] == '-' && body[1] == '-' && body[2] == 'm';
    BlandSetsNothing(p, body, "    " + body);
  }

  lemma ReorderBland(p: Parsed, text: string)
    ensures ParseLine(p, ReorderMs(text)) == Some(p)
  {
    var body := "--reorder-ms " + text;
    assert body[0] == '-' && body[1] == '-' && body[2] == 'r';
    BlandSetsNothing(p, body, "    " + body);
  }

  lemma ExecBland(p: Parsed)
    ensures ParseLine(p, "ExecStart=" + SERVER_BIN + " \\") == Some(p)
  {
    var body := "ExecStart=" + SERVER_BIN + " \\";
    assert body[0] == 'E' && body[1] == 'x';
    BlandSetsNothing(p, body, body);
  }

  lemma {:induction false} ParseCons(p: Parsed, line: string, p1: Parsed, rest: seq<string>)
    requires ParseLine(p, line) == Some(p1)
    ensures ParseLines(p, [line] + rest) == ParseLines(p1, rest)
  {
    assert ([line] + rest)[0] == line && ([line] + rest)[1..] == rest;
    hide ParseLine;
  }

  lemma {:induction false} MiddleSets(p: Parsed, s: Settings)
    requires Hex(s.psk) && Dotted(s.serverIp) && Dotted(s.peerIp)
    ensures ParseLines(p, Middle(s)) == Some(Parsed(s.psk, s.port, s.serverIp, s.peerIp))
  {
    var p1 := p.(psk := s.psk);
    var p2 := p1.(port := s.port);
    var p3 := p2.(serverIp := s.serverIp);
    var p4 := p3.(peerIp := s.peerIp);
    PskSets(p, s.psk);
    ExecBland(p1);
    ListenSets(p1, s.port);
    LocalCidrSets(p2, s.serverIp);
    PeerIpSets(p3, s.peerIp);
    MtuBland(p4, s.mtu);
    ReorderBland(p4, s.reorder);
    hide ParseLine, Listen, LocalCidr, PeerIp, Mtu, ReorderMs;
    var m := Middle(s);
    ParseCons(p, m[0], p1, m[1..]);
    ParseCons(p1, m[1], p1, m[2..]);
    ParseCons(p1, m[2], p2, m[3..]);
    ParseCons(p2, m[3], p3, m[4..]);
    ParseCons(p3, m[4], p4, m[5..]);
    ParseCons(p4, m[5], p4, m[6..]);
    ParseCons(p4, m[6], p4, m[7..]);
    assert m == [m[0]] + m[1..] && m[1..] == [m[1]] + m[2..] && m[2..] == [m[2]] + m[3..] && m[3..] == [m[3]] + m[4..];
    assert m[4..] == [m[4]] + m[5..] && m[5..] == [m[5]] + m[6..] && m[6..] == [m[6]] + m[7..];
    assert ParseLines(p4, m[7..]) == Some(p4);
  }

  lemma PrintableLine(start: string, value: string, end: string)
    requires Printable(start) && Printable(value) && Printable(end)
    ensures Printable("    " + (start + value + end)) && Printable(start + value + end)
  {
    PrintableConcat(start, value);
    PrintableConcat(start + value, end);
    assert Printable("    ");
    PrintableConcat("    ", start + value + end);
  }

  lemma ListenPrintable(port: int)
    ensures Printable(Listen(port))
  {
    hide PrintInt;
    PrintedInt(port);
    assert Printable("--listen 0.0.0.0:") && Printable(" \\");
    hide Printable;
    PrintableLine("--listen 0.0.0.0:", PrintInt(port), " \\");
  }

  lemma MtuPrintable(mtu: int)
    ensures Printable(Mtu(mtu))
  {
    hide PrintInt;
    PrintedInt(mtu);
    assert Printable("--mtu ") && Printable(" \\");
    hide Printable;
    PrintableLine("--mtu ", PrintInt(mtu), " \\");
  }

  lemma AddressPrintable(server: string, peer: string)
    requires Dotted(server) && Dotted(peer)
    ensures Printable(LocalCidr(server)) && Printable(PeerIp(peer))
  {
    assert Printable(server) && Printable(peer);
    assert Printable("--local-cidr ") && Printable("/30 \\") && Printable("--peer-ip ") && Printable(" \\");
    hide Printable;
    PrintableLine("--local-cidr ", server, "/30 \\");
    PrintableLine("--peer-ip ", peer, " \\");
  }

  lemma CommandPrintable()
    ensures Printable("ExecStart=" + SERVER_BIN + " \\")
  {
    assert Printable("ExecStart=") && Printable(SERVER_BIN) && Printable(" \\");
    hide Printable;
    PrintableLine("ExecStart=", SERVER_BIN, " \\");
  }

  lemma OthersPrintable(psk: string, reorder: string)
    requires Hex(psk) && Printable(reorder)
    ensures Printable(PSK_PREFIX + psk) && Printable(ReorderMs(reorder))
    ensures Printable("ExecStart=" + SERVER_BIN + " \\")
  {
    assert Printable(psk) && Printable(PSK_PREFIX) && Printable("--reorder-ms ");
    CommandPrintable();
    hide Printable;
    PrintableConcat(PSK_PREFIX, psk);
    PrintableConcat("--reorder-ms ", reorder);
  }

  lemma MiddlePrintable(s: Settings)
    requires Hex(s.psk) && Dotted(s.serverIp) && Dotted(s.peerIp) && Printable(s.reorder)
    ensures forall i :: 0 <= i < |Middle(s)| ==> Printable(Middle(s)[i])
  {
    ListenPrintable(s.port);
    MtuPrintable(s.mtu);
    AddressPrintable(s.serverIp, s.peerIp);
    OthersPrintable(s.psk, s.reorder);
    hide Printable, Listen, LocalCidr, PeerIp, Mtu, ReorderMs;
  }

  /**
   Reading back what was written: for a hex key, any port and dotted-decimal addresses, parsing the unit text
   returns exactly the key, port and addresses it was written with.  The MTU and reorder time are not read back.
   */
  lemma UnitRoundTrip(s: Settings)
    requires Hex(s.psk) && Dotted(s.serverIp) && Dotted(s.peerIp) && Printable(s.reorder)
    ensures InstalledSettings(UnitText(s)) == Installed(s.(mtu := 1380, reorder := "90.0"))
  {
    HeadBland();
    TailBland();
    MiddlePrintable(s);
    MiddleSets(DEFAULTS, s);
    hide Head, Tail, Middle, ParseLine, Printable, Bland, SplitLines, Joined;
    var head, middle, tail := Head(), Middle(s), Tail();
    SplitJoined(UnitLines(s));
    BlandLines(DEFAULTS, head);
    ParseAppend(DEFAULTS, head, middle + tail);
    ParseAppend(DEFAULTS, middle, tail);
    BlandLines(Parsed(s.psk, s.port, s.serverIp, s.peerIp), tail);
  }

  /** Reinstalling without naming a key keeps the one already installed. */
  lemma ReinstallKeepsKey(s: Settings, again: Settings)
    requires Hex(s.psk) && Dotted(s.serverIp) && Dotted(s.peerIp) && Printable(s.reorder)
    requires Dotted(again.serverIp) && Dotted(again.peerIp) && Printable(again.reorder)
    ensures InstalledSettings(UnitText(s)).Installed?
    ensures var kept := again.(psk := InstalledSettings(UnitText(s)).settings.psk);
            InstalledSettings(UnitText(kept)).Installed? && InstalledSettings(UnitText(kept)).settings.psk == s.psk
  {
    UnitRoundTrip(s);
    UnitRoundTrip(again.(psk := s.psk));
    hide InstalledSettings, UnitText;
  }
}
