/** The text form of the network configuration: printer and parser. */
module NetConfig {
  import opened Basics

  type byte = n: int | 0 <= n < 256

  type Ip = p: seq<byte> | |p| == 4 witness [0, 0, 0, 0]

  const NO_ADDRESS: Ip := [0, 0, 0, 0]

  datatype Config = Config(useDhcp: int, ip: Ip, netmask: Ip, gateway: Ip, dns: Ip)

  const DEFAULTS := Config(1, NO_ADDRESS, NO_ADDRESS, NO_ADDRESS, NO_ADDRESS)

  const KEY_MAX := 64
  const VALUE_MAX := 192
  const LINE_MAX := 256
  const BUFFER_MAX := 1024

  // ----- trimming

  predicate Blank(c: char) { c == ' ' || c == '\t' }

  predicate Space(c: char) { c == ' ' || c == '\t' || c == '\n' || c == '\r' }

  function SkipBlanks(s: string): string { if s != [] && Blank(s[0]) then SkipBlanks(s[1..]) else s }

  /** Trailing white space goes, but never the first character. */
  function DropSpaces(s: string): string {
    if |s| > 1 && Space(s[|s| - 1]) then DropSpaces(s[..|s| - 1]) else s
  }

  function Trimmed(s: string): string { DropSpaces(SkipBlanks(s)) }

  method Trim(s: string) returns (r: string)
    ensures r == Trimmed(s)
  {
    var i := 0;
    while i < |s| && Blank(s[i])
      invariant i <= |s| && SkipBlanks(s[i..]) == SkipBlanks(s)
    {
      assert s[i..][1..] == s[i + 1..];
      i := i + 1;
    }
    r := s[i..];
    if r == [] {
      return;
    }
    var end := |r| - 1;
    assert r[..end + 1] == r;
    while end > 0 && Space(r[end])
      invariant 0 <= end < |r| && DropSpaces(r[..end + 1]) == DropSpaces(r)
    {
      assert r[..end + 1][..end] == r[..end];
      end := end - 1;
    }
    r := r[..end + 1];
  }

  /** `r` is the stretch of `s` from `i` to `j`: in front of it only blanks, behind it only white space,
      and it cannot be shortened further, except that its first character always stays. */
  ghost predicate TrimsAt(s: string, r: string, i: nat, j: nat) {
    && i <= j <= |s| && r == s[i..j] && (forall k :: 0 <= k < i ==> Blank(s[k]))
    && (forall k :: j <= k < |s| ==> Space(s[k]))
    && (i < |s| ==> i < j && !Blank(s[i])) && (j - i > 1 ==> !Space(s[j - 1]))
  }

  lemma {:induction false} SkippedBlanks(s: string) returns (i: nat)
    ensures i <= |s| && SkipBlanks(s) == s[i..] && (forall k :: 0 <= k < i ==> Blank(s[k]))
    ensures i < |s| ==> !Blank(s[i])
  {
    i := 0;
    if s != [] && Blank(s[0]) {
      var m := SkippedBlanks(s[1..]);
      i := m + 1;
    }
  }

  lemma {:induction false} DroppedSpaces(s: string) returns (j: nat)
    ensures j <= |s| && DropSpaces(s) == s[..j] && (forall k :: j <= k < |s| ==> Space(s[k]))
    ensures (s != [] ==> j > 0) && (j > 1 ==> !Space(s[j - 1]))
  {
    j := |s|;
    if |s| > 1 && Space(s[|s| - 1]) {
      j := DroppedSpaces(s[..|s| - 1]);
    }
  }

  /** Trimming gives that stretch and nothing else does. */
  lemma TrimmedIff(s: string, r: string)
    ensures r == Trimmed(s) <==> exists i: nat, j: nat :: TrimsAt(s, r, i, j)
  {
    var i := SkippedBlanks(s);
    var n := DroppedSpaces(s[i..]);
    assert TrimsAt(s, Trimmed(s), i, i + n) by {
      assert forall k :: i <= k < |s| ==> s[k] == s[i..][k - i];
      assert s[i..][..n] == s[i..i + n];
    }
    forall p: nat, q: nat | TrimsAt(s, r, p, q) ensures r == Trimmed(s) {
      OneStretch(s, r, p, q, Trimmed(s), i, i + n);
    }
    hide Trimmed, TrimsAt;
  }

  lemma OneStretch(s: string, r: string, p: nat, q: nat, t: string, i: nat, j: nat)
    requires TrimsAt(s, r, p, q) && TrimsAt(s, t, i, j)
    ensures r == t
  {
    assert p == i;
    assert q == j;
  }

  /** Text without white space at its ends is left alone. */
  lemma TrimmedAlready(s: string)
    requires s != [] ==> !Blank(s[0]) && !Space(s[|s| - 1])
    ensures Trimmed(s) == s
  {
  }

  // ----- key=value lines

  /** The longest prefix of at most `n` characters. */
  function UpTo(s: string, n: nat): (r: string)
    ensures r <= s && |r| <= n && (|r| < n ==> r == s)
  {
    if |s| > n then s[..n] else s
  }

  function EqualsAt(s: string): nat { if s == [] || s[0] == '=' then 0 else 1 + EqualsAt(s[1..]) }

  lemma {:induction false} EqualsFound(s: string)
    ensures EqualsAt(s) <= |s| && (EqualsAt(s) < |s| ==> s[EqualsAt(s)] == '=')
    ensures forall i :: 0 <= i < EqualsAt(s) ==> s[i] != '='
  {
    if s != [] && s[0] != '=' {
      EqualsFound(s[1..]);
    }
  }

  function KeyValue(line: string): Option<(string, string)> {
    var e := EqualsAt(line);
    if e >= |line| then None
    else Some((Trimmed(UpTo(line[..e], KEY_MAX - 1)), Trimmed(UpTo(line[e + 1..], VALUE_MAX - 1))))
  }

  /** config_parse_line. */
  method ParseLine(line: string) returns (r: Option<(string, string)>)
    ensures r == KeyValue(line)
  {
    hide EqualsAt, Trimmed, UpTo;
    EqualsFound(line);
    var eq := 0;
    while eq < |line| && line[eq] != '='
      invariant eq <= EqualsAt(line)
    {
      eq := eq + 1;
    }
    if eq == |line| {
      return None;
    }
    var key := Trim(UpTo(line[..eq], KEY_MAX - 1));
    var value := Trim(UpTo(line[eq + 1..], VALUE_MAX - 1));
    return Some((key, value));
  }

  /** A line is a pair exactly if it holds an equals sign; the first one splits it. */
  lemma SplitsAtFirst(line: string, e: nat)
    requires e <= |line| && '=' !in line[..e] && (e < |line| ==> line[e] == '=')
    ensures KeyValue(line) == if e == |line| then None
      else Some((Trimmed(UpTo(line[..e], 63)), Trimmed(UpTo(line[e + 1..], 191))))
  {
    EqualsFound(line);
    hide EqualsAt, Trimmed;
    assert forall i :: 0 <= i < e ==> line[i] == line[..e][i];
    assert EqualsAt(line) == e;
  }

  predicate Clean(s: string) { s != [] && !Blank(s[0]) && !Space(s[|s| - 1]) }

  /** A printed line reads back as its key and value. */
  lemma PrintedLine(key: string, value: string)
    requires Clean(key) && Clean(value) && |key| < KEY_MAX && |value| < VALUE_MAX && '=' !in key
    ensures KeyValue(key + "=" + value) == Some((key, value))
  {
    hide EqualsAt, Trimmed, KeyValue, Blank, Space;
    var line := key + "=" + value;
    assert line[..|key|] == key && line[|key| + 1..] == value;
    SplitsAtFirst(line, |key|);
    TrimmedAlready(key);
    TrimmedAlready(value);
  }

  // ----- addresses

  datatype Scan = Fail | Stop(parts: Ip, index: nat)

  predicate Digit(c: char) { '0' <= c <= '9' }

  function Val(c: char): nat
    requires Digit(c)
  {
    c as int - '0' as int
  }

  /** Decimal parts separated by dots, up to white space. */
  function ScanIp(s: string, parts: Ip, index: nat): Scan {
    if s == [] || index >= 4 then Stop(parts, index)
    else if Digit(s[0]) then
      var v := parts[index] * 10 + Val(s[0]);
      if v > 255 then Fail else ScanIp(s[1..], parts[index := v], index)
    else if s[0] == '.' then ScanIp(s[1..], parts, index + 1)
    else if Space(s[0]) then Stop(parts, index)
    else Fail
  }

  function IpOf(s: string): Option<Ip> {
    var r := ScanIp(s, NO_ADDRESS, 0);
    if r.Stop? && r.index == 3 then Some(r.parts) else None
  }

  /** The value of a run of digits read after `v`; the empty run leaves `v`. */
  function Value(v: nat, run: string): nat
    requires Digits(run)
    decreases run
  {
    if run == [] then v else Value(v * 10 + Val(run[0]), run[1..])
  }

  predicate Digits(run: string) { forall i :: 0 <= i < |run| ==> Digit(run[i]) }

  lemma {:induction false} ValueGrows(v: nat, run: string)
    requires Digits(run)
    ensures Value(v, run) >= v
    decreases run
  {
    if run != [] {
      ValueGrows(v * 10 + Val(run[0]), run[1..]);
    }
  }

  /** A run of digits is read as its value, and refused exactly if that is above 255. */
  lemma {:induction false} ScanRun(run: string, t: string, parts: Ip, index: nat)
    requires Digits(run) && index < 4
    ensures var v := Value(parts[index], run);
      ScanIp(run + t, parts, index) == if v > 255 then Fail else ScanIp(t, parts[index := v], index)
    decreases |run|
  {
    if run == [] {
      assert run + t == t && parts[index := parts[index]] == parts;
    } else {
      var v := parts[index] * 10 + Val(run[0]);
      assert (run + t)[1..] == run[1..] + t && (run + t)[0] == run[0];
      ValueGrows(v, run[1..]);
      if v <= 255 {
        ScanRun(run[1..], t, parts[index := v], index);
        var w := Value(v, run[1..]);
        assert w <= 255 ==> parts[index := v][index := w] == parts[index := w];
      }
    }
  }

  /** Four runs of digits, any of them possibly empty, with dots between them, then white space and
      anything after it, or nothing. */
  ghost predicate Quad(s: string, a: string, b: string, c: string, d: string, rest: string) {
    && Digits(a) && Digits(b) && Digits(c) && Digits(d) && (rest == [] || Space(rest[0]))
    && s == a + ("." + (b + ("." + (c + ("." + (d + rest))))))
    && Value(0, a) <= 255 && Value(0, b) <= 255 && Value(0, c) <= 255 && Value(0, d) <= 255
  }

  /** Every such text is an address. */
  lemma QuadReads(s: string, a: string, b: string, c: string, d: string, rest: string)
    requires Quad(s, a, b, c, d, rest)
    ensures var ip: Ip := [Value(0, a), Value(0, b), Value(0, c), Value(0, d)]; IpOf(s) == Some(ip)
  {
    hide ScanIp, Value;
    var p0: Ip := NO_ADDRESS[0 := Value(0, a)];
    var p1: Ip := p0[1 := Value(0, b)];
    var p2: Ip := p1[2 := Value(0, c)];
    var p3: Ip := p2[3 := Value(0, d)];
    ScanRun(a, "." + (b + ("." + (c + ("." + (d + rest))))), NO_ADDRESS, 0);
    ScanDot(b + ("." + (c + ("." + (d + rest)))), p0, 0);
    ScanRun(b, "." + (c + ("." + (d + rest))), p0, 1);
    ScanDot(c + ("." + (d + rest)), p1, 1);
    ScanRun(c, "." + (d + rest), p1, 2);
    ScanDot(d + rest, p2, 2);
    ScanRun(d, rest, p2, 3);
    ScanRest(rest, p3);
    assert p3 == [Value(0, a), Value(0, b), Value(0, c), Value(0, d)];
  }

  lemma ScanRest(rest: string, parts: Ip)
    requires rest == [] || Space(rest[0])
    ensures ScanIp(rest, parts, 3) == Stop(parts, 3)
  {
  }

  /** The digits at the front of a text. */
  lemma {:induction false} FrontRun(s: string) returns (run: string, t: string)
    ensures s == run + t && Digits(run) && (t == [] || !Digit(t[0]))
  {
    run, t := [], s;
    if s != [] && Digit(s[0]) {
      run, t := FrontRun(s[1..]);
      run := [s[0]] + run;
    }
  }

  /** A part that was read is a run of digits, followed by a dot or, for the last one, by the end. */
  lemma PartRead(s: string, parts: Ip, index: nat) returns (run: string, t: string)
    requires index < 4 && parts[index] == 0 && ScanIp(s, parts, index).Stop? && ScanIp(s, parts, index).index == 3
    ensures Digits(run) && Value(0, run) <= 255
    ensures index == 3 ==> s == run + t && (t == [] || Space(t[0]))
    ensures index < 3 ==>
      s == run + ("." + t) && ScanIp(s, parts, index) == ScanIp(t, parts[index := Value(0, run)], index + 1)
  {
    run, t := FrontRun(s);
    ScanRun(run, t, parts, index);
    hide Value;
    if index < 3 {
      assert t == "." + t[1..];
      t := t[1..];
    }
  }

  /** Nothing else is an address. */
  lemma ReadsQuad(s: string) returns (a: string, b: string, c: string, d: string, rest: string)
    requires IpOf(s).Some?
    ensures Quad(s, a, b, c, d, rest)
  {
    var s1, s2, s3;
    hide ScanIp, Value;
    a, s1 := PartRead(s, NO_ADDRESS, 0);
    var p0: Ip := NO_ADDRESS[0 := Value(0, a)];
    b, s2 := PartRead(s1, p0, 1);
    var p1: Ip := p0[1 := Value(0, b)];
    c, s3 := PartRead(s2, p1, 2);
    d, rest := PartRead(s3, p1[2 := Value(0, c)], 3);
  }

  /** Which texts are addresses. */
  lemma IpOfIff(s: string)
    ensures IpOf(s).Some? <==> exists a, b, c, d, rest :: Quad(s, a, b, c, d, rest)
  {
    if IpOf(s).Some? {
      var a, b, c, d, rest := ReadsQuad(s);
    }
    forall a, b, c, d, rest | Quad(s, a, b, c, d, rest) ensures IpOf(s).Some? {
      QuadReads(s, a, b, c, d, rest);
    }
    hide IpOf;
  }

  /** Three dots are the address 0.0.0.0. */
  lemma ThreeDots()
    ensures IpOf("...") == Some(NO_ADDRESS)
  {
    QuadReads("...", "", "", "", "", "");
  }

  /** config_parse_ip. */
  method ParseIp(s: string) returns (r: Option<Ip>)
    ensures r == IpOf(s)
  {
    var parts: Ip, index: nat, i := NO_ADDRESS, 0, 0;
    while i < |s| && index < 4
      invariant i <= |s| && ScanIp(s[i..], parts, index) == ScanIp(s, NO_ADDRESS, 0)
    {
      assert s[i..][1..] == s[i + 1..];
      if Digit(s[i]) {
        var v := parts[index] * 10 + Val(s[i]);
        if v > 255 {
          return None;
        }
        parts := parts[index := v];
      } else if s[i] == '.' {
        index := index + 1;
      } else if Space(s[i]) {
        break;
      } else {
        return None;
      }
      i := i + 1;
    }
    if index != 3 {
      return None;
    }
    return Some(parts);
  }

  function Numeral(d: nat): char
    requires d < 10
  {
    ('0' as int + d) as char
  }

  function Decimal(v: byte): (s: string)
    ensures 1 <= |s| <= 3 && forall c :: c in s ==> Digit(c)
  {
    if v >= 100 then [Numeral(v / 100), Numeral(v % 100 / 10), Numeral(v % 100 % 10)]
    else if v >= 10 then [Numeral(v / 10), Numeral(v % 10)]
    else [Numeral(v)]
  }

  function IpText(ip: Ip): string {
    Decimal(ip[0]) + "." + Decimal(ip[1]) + "." + Decimal(ip[2]) + "." + Decimal(ip[3])
  }

  /** config_ip_to_string. */
  method IpToString(ip: Ip) returns (s: string)
    ensures s == IpText(ip) && |s| <= 15
  {
    s := [];
    for i := 0 to 4
      invariant s == Joined(ip, i)
    {
      ghost var before := s;
      var val := ip[i];
      if val >= 100 {
        s := s + [Numeral(val / 100)];
        val := val % 100;
        s := s + [Numeral(val / 10)];
        s := s + [Numeral(val % 10)];
      } else if val >= 10 {
        s := s + [Numeral(val / 10)];
        s := s + [Numeral(val % 10)];
      } else {
        s := s + [Numeral(val)];
      }
      assert s == before + Decimal(ip[i]);
      if i < 3 {
        s := s + ".";
      }
    }
    JoinedAll(ip);
  }

  lemma JoinedAll(ip: Ip)
    ensures Joined(ip, 4) == IpText(ip)
  {
    hide Decimal;
    assert Joined(ip, 1) == Decimal(ip[0]) + ".";
    assert Joined(ip, 2) == Decimal(ip[0]) + "." + Decimal(ip[1]) + ".";
    assert Joined(ip, 3) == Decimal(ip[0]) + "." + Decimal(ip[1]) + "." + Decimal(ip[2]) + ".";
  }

  function Joined(ip: Ip, n: nat): string
    requires n <= 4
  {
    if n == 0 then [] else Joined(ip, n - 1) + Decimal(ip[n - 1]) + if n < 4 then "." else []
  }

  lemma ScanDigit(d: nat, rest: string, parts: Ip, index: nat, v: byte)
    requires d < 10 && index < 4 && v == parts[index] * 10 + d
    ensures ScanIp([Numeral(d)] + rest, parts, index) == ScanIp(rest, parts[index := v], index)
  {
    assert ([Numeral(d)] + rest)[1..] == rest;
  }

  lemma ScanDot(rest: string, parts: Ip, index: nat)
    requires index < 4
    ensures ScanIp("." + rest, parts, index) == ScanIp(rest, parts, index + 1)
  {
    assert ("." + rest)[1..] == rest;
  }

  lemma ScanDecimal(v: byte, rest: string, parts: Ip, index: nat)
    requires index < 4 && parts[index] == 0
    ensures ScanIp(Decimal(v) + rest, parts, index) == ScanIp(rest, parts[index := v], index)
  {
    hide ScanIp, Numeral;
    if v >= 100 {
      var h, t, u := Numeral(v / 100), Numeral(v % 100 / 10), Numeral(v % 100 % 10);
      assert Decimal(v) + rest == [h] + ([t] + ([u] + rest));
      var p: Ip := parts[index := v / 100];
      var q: Ip := p[index := v / 10];
      ScanDigit(v / 100, [t] + ([u] + rest), parts, index, v / 100);
      ScanDigit(v % 100 / 10, [u] + rest, p, index, v / 10);
      ScanDigit(v % 100 % 10, rest, q, index, v);
      assert q[index := v] == parts[index := v];
    } else if v >= 10 {
      var t, u := Numeral(v / 10), Numeral(v % 10);
      assert Decimal(v) + rest == [t] + ([u] + rest);
      var q: Ip := parts[index := v / 10];
      ScanDigit(v / 10, [u] + rest, parts, index, v / 10);
      ScanDigit(v % 10, rest, q, index, v);
      assert q[index := v] == parts[index := v];
    } else {
      ScanDigit(v, rest, parts, index, v);
    }
  }

  /** Every address is read back from its text. */
  lemma IpRoundTrip(ip: Ip)
    ensures IpOf(IpText(ip)) == Some(ip)
  {
    hide Decimal, ScanIp;
    var d := Decimal(ip[3]) + [];
    var c := Decimal(ip[2]) + ("." + d);
    var b := Decimal(ip[1]) + ("." + c);
    assert IpText(ip) == Decimal(ip[0]) + ("." + b);
    var p0 := NO_ADDRESS[0 := ip[0]];
    var p1 := p0[1 := ip[1]];
    var p2 := p1[2 := ip[2]];
    ScanDecimal(ip[0], "." + b, NO_ADDRESS, 0);
    ScanDot(b, p0, 0);
    ScanDecimal(ip[1], "." + c, p0, 1);
    ScanDot(c, p1, 1);
    ScanDecimal(ip[2], "." + d, p1, 2);
    ScanDot(d, p2, 2);
    ScanDecimal(ip[3], [], p2, 3);
    assert p2[3 := ip[3]] == ip;
    ScanEnd(ip);
  }

  /** The numerals are the decimal ones. */
  lemma PrintedAddress()
    ensures var ip: Ip := [192, 168, 70, 5]; IpText(ip) == "192.168.70.5" && IpOf("192.168.70.5") == Some(ip)
  {
    var ip: Ip := [192, 168, 70, 5];
    assert Decimal(192) == "192" && Decimal(168) == "168" && Decimal(70) == "70" && Decimal(5) == "5";
    assert IpText(ip) == "192.168.70.5";
    IpRoundTrip(ip);
    hide ScanIp;
  }

  lemma ScanEnd(parts: Ip)
    ensures ScanIp([], parts, 3) == Stop(parts, 3)
  {
  }

  // ----- reading a file

  predicate Skipped(line: string) {
    var t := SkipBlanks(line);
    t == [] || t[0] == '#' || t[0] == ';' || t[0] == '\n'
  }

  /** is_comment_or_empty. */
  method IsCommentOrEmpty(line: string) returns (r: bool)
    ensures r == Skipped(line)
  {
    var i := 0;
    while i < |line| && Blank(line[i])
      invariant i <= |line| && SkipBlanks(line[i..]) == SkipBlanks(line)
    {
      assert line[i..][1..] == line[i + 1..];
      i := i + 1;
    }
    r := i == |line| || line[i] == '#' || line[i] == ';' || line[i] == '\n';
  }

  /** A malformed address leaves the old one. */
  function Address(value: string, old_: Ip): Ip {
    match IpOf(value) case Some(ip) => ip case None => old_
  }

  function Set(c: Config, key: string, value: string): Config {
    if key == "dhcp" then c.(useDhcp := if value == "yes" || value == "1" then 1 else 0)
    else if key == "ip" then c.(ip := Address(value, c.ip))
    else if key == "netmask" then c.(netmask := Address(value, c.netmask))
    else if key == "gateway" then c.(gateway := Address(value, c.gateway))
    else if key == "dns" then c.(dns := Address(value, c.dns))
    else c
  }

  function Entered(c: Config, line: string): Config {
    if !(0 < |line| < LINE_MAX) || Skipped(line) then c
    else match KeyValue(line) case Some((key, value)) => Set(c, key, value) case None => c
  }

  method EnterLine(c: Config, line: string) returns (r: Config)
    ensures r == Entered(c, line)
  {
    r := c;
    if 0 < |line| < LINE_MAX {
      var skip := IsCommentOrEmpty(line);
      if !skip {
        var kv := ParseLine(line);
        if kv.Some? {
          var (key, value) := kv.value;
          var ip := ParseIp(value);
          if key == "dhcp" {
            r := r.(useDhcp := if value == "yes" || value == "1" then 1 else 0);
          } else if key == "ip" {
            r := if ip.Some? then r.(ip := ip.value) else r;
          } else if key == "netmask" {
            r := if ip.Some? then r.(netmask := ip.value) else r;
          } else if key == "gateway" {
            r := if ip.Some? then r.(gateway := ip.value) else r;
          } else if key == "dns" {
            r := if ip.Some? then r.(dns := ip.value) else r;
          }
        }
      }
    }
  }

  /** A line that begins with a number sign or a semicolon, after any blanks, sets nothing; nor does one of
      blanks only, without an equals sign, or of 256 characters and more. */
  lemma Ignored(c: Config, blanks: string, mark: char, rest: string)
    requires forall i :: 0 <= i < |blanks| ==> Blank(blanks[i])
    ensures mark == '#' || mark == ';' ==> Entered(c, blanks + [mark] + rest) == c
    ensures Entered(c, blanks) == c
    ensures '=' !in rest || |rest| >= 256 ==> Entered(c, rest) == c
  {
    if !Blank(mark) {
      SkipsAll(blanks, [mark] + rest);
    }
    SkipsAll(blanks, []);
    assert blanks + [mark] + rest == blanks + ([mark] + rest) && blanks + [] == blanks;
    EqualsFound(rest);
    assert EqualsAt(rest) < |rest| ==> '=' in rest;
    hide EqualsAt, Trimmed;
  }

  lemma {:induction false} SkipsAll(blanks: string, rest: string)
    requires forall i :: 0 <= i < |blanks| ==> Blank(blanks[i])
    requires rest != [] ==> !Blank(rest[0])
    ensures SkipBlanks(blanks + rest) == rest
  {
    if blanks != [] {
      assert (blanks + rest)[1..] == blanks[1..] + rest;
      SkipsAll(blanks[1..], rest);
    } else {
      assert blanks + rest == rest;
    }
  }

  /** The pair a line holds, if it counts. */
  function Pair(line: string): Option<(string, string)> {
    if !(0 < |line| < LINE_MAX) || Skipped(line) then None else KeyValue(line)
  }

  /** The address that a line gives for `key`. */
  function Given(line: string, key: string): Option<Ip> {
    match Pair(line)
    case Some((k, v)) => if k == key then IpOf(v) else None
    case None => None
  }

  /** The setting that a line gives for DHCP. */
  function Switch(line: string): Option<int> {
    match Pair(line)
    case Some((k, v)) => if k == "dhcp" then Some(if v == "yes" || v == "1" then 1 else 0) else None
    case None => None
  }

  predicate AddressKey(key: string) { key == "ip" || key == "netmask" || key == "gateway" || key == "dns" }

  function Field(c: Config, key: string): Ip
    requires AddressKey(key)
  {
    if key == "ip" then c.ip else if key == "netmask" then c.netmask else if key == "gateway" then c.gateway else c.dns
  }

  lemma EnteredField(c: Config, line: string, key: string)
    requires AddressKey(key)
    ensures Field(Entered(c, line), key) == match Given(line, key) case Some(ip) => ip case None => Field(c, key)
    ensures Entered(c, line).useDhcp == match Switch(line) case Some(n) => n case None => c.useDhcp
  {
    hide KeyValue, IpOf, Skipped;
  }

  predicate Break(c: char) { c == '\n' || c == '\0' }

  predicate Plain(line: string) { forall i :: 0 <= i < |line| ==> !Break(line[i]) }

  function BreakAt(s: string): (n: nat)
    ensures n <= |s| && Plain(s[..n]) && (n < |s| ==> Break(s[n]))
  {
    if s == [] || Break(s[0]) then 0 else
    var n := 1 + BreakAt(s[1..]);
    assert forall i :: 0 < i < |s| ==> s[i] == s[1..][i - 1];
    n
  }

  /** The lines of a text; the last one ends with the text. */
  function Lines(s: string): seq<string> {
    var n := BreakAt(s);
    if n == |s| then [s] else [s[..n]] + Lines(s[n + 1..])
  }

  function Read(c: Config, lines: seq<string>): Config {
    if lines == [] then c else Entered(Read(c, lines[..|lines| - 1]), lines[|lines| - 1])
  }

  lemma ReadOn(c: Config, lines: seq<string>, line: string)
    ensures Read(c, lines + [line]) == Entered(Read(c, lines), line)
  {
    assert (lines + [line])[..|lines|] == lines;
  }

  /** Each address of a loaded configuration is the one in the last line that gives it, and stays as
      it was if no line does: lines of other keys, comments and malformed lines have no effect on it. */
  lemma {:induction false} LastAddressWins(c: Config, lines: seq<string>, key: string, i: nat)
    requires AddressKey(key) && i <= |lines| && forall j :: i <= j < |lines| ==> Given(lines[j], key) == None
    ensures i == 0 ==> Field(Read(c, lines), key) == Field(c, key)
    ensures i > 0 && Given(lines[i - 1], key).Some? ==> Field(Read(c, lines), key) == Given(lines[i - 1], key).value
  {
    hide Given, Entered, Field, AddressKey;
    if lines != [] {
      var n := |lines| - 1;
      EnteredField(Read(c, lines[..n]), lines[n], key);
      assert forall j :: i <= j < n ==> lines[..n][j] == lines[j];
      if i < |lines| {
        LastAddressWins(c, lines[..n], key, i);
      }
    }
  }

  /** And so is the DHCP setting. */
  lemma {:induction false} LastSwitchWins(c: Config, lines: seq<string>, i: nat)
    requires i <= |lines| && forall j :: i <= j < |lines| ==> Switch(lines[j]) == None
    ensures i == 0 ==> Read(c, lines).useDhcp == c.useDhcp
    ensures i > 0 && Switch(lines[i - 1]).Some? ==> Read(c, lines).useDhcp == Switch(lines[i - 1]).value
  {
    if lines != [] {
      var n := |lines| - 1;
      EnteredField(Read(c, lines[..n]), lines[n], "ip");
      hide Switch, Entered, Field, Given, AddressKey;
      assert forall j :: i <= j < n ==> lines[..n][j] == lines[j];
      if i < |lines| {
        LastSwitchWins(c, lines[..n], i);
      }
    }
  }

  lemma LinesFrom(s: string, n: nat)
    requires n <= |s| && Plain(s[..n]) && (n < |s| ==> Break(s[n]))
    ensures Lines(s) == if n == |s| then [s] else [s[..n]] + Lines(s[n + 1..])
  {
    var m := BreakAt(s);
    assert forall i :: 0 <= i < n ==> s[i] == s[..n][i];
    assert forall i :: 0 <= i < m ==> s[i] == s[..m][i];
    assert m == n;
  }

  lemma LineEnd(text: string, start: nat, i: nat)
    requires start <= i <= |text| && Plain(text[start..i])
    ensures i == |text| ==> Lines(text[start..]) == [text[start..i]]
    ensures i < |text| && Break(text[i]) ==>
      Lines(text[start..]) == [text[start..i]] + Lines(text[i + 1..]) && Plain(text[i + 1..i + 1])
    ensures i < |text| && !Break(text[i]) ==> Plain(text[start..i + 1])
  {
    var s, n := text[start..], i - start;
    assert s[..n] == text[start..i];
    if i == |text| || Break(text[i]) {
      LinesFrom(s, n);
      assert i < |text| ==> s[n + 1..] == text[i + 1..];
      assert i == |text| ==> s == text[start..i];
    } else {
      assert text[start..i + 1] == text[start..i] + [text[i]];
    }
    hide Lines;
  }

  /** The loop state: `done` lines entered, the current one running from `start` to `i`. */
  ghost predicate Reading(text: string, done: seq<string>, start: nat, i: nat) {
    && start <= i <= |text| + 1
    && if i <= |text| then Plain(text[start..i]) && done + Lines(text[start..]) == Lines(text) else done == Lines(text)
  }

  lemma ReadingStart(text: string)
    ensures Reading(text, [], 0, 0)
  {
    hide Lines;
    assert text[0..] == text;
  }

  lemma ReadingOn(text: string, done: seq<string>, start: nat, i: nat)
    requires Reading(text, done, start, i) && i <= |text|
    ensures if i == |text| || Break(text[i]) then Reading(text, done + [text[start..i]], i + 1, i + 1)
            else Reading(text, done, start, i + 1)
  {
    hide Lines, Plain;
    LineEnd(text, start, i);
    var line := text[start..i];
    if i < |text| {
      assert done + ([line] + Lines(text[i + 1..])) == done + [line] + Lines(text[i + 1..]);
    }
  }

  /** config_load_network on the bytes of the file; an empty one leaves the defaults. */
  method LoadNetwork(file: string) returns (r: int, c: Config)
    ensures r == if file == [] then -1 else 0
    ensures c == if file == [] then DEFAULTS else Read(DEFAULTS, Lines(UpTo(file, 1023)))
    ensures file == [] ==> c.useDhcp == 1 && c.ip == c.netmask == c.gateway == c.dns == [0, 0, 0, 0]
  {
    var text := UpTo(file, BUFFER_MAX - 1);
    c := DEFAULTS;
    if text == [] {
      return -1, c;
    }
    c := ReadText(text);
    return 0, c;
  }

  method ReadText(text: string) returns (c: Config)
    ensures c == Read(DEFAULTS, Lines(text))
  {
    c := DEFAULTS;
    ghost var done: seq<string> := [];
    var lineStart, i := 0, 0;
    ReadingStart(text);
    while i <= |text|
      invariant Reading(text, done, lineStart, i) && c == Read(DEFAULTS, done)
    {
      hide Plain, Lines, Entered;
      ReadingOn(text, done, lineStart, i);
      if i == |text| || Break(text[i]) {
        var line := text[lineStart..i];
        ReadOn(DEFAULTS, done, line);
        c := EnterLine(c, line);
        done := done + [line];
        lineStart := i + 1;
      }
      i := i + 1;
    }
  }

  // ----- printing

  predicate Comment(s: string) { |s| > 1 && s[0] == '#' }

  function Header(): (s: string)
    ensures |s| == 28 && Comment(s) && Plain(s)
  {
    "# ALOS Network Configuration"
  }

  function Hint(): (s: string)
    ensures |s| == 39 && Comment(s) && Plain(s)
  {
    "# Edit this file to configure static IP"
  }

  function StaticNote(): (s: string)
    ensures |s| == 25 && Comment(s) && Plain(s)
  {
    "# Static IP configuration"
  }

  function DhcpLine(on: bool): (s: string)
    ensures |s| <= 8 && Plain(s)
  {
    if on then "dhcp=yes" else "dhcp=no"
  }

  function PrintedLines(c: Config): seq<string> {
    [Header(), Hint(), "", DhcpLine(c.useDhcp != 0), ""]
    + if c.useDhcp != 0 then [] else
      [StaticNote(), "ip=" + IpText(c.ip), "netmask=" + IpText(c.netmask), "gateway=" + IpText(c.gateway),
          "dns=" + IpText(c.dns)]
  }

  function Ended(lines: seq<string>): string {
    if lines == [] then [] else Ended(lines[..|lines| - 1]) + lines[|lines| - 1] + "\n"
  }

  lemma EndedOn(lines: seq<string>, line: string)
    ensures Ended(lines + [line]) == Ended(lines) + line + "\n"
  {
    assert (lines + [line])[..|lines|] == lines;
  }

  lemma EndedNone()
    ensures Ended([]) == []
  {
  }

  /** The text builder of config_save_network; the text fits its 512-byte buffer. */
  method SaveNetwork(c: Config) returns (text: string)
    ensures text == Ended(PrintedLines(c)) && |text| < 512
  {
    hide Ended, Header, Hint, StaticNote, DhcpLine, IpText;
    EndedNone();
    ghost var done := [];
    text := [];
    text, done := Put(text, done, Header());
    text, done := Put(text, done, Hint());
    text, done := Put(text, done, "");
    text, done := Put(text, done, DhcpLine(c.useDhcp != 0));
    text, done := Put(text, done, "");
    if c.useDhcp == 0 {
      text, done := Put(text, done, StaticNote());
      var ip := IpToString(c.ip);
      text, done := Put(text, done, "ip=" + ip);
      ip := IpToString(c.netmask);
      text, done := Put(text, done, "netmask=" + ip);
      ip := IpToString(c.gateway);
      text, done := Put(text, done, "gateway=" + ip);
      ip := IpToString(c.dns);
      text, done := Put(text, done, "dns=" + ip);
    }
    assert done == PrintedLines(c);
  }

  /** Append one line to the buffer. */
  method Put(text: string, ghost lines: seq<string>, line: string) returns (r: string, ghost done: seq<string>)
    requires text == Ended(lines)
    ensures done == lines + [line] && r == Ended(done) && |r| == |text| + |line| + 1
  {
    EndedOn(lines, line);
    r, done := text + line + "\n", lines + [line];
  }

  // ----- the round trip

  lemma EndedSplit(front: seq<string>, l: string, rest: string)
    ensures Ended(front + [l]) + rest == Ended(front) + (l + "\n" + rest)
  {
    hide Ended;
    EndedOn(front, l);
  }

  /** Lines that hold no line break are read back as they were written. */
  lemma {:induction false} LinesOfEnded(lines: seq<string>, rest: string)
    requires forall l :: l in lines ==> Plain(l)
    ensures Lines(Ended(lines) + rest) == lines + Lines(rest)
  {
    hide Lines, Plain, Ended;
    if lines == [] {
      EndedNone();
      assert [] + rest == rest && lines + Lines(rest) == Lines(rest);
    } else {
      var front, l := lines[..|lines| - 1], lines[|lines| - 1];
      assert lines == front + [l] && l in lines && forall k :: k in front ==> k in lines;
      EndedSplit(front, l, rest);
      LinesOfEnded(front, l + "\n" + rest);
      FirstLine(l, rest);
      assert front + ([l] + Lines(rest)) == lines + Lines(rest);
    }
  }

  lemma FirstLine(l: string, rest: string)
    requires Plain(l)
    ensures Lines(l + "\n" + rest) == [l] + Lines(rest)
  {
    var s := l + "\n" + rest;
    assert s[..|l|] == l && s[|l|] == '\n' && s[|l| + 1..] == rest;
    LinesFrom(s, |l|);
    hide Lines;
  }

  lemma IpTextClean(ip: Ip)
    ensures Clean(IpText(ip)) && Plain(IpText(ip)) && |IpText(ip)| <= 15
  {
    var s := IpText(ip);
    assert s[0] == Decimal(ip[0])[0] && s[0] in Decimal(ip[0]);
    var d := Decimal(ip[3]);
    assert s[|s| - 1] == d[|d| - 1] && d[|d| - 1] in d;
    forall i | 0 <= i < |s| ensures !Break(s[i]) {
      var c := s[i];
      assert c == '.' || c in Decimal(ip[0]) || c in Decimal(ip[1]) || c in Decimal(ip[2]) || c in Decimal(ip[3]);
    }
    hide Decimal;
  }

  /** An address line sets its address. */
  lemma AddressLine(c: Config, key: string, ip: Ip)
    requires Clean(key) && |key| < 20 && '=' !in key && key[0] != '#' && key[0] != ';' && key[0] != '\n'
    ensures Entered(c, key + "=" + IpText(ip)) == Set(c, key, IpText(ip)) && Address(IpText(ip), NO_ADDRESS) == ip
    ensures forall o :: Address(IpText(ip), o) == ip
  {
    IpTextClean(ip);
    IpRoundTrip(ip);
    PrintedLine(key, IpText(ip));
    var line := key + "=" + IpText(ip);
    assert line[0] == key[0];
    hide IpText, KeyValue, IpOf, Set;
  }

  lemma CommentIgnored(c: Config, line: string)
    requires Comment(line) || line == []
    ensures Entered(c, line) == c
  {
  }

  lemma DhcpEntered(c: Config, on: bool)
    ensures Entered(c, DhcpLine(on)) == c.(useDhcp := if on then 1 else 0)
  {
    hide KeyValue, Set, Trimmed, IpOf;
    var value := if on then "yes" else "no";
    PrintedLine("dhcp", value);
    assert DhcpLine(on) == "dhcp" + "=" + value;
    DhcpSet(c, on);
    assert SkipBlanks(DhcpLine(on)) == DhcpLine(on);
  }

  lemma DhcpSet(c: Config, on: bool)
    ensures Set(c, "dhcp", if on then "yes" else "no") == c.(useDhcp := if on then 1 else 0)
  {
  }

  lemma AddressSet(c: Config, text: string, ip: Ip)
    requires forall o :: Address(text, o) == ip
    ensures Set(c, "ip", text) == c.(ip := ip) && Set(c, "netmask", text) == c.(netmask := ip)
    ensures Set(c, "gateway", text) == c.(gateway := ip) && Set(c, "dns", text) == c.(dns := ip)
  {
    hide Address;
  }

  lemma AddressesEntered(c: Config, ip: Ip)
    ensures Entered(c, "ip=" + IpText(ip)) == c.(ip := ip)
    ensures Entered(c, "netmask=" + IpText(ip)) == c.(netmask := ip)
    ensures Entered(c, "gateway=" + IpText(ip)) == c.(gateway := ip)
    ensures Entered(c, "dns=" + IpText(ip)) == c.(dns := ip)
  {
    hide Entered, IpText, Set, Address;
    var t := IpText(ip);
    assert "ip" + "=" + t == "ip=" + t;
    assert "netmask" + "=" + t == "netmask=" + t;
    assert "gateway" + "=" + t == "gateway=" + t;
    assert "dns" + "=" + t == "dns=" + t;
    AddressLine(c, "ip", ip);
    AddressLine(c, "netmask", ip);
    AddressLine(c, "gateway", ip);
    AddressLine(c, "dns", ip);
    AddressSet(c, t, ip);
  }

  lemma PrefixRead(on: bool)
    ensures Read(DEFAULTS, [Header(), Hint(), "", DhcpLine(on), ""]) == DEFAULTS.(useDhcp := if on then 1 else 0)
  {
    hide Entered, Header, Hint, DhcpLine, Read;
    var c := DEFAULTS;
    var l1: seq<string> := [] + [Header()];
    var l2 := l1 + [Hint()];
    var l3 := l2 + [""];
    var l4 := l3 + [DhcpLine(on)];
    ReadNone(c);
    ReadOn(c, [], Header());
    CommentIgnored(c, Header());
    ReadOn(c, l1, Hint());
    CommentIgnored(c, Hint());
    ReadOn(c, l2, "");
    CommentIgnored(c, "");
    ReadOn(c, l3, DhcpLine(on));
    DhcpEntered(c, on);
    ReadOn(c, l4, "");
    CommentIgnored(c.(useDhcp := if on then 1 else 0), "");
    assert l4 + [""] == [Header(), Hint(), "", DhcpLine(on), ""];
  }

  lemma ReadNone(c: Config)
    ensures Read(c, []) == c
  {
  }

  lemma StaticRead(c: Config, lines: seq<string>, before: Config)
    requires before == Read(DEFAULTS, lines) && before == DEFAULTS.(useDhcp := 0) && c.useDhcp == 0
    ensures Read(DEFAULTS, lines + [StaticNote(), "ip=" + IpText(c.ip), "netmask=" + IpText(c.netmask),
                                    "gateway=" + IpText(c.gateway), "dns=" + IpText(c.dns)]) == c
  {
    hide Entered, StaticNote, Read, IpText;
    var l0 := lines + [StaticNote()];
    var l1 := l0 + ["ip=" + IpText(c.ip)];
    var l2 := l1 + ["netmask=" + IpText(c.netmask)];
    var l3 := l2 + ["gateway=" + IpText(c.gateway)];
    var l4 := l3 + ["dns=" + IpText(c.dns)];
    ReadOn(DEFAULTS, lines, StaticNote());
    CommentIgnored(before, StaticNote());
    ReadOn(DEFAULTS, l0, "ip=" + IpText(c.ip));
    AddressesEntered(before, c.ip);
    ReadOn(DEFAULTS, l1, "netmask=" + IpText(c.netmask));
    AddressesEntered(before.(ip := c.ip), c.netmask);
    ReadOn(DEFAULTS, l2, "gateway=" + IpText(c.gateway));
    AddressesEntered(before.(ip := c.ip, netmask := c.netmask), c.gateway);
    ReadOn(DEFAULTS, l3, "dns=" + IpText(c.dns));
    AddressesEntered(before.(ip := c.ip, netmask := c.netmask, gateway := c.gateway), c.dns);
    assert l4 == lines + [StaticNote(), "ip=" + IpText(c.ip), "netmask=" + IpText(c.netmask),
                          "gateway=" + IpText(c.gateway), "dns=" + IpText(c.dns)];
  }

  /** What survives being saved: a DHCP configuration keeps no addresses. */
  function Normal(c: Config): Config { if c.useDhcp != 0 then DEFAULTS else c }

  lemma PrintedPlain(c: Config)
    ensures forall l :: l in PrintedLines(c) ==> Plain(l)
  {
    IpTextClean(c.ip);
    IpTextClean(c.netmask);
    IpTextClean(c.gateway);
    IpTextClean(c.dns);
    hide IpText, Header, Hint, DhcpLine, StaticNote;
  }

  /** Reading the printed text gives the configuration back. */
  lemma RoundTrip(c: Config)
    ensures Read(DEFAULTS, Lines(Ended(PrintedLines(c)))) == Normal(c)
  {
    hide Entered, Header, Hint, StaticNote, DhcpLine, IpText, Read, Lines, Ended;
    var ls := PrintedLines(c);
    PrintedPlain(c);
    LinesOfEnded(ls, []);
    assert Ended(ls) + [] == Ended(ls);
    EmptyLine();
    PrefixRead(c.useDhcp != 0);
    var prefix := [Header(), Hint(), "", DhcpLine(c.useDhcp != 0), ""];
    if c.useDhcp == 0 {
      StaticRead(c, prefix, DEFAULTS.(useDhcp := 0));
    } else {
      assert ls == prefix;
    }
    assert ls + Lines([]) == ls + [""];
    ReadOn(DEFAULTS, ls, "");
    CommentIgnored(Normal(c), "");
  }

  lemma EmptyLine()
    ensures Lines([]) == [[]]
  {
  }

  /** config_save_network followed by config_load_network. */
  method SaveThenLoad(c: Config) returns (r: int, d: Config)
    ensures r == 0 && d == Normal(c)
  {
    hide Read, Lines, Ended, PrintedLines;
    var text := SaveNetwork(c);
    NotEmpty(c);
    r, d := LoadNetwork(text);
    RoundTrip(c);
  }

  lemma NotEmpty(c: Config)
    ensures Ended(PrintedLines(c)) != []
  {
    assert PrintedLines(c) != [];
  }
}
