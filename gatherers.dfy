/**
  The stdout parsers of `SystemContext.gather_docker`, `gather_remote_host`
  and `gather_health` (homelab_brain/system_context.py). Running the
  command is not modelled: each parser receives what `subprocess.run` gave
  back (a return code and the captured stdout) or the exception it raised.
 */
module Gatherers {
  import opened Wrappers
  import opened Text

  /** The outcome of one `subprocess.run` call: it completed, or it raised. */
  datatype ProcessResult = Completed(returnCode: int, stdout: string) | Failed(reason: string)

  /** The lines the docker and ssh parsers walk: `stdout.strip().split('\n')`. */
  function OutputLines(stdout: string): seq<string> {
    Split(Strip(stdout), '\n')
  }

  // ---------------------------------------------------------------- docker

  datatype DockerContainer = DockerContainer(name: string, status: string, image: string)

  /** `{"error": ...}` or `{"running": ..., "containers": [...]}`. */
  datatype DockerResult = DockerError(error: string) | DockerOk(running: nat, containers: seq<DockerContainer>)

  /** `json.loads(line)` read through `.get`: the object's fields, or the
      message of the exception decoding (or `.get` on a non-object) raised. */
  datatype JsonLine = JsonObject(fields: map<string, string>) | Undecodable(reason: string)

  /** `container.get(key, "")`. */
  function FieldOr(fields: map<string, string>, key: string): string {
    if key in fields then fields[key] else ""
  }

  function ContainerOf(fields: map<string, string>): DockerContainer {
    DockerContainer(FieldOr(fields, "Names"), FieldOr(fields, "Status"), FieldOr(fields, "Image"))
  }

  /** Every non-empty line decodes to a JSON object. */
  predicate AllDecode(lines: seq<string>, decode: string -> JsonLine) {
    forall l <- lines :: l != [] ==> decode(l).JsonObject?
  }

  /** The reason of the first non-empty line that does not decode. */
  function FirstUndecodable(lines: seq<string>, decode: string -> JsonLine): (r: Option<string>)
    ensures r.None? <==> AllDecode(lines, decode)
  {
    if lines == [] then None
    else if lines[0] != [] && decode(lines[0]).Undecodable? then Some(decode(lines[0]).reason)
    else
      assert forall l <- lines :: l == lines[0] || l in lines[1..];
      FirstUndecodable(lines[1..], decode)
  }

  function NonEmptyLines(lines: seq<string>): (r: seq<string>)
    ensures forall k :: 0 <= k < |r| ==> r[k] in lines && r[k] != []
  {
    if lines == [] then []
    else NonEmptyLines(lines[..|lines| - 1]) + (if lines[|lines| - 1] != [] then [lines[|lines| - 1]] else [])
  }

  /** The containers of the decodable non-empty lines, in line order. */
  function DockerContainersOf(lines: seq<string>, decode: string -> JsonLine): seq<DockerContainer> {
    if lines == [] then []
    else
      var l := lines[|lines| - 1];
      DockerContainersOf(lines[..|lines| - 1], decode)
      + (if l != [] && decode(l).JsonObject? then [ContainerOf(decode(l).fields)] else [])
  }

  /** What `gather_docker` returns, given the outcome of `docker ps`. */
  function DockerOf(result: ProcessResult, decode: string -> JsonLine): DockerResult {
    match result
    case Failed(reason) => DockerError(reason)
    case Completed(rc, out) =>
      if rc != 0 then DockerError("Docker not accessible")
      else
        var lines := OutputLines(out);
        match FirstUndecodable(lines, decode)
        case Some(reason) => DockerError(reason)
        case None =>
          var cs := DockerContainersOf(lines, decode);
          DockerOk(|cs|, cs)
  }

  /** The loop of `gather_docker` over the lines of `docker ps`. */
  method GatherDocker(result: ProcessResult, decode: string -> JsonLine) returns (r: DockerResult)
    ensures r == DockerOf(result, decode)
    ensures r.DockerOk? ==> r.running == |r.containers|
    ensures r.DockerOk? <==> result.Completed? && result.returnCode == 0 && AllDecode(OutputLines(result.stdout), decode)
  {
    match result {
      case Failed(reason) =>
        return DockerError(reason);
      case Completed(rc, out) =>
        if rc != 0 {
          return DockerError("Docker not accessible");
        }
        var lines := OutputLines(out);
        var containers := [];
        var i := 0;
        while i < |lines|
          invariant 0 <= i <= |lines|
          invariant FirstUndecodable(lines, decode) == FirstUndecodable(lines[i..], decode)
          invariant containers == DockerContainersOf(lines[..i], decode)
        {
          var line := lines[i];
          assert lines[i..][1..] == lines[i + 1..];
          assert lines[..i + 1][..i] == lines[..i];
          if line != [] {
            var decoded := decode(line);
            if decoded.Undecodable? {
              return DockerError(decoded.reason);
            }
            containers := containers + [ContainerOf(decoded.fields)];
          }
          i := i + 1;
        }
        assert lines[..i] == lines;
        return DockerOk(|containers|, containers);
    }
  }

  /** One container per non-empty line, in order, each read from that line's
      `Names`, `Status` and `Image` fields. */
  lemma {:induction false} DockerRecordPerLine(lines: seq<string>, decode: string -> JsonLine)
    requires AllDecode(lines, decode)
    ensures |DockerContainersOf(lines, decode)| == |NonEmptyLines(lines)|
    ensures forall k :: 0 <= k < |NonEmptyLines(lines)| ==>
      DockerContainersOf(lines, decode)[k] == ContainerOf(decode(NonEmptyLines(lines)[k]).fields)
    decreases |lines|
  {
    if lines != [] {
      var init := lines[..|lines| - 1];
      assert forall l <- init :: l in lines;
      DockerRecordPerLine(init, decode);
    }
  }

  // ---------------------------------------------------------------- remote host

  datatype RemoteContainer = RemoteContainer(name: string, state: string, status: string)

  /** `{"error": ..., "reachable": False}` or
      `{"hostname": ..., "reachable": True, "container_count": ..., "containers": [...]}`. */
  datatype RemoteResult =
    | RemoteError(error: string)
    | RemoteOk(hostname: string, containerCount: nat, containers: seq<RemoteContainer>)
  {
    /** The `reachable` flag. */
    predicate Reachable() {
      RemoteOk?
    }
  }

  /** One line of `docker ps --format "{{.Names}}\t{{.State}}\t{{.Status}}"`:
      a container when the line holds at least two tab-separated fields. */
  function RemoteRow(line: string): (r: Option<RemoteContainer>)
    ensures r.Some? <==> '\t' in line
    ensures r.Some? ==> '\t' !in r.value.name && '\t' !in r.value.state && '\t' !in r.value.status
  {
    var parts := Split(line, '\t');
    SplitFieldCount(line, '\t');
    if |parts| >= 2 then
      Some(RemoteContainer(parts[0], parts[1], if |parts| > 2 then parts[2] else "unknown"))
    else None
  }

  /** A row written as tab-separated fields reads back as those fields; with
      no third field the status is `"unknown"`. */
  lemma RemoteRowOfFields(name: string, state: string, rest: seq<string>)
    requires '\t' !in name && '\t' !in state && forall f <- rest :: '\t' !in f
    ensures RemoteRow(Join([name, state] + rest, '\t'))
         == Some(RemoteContainer(name, state, if rest == [] then "unknown" else rest[0]))
  {
    SplitJoin([name, state] + rest, '\t');
  }

  /** The containers of the lines, in order, skipping empty lines and lines
      with fewer than two fields. */
  function RemoteRowsOf(lines: seq<string>): seq<RemoteContainer> {
    if lines == [] then []
    else
      var l := lines[|lines| - 1];
      RemoteRowsOf(lines[..|lines| - 1])
      + (if l != [] && RemoteRow(l).Some? then [RemoteRow(l).value] else [])
  }

  /** What `gather_remote_host` returns, given the outcome of the ssh call. */
  function RemoteOf(result: ProcessResult, hostname: string): RemoteResult {
    match result
    case Failed(reason) => RemoteError(reason)
    case Completed(rc, out) =>
      if rc != 0 then RemoteError("Host unreachable or SSH failed")
      else
        var cs := RemoteRowsOf(OutputLines(out));
        RemoteOk(hostname, |cs|, cs)
  }

  /** The loop of `gather_remote_host` over the lines the ssh call printed. */
  method GatherRemoteHost(result: ProcessResult, hostname: string) returns (r: RemoteResult)
    ensures r == RemoteOf(result, hostname)
    ensures r.Reachable() <==> result.Completed? && result.returnCode == 0
    ensures r.RemoteOk? ==> r.containerCount == |r.containers| && r.hostname == hostname
  {
    match result {
      case Failed(reason) =>
        return RemoteError(reason);
      case Completed(rc, out) =>
        if rc != 0 {
          return RemoteError("Host unreachable or SSH failed");
        }
        var lines := OutputLines(out);
        var containers := [];
        var i := 0;
        while i < |lines|
          invariant 0 <= i <= |lines|
          invariant containers == RemoteRowsOf(lines[..i])
        {
          var line := lines[i];
          assert lines[..i + 1][..i] == lines[..i];
          if line != [] {
            var parts := Split(line, '\t');
            if |parts| >= 2 {
              containers := containers + [RemoteContainer(parts[0], parts[1], if |parts| > 2 then parts[2] else "unknown")];
            }
          }
          i := i + 1;
        }
        assert lines[..i] == lines;
        return RemoteOk(hostname, |containers|, containers);
    }
  }

  /** Every line contributes at most one container, and only a line with a tab
      contributes one. */
  lemma {:induction false} RemoteRowsBounded(lines: seq<string>)
    ensures |RemoteRowsOf(lines)| <= |lines|
    ensures (forall l <- lines :: '\t' !in l) ==> RemoteRowsOf(lines) == []
    decreases |lines|
  {
    if lines != [] {
      var init := lines[..|lines| - 1];
      assert forall l <- init :: l in lines;
      RemoteRowsBounded(init);
    }
  }

  // ---------------------------------------------------------------- health check

  datatype HealthIssue = HealthIssue(category: string, name: string, message: string)

  /** `{"error": ...}` or the four health fields. */
  datatype HealthResult =
    | HealthError(error: string)
    | HealthOk(totalServices: nat, totalContainers: nat, issueCount: nat, issues: seq<HealthIssue>)

  const Esc: char := '\U{1B}'

  /** The length of the colour code `ESC [ [0-9;]+ m` at the start of `s`, or 0. */
  function ColourCodeLength(s: string): (n: nat)
    ensures n == 0 || 4 <= n <= |s|
  {
    if |s| >= 2 && s[0] == Esc && s[1] == '[' then
      var j := ParamRunEnd(s, 2);
      if j > 2 && j < |s| && s[j] == 'm' then j + 1 else 0
    else 0
  }

  /** The end of the run of `[0-9;]` characters starting at `i`. */
  function ParamRunEnd(s: string, i: nat): (j: nat)
    requires i <= |s|
    ensures i <= j <= |s|
    ensures forall k :: i <= k < j ==> IsDigit(s[k]) || s[k] == ';'
    ensures j == |s| || !(IsDigit(s[j]) || s[j] == ';')
    decreases |s| - i
  {
    if i < |s| && (IsDigit(s[i]) || s[i] == ';') then ParamRunEnd(s, i + 1) else i
  }

  /** `re.sub(r'\x1b\[[0-9;]+m', '', s)`: one left-to-right pass. */
  function StripAnsi(s: string): string
    decreases |s|
  {
    if s == [] then []
    else
      var n := ColourCodeLength(s);
      if n > 0 then StripAnsi(s[n..]) else [s[0]] + StripAnsi(s[1..])
  }

  /** The colour code with parameters `params`, e.g. `ESC[1;31m`. */
  function ColourCode(params: string): string {
    [Esc, '['] + params + "m"
  }

  /** Text without escape characters passes through unchanged, and what
      follows it is stripped on its own. */
  lemma {:induction false} StripAnsiPlain(t: string, u: string)
    requires Esc !in t
    ensures StripAnsi(t + u) == t + StripAnsi(u)
    decreases |t|
  {
    if t != [] {
      assert t == [t[0]] + t[1..];
      assert (t + u)[0] == t[0] != Esc;
      assert ColourCodeLength(t + u) == 0;
      assert (t + u)[1..] == t[1..] + u;
      StripAnsiPlain(t[1..], u);
      assert StripAnsi(t + u) == [t[0]] + (t[1..] + StripAnsi(u));
    } else {
      assert t + u == u;
    }
  }

  /** A colour code is removed whole. */
  lemma StripAnsiColourCode(params: string, u: string)
    requires |params| > 0 && forall c <- params :: IsDigit(c) || c == ';'
    ensures StripAnsi(ColourCode(params) + u) == StripAnsi(u)
  {
    var s := ColourCode(params) + u;
    assert forall k :: 2 <= k < 2 + |params| ==> s[k] == params[k - 2];
    assert s[2 + |params|] == 'm';
    assert ParamRunEnd(s, 2) == 2 + |params|;
    assert s[3 + |params|..] == u;
  }

  /** Colouring plain text and stripping the colour gives the text back. */
  lemma StripAnsiColoured(params: string, t: string)
    requires |params| > 0 && forall c <- params :: IsDigit(c) || c == ';'
    requires Esc !in t
    ensures StripAnsi(ColourCode(params) + t + ColourCode("0")) == t
  {
    assert ColourCode(params) + t + ColourCode("0") == ColourCode(params) + (t + ColourCode("0"));
    StripAnsiColourCode(params, t + ColourCode("0"));
    StripAnsiPlain(t, ColourCode("0"));
    assert ColourCode("0") == ColourCode("0") + [];
    StripAnsiColourCode("0", []);
  }

  /** The literal four characters backslash, `x`, `2`, `d`. */
  const EscapedDash: string := "\\x2d"
  const EscapedDnsDash: string := "\\x2ddns\\x2d"

  /** `output.replace('\\x2d', '-').replace('\\x2ddns\\x2d', '-dns-')`. */
  function DecodeEscapes(s: string): string {
    ReplaceAll(ReplaceAll(s, EscapedDash, "-"), EscapedDnsDash, "-dns-")
  }

  /** A character of a replaced text that is not a produced dash comes from
      the input, and the rest of the text is the replacement of the rest. */
  lemma DashReplaceStep(u: string)
    requires |ReplaceAll(u, EscapedDash, "-")| > 0 && ReplaceAll(u, EscapedDash, "-")[0] != '-'
    ensures |u| > 0 && u[0] == ReplaceAll(u, EscapedDash, "-")[0]
    ensures ReplaceAll(u, EscapedDash, "-")[1..] == ReplaceAll(u[1..], EscapedDash, "-")
  {
  }

  /** After the first replacement no escaped dash is left. */
  lemma {:induction false} NoEscapedDashLeft(s: string)
    ensures !IsSubstring(EscapedDash, ReplaceAll(s, EscapedDash, "-"))
    decreases |s|
  {
    var r := ReplaceAll(s, EscapedDash, "-");
    if |s| < 4 {
    } else if s[..4] == EscapedDash {
      var rest := ReplaceAll(s[4..], EscapedDash, "-");
      NoEscapedDashLeft(s[4..]);
      assert r == "-" + rest;
      assert r[0] != EscapedDash[0];
      assert r[1..] == rest;
    } else {
      var rest := ReplaceAll(s[1..], EscapedDash, "-");
      NoEscapedDashLeft(s[1..]);
      assert r == [s[0]] + rest;
      assert r[1..] == rest;
      if |r| >= 4 && r[..4] == EscapedDash {
        assert rest[0] == 'x' && rest[1] == '2' && rest[2] == 'd';
        DashReplaceStep(s[1..]);
        DashReplaceStep(s[2..]);
        assert s[2..][1..] == s[3..];
        DashReplaceStep(s[3..]);
        assert false;
      }
    }
  }

  /** The second `replace` of line 123 can never fire: the first one leaves
      no `\x2d`, and every `\x2ddns\x2d` contains one. */
  lemma SecondReplaceNeverFires(s: string)
    ensures DecodeEscapes(s) == ReplaceAll(s, EscapedDash, "-")
  {
    var r := ReplaceAll(s, EscapedDash, "-");
    NoEscapedDashLeft(s);
    assert EscapedDnsDash == [] + EscapedDash + "dns\\x2d";
    SubstringOfConcat([], EscapedDash, "dns\\x2d");
    if IsSubstring(EscapedDnsDash, r) {
      SubstringTransitive(EscapedDash, EscapedDnsDash, r);
    }
    ReplaceAbsent(r, EscapedDnsDash, "-dns-");
  }

  /** The three status glyphs `✗`, `⚠` and `ℹ`. */
  predicate IsIssueSymbol(c: char) {
    c == '\U{2717}' || c == '\U{26A0}' || c == '\U{2139}'
  }

  /** `any(symbol in line for symbol in ['✗', '⚠', 'ℹ'])`. */
  predicate HasIssueSymbol(line: string) {
    '\U{2717}' in line || '\U{26A0}' in line || '\U{2139}' in line
  }

  function WordRunEnd(s: string, i: nat): (j: nat)
    requires i <= |s|
    ensures i <= j <= |s|
    ensures forall k :: i <= k < j ==> IsWordChar(s[k])
    ensures j == |s| || !IsWordChar(s[j])
    decreases |s| - i
  {
    if i < |s| && IsWordChar(s[i]) then WordRunEnd(s, i + 1) else i
  }

  function DigitRunEnd(s: string, i: nat): (j: nat)
    requires i <= |s|
    ensures i <= j <= |s|
    ensures forall k :: i <= k < j ==> IsDigit(s[k])
    ensures j == |s| || !IsDigit(s[j])
    decreases |s| - i
  {
    if i < |s| && IsDigit(s[i]) then DigitRunEnd(s, i + 1) else i
  }

  /** The tail `\s+-\s+.+` of the issue pattern matches from index `e` of a
      stripped line: a run of whitespace, a dash, a run of whitespace, and at
      least one more character. */
  predicate SeparatorAt(s: string, e: nat) {
    e < |s| && IsSpace(s[e]) &&
    var f := SpaceRunEnd(s, e);
    f < |s| && s[f] == '-' &&
    var g := SpaceRunEnd(s, f + 1);
    g > f + 1 && g < |s|
  }

  /** Where the message group `(.+)` of a separator at `e` starts. */
  function SeparatorEnd(s: string, e: nat): (g: nat)
    requires SeparatorAt(s, e)
    ensures e + 3 <= g < |s|
  {
    SpaceRunEnd(s, SpaceRunEnd(s, e) + 1)
  }

  /** Where the lazy `(.+?)` stops: the first separator at or after `e`. */
  function FirstSeparator(s: string, e: nat): (r: Option<nat>)
    requires e <= |s|
    ensures r.Some? ==> e <= r.value < |s| && SeparatorAt(s, r.value)
    ensures forall k :: e <= k < |s| && (r.None? || k < r.value) ==> !SeparatorAt(s, k)
    decreases |s| - e
  {
    if e == |s| then None
    else if SeparatorAt(s, e) then Some(e)
    else FirstSeparator(s, e + 1)
  }

  /** The name and message groups, stripped, when `:\s+` ends at `q`: the
      lazy `(.+?)` takes at least one character and stops at the first
      separator after it. */
  function TailFrom(s: string, q: nat): Option<(string, string)>
    requires q <= |s|
  {
    if q == |s| then None
    else
      match FirstSeparator(s, q + 1)
      case None => None
      case Some(e) => Some((Strip(s[q..e]), Strip(s[SeparatorEnd(s, e)..])))
  }

  /** The greedy `:\s+` backtracking: its end is tried from `q` down to
      `lo`, and the first end that lets the tail match wins. */
  function Backtrack(s: string, lo: nat, q: nat): Option<(string, string)>
    requires lo <= q <= |s|
    decreases q - lo
  {
    if TailFrom(s, q).Some? then TailFrom(s, q)
    else if q == lo then None
    else Backtrack(s, lo, q - 1)
  }

  /** `re.match(r'[✗⚠ℹ]\s+(\w+):\s+(.+?)\s+-\s+(.+)', s)` with the name and
      message groups stripped, on a stripped newline-free line. The runs
      before the colon cannot give characters back (a shorter `\s+` leaves a
      space for `\w+`, a shorter `\w+` a word character for `:`), so only
      `:\s+` backtracks. */
  function MatchIssue(s: string): (r: Option<HealthIssue>)
    ensures r.Some? ==> |s| > 0 && IsIssueSymbol(s[0])
  {
    if |s| == 0 || !IsIssueSymbol(s[0]) then None
    else
      var i1 := SpaceRunEnd(s, 1);
      var i2 := WordRunEnd(s, i1);
      if i1 == 1 || i2 == i1 || i2 == |s| || s[i2] != ':' then None
      else
        var p := SpaceRunEnd(s, i2 + 1);
        if p == i2 + 1 then None
        else
          match Backtrack(s, i2 + 2, p)
          case None => None
          case Some((name, message)) => Some(HealthIssue(s[i1..i2], name, message))
  }

  /** Inside a whitespace run ending at `p`, every index starts a separator
      exactly when `p - 1` does, and its message starts at the same place. */
  lemma SeparatorInRun(s: string, lo: nat, p: nat, k: nat)
    requires 0 < lo <= p <= |s| && lo - 1 <= k < p
    requires forall j :: lo - 1 <= j < p ==> IsSpace(s[j])
    requires p == |s| || !IsSpace(s[p])
    ensures SeparatorAt(s, k) == SeparatorAt(s, p - 1)
    ensures SeparatorAt(s, k) ==> SeparatorEnd(s, k) == SeparatorEnd(s, p - 1)
  {
    SpaceRunIs(s, k, p);
    SpaceRunIs(s, p - 1, p);
  }

  /** With no separator inside the run nor after it, no end of `:\s+` lets
      the tail match. */
  lemma {:induction false} BacktrackNone(s: string, lo: nat, p: nat, q: nat)
    requires 0 < lo <= q <= p <= |s|
    requires forall j :: lo - 1 <= j < p ==> IsSpace(s[j])
    requires p == |s| || !IsSpace(s[p])
    requires !SeparatorAt(s, p - 1)
    requires forall k :: p < k < |s| ==> !SeparatorAt(s, k)
    ensures Backtrack(s, lo, q) == None
    decreases q - lo
  {
    forall k | q < k < |s| ensures !SeparatorAt(s, k) {
      if k < p {
        SeparatorInRun(s, lo, p, k);
      }
    }
    if q < |s| {
      assert FirstSeparator(s, q + 1) == None;
    }
    if q > lo {
      BacktrackNone(s, lo, p, q - 1);
    }
  }

  /** With no separator after the run, neither `p` nor `p - 1` as the end of
      `:\s+` lets the tail match. */
  lemma TailAfterRun(s: string, p: nat, q: nat)
    requires p <= |s| && (p == |s| || !IsSpace(s[p]))
    requires forall k :: p < k < |s| ==> !SeparatorAt(s, k)
    requires q <= p && p <= q + 1
    ensures TailFrom(s, q) == None
  {
    if q < |s| {
      assert !SeparatorAt(s, p);
      assert FirstSeparator(s, q + 1) == None;
    }
  }

  /** When the last character of the run starts a separator, ending `:\s+`
      two characters early leaves one space for the name. */
  lemma TailGivesBack(s: string, p: nat)
    requires 2 <= p < |s| && IsSpace(s[p - 2]) && SeparatorAt(s, p - 1)
    ensures TailFrom(s, p - 2) == Some(([], Strip(s[SeparatorEnd(s, p - 1)..])))
  {
    assert FirstSeparator(s, p - 1) == Some(p - 1);
    assert AllSpace(s[p - 2..p - 1]);
  }

  /** One step of the backtracking: an end of `:\s+` that fails hands over
      to the next shorter one. */
  lemma BacktrackStep(s: string, lo: nat, q: nat)
    requires lo < q <= |s| && TailFrom(s, q) == None
    ensures Backtrack(s, lo, q) == Backtrack(s, lo, q - 1)
  {
  }

  /** What the backtracking of `:\s+` (the run from `lo - 1` to `p`) gives:
      the tail after the whole run when a separator follows it; otherwise,
      when the run is at least three long and its last character starts a
      separator, `:\s+` gives two characters back, the name is the one space
      between them and strips to empty; otherwise no match. */
  lemma BacktrackCases(s: string, lo: nat, p: nat)
    requires 0 < lo <= p <= |s|
    requires forall j :: lo - 1 <= j < p ==> IsSpace(s[j])
    requires p == |s| || !IsSpace(s[p])
    ensures p < |s| && FirstSeparator(s, p + 1).Some? ==> Backtrack(s, lo, p) == TailFrom(s, p)
    ensures (p == |s| || FirstSeparator(s, p + 1).None?) && lo + 2 <= p && SeparatorAt(s, p - 1) ==>
      Backtrack(s, lo, p) == Some(([], Strip(s[SeparatorEnd(s, p - 1)..])))
    ensures (p == |s| || FirstSeparator(s, p + 1).None?) && !(lo + 2 <= p && SeparatorAt(s, p - 1)) ==>
      Backtrack(s, lo, p) == None
  {
    if p < |s| && FirstSeparator(s, p + 1).Some? {
      return;
    }
    TailAfterRun(s, p, p);
    if lo == p {
      return;
    }
    BacktrackStep(s, lo, p);
    TailAfterRun(s, p, p - 1);
    if lo + 1 == p {
      return;
    }
    BacktrackStep(s, lo, p - 1);
    if SeparatorAt(s, p - 1) {
      TailGivesBack(s, p);
    } else {
      BacktrackNone(s, lo, p, p - 2);
    }
  }

  /** The give-back case of `MatchIssue`: the colon at `i2` is followed by a
      whitespace run to `p` at least three long, no separator starts after
      it, and its last character starts one; the name is then empty. */
  lemma MatchIssueGivesBack(s: string, i2: nat, p: nat)
    requires |s| > 0 && IsIssueSymbol(s[0]) && 2 < i2 && i2 + 4 <= p < |s|
    requires SpaceRunEnd(s, 1) == 2 && WordRunEnd(s, 2) == i2 && s[i2] == ':' && SpaceRunEnd(s, i2 + 1) == p
    requires FirstSeparator(s, p + 1) == None && SeparatorAt(s, p - 1)
    ensures MatchIssue(s) == Some(HealthIssue(s[2..i2], [], Strip(s[SeparatorEnd(s, p - 1)..])))
  {
    BacktrackCases(s, i2 + 2, p);
  }

  /** The runs of `"✗ c:   - x"`: the colon at 3, the whitespace after it
      up to the dash at 7, and no separator after the dash. */
  lemma GiveBackLineRuns(s: string)
    requires s == "\U{2717} c:   - x"
    ensures SpaceRunEnd(s, 1) == 2 && WordRunEnd(s, 2) == 3 && s[3] == ':' && SpaceRunEnd(s, 4) == 7
    ensures FirstSeparator(s, 8) == None && SeparatorAt(s, 6) && SeparatorEnd(s, 6) == 9
  {
    SpaceRunIs(s, 1, 2);
    WordRunIs(s, 2, 3);
    SpaceRunIs(s, 4, 7);
    SpaceRunIs(s, 6, 7);
    SpaceRunIs(s, 8, 9);
    assert !SeparatorAt(s, 8) && !SeparatorAt(s, 9);
  }

  /** `"✗ c:   - x"`: `:\s+` gives two spaces back, `(.+?)` takes the second
      and `\s+-\s+` starts at the third, so the name is empty. */
  lemma MatchGivesBackSpaces()
    ensures MatchIssue("\U{2717} c:   - x") == Some(HealthIssue("c", "", "x"))
  {
    var s := "\U{2717} c:   - x";
    GiveBackLineRuns(s);
    assert s[2..3] == "c" && s[9..] == "x";
    StrippedIsFixed(s[9..]);
    MatchIssueGivesBack(s, 3, 7);
  }

  /** An issue line as the health-check script prints it. */
  function RenderIssue(symbol: char, issue: HealthIssue): string {
    [symbol, ' '] + issue.category + ": " + issue.name + " - " + issue.message
  }

  /** No whitespace character is directly followed by a dash. */
  predicate NoSpaceBeforeDash(s: string) {
    forall k :: 0 <= k < |s| - 1 ==> !SpaceThenDash(s, k)
  }

  /** A whitespace character at `k` directly followed by a dash. */
  predicate SpaceThenDash(s: string, k: nat)
    requires k + 1 < |s|
  {
    IsSpace(s[k]) && s[k + 1] == '-'
  }

  /** The fields of an issue that its printed line reads back unchanged: a
      word for the category, and a non-empty stripped name and message, the
      name holding no whitespace-dash. */
  predicate Printable(issue: HealthIssue) {
    && |issue.category| > 0 && (forall c <- issue.category :: IsWordChar(c))
    && |issue.name| > 0 && IsStripped(issue.name) && NoSpaceBeforeDash(issue.name)
    && |issue.message| > 0 && IsStripped(issue.message)
  }

  /** Inside the name no separator starts. */
  lemma NoSeparatorInName(s: string, p: nat, name: string, k: nat)
    requires p + |name| <= |s| && s[p..p + |name|] == name
    requires |name| > 0 && IsStripped(name) && NoSpaceBeforeDash(name)
    requires p < k < p + |name|
    ensures !SeparatorAt(s, k)
  {
    if IsSpace(s[k]) {
      var f := SpaceRunEnd(s, k);
      var last := p + |name| - 1;
      assert s[last] == name[|name| - 1] && !IsSpace(s[last]);
      assert k < f <= last;
      assert s[f - 1] == name[f - 1 - p] && s[f] == name[f - p];
      assert !SpaceThenDash(name, f - 1 - p);
      assert s[f] != '-';
    }
  }

  /** A run of whitespace from `i` to `j` followed by a non-space ends at `j`. */
  lemma {:induction false} SpaceRunIs(s: string, i: nat, j: nat)
    requires i <= j <= |s|
    requires forall k :: i <= k < j ==> IsSpace(s[k])
    requires j == |s| || !IsSpace(s[j])
    ensures SpaceRunEnd(s, i) == j
    decreases j - i
  {
    if i < j {
      SpaceRunIs(s, i + 1, j);
    }
  }

  lemma {:induction false} WordRunIs(s: string, i: nat, j: nat)
    requires i <= j <= |s|
    requires forall k :: i <= k < j ==> IsWordChar(s[k])
    requires j == |s| || !IsWordChar(s[j])
    ensures WordRunEnd(s, i) == j
    decreases j - i
  {
    if i < j {
      WordRunIs(s, i + 1, j);
    }
  }

  lemma {:induction false} DigitRunIs(s: string, i: nat, j: nat)
    requires i <= j <= |s|
    requires forall k :: i <= k < j ==> IsDigit(s[k])
    requires j == |s| || !IsDigit(s[j])
    ensures DigitRunEnd(s, i) == j
    decreases j - i
  {
    if i < j {
      DigitRunIs(s, i + 1, j);
    }
  }

  /** The layout of a printed issue line, character by character up to the name. */
  lemma PrintedIssueLayout(symbol: char, issue: HealthIssue)
    ensures var s := RenderIssue(symbol, issue); var i2 := 2 + |issue.category|;
      && |s| == i2 + 2 + |issue.name| + 3 + |issue.message| && s[0] == symbol && s[1] == ' ' && s[2..i2] == issue.category
      && s[i2] == ':' && s[i2 + 1] == ' '
      && s[i2 + 2..] == issue.name + " - " + issue.message
  {
    var cat := issue.category;
    var t2 := issue.name + " - " + issue.message;
    var t1 := ": " + t2;
    var s := [symbol, ' '] + (cat + t1);
    assert s == RenderIssue(symbol, issue);
    var i2 := 2 + |cat|;
    assert s[2..] == cat + t1;
    assert s[i2..] == t1;
    assert s[i2 + 2..] == t2;
  }

  /** A line laid out as `<symbol> <category>: <name> - <message>`, with the
      colon at `i2`. */
  predicate LaidOut(s: string, symbol: char, issue: HealthIssue, i2: nat) {
    && i2 == 2 + |issue.category| && |s| == i2 + 2 + |issue.name| + 3 + |issue.message| && s[0] == symbol && s[1] == ' '
    && s[2..i2] == issue.category && s[i2] == ':' && s[i2 + 1] == ' '
    && s[i2 + 2..] == issue.name + " - " + issue.message
  }

  /** Where the runs of an issue line's head end: `<symbol> <word>:` with the
      colon at `i2`, then one space. */
  predicate HeadRuns(s: string, i2: nat) {
    && 2 < i2 && i2 + 2 < |s| && SpaceRunEnd(s, 1) == 2 && WordRunEnd(s, 2) == i2
    && s[i2] == ':' && SpaceRunEnd(s, i2 + 1) == i2 + 2
  }

  /** The first separator after the name's first character is at `e` and
      spans three characters. */
  predicate TailRuns(s: string, p: nat, e: nat) {
    && p < |s| && FirstSeparator(s, p + 1) == Some(e) && SeparatorEnd(s, e) == e + 3
  }

  /** The symbol, the space and the `<word>:` of an issue line. */
  lemma IssueHead(s: string, symbol: char, issue: HealthIssue, i2: nat)
    requires Printable(issue) && LaidOut(s, symbol, issue, i2)
    ensures HeadRuns(s, i2)
  {
    var cat := issue.category;
    forall k | 2 <= k < i2 ensures IsWordChar(s[k]) {
      assert s[k] == s[2..i2][k - 2] == cat[k - 2];
      assert cat[k - 2] in cat;
    }
    assert s[i2 + 2] == s[i2 + 2..][0] == issue.name[0];
    SpaceRunIs(s, 1, 2);
    WordRunIs(s, 2, i2);
    SpaceRunIs(s, i2 + 1, i2 + 2);
  }

  /** A separator with none before it, from `from` on, is the first one. */
  lemma FirstSeparatorIs(s: string, from: nat, e: nat)
    requires from <= e < |s| && SeparatorAt(s, e)
    requires forall k :: from <= k < e ==> !SeparatorAt(s, k)
    ensures FirstSeparator(s, from) == Some(e)
  {
  }

  /** The ` - ` after the name of a printed issue is a separator. */
  lemma PrintedSeparator(s: string, p: nat, name: string, msg: string)
    requires p < |s| && s[p..] == name + " - " + msg
    requires |msg| > 0 && IsStripped(msg)
    ensures var e := p + |name|;
      && SeparatorAt(s, e) && SeparatorEnd(s, e) == e + 3
      && s[p..e] == name && s[e + 3..] == msg
  {
    var e := p + |name|;
    var t3 := " - " + msg;
    assert s[p..] == name + t3;
    assert s[e..] == t3;
    assert s[e + 3..] == msg;
    assert s[p..e] == name;
    assert s[e + 1] == '-' && s[e + 3] == msg[0];
    SpaceRunIs(s, e, e + 1);
    SpaceRunIs(s, e + 2, e + 3);
  }

  /** In `<name> - <message>` the first separator is the one after the name. */
  lemma PrintedIssueTail(s: string, p: nat, e: nat, name: string, msg: string)
    requires p < |s| && s[p..] == name + " - " + msg && e == p + |name|
    requires |name| > 0 && IsStripped(name) && NoSpaceBeforeDash(name)
    requires |msg| > 0 && IsStripped(msg)
    ensures TailRuns(s, p, e) && e + 3 <= |s|
    ensures s[p..e] == name && s[e + 3..] == msg
  {
    PrintedSeparator(s, p, name, msg);
    forall k | p + 1 <= k < e ensures !SeparatorAt(s, k) {
      NoSeparatorInName(s, p, name, k);
    }
    FirstSeparatorIs(s, p + 1, e);
  }

  /** Where each part of an issue line starts and ends: the colon at `i2`,
      the name from `p` to the separator at `e`, the message after it. */
  predicate IssueRuns(s: string, issue: HealthIssue, i2: nat, p: nat, e: nat) {
    && p == i2 + 2 && HeadRuns(s, i2) && TailRuns(s, p, e) && p <= e && e + 3 <= |s|
    && s[2..i2] == issue.category && s[p..e] == issue.name && s[e + 3..] == issue.message
  }

  /** How `MatchIssue` reads a line once each of its runs is known. */
  lemma MatchIssueRuns(s: string, i2: nat, p: nat, e: nat)
    requires |s| > 0 && IsIssueSymbol(s[0]) && HeadRuns(s, i2) && p == i2 + 2 && TailRuns(s, p, e) && e + 3 <= |s|
    ensures MatchIssue(s) == Some(HealthIssue(s[2..i2], Strip(s[p..e]), Strip(s[e + 3..])))
  {
  }

  /** The issue read from a line whose parts are known. */
  lemma MatchIssueAt(s: string, i2: nat, p: nat, e: nat, issue: HealthIssue)
    requires |s| > 0 && IsIssueSymbol(s[0]) && IssueRuns(s, issue, i2, p, e)
    requires IsStripped(issue.name) && IsStripped(issue.message)
    ensures MatchIssue(s) == Some(issue)
  {
    MatchIssueRuns(s, i2, p, e);
    StrippedIsFixed(issue.name);
    StrippedIsFixed(issue.message);
  }

  /** The runs of an issue line laid out from its parts. */
  lemma LaidOutRuns(s: string, symbol: char, issue: HealthIssue, i2: nat, p: nat, e: nat)
    requires Printable(issue) && LaidOut(s, symbol, issue, i2) && p == i2 + 2 && e == p + |issue.name|
    ensures IssueRuns(s, issue, i2, p, e)
  {
    IssueHead(s, symbol, issue, i2);
    PrintedIssueTail(s, p, e, issue.name, issue.message);
  }

  /** An issue line laid out from its parts is read back into those parts. */
  lemma MatchLaidOut(s: string, symbol: char, issue: HealthIssue, i2: nat)
    requires IsIssueSymbol(symbol) && Printable(issue) && LaidOut(s, symbol, issue, i2)
    ensures MatchIssue(s) == Some(issue)
  {
    var p := i2 + 2;
    var e := p + |issue.name|;
    LaidOutRuns(s, symbol, issue, i2, p, e);
    MatchIssueAt(s, i2, p, e, issue);
  }

  /** `✗ <word>: <name> - <message>` yields category `<word>`, name `<name>`
      (the text before the first whitespace-dash-whitespace) and message
      `<message>`. */
  lemma MatchPrintedIssue(symbol: char, issue: HealthIssue)
    requires IsIssueSymbol(symbol) && Printable(issue)
    ensures MatchIssue(RenderIssue(symbol, issue)) == Some(issue)
  {
    PrintedIssueLayout(symbol, issue);
    MatchLaidOut(RenderIssue(symbol, issue), symbol, issue, 2 + |issue.category|);
  }

  /** `(\d+)\s+services\s+•\s+(\d+)\s+containers` matched at index `i`:
      the two numbers. */
  function SummaryAt(s: string, i: nat): Option<(nat, nat)>
    requires i <= |s|
  {
    var d1 := DigitRunEnd(s, i);
    var w1 := SpaceRunEnd(s, d1);
    if d1 == i || w1 == d1 || !OccursAt("services", s, w1) then None
    else
      var w2 := SpaceRunEnd(s, w1 + 8);
      if w2 == w1 + 8 || w2 == |s| || s[w2] != '\U{2022}' then None
      else
        var w3 := SpaceRunEnd(s, w2 + 1);
        var d2 := DigitRunEnd(s, w3);
        var w4 := SpaceRunEnd(s, d2);
        if w3 == w2 + 1 || d2 == w3 || w4 == d2 || !OccursAt("containers", s, w4) then None
        else Some((ParseDigits(s[i..d1]), ParseDigits(s[w3..d2])))
  }

  /** `re.search` over anchored matches: the match at the first index from
      `i` to `n` where `matchAt` finds one, or None. */
  function Search<T>(matchAt: nat -> Option<T>, i: nat, n: nat): Option<T>
    requires i <= n
    decreases n - i
  {
    if matchAt(i).Some? then matchAt(i)
    else if i == n then None
    else Search(matchAt, i + 1, n)
  }

  /** The search finds the leftmost match: a match at some index with none
      before it, and nothing exactly when no index matches. */
  lemma {:induction false} SearchLeftmost<T>(matchAt: nat -> Option<T>, i: nat, n: nat)
    requires i <= n
    ensures Search(matchAt, i, n).Some? ==>
      exists k :: i <= k <= n && matchAt(k) == Search(matchAt, i, n) && forall j :: i <= j < k ==> matchAt(j).None?
    ensures Search(matchAt, i, n).None? <==> forall k :: i <= k <= n ==> matchAt(k).None?
    decreases n - i
  {
    if matchAt(i).None? && i < n {
      SearchLeftmost(matchAt, i + 1, n);
      if Search(matchAt, i + 1, n).Some? {
        var k :| i + 1 <= k <= n && matchAt(k) == Search(matchAt, i + 1, n) && forall j :: i + 1 <= j < k ==> matchAt(j).None?;
        assert forall j :: i <= j < k ==> matchAt(j).None?;
      }
    }
  }

  /** The summary pattern anchored at each index of `s`; nothing past the end. */
  function SummaryMatcher(s: string): nat -> Option<(nat, nat)> {
    (k: nat) => if k <= |s| then SummaryAt(s, k) else None
  }

  /** `re.search` of the summary pattern in `s`. */
  function SearchSummary(s: string): Option<(nat, nat)> {
    Search(SummaryMatcher(s), 0, |s|)
  }

  /** `(\d+)\s+issue` matched at index `i`: the number. */
  function IssueCountAt(s: string, i: nat): Option<nat>
    requires i <= |s|
  {
    var d := DigitRunEnd(s, i);
    var w := SpaceRunEnd(s, d);
    if d == i || w == d || !OccursAt("issue", s, w) then None
    else Some(ParseDigits(s[i..d]))
  }

  /** The issue-count pattern anchored at each index of `s`; nothing past the end. */
  function IssueCountMatcher(s: string): nat -> Option<nat> {
    (k: nat) => if k <= |s| then IssueCountAt(s, k) else None
  }

  /** `re.search` of the issue-count pattern in `s`. */
  function SearchIssueCount(s: string): Option<nat> {
    Search(IssueCountMatcher(s), 0, |s|)
  }

  /** `<a> services • <b> containers` at the front of `s`: the first count
      ends at `d1`, the second runs from `w3` to `d2`. */
  predicate SummaryLaidOut(s: string, a: string, b: string, d1: nat, w3: nat, d2: nat) {
    && d1 == |a| && w3 == d1 + 12 && d2 == w3 + |b| && d2 + 11 <= |s|
    && s[0..d1] == a && s[d1] == ' ' && s[d1 + 1..d1 + 9] == "services"
    && s[d1 + 9] == ' ' && s[d1 + 10] == '\U{2022}' && s[d1 + 11] == ' '
    && s[w3..d2] == b && s[d2] == ' ' && s[d2 + 1..d2 + 11] == "containers"
  }

  /** The part of a printed summary after the first count. */
  lemma SummaryTailLayout(s: string, t2: string, b: string, rest: string, d1: nat, w3: nat, d2: nat)
    requires d1 <= |s| && s[d1..] == t2 && t2 == " services \U{2022} " + b + " containers" + rest
    requires w3 == d1 + 12 && d2 == w3 + |b|
    ensures d2 + 11 <= |s| && s[d1] == ' ' && s[d1 + 1..d1 + 9] == "services"
    ensures s[d1 + 9] == ' ' && s[d1 + 10] == '\U{2022}' && s[d1 + 11] == ' '
    ensures s[w3..d2] == b && s[d2] == ' ' && s[d2 + 1..d2 + 11] == "containers"
  {
    var tail := " containers" + rest;
    var t1 := b + tail;
    assert t2 == " services \U{2022} " + t1;
    assert s[w3..] == t1;
    assert s[w3..d2] == b;
    assert s[d2..] == tail;
    assert s[d2 + 1..d2 + 11] == tail[1..11];
    assert s[d1 + 1..d1 + 9] == t2[1..9];
  }

  /** The layout of a printed summary, piece by piece. */
  lemma SummaryLayout(s: string, a: string, b: string, rest: string, d1: nat, w3: nat, d2: nat)
    requires s == a + " services \U{2022} " + b + " containers" + rest
    requires d1 == |a| && w3 == d1 + 12 && d2 == w3 + |b|
    ensures SummaryLaidOut(s, a, b, d1, w3, d2)
  {
    var t2 := " services \U{2022} " + b + " containers" + rest;
    assert s == a + t2;
    assert s[0..d1] == a;
    assert s[d1..] == t2;
    SummaryTailLayout(s, t2, b, rest, d1, w3, d2);
  }

  /** How `SummaryAt` reads a text once each of its runs is known. */
  lemma SummaryAtRuns(s: string, d1: nat, w3: nat, d2: nat)
    requires 0 < d1 && d1 + 12 <= w3 < d2 && d2 + 11 <= |s|
    requires DigitRunEnd(s, 0) == d1 && SpaceRunEnd(s, d1) == d1 + 1 && OccursAt("services", s, d1 + 1)
    requires SpaceRunEnd(s, d1 + 9) == d1 + 10 && s[d1 + 10] == '\U{2022}'
    requires SpaceRunEnd(s, d1 + 11) == w3 && w3 > d1 + 11
    requires DigitRunEnd(s, w3) == d2 && SpaceRunEnd(s, d2) == d2 + 1 && OccursAt("containers", s, d2 + 1)
    ensures SummaryAt(s, 0) == Some((ParseDigits(s[0..d1]), ParseDigits(s[w3..d2])))
  {
  }

  /** A number, one space and a word, at index `i`: where the digit run and the
      space run end, and that the word follows. */
  lemma NumberThenWord(s: string, i: nat, d: nat, num: string, word: string)
    requires |num| > 0 && AllDigits(num) && |word| > 0 && !IsSpace(word[0])
    requires d == i + |num| && d + 1 + |word| <= |s| && s[i..d] == num && s[d] == ' '
    requires s[d + 1..d + 1 + |word|] == word
    ensures DigitRunEnd(s, i) == d
    ensures SpaceRunEnd(s, d) == d + 1
    ensures OccursAt(word, s, d + 1)
  {
    forall k | i <= k < d ensures IsDigit(s[k]) {
      assert s[k] == s[i..d][k - i];
    }
    assert s[d + 1] == s[d + 1..d + 1 + |word|][0];
    DigitRunIs(s, i, d);
    SpaceRunIs(s, d, d + 1);
  }

  /** The ` • ` between the two counts of a summary, followed by a digit. */
  lemma SummaryBullet(s: string, i: nat, j: nat)
    requires j == i + 2 && j + 1 < |s| && s[i] == ' ' && s[i + 1] == '\U{2022}' && s[j] == ' ' && IsDigit(s[j + 1])
    ensures SpaceRunEnd(s, i) == i + 1 && SpaceRunEnd(s, j) == j + 1
  {
    SpaceRunIs(s, i, i + 1);
    SpaceRunIs(s, j, j + 1);
  }

  /** The runs of a text laid out as a summary. */
  lemma SummaryRuns(s: string, a: string, b: string, d1: nat, w3: nat, d2: nat)
    requires |a| > 0 && AllDigits(a) && |b| > 0 && AllDigits(b) && SummaryLaidOut(s, a, b, d1, w3, d2)
    ensures DigitRunEnd(s, 0) == d1 && SpaceRunEnd(s, d1) == d1 + 1 && OccursAt("services", s, d1 + 1)
    ensures SpaceRunEnd(s, d1 + 9) == d1 + 10 && SpaceRunEnd(s, d1 + 11) == w3
    ensures DigitRunEnd(s, w3) == d2 && SpaceRunEnd(s, d2) == d2 + 1 && OccursAt("containers", s, d2 + 1)
  {
    NumberThenWord(s, 0, d1, a, "services");
    NumberThenWord(s, w3, d2, b, "containers");
    assert s[w3] == s[w3..d2][0] == b[0];
    SummaryBullet(s, d1 + 9, d1 + 11);
  }

  /** A text laid out as a summary is read as one by the search. */
  lemma SummaryFound(s: string, a: string, b: string, d1: nat, w3: nat, d2: nat)
    requires |a| > 0 && AllDigits(a) && |b| > 0 && AllDigits(b) && SummaryLaidOut(s, a, b, d1, w3, d2)
    ensures SummaryAt(s, 0) == Some((ParseDigits(a), ParseDigits(b)))
  {
    SummaryRuns(s, a, b, d1, w3, d2);
    SummaryAtRuns(s, d1, w3, d2);
  }

  /** A summary printed at the front of the output is the one found. */
  lemma SummaryRoundTrip(services: nat, containers: nat, rest: string)
    ensures SearchSummary(NatToString(services) + " services \U{2022} " + NatToString(containers) + " containers" + rest)
         == Some((services, containers))
  {
    var a, b := NatToString(services), NatToString(containers);
    var s := a + " services \U{2022} " + b + " containers" + rest;
    var d1 := |a|;
    var w3 := d1 + 12;
    var d2 := w3 + |b|;
    SummaryLayout(s, a, b, rest, d1, w3, d2);
    SummaryFound(s, a, b, d1, w3, d2);
    ParseNatToString(services);
    ParseNatToString(containers);
    assert SearchSummary(s) == SummaryAt(s, 0);
  }

  /** An issue count printed at the front of the output is the one found. */
  lemma IssueCountRoundTrip(count: nat, rest: string)
    ensures SearchIssueCount(NatToString(count) + " issue" + rest) == Some(count)
  {
    var a := NatToString(count);
    var s := a + " issue" + rest;
    assert forall k :: 0 <= k < |a| ==> s[k] == a[k];
    assert s[|a|] == ' ' && s[|a| + 1] == 'i';
    assert DigitRunEnd(s, 0) == |a|;
    assert SpaceRunEnd(s, |a|) == |a| + 1;
    assert s == a + (" issue" + rest);
    assert s[|a|..] == " issue" + rest;
    assert s[|a| + 1..|a| + 6] == s[|a|..][1..6] == "issue";
    assert s[0..|a|] == a;
    ParseNatToString(count);
  }

  /** The text `gather_health` scans: colour codes stripped, escaped dashes decoded. */
  function CleanOutput(stdout: string): string {
    DecodeEscapes(StripAnsi(stdout))
  }

  /** The issues recognised in `lines`, in order: lines that hold one of the
      glyphs and whose stripped form matches the issue pattern. */
  function IssuesOf(lines: seq<string>): seq<HealthIssue> {
    if lines == [] then []
    else
      var l := lines[|lines| - 1];
      IssuesOf(lines[..|lines| - 1])
      + (if HasIssueSymbol(l) && MatchIssue(Strip(l)).Some? then [MatchIssue(Strip(l)).value] else [])
  }

  /** What `gather_health` returns, given the outcome of the health script.
      Its return code is not consulted. */
  function HealthOf(result: ProcessResult): HealthResult {
    match result
    case Failed(reason) => HealthError(reason)
    case Completed(_, out) =>
      var text := CleanOutput(out);
      var issues := IssuesOf(Split(text, '\n'));
      var summary := SearchSummary(text);
      HealthOk(
        if summary.Some? then summary.value.0 else 0,
        if summary.Some? then summary.value.1 else 0,
        SearchIssueCount(text).GetOr(|issues|),
        issues)
  }

  /** `gather_health`: the loop over the output's lines, then the two searches. */
  method GatherHealth(result: ProcessResult) returns (r: HealthResult)
    ensures r == HealthOf(result)
    ensures r.HealthOk? <==> result.Completed?
    ensures r.HealthOk? && SearchSummary(CleanOutput(result.stdout)).None? ==> r.totalServices == 0 && r.totalContainers == 0
    ensures r.HealthOk? && SearchIssueCount(CleanOutput(result.stdout)).None? ==> r.issueCount == |r.issues|
  {
    match result {
      case Failed(reason) =>
        return HealthError(reason);
      case Completed(_, out) =>
        var text := CleanOutput(out);
        var lines := Split(text, '\n');
        var issues := [];
        var i := 0;
        while i < |lines|
          invariant 0 <= i <= |lines|
          invariant issues == IssuesOf(lines[..i])
        {
          var line := lines[i];
          assert lines[..i + 1][..i] == lines[..i];
          if HasIssueSymbol(line) {
            var m := MatchIssue(Strip(line));
            if m.Some? {
              issues := issues + [m.value];
            }
          }
          i := i + 1;
        }
        assert lines[..i] == lines;
        var summary := SearchSummary(text);
        var stated := SearchIssueCount(text);
        return HealthOk(
          if summary.Some? then summary.value.0 else 0,
          if summary.Some? then summary.value.1 else 0,
          if stated.Some? then stated.value else |issues|,
          issues);
    }
  }
}
