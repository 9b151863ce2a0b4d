/**
  `SystemContext.format_for_prompt` (homelab_brain/system_context.py:208-251):
  the context dict rendered as the lines of the "Current system state" block,
  one group of lines per section in a fixed order, joined with newlines.
 */
module Prompt {
  import opened Wrappers
  import opened Text
  import opened Gatherers
  import opened ContextModel

  const Header: string := "Current system state:"

  /** The most containers listed under a Docker or remote-host headline. */
  const ListedContainers: nat := 5

  const Bullet: string := "  \U{2022} "

  /** `f"  • {c['name']}: {c['status']}"`. */
  function ContainerLine(name: string, status: string): string {
    Bullet + name + ": " + status
  }

  function CpuLine(r: CpuReading): string {
    "- CPU: " + r.percent + "% (" + r.count + " cores, load: " + r.loadAvg + ")"
  }

  function MemoryLine(r: MemoryReading): string {
    "- Memory: " + r.percent + "% used (" + r.availableGb + "/" + r.totalGb + " GB available)"
  }

  function DiskLine(r: DiskReading): string {
    "- Disk: " + r.percent + "% used (" + r.freeGb + "/" + r.totalGb + " GB free)"
  }

  function Min(a: nat, b: nat): nat {
    if a <= b then a else b
  }

  /** The `name` and `status` that a container bullet shows. */
  type Entry = (string, string)

  /** The entries of the local containers, in order. */
  function DockerEntries(cs: seq<DockerContainer>): seq<Entry> {
    seq(|cs|, i requires 0 <= i < |cs| => (cs[i].name, cs[i].status))
  }

  /** The entries of the remote containers, in order. */
  function RemoteEntries(cs: seq<RemoteContainer>): seq<Entry> {
    seq(|cs|, i requires 0 <= i < |cs| => (cs[i].name, cs[i].status))
  }

  /** One bullet for each of the first five containers, in order. */
  function Bullets(entries: seq<Entry>): (r: seq<string>)
    ensures |r| == Min(ListedContainers, |entries|)
    ensures forall i :: 0 <= i < |r| ==> r[i] == ContainerLine(entries[i].0, entries[i].1)
  {
    var n := Min(ListedContainers, |entries|);
    seq(n, i requires 0 <= i < n => ContainerLine(entries[i].0, entries[i].1))
  }

  /** One line for each issue, in order. */
  function IssueLines(issues: seq<HealthIssue>): (r: seq<string>)
    ensures |r| == |issues|
    ensures forall i :: 0 <= i < |r| ==> r[i] == IssueLine(issues[i])
  {
    seq(|issues|, i requires 0 <= i < |issues| => IssueLine(issues[i]))
  }

  /** `f"    • {issue['category']}: {issue['name']} - {issue['message']}"`. */
  function IssueLine(issue: HealthIssue): string {
    "    \U{2022} " + issue.category + ": " + issue.name + " - " + issue.message
  }

  /** The Docker lines: nothing for an error, else the running count and up
      to five containers. */
  function DockerLines(d: DockerResult): seq<string> {
    match d
    case DockerError(_) => []
    case DockerOk(running, cs) =>
      ["- Docker: " + NatToString(running) + " containers running"] + Bullets(DockerEntries(cs))
  }

  function HealthHeadline(services: nat, containers: nat, issueCount: nat): string {
    "- Health: " + NatToString(services) + " services, " + NatToString(containers)
    + " containers, " + NatToString(issueCount) + " issues"
  }

  /** The health lines: nothing for an error, else the counts and, when there
      are issues, every one of them under a heading. */
  function HealthLines(h: HealthResult): seq<string> {
    match h
    case HealthError(_) => []
    case HealthOk(services, containers, issueCount, issues) =>
      [HealthHeadline(services, containers, issueCount)]
      + (if issues == [] then [] else ["  Issues found:"] + IssueLines(issues))
  }

  const Unreachable: string := "- Remote host: unreachable or sleeping"

  /** The remote-host lines: a single notice when it is not reachable, else
      the hostname, the container count and up to five containers. */
  function RemoteLines(r: RemoteResult): seq<string> {
    match r
    case RemoteError(_) => [Unreachable]
    case RemoteOk(hostname, count, cs) =>
      ["- Remote host (" + hostname + "): " + NatToString(count) + " containers running"] + Bullets(RemoteEntries(cs))
  }

  /** The lines one section contributes. */
  function SectionLines(s: Section): seq<string> {
    match s
    case CpuSection(r) => [CpuLine(r)]
    case MemorySection(r) => [MemoryLine(r)]
    case DiskSection(r) => [DiskLine(r)]
    case DockerSection(d) => DockerLines(d)
    case HealthSection(h) => HealthLines(h)
    case RemoteSection(r) => RemoteLines(r)
  }

  /** The lines of a looked-up section, or none when the key is absent. */
  function FoundLines(found: Option<Section>): seq<string> {
    match found
    case None => []
    case Some(s) => SectionLines(s)
  }

  /** The lines of the section stored under `c`. */
  function LinesFor(ctx: Context, c: Category): seq<string> {
    FoundLines(Lookup(ctx, c))
  }

  /** The header, then the sections in the fixed order cpu, memory, disk,
      docker, health, remote_host, whatever order they were stored in. */
  function PromptLines(ctx: Context): seq<string> {
    [Header] + LinesFor(ctx, Cpu) + LinesFor(ctx, Memory) + LinesFor(ctx, Disk)
    + LinesFor(ctx, Docker) + LinesFor(ctx, Health) + LinesFor(ctx, RemoteHost)
  }

  /** The text `format_for_prompt` returns. */
  function PromptText(ctx: Context): string {
    Join(PromptLines(ctx), '\n')
  }

  /** The method itself: `lines` grows section by section, the container
      lists through capped loops and the issues through an uncapped one,
      and is joined at the end. */
  method FormatForPrompt(ctx: Context) returns (text: string)
    ensures text == PromptText(ctx)
  {
    var lines := [Header];
    lines := AppendSection(lines, Lookup(ctx, Cpu));
    lines := AppendSection(lines, Lookup(ctx, Memory));
    lines := AppendSection(lines, Lookup(ctx, Disk));
    lines := AppendSection(lines, Lookup(ctx, Docker));
    lines := AppendSection(lines, Lookup(ctx, Health));
    lines := AppendSection(lines, Lookup(ctx, RemoteHost));
    text := Join(lines, '\n');
  }

  /** One `if key in context:` block: the section's lines when it is present. */
  method AppendSection(lines: seq<string>, found: Option<Section>) returns (out: seq<string>)
    ensures out == lines + FoundLines(found)
  {
    out := lines;
    if found.Some? {
      match found.value
      case CpuSection(r) => out := out + [CpuLine(r)];
      case MemorySection(r) => out := out + [MemoryLine(r)];
      case DiskSection(r) => out := out + [DiskLine(r)];
      case DockerSection(d) => out := AppendDocker(out, d);
      case HealthSection(h) => out := AppendHealth(out, h);
      case RemoteSection(r) => out := AppendRemote(out, r);
    }
  }

  /** The Docker branch: the headline, then a loop over the first five
      containers. */
  method AppendDocker(lines: seq<string>, d: DockerResult) returns (out: seq<string>)
    ensures out == lines + DockerLines(d)
  {
    out := lines;
    if d.DockerOk? {
      out := out + ["- Docker: " + NatToString(d.running) + " containers running"];
      var head := out;
      var n := Min(ListedContainers, |d.containers|);
      var i := 0;
      while i < n
        invariant 0 <= i <= n
        invariant out == head + Bullets(DockerEntries(d.containers))[..i]
      {
        Extend(head, Bullets(DockerEntries(d.containers)), i);
        out := out + [ContainerLine(d.containers[i].name, d.containers[i].status)];
        i := i + 1;
      }
      assert Bullets(DockerEntries(d.containers))[..n] == Bullets(DockerEntries(d.containers));
    }
  }

  /** One more element of `r` after the first `i`. */
  lemma Extend(head: seq<string>, r: seq<string>, i: nat)
    requires i < |r|
    ensures head + r[..i + 1] == head + r[..i] + [r[i]]
  {
    assert r[..i + 1] == r[..i] + [r[i]];
  }

  /** The health branch: the counts, then a loop over every issue. */
  method AppendHealth(lines: seq<string>, h: HealthResult) returns (out: seq<string>)
    ensures out == lines + HealthLines(h)
  {
    out := lines;
    if h.HealthOk? {
      out := out + [HealthHeadline(h.totalServices, h.totalContainers, h.issueCount)];
      if h.issues != [] {
        out := out + ["  Issues found:"];
        out := AppendIssues(out, h.issues);
      }
    }
  }

  /** The loop over every issue. */
  method AppendIssues(lines: seq<string>, issues: seq<HealthIssue>) returns (out: seq<string>)
    ensures out == lines + IssueLines(issues)
  {
    out := lines;
    var i := 0;
    while i < |issues|
      invariant 0 <= i <= |issues|
      invariant out == lines + IssueLines(issues)[..i]
    {
      Extend(lines, IssueLines(issues), i);
      out := out + [IssueLine(issues[i])];
      i := i + 1;
    }
    assert IssueLines(issues)[..i] == IssueLines(issues);
  }

  /** The remote-host branch: the unreachable notice, or the headline and a
      loop over the first five containers. */
  method AppendRemote(lines: seq<string>, r: RemoteResult) returns (out: seq<string>)
    ensures out == lines + RemoteLines(r)
  {
    if r.RemoteOk? {
      out := lines + ["- Remote host (" + r.hostname + "): " + NatToString(r.containerCount) + " containers running"];
      var head := out;
      var n := Min(ListedContainers, |r.containers|);
      var i := 0;
      while i < n
        invariant 0 <= i <= n
        invariant out == head + Bullets(RemoteEntries(r.containers))[..i]
      {
        Extend(head, Bullets(RemoteEntries(r.containers)), i);
        out := out + [ContainerLine(r.containers[i].name, r.containers[i].status)];
        i := i + 1;
      }
      assert Bullets(RemoteEntries(r.containers))[..n] == Bullets(RemoteEntries(r.containers));
    } else {
      out := lines + [Unreachable];
    }
  }

  // ------------------------------------------------------------ properties

  /** The prompt text always opens with the header line. */
  lemma PromptStartsWithHeader(ctx: Context)
    ensures Header <= PromptText(ctx)
  {
    JoinHead(PromptLines(ctx), '\n');
  }

  /** The lines a section contributes: one for a reading, none for a failed
      Docker or health check, one for an unreachable remote host, and the
      headline plus at most five containers for a container list. */
  lemma SectionLineCounts(s: Section)
    ensures s.CpuSection? || s.MemorySection? || s.DiskSection? ==> |SectionLines(s)| == 1
    ensures s.DockerSection? ==>
      |SectionLines(s)| == match s.docker
        case DockerError(_) => 0
        case DockerOk(_, cs) => 1 + Min(ListedContainers, |cs|)
    ensures s.HealthSection? ==>
      |SectionLines(s)| == match s.health
        case HealthError(_) => 0
        case HealthOk(_, _, _, issues) => if issues == [] then 1 else 2 + |issues|
    ensures s.RemoteSection? ==>
      |SectionLines(s)| == match s.remote
        case RemoteError(_) => 1
        case RemoteOk(_, _, cs) => 1 + Min(ListedContainers, |cs|)
  {
  }

  /** Two contexts that hold the same section under every key render the
      same prompt: insertion order does not matter. */
  lemma PromptIgnoresOrder(ctx1: Context, ctx2: Context)
    requires forall c: Category :: Lookup(ctx1, c) == Lookup(ctx2, c)
    ensures PromptText(ctx1) == PromptText(ctx2)
  {
    assert LinesFor(ctx1, Cpu) == LinesFor(ctx2, Cpu);
    assert LinesFor(ctx1, Memory) == LinesFor(ctx2, Memory);
    assert LinesFor(ctx1, Disk) == LinesFor(ctx2, Disk);
    assert LinesFor(ctx1, Docker) == LinesFor(ctx2, Docker);
    assert LinesFor(ctx1, Health) == LinesFor(ctx2, Health);
    assert LinesFor(ctx1, RemoteHost) == LinesFor(ctx2, RemoteHost);
  }

  /** Every text field of a section is free of newlines. */
  predicate SingleLine(s: Section) {
    match s
    case CpuSection(r) => '\n' !in r.percent + r.count + r.loadAvg
    case MemorySection(r) => '\n' !in r.percent + r.availableGb + r.totalGb
    case DiskSection(r) => '\n' !in r.percent + r.freeGb + r.totalGb
    case DockerSection(d) =>
      d.DockerOk? ==> forall c <- d.containers :: '\n' !in c.name + c.status
    case HealthSection(h) =>
      h.HealthOk? ==> forall i <- h.issues :: '\n' !in i.category + i.name + i.message
    case RemoteSection(r) =>
      r.RemoteOk? ==> '\n' !in r.hostname && forall c <- r.containers :: '\n' !in c.name + c.status
  }

  /** Decimal numbers never hold a newline. */
  lemma NumberSingleLine(n: nat)
    ensures '\n' !in NatToString(n)
  {
    var s := NatToString(n);
    forall i | 0 <= i < |s| ensures s[i] != '\n' {
      assert IsDigit(s[i]);
    }
  }

  /** Container bullets of single-line names and statuses are single lines. */
  lemma ContainerLineSingle(name: string, status: string)
    requires '\n' !in name + status
    ensures '\n' !in ContainerLine(name, status)
  {
    assert ContainerLine(name, status) == Bullet + name + ": " + status;
  }

  lemma IssueLineSingle(issue: HealthIssue)
    requires '\n' !in issue.category + issue.name + issue.message
    ensures '\n' !in IssueLine(issue)
  {
    assert IssueLine(issue) == "    \U{2022} " + issue.category + ": " + issue.name + " - " + issue.message;
  }

  /** No line holds a newline. */
  predicate NoNewlines(lines: seq<string>) {
    forall line <- lines :: '\n' !in line
  }

  /** Newline-free lines stay newline-free when concatenated. */
  lemma NoNewlinesConcat(a: seq<string>, b: seq<string>)
    requires NoNewlines(a) && NoNewlines(b)
    ensures NoNewlines(a + b)
  {
  }

  /** The Docker lines are single lines when the container fields are. */
  lemma DockerLinesSingle(d: DockerResult)
    requires SingleLine(DockerSection(d))
    ensures NoNewlines(DockerLines(d))
  {
    if d.DockerOk? {
      NumberSingleLine(d.running);
      var b := Bullets(DockerEntries(d.containers));
      forall i | 0 <= i < |b| ensures '\n' !in b[i] {
        assert d.containers[i] in d.containers;
        ContainerLineSingle(d.containers[i].name, d.containers[i].status);
      }
      assert NoNewlines(["- Docker: " + NatToString(d.running) + " containers running"]);
      NoNewlinesConcat(["- Docker: " + NatToString(d.running) + " containers running"], b);
    }
  }

  /** The health lines are single lines when the issue fields are. */
  lemma HealthLinesSingle(h: HealthResult)
    requires SingleLine(HealthSection(h))
    ensures NoNewlines(HealthLines(h))
  {
    if h.HealthOk? {
      var headline := HealthHeadline(h.totalServices, h.totalContainers, h.issueCount);
      NumberSingleLine(h.totalServices);
      NumberSingleLine(h.totalContainers);
      NumberSingleLine(h.issueCount);
      assert headline == "- Health: " + NatToString(h.totalServices) + " services, " + NatToString(h.totalContainers)
        + " containers, " + NatToString(h.issueCount) + " issues";
      assert NoNewlines([headline]);
      if h.issues != [] {
        var b := IssueLines(h.issues);
        forall k | 0 <= k < |b| ensures '\n' !in b[k] {
          assert h.issues[k] in h.issues;
          IssueLineSingle(h.issues[k]);
        }
        assert NoNewlines(["  Issues found:"]);
        NoNewlinesConcat(["  Issues found:"], b);
        NoNewlinesConcat([headline], ["  Issues found:"] + b);
      }
    }
  }

  /** The remote-host lines are single lines when the hostname and the
      container fields are. */
  lemma RemoteLinesSingle(r: RemoteResult)
    requires SingleLine(RemoteSection(r))
    ensures NoNewlines(RemoteLines(r))
  {
    if r.RemoteOk? {
      NumberSingleLine(r.containerCount);
      var b := Bullets(RemoteEntries(r.containers));
      forall i | 0 <= i < |b| ensures '\n' !in b[i] {
        assert r.containers[i] in r.containers;
        ContainerLineSingle(r.containers[i].name, r.containers[i].status);
      }
      var headline := "- Remote host (" + r.hostname + "): " + NatToString(r.containerCount) + " containers running";
      assert NoNewlines([headline]);
      NoNewlinesConcat([headline], b);
    } else {
      UnreachableSingle();
    }
  }

  /** The unreachable notice is one line. */
  lemma UnreachableSingle()
    ensures NoNewlines([Unreachable])
  {
  }

  /** The CPU, memory and disk lines are single lines when their fields are. */
  lemma CpuLineSingle(r: CpuReading)
    requires '\n' !in r.percent + r.count + r.loadAvg
    ensures NoNewlines([CpuLine(r)])
  {
    assert CpuLine(r) == "- CPU: " + r.percent + "% (" + r.count + " cores, load: " + r.loadAvg + ")";
  }

  lemma MemoryLineSingle(r: MemoryReading)
    requires '\n' !in r.percent + r.availableGb + r.totalGb
    ensures NoNewlines([MemoryLine(r)])
  {
    assert MemoryLine(r) == "- Memory: " + r.percent + "% used (" + r.availableGb + "/" + r.totalGb + " GB available)";
  }

  lemma DiskLineSingle(r: DiskReading)
    requires '\n' !in r.percent + r.freeGb + r.totalGb
    ensures NoNewlines([DiskLine(r)])
  {
    assert DiskLine(r) == "- Disk: " + r.percent + "% used (" + r.freeGb + "/" + r.totalGb + " GB free)";
  }

  /** A section whose fields are single-line contributes single-line lines. */
  lemma SectionLinesSingle(s: Section)
    requires SingleLine(s)
    ensures NoNewlines(SectionLines(s))
  {
    match s
    case CpuSection(r) => CpuLineSingle(r);
    case MemorySection(r) => MemoryLineSingle(r);
    case DiskSection(r) => DiskLineSingle(r);
    case DockerSection(d) => DockerLinesSingle(d);
    case HealthSection(h) => HealthLinesSingle(h);
    case RemoteSection(r) => RemoteLinesSingle(r);
  }

  /** The lines of any stored section are newline-free when its fields are. */
  lemma LinesForSingle(ctx: Context, c: Category)
    requires forall s <- ctx :: SingleLine(s)
    ensures NoNewlines(LinesFor(ctx, c))
  {
    var found := Lookup(ctx, c);
    if found.Some? {
      SectionLinesSingle(found.value);
    }
  }

  /** Every assembled line is newline-free when the fields are. */
  lemma PromptLinesSingle(ctx: Context)
    requires forall s <- ctx :: SingleLine(s)
    ensures NoNewlines(PromptLines(ctx))
  {
    var l := [Header];
    assert NoNewlines(l);
    LinesForSingle(ctx, Cpu);
    NoNewlinesConcat(l, LinesFor(ctx, Cpu));
    l := l + LinesFor(ctx, Cpu);
    LinesForSingle(ctx, Memory);
    NoNewlinesConcat(l, LinesFor(ctx, Memory));
    l := l + LinesFor(ctx, Memory);
    LinesForSingle(ctx, Disk);
    NoNewlinesConcat(l, LinesFor(ctx, Disk));
    l := l + LinesFor(ctx, Disk);
    LinesForSingle(ctx, Docker);
    NoNewlinesConcat(l, LinesFor(ctx, Docker));
    l := l + LinesFor(ctx, Docker);
    LinesForSingle(ctx, Health);
    NoNewlinesConcat(l, LinesFor(ctx, Health));
    l := l + LinesFor(ctx, Health);
    LinesForSingle(ctx, RemoteHost);
    NoNewlinesConcat(l, LinesFor(ctx, RemoteHost));
    l := l + LinesFor(ctx, RemoteHost);
    assert l == PromptLines(ctx);
  }

  /** With single-line fields, splitting the prompt at its newlines gives back
      exactly the lines `format_for_prompt` assembled. */
  lemma PromptSplitsIntoLines(ctx: Context)
    requires forall s <- ctx :: SingleLine(s)
    ensures Split(PromptText(ctx), '\n') == PromptLines(ctx)
  {
    PromptLinesSingle(ctx);
    SplitJoin(PromptLines(ctx), '\n');
  }
}
