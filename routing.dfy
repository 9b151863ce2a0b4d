/**
  `SystemContext.gather_relevant` (homelab_brain/system_context.py:165-206):
  the lower-cased query is tested for keyword substrings, each matching
  keyword set puts its section into the context, and an empty context is
  replaced by the default bundle.
 */
module Routing {
  import opened Text
  import opened ContextModel

  const CpuWords: seq<string> := ["cpu", "processor", "load", "performance"]
  const MemoryWords: seq<string> := ["memory", "ram", "mem"]
  const DiskWords: seq<string> := ["disk", "storage", "space", "drive"]
  const DockerWords: seq<string> := ["docker", "container", "service"]
  const SummaryWords: seq<string> := ["summary", "status", "health", "issue", "problem", "error"]
  const RemoteWords: seq<string> := ["tgoml", "remote", "gpu", "workstation"]

  /** `any(word in query_lower for word in words)`. */
  predicate MentionsAny(lowered: string, words: seq<string>) {
    exists w <- words :: IsSubstring(w, lowered)
  }

  /** The keywords that put category `c` into the context: the remote host is
      also gathered for every summary keyword. */
  function Keywords(c: Category): seq<string> {
    match c
    case Cpu => CpuWords
    case Memory => MemoryWords
    case Disk => DiskWords
    case Docker => DockerWords
    case Health => SummaryWords
    case RemoteHost => SummaryWords + RemoteWords
  }

  /** The test of category `c` in `gather_relevant`: one `any(...)`, or for
      the remote host either of the two that store it. */
  predicate Triggers(lowered: string, c: Category) {
    match c
    case RemoteHost => MentionsAny(lowered, SummaryWords) || MentionsAny(lowered, RemoteWords)
    case _ => MentionsAny(lowered, Keywords(c))
  }

  /** A category is triggered exactly when one of its keywords occurs. */
  lemma TriggersIff(lowered: string, c: Category)
    ensures Triggers(lowered, c) <==> MentionsAny(lowered, Keywords(c))
  {
    MentionsConcat(lowered, SummaryWords, RemoteWords);
  }

  /** `keys` followed by `c` when the test `b` holds. */
  function Stage(keys: seq<Category>, b: bool, c: Category): seq<Category> {
    if b then keys + [c] else keys
  }

  /** The categories stored for the six keyword tests' outcomes, in the
      order the `if` statements run: a summary keyword stores health and the
      remote host, a remote keyword the remote host. */
  function Stored(cpu: bool, memory: bool, disk: bool, docker: bool, summary: bool, remote: bool): seq<Category> {
    var k := Stage(Stage(Stage(Stage([], cpu, Cpu), memory, Memory), disk, Disk), docker, Docker);
    Stage(Stage(k, summary, Health), summary || remote, RemoteHost)
  }

  /** The categories whose keywords the lowered query mentions, in the order
      the `if` statements test them. */
  function Triggered(lowered: string): seq<Category> {
    Stored(MentionsAny(lowered, CpuWords), MentionsAny(lowered, MemoryWords),
      MentionsAny(lowered, DiskWords), MentionsAny(lowered, DockerWords),
      MentionsAny(lowered, SummaryWords), MentionsAny(lowered, RemoteWords))
  }

  /** The default bundle of line 199. */
  const Fallback: seq<Category> := [Cpu, Memory, Health, RemoteHost]

  /** The keys of the routed context, in insertion order. */
  function RoutedKeys(query: string): seq<Category> {
    var picked := Triggered(Lower(query));
    if picked == [] then Fallback else picked
  }

  /** The context `gather_relevant` returns for `query` when each gatherer
      returns its entry of `readings`. */
  function RoutedContext(query: string, readings: Readings): Context {
    ContextOf(RoutedKeys(query), readings)
  }

  /** The method itself: the six keyword tests in source order, then the
      fallback. */
  method GatherRelevant(query: string, readings: Readings) returns (context: Context)
    ensures context == RoutedContext(query, readings)
    ensures Keys(context) == RoutedKeys(query)
  {
    var lowered := Lower(query);
    context := StoreTriggered(
      MentionsAny(lowered, CpuWords), MentionsAny(lowered, MemoryWords),
      MentionsAny(lowered, DiskWords), MentionsAny(lowered, DockerWords),
      MentionsAny(lowered, SummaryWords), MentionsAny(lowered, RemoteWords), readings);
    if context == [] {
      context := [readings.Of(Cpu), readings.Of(Memory), readings.Of(Health), readings.Of(RemoteHost)];
      assert context == ContextOf(Fallback, readings);
    }
    ContextOfKeys(RoutedKeys(query), readings);
  }

  /** The `if` statements of `gather_relevant` given their tests' outcomes:
      each stores its gatherer's section under its key, so a remote keyword
      after a summary keyword rewrites the remote-host entry in place. */
  method StoreTriggered(cpu: bool, memory: bool, disk: bool, docker: bool, summary: bool, remote: bool,
                        readings: Readings) returns (context: Context)
    ensures context == ContextOf(Stored(cpu, memory, disk, docker, summary, remote), readings)
  {
    context := [];
    ghost var keys: seq<Category> := [];
    context := StoreIf(context, keys, cpu, Cpu, readings);
    keys := Stage(keys, cpu, Cpu);
    context := StoreIf(context, keys, memory, Memory, readings);
    keys := Stage(keys, memory, Memory);
    context := StoreIf(context, keys, disk, Disk, readings);
    keys := Stage(keys, disk, Disk);
    context := StoreIf(context, keys, docker, Docker, readings);
    keys := Stage(keys, docker, Docker);
    context := StoreIf(context, keys, summary, Health, readings);
    keys := Stage(keys, summary, Health);
    context := StoreIf(context, keys, summary, RemoteHost, readings);
    keys := Stage(keys, summary, RemoteHost);
    if remote {
      if summary {
        PutSameReading(keys, readings, RemoteHost);
      } else {
        PutNewReading(keys, readings, RemoteHost);
      }
      context := Put(context, readings.Of(RemoteHost));
    }
  }

  /** One assignment of `gather_relevant` under its test: when `b` holds, the
      reading of `c`, a key not stored yet, is stored. */
  method StoreIf(context: Context, ghost keys: seq<Category>, b: bool, c: Category, readings: Readings)
    returns (next: Context)
    requires context == ContextOf(keys, readings) && (b ==> c !in keys)
    ensures next == ContextOf(Stage(keys, b, c), readings)
  {
    next := context;
    if b {
      PutNewReading(keys, readings, c);
      next := Put(context, readings.Of(c));
    }
  }

  /** Mentioning a word of `a + b` is mentioning one of `a` or one of `b`. */
  lemma MentionsConcat(lowered: string, a: seq<string>, b: seq<string>)
    ensures MentionsAny(lowered, a + b) <==> MentionsAny(lowered, a) || MentionsAny(lowered, b)
  {
    if MentionsAny(lowered, a + b) {
      var w :| w in a + b && IsSubstring(w, lowered);
      assert w in a || w in b;
    }
    if MentionsAny(lowered, a) {
      var w :| w in a && IsSubstring(w, lowered);
      assert w in a + b;
    }
    if MentionsAny(lowered, b) {
      var w :| w in b && IsSubstring(w, lowered);
      assert w in a + b;
    }
  }

  /** `Stage` adds `c` exactly when its test holds. */
  lemma StageHas(keys: seq<Category>, b: bool, c: Category, d: Category)
    ensures d in Stage(keys, b, c) <==> d in keys || (b && d == c)
  {
  }

  /** The test outcome that stores category `c`. */
  function Fires(cpu: bool, memory: bool, disk: bool, docker: bool, summary: bool, remote: bool, c: Category): bool {
    match c
    case Cpu => cpu
    case Memory => memory
    case Disk => disk
    case Docker => docker
    case Health => summary
    case RemoteHost => summary || remote
  }

  /** A category is stored exactly when the test that stores it holds. */
  lemma StoredHas(cpu: bool, memory: bool, disk: bool, docker: bool, summary: bool, remote: bool, c: Category)
    ensures c in Stored(cpu, memory, disk, docker, summary, remote)
        <==> Fires(cpu, memory, disk, docker, summary, remote, c)
  {
    var k1 := Stage([], cpu, Cpu);
    var k2 := Stage(k1, memory, Memory);
    var k3 := Stage(k2, disk, Disk);
    var k4 := Stage(k3, docker, Docker);
    var k5 := Stage(k4, summary, Health);
    StageHas([], cpu, Cpu, c);
    StageHas(k1, memory, Memory, c);
    StageHas(k2, disk, Disk, c);
    StageHas(k3, docker, Docker, c);
    StageHas(k4, summary, Health, c);
    StageHas(k5, summary || remote, RemoteHost, c);
  }

  /** A category is among the triggered ones exactly when its test fires. */
  lemma TriggeredHas(lowered: string, c: Category)
    ensures c in Triggered(lowered) <==> Triggers(lowered, c)
  {
    StoredHas(MentionsAny(lowered, CpuWords), MentionsAny(lowered, MemoryWords),
      MentionsAny(lowered, DiskWords), MentionsAny(lowered, DockerWords),
      MentionsAny(lowered, SummaryWords), MentionsAny(lowered, RemoteWords), c);
  }

  /** A category is routed exactly when one of its keywords occurs in the
      lowered query, or when no keyword at all occurs and it is in the default
      bundle. */
  lemma RoutedIff(query: string, c: Category)
    ensures c in RoutedKeys(query)
        <==> MentionsAny(Lower(query), Keywords(c))
             || (Triggered(Lower(query)) == [] && c in Fallback)
  {
    TriggeredHas(Lower(query), c);
    TriggersIff(Lower(query), c);
  }

  /** The routed context is never empty. */
  lemma RoutedNonEmpty(query: string)
    ensures |RoutedKeys(query)| > 0
  {
  }

  /** With no keyword in the query the keys are exactly cpu, memory, health
      and remote_host. */
  lemma FallbackExact(query: string)
    requires forall c: Category :: !MentionsAny(Lower(query), Keywords(c))
    ensures RoutedKeys(query) == [Cpu, Memory, Health, RemoteHost]
  {
    var l := Lower(query);
    assert !MentionsAny(l, Keywords(Cpu)) && !MentionsAny(l, Keywords(Memory));
    assert !MentionsAny(l, Keywords(Disk)) && !MentionsAny(l, Keywords(Docker));
    assert !MentionsAny(l, Keywords(RemoteHost));
    MentionsConcat(l, SummaryWords, RemoteWords);
  }

  /** Whenever the health section is gathered, so is the remote host. */
  lemma HealthBringsRemote(query: string)
    ensures Health in RoutedKeys(query) ==> RemoteHost in RoutedKeys(query)
  {
    TriggeredHas(Lower(query), Health);
    TriggeredHas(Lower(query), RemoteHost);
  }

  /** Categories listed in strictly increasing rank, hence without repeats. */
  predicate Ascending(keys: seq<Category>) {
    forall i, j :: 0 <= i < j < |keys| ==> Rank(keys[i]) < Rank(keys[j])
  }

  /** Every category of `keys` ranks below `n`. */
  predicate RanksBelow(keys: seq<Category>, n: nat) {
    forall k <- keys :: Rank(k) < n
  }

  /** Appending a category that outranks all the others keeps the order. */
  lemma StageAscending(keys: seq<Category>, b: bool, c: Category)
    requires Ascending(keys) && RanksBelow(keys, Rank(c))
    ensures Ascending(Stage(keys, b, c)) && RanksBelow(Stage(keys, b, c), Rank(c) + 1)
  {
  }

  /** The tests store their categories in rank order. */
  lemma {:induction false} StoredAscending(cpu: bool, memory: bool, disk: bool, docker: bool, summary: bool, remote: bool)
    ensures Ascending(Stored(cpu, memory, disk, docker, summary, remote))
  {
    var k1 := Stage([], cpu, Cpu);
    StageAscending([], cpu, Cpu);
    var k2 := Stage(k1, memory, Memory);
    StageAscending(k1, memory, Memory);
    var k3 := Stage(k2, disk, Disk);
    StageAscending(k2, disk, Disk);
    var k4 := Stage(k3, docker, Docker);
    StageAscending(k3, docker, Docker);
    var k5 := Stage(k4, summary, Health);
    StageAscending(k4, summary, Health);
    StageAscending(k5, summary || remote, RemoteHost);
  }

  /** The keys come in the fixed order cpu, memory, disk, docker, health,
      remote_host, so none repeats. */
  lemma RoutedInOrder(query: string)
    ensures Ascending(RoutedKeys(query))
  {
    var l := Lower(query);
    StoredAscending(MentionsAny(l, CpuWords), MentionsAny(l, MemoryWords),
      MentionsAny(l, DiskWords), MentionsAny(l, DockerWords),
      MentionsAny(l, SummaryWords), MentionsAny(l, RemoteWords));
  }

  /** A keyword anywhere in the query, in any mix of cases, routes its category. */
  lemma KeywordAnywhere(c: Category, w: string, pre: string, spelled: string, post: string)
    requires w in Keywords(c) && Lower(spelled) == w
    ensures c in RoutedKeys(pre + spelled + post)
  {
    var q := pre + spelled + post;
    LowerConcat(pre + spelled, post);
    LowerConcat(pre, spelled);
    SubstringOfConcat(Lower(pre), w, Lower(post));
    assert IsSubstring(w, Lower(q));
    RoutedIff(q, c);
  }

  /** Routing ignores case: a query and its lower-cased form route alike. */
  lemma RoutingIgnoresCase(query: string)
    ensures RoutedKeys(Lower(query)) == RoutedKeys(query)
  {
    LowerIdempotent(query);
  }
}
