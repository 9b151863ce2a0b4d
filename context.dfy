/**
  The context dict that `SystemContext.gather_relevant` fills and
  `format_for_prompt` reads (homelab_brain/system_context.py): at most one
  section per category, kept in insertion order as a Python dict keeps its keys.
 */
module ContextModel {
  import opened Wrappers
  import opened Gatherers

  /** The six keys a routed context can hold. */
  datatype Category = Cpu | Memory | Disk | Docker | Health | RemoteHost

  /** The order in which `gather_relevant` tests the categories and
      `format_for_prompt` renders them. */
  const Categories: seq<Category> := [Cpu, Memory, Disk, Docker, Health, RemoteHost]

  /** A category's position in `Categories`. */
  function Rank(c: Category): (n: nat)
    ensures n < |Categories| && Categories[n] == c
  {
    match c
    case Cpu => 0
    case Memory => 1
    case Disk => 2
    case Docker => 3
    case Health => 4
    case RemoteHost => 5
  }

  /** The dict key a category is stored under. */
  function KeyName(c: Category): string {
    match c
    case Cpu => "cpu"
    case Memory => "memory"
    case Disk => "disk"
    case Docker => "docker"
    case Health => "health"
    case RemoteHost => "remote_host"
  }

  /** Distinct categories have distinct key names, and none of them is `network`. */
  lemma KeyNamesDistinct(c: Category, d: Category)
    ensures KeyName(c) == KeyName(d) <==> c == d
    ensures KeyName(c) != "network"
  {
  }

  /** The psutil readings, kept as the text their f-strings render. */
  datatype CpuReading = CpuReading(percent: string, count: string, loadAvg: string)
  datatype MemoryReading = MemoryReading(totalGb: string, availableGb: string, percent: string)
  datatype DiskReading = DiskReading(totalGb: string, usedGb: string, freeGb: string, percent: string)

  /** One value of the context dict; its kind decides its key. */
  datatype Section =
    | CpuSection(cpu: CpuReading)
    | MemorySection(memory: MemoryReading)
    | DiskSection(disk: DiskReading)
    | DockerSection(docker: DockerResult)
    | HealthSection(health: HealthResult)
    | RemoteSection(remote: RemoteResult)
  {
    function Key(): Category {
      match this
      case CpuSection(_) => Cpu
      case MemorySection(_) => Memory
      case DiskSection(_) => Disk
      case DockerSection(_) => Docker
      case HealthSection(_) => Health
      case RemoteSection(_) => RemoteHost
    }
  }

  /** What each of the six gatherers returns when it is called. */
  datatype Readings = Readings(
    cpu: CpuReading, memory: MemoryReading, disk: DiskReading,
    docker: DockerResult, health: HealthResult, remote: RemoteResult)
  {
    /** The section the gatherer of category `c` produces. */
    function Of(c: Category): (s: Section)
      ensures s.Key() == c
    {
      match c
      case Cpu => CpuSection(cpu)
      case Memory => MemorySection(memory)
      case Disk => DiskSection(disk)
      case Docker => DockerSection(docker)
      case Health => HealthSection(health)
      case RemoteHost => RemoteSection(remote)
    }
  }

  /** A context dict: its sections in insertion order. */
  type Context = seq<Section>

  /** `list(context.keys())` as categories. */
  function Keys(ctx: Context): (r: seq<Category>)
    ensures |r| == |ctx|
    ensures forall i :: 0 <= i < |ctx| ==> r[i] == ctx[i].Key()
  {
    if ctx == [] then [] else [ctx[0].Key()] + Keys(ctx[1..])
  }

  /** No key occurs twice, as in any dict. */
  predicate DistinctKeys(ctx: Context) {
    forall i, j :: 0 <= i < j < |ctx| ==> ctx[i].Key() != ctx[j].Key()
  }

  /** `context.get(key)`: the section stored under `c`. */
  function Lookup(ctx: Context, c: Category): (r: Option<Section>)
    ensures r.Some? <==> c in Keys(ctx)
    ensures r.Some? ==> r.value in ctx && r.value.Key() == c
  {
    if ctx == [] then None
    else if ctx[0].Key() == c then Some(ctx[0])
    else
      assert Keys(ctx) == [ctx[0].Key()] + Keys(ctx[1..]);
      Lookup(ctx[1..], c)
  }

  /** `context[key] = section`: an existing key keeps its place and takes the
      new value, a new key goes at the end. */
  function Put(ctx: Context, s: Section): Context {
    if ctx == [] then [s]
    else if ctx[0].Key() == s.Key() then [s] + ctx[1..]
    else [ctx[0]] + Put(ctx[1..], s)
  }

  /** A new key is appended after all the others. */
  lemma {:induction false} PutNewKey(ctx: Context, s: Section)
    requires s.Key() !in Keys(ctx)
    ensures Put(ctx, s) == ctx + [s]
  {
    if ctx != [] {
      assert Keys(ctx) == [ctx[0].Key()] + Keys(ctx[1..]);
      PutNewKey(ctx[1..], s);
      assert ctx == [ctx[0]] + ctx[1..];
    }
  }

  /** Storing the value a key already holds changes nothing. */
  lemma {:induction false} PutSameValue(ctx: Context, s: Section)
    requires Lookup(ctx, s.Key()) == Some(s)
    ensures Put(ctx, s) == ctx
  {
    if ctx != [] && ctx[0].Key() != s.Key() {
      PutSameValue(ctx[1..], s);
      assert ctx == [ctx[0]] + ctx[1..];
    }
  }

  /** The keys after a put: unchanged when the key was there, one more at the
      end when it was not. */
  lemma {:induction false} PutKeys(ctx: Context, s: Section)
    ensures Keys(Put(ctx, s)) == if s.Key() in Keys(ctx) then Keys(ctx) else Keys(ctx) + [s.Key()]
  {
    if ctx != [] {
      assert Keys(ctx) == [ctx[0].Key()] + Keys(ctx[1..]);
      PutKeys(ctx[1..], s);
      if ctx[0].Key() != s.Key() {
        assert Put(ctx, s)[1..] == Put(ctx[1..], s);
      }
    }
  }

  /** After `context[key] = section` the key reads back that section, and
      every other key reads back what it held before. */
  lemma {:induction false} PutLookup(ctx: Context, s: Section, c: Category)
    ensures Lookup(Put(ctx, s), c) == if c == s.Key() then Some(s) else Lookup(ctx, c)
  {
    if ctx != [] && ctx[0].Key() != s.Key() {
      PutLookup(ctx[1..], s, c);
      assert Put(ctx, s)[1..] == Put(ctx[1..], s);
    }
  }

  /** Putting into a context without repeated keys leaves none repeated. */
  lemma PutKeepsKeysDistinct(ctx: Context, s: Section)
    requires DistinctKeys(ctx)
    ensures DistinctKeys(Put(ctx, s))
  {
    var r := Put(ctx, s);
    PutKeys(ctx, s);
    if s.Key() !in Keys(ctx) {
      PutNewKey(ctx, s);
    } else {
      assert forall i :: 0 <= i < |r| ==> r[i].Key() == Keys(r)[i] == Keys(ctx)[i] == ctx[i].Key();
    }
  }

  /** The context holding the readings of `keys`, in that order. */
  function ContextOf(keys: seq<Category>, readings: Readings): Context {
    seq(|keys|, i requires 0 <= i < |keys| => readings.Of(keys[i]))
  }

  /** Its keys are `keys`. */
  lemma ContextOfKeys(keys: seq<Category>, readings: Readings)
    ensures Keys(ContextOf(keys, readings)) == keys
  {
  }

  /** Storing the reading of a new key extends the context by that reading. */
  lemma PutNewReading(keys: seq<Category>, readings: Readings, c: Category)
    requires c !in keys
    ensures Put(ContextOf(keys, readings), readings.Of(c)) == ContextOf(keys + [c], readings)
  {
    ContextOfKeys(keys, readings);
    PutNewKey(ContextOf(keys, readings), readings.Of(c));
    assert ContextOf(keys, readings) + [readings.Of(c)] == ContextOf(keys + [c], readings);
  }

  /** Storing a reading again under a key that already holds it changes nothing. */
  lemma PutSameReading(keys: seq<Category>, readings: Readings, c: Category)
    requires c in keys
    ensures Put(ContextOf(keys, readings), readings.Of(c)) == ContextOf(keys, readings)
  {
    var ctx := ContextOf(keys, readings);
    ContextOfKeys(keys, readings);
    var v := Lookup(ctx, c).value;
    var i :| 0 <= i < |ctx| && ctx[i] == v;
    assert v == readings.Of(keys[i]);
    PutSameValue(ctx, readings.Of(c));
  }
}
