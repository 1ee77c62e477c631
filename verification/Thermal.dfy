/** The thermal limiter: which caps a temperature calls for, and the state machine on the main looper
    that keeps them in force for selected apps. */
module Thermal {
  import opened Common

  datatype State = NORMAL | WARM | HIGH | CRITICAL

  function Rank(s: State): nat {
    match s
    case NORMAL => 0
    case WARM => 1
    case HIGH => 2
    case CRITICAL => 3
  }

  // ---------------------------------------------------------------- temperatures and thresholds

  /** The stored preferences, in degrees. */
  datatype Prefs = Prefs(warm: int, high: int, critical: int)

  const TEMP_MIN := 35
  const TEMP_MAX := 60

  /** In tenths of a degree. */
  function Thresholds(p: Prefs): Prefs {
    var warm := Max(TEMP_MIN, Min(TEMP_MAX, p.warm));
    var high := Max(warm + 1, Min(TEMP_MAX, p.high));
    var critical := Max(high + 1, Min(TEMP_MAX + 2, p.critical));
    Prefs(warm * 10, high * 10, critical * 10)
  }

  /** The battery's reading: nothing parsable counts as 0, and so does what makes no sense. */
  function Temperature(raw: Option<int>): (t: int)
    ensures 0 <= t <= 800
  {
    if raw.None? then 0
    else
      var t := if raw.value > 1000 then raw.value / 10 else raw.value;
      if t < 0 || t > 800 then 0 else t
  }

  function StateFor(temperature: int, p: Prefs): State {
    var t := Thresholds(p);
    if temperature >= t.critical then CRITICAL
    else if temperature >= t.high then HIGH
    else if temperature >= t.warm then WARM
    else NORMAL
  }

  function PollingInterval(temperature: int, p: Prefs): int {
    var t := Thresholds(p);
    if temperature >= t.critical then 1000
    else if temperature >= t.high then 1500
    else if temperature >= t.warm then 2000
    else 3000
  }

  /** Whatever is stored, the thresholds are three different temperatures in rising order between 35
      and 62 degrees; and what is stored in that order, up to 60, 60 and 62, is taken as it is. */
  lemma ThresholdsAreOrdered(p: Prefs)
    ensures var t := Thresholds(p); 350 <= t.warm < t.high < t.critical <= 620
    ensures Thresholds(p) == Prefs(p.warm * 10, p.high * 10, p.critical * 10)
       <==> 35 <= p.warm <= 60 && p.warm < p.high <= Max(60, p.warm + 1)
              && p.high < p.critical <= Max(62, p.high + 1)
  {
  }

  /** What is stored outside that order or range is moved to its nearest place in it. */
  lemma ThresholdsAreNearest(p: Prefs)
    ensures var t := Thresholds(p);
            var warm, high := t.warm / 10, t.high / 10;
            && t.warm == 10 * warm && t.high == 10 * high
            && (p.warm < 35 ==> warm == 35) && (35 <= p.warm <= 60 ==> warm == p.warm) && (60 < p.warm ==> warm == 60)
            && (p.high <= warm ==> high == warm + 1)
            && (warm < p.high <= 60 ==> high == p.high)
            && (warm < p.high && 60 < p.high ==> high == if warm == 60 then 61 else 60)
            && (p.critical <= high ==> t.critical == 10 * high + 10)
            && (high < p.critical <= 62 ==> t.critical == 10 * p.critical)
            && (62 < p.critical ==> t.critical == 620)
  {
  }

  /** The state, and the time until the next look in milliseconds, by the thresholds a temperature reaches. */
  lemma StateAndInterval(temperature: int, p: Prefs)
    ensures var t, s, ms := Thresholds(p), StateFor(temperature, p), PollingInterval(temperature, p);
            && (temperature < t.warm ==> s == NORMAL && ms == 3000)
            && (t.warm <= temperature < t.high ==> s == WARM && ms == 2000)
            && (t.high <= temperature < t.critical ==> s == HIGH && ms == 1500)
            && (t.critical <= temperature ==> s == CRITICAL && ms == 1000)
  {
    ThresholdsAreOrdered(p);
  }

  /** The hotter, the higher the state and the sooner the next look. */
  lemma StateIsMonotone(t1: int, t2: int, p: Prefs)
    requires t1 <= t2
    ensures Rank(StateFor(t1, p)) <= Rank(StateFor(t2, p))
    ensures PollingInterval(t2, p) <= PollingInterval(t1, p)
    ensures StateFor(t1, p) == StateFor(t2, p) <==> PollingInterval(t1, p) == PollingInterval(t2, p)
  {
    ThresholdsAreOrdered(p);
  }

  // ---------------------------------------------------------------- caps

  datatype Node = Cpu(core: nat) | Gpu

  const LITTLE := [0, 1, 2, 3]
  const MID := [4, 5, 6]
  const PRIME := [7]

  /** The highest frequency of each CPU cluster. */
  datatype Ceilings = Ceilings(little: int, mid: int, prime: int)

  const DEFAULT_CEILINGS := Ceilings(1804800, 2496000, 2995200)

  /** What the clusters' own files say of their maxima, None for what cannot be read as a number. */
  datatype Maxima = Maxima(little: Option<int>, mid: Option<int>, prime: Option<int>)

  function ClusterCeiling(value: Option<int>, fallback: int): int {
    if value.Some? && value.value > 0 then value.value else fallback
  }

  function CeilingsFrom(m: Maxima): Ceilings {
    Ceilings(ClusterCeiling(m.little, DEFAULT_CEILINGS.little),
             ClusterCeiling(m.mid, DEFAULT_CEILINGS.mid),
             ClusterCeiling(m.prime, DEFAULT_CEILINGS.prime))
  }

  const GPU_NORMAL := 900000000

  function CapOf(s: State, c: Ceilings): (Ceilings, int) {
    match s
    case NORMAL => (c, GPU_NORMAL)
    case WARM => (Ceilings(1555200, 2092800, 2649600), 710000000)
    case HIGH => (Ceilings(1324800, 1881600, 2361600), 515000000)
    case CRITICAL => (Ceilings(1132800, 1555200, 1996800), 364000000)
  }

  function Cap(s: State, c: Ceilings, n: Node): int {
    var (cpu, gpu) := CapOf(s, c);
    match n
    case Gpu => gpu
    case Cpu(core) => if core < 4 then cpu.little else if core < 7 then cpu.mid else cpu.prime
  }

  /** The caps of the eight CPUs and of the GPU above NORMAL, and at it. */
  lemma CapTable(c: Ceilings, core: nat)
    ensures core < 4 ==>
      && Cap(NORMAL, c, Cpu(core)) == c.little && Cap(WARM, c, Cpu(core)) == 1555200
      && Cap(HIGH, c, Cpu(core)) == 1324800 && Cap(CRITICAL, c, Cpu(core)) == 1132800
    ensures 4 <= core < 7 ==>
      && Cap(NORMAL, c, Cpu(core)) == c.mid && Cap(WARM, c, Cpu(core)) == 2092800
      && Cap(HIGH, c, Cpu(core)) == 1881600 && Cap(CRITICAL, c, Cpu(core)) == 1555200
    ensures core == 7 ==>
      && Cap(NORMAL, c, Cpu(core)) == c.prime && Cap(WARM, c, Cpu(core)) == 2649600
      && Cap(HIGH, c, Cpu(core)) == 2361600 && Cap(CRITICAL, c, Cpu(core)) == 1996800
    ensures Cap(NORMAL, c, Gpu) == 900000000 && Cap(WARM, c, Gpu) == 710000000
    ensures Cap(HIGH, c, Gpu) == 515000000 && Cap(CRITICAL, c, Gpu) == 364000000
  {
  }

  /** Hotter never means faster, exactly if no cluster's ceiling lies below its WARM cap. */
  lemma CapsAreAntitoneIff(c: Ceilings, p: Prefs)
    ensures (forall t1, t2, n :: t1 <= t2 ==> Cap(StateFor(t2, p), c, n) <= Cap(StateFor(t1, p), c, n))
       <==> c.little >= 1555200 && c.mid >= 2092800 && c.prime >= 2649600
  {
    ThresholdsAreOrdered(p);
    if forall t1, t2, n :: t1 <= t2 ==> Cap(StateFor(t2, p), c, n) <= Cap(StateFor(t1, p), c, n) {
      var warm := Thresholds(p).warm;
      assert StateFor(0, p) == NORMAL && StateFor(warm, p) == WARM;
      assert Cap(StateFor(warm, p), c, Cpu(0)) <= Cap(StateFor(0, p), c, Cpu(0));
      assert Cap(StateFor(warm, p), c, Cpu(4)) <= Cap(StateFor(0, p), c, Cpu(4));
      assert Cap(StateFor(warm, p), c, Cpu(7)) <= Cap(StateFor(0, p), c, Cpu(7));
    }
    if c.little >= 1555200 && c.mid >= 2092800 && c.prime >= 2649600 {
      forall t1, t2, n | t1 <= t2
        ensures Cap(StateFor(t2, p), c, n) <= Cap(StateFor(t1, p), c, n)
      {
        StateIsMonotone(t1, t2, p);
      }
    }
  }

  /** What the frequency files hold; None for what cannot be read as a number. */
  type Files = map<Node, Option<int>>

  /** The files of a cluster's cores, or the GPU's one. */
  predicate Covers(cores: seq<nat>, n: Node) {
    match n
    case Gpu => cores == []
    case Cpu(core) => core in cores
  }

  /** Every writable file of the cluster gets the frequency. */
  function SetCluster(files: Files, writable: set<Node>, cores: seq<nat>, frequency: int): Files {
    map n | n in files :: if n in writable && Covers(cores, n) then Some(frequency) else files[n]
  }

  /** Every writable file of the cluster that is not known to be within the frequency gets it. */
  function EnforceCluster(files: Files, writable: set<Node>, cores: seq<nat>, frequency: int): Files {
    map n | n in files ::
      if n in writable && Covers(cores, n) && !(files[n].Some? && files[n].value <= frequency)
      then Some(frequency) else files[n]
  }

  function WriteCaps(files: Files, writable: set<Node>, s: State, c: Ceilings): Files {
    var (cpu, gpu) := CapOf(s, c);
    var f1 := SetCluster(files, writable, LITTLE, cpu.little);
    var f2 := SetCluster(f1, writable, MID, cpu.mid);
    var f3 := SetCluster(f2, writable, PRIME, cpu.prime);
    SetCluster(f3, writable, [], gpu)
  }

  function EnforceCaps(files: Files, writable: set<Node>, s: State, c: Ceilings): Files {
    var (cpu, gpu) := CapOf(s, c);
    var f1 := EnforceCluster(files, writable, LITTLE, cpu.little);
    var f2 := EnforceCluster(f1, writable, MID, cpu.mid);
    var f3 := EnforceCluster(f2, writable, PRIME, cpu.prime);
    EnforceCluster(f3, writable, [], gpu)
  }

  /** Cluster by cluster is what enforcing amounts to. */
  lemma EnforcedInTurn(f0: Files, f1: Files, f2: Files, f3: Files, f4: Files,
                       writable: set<Node>, s: State, c: Ceilings)
    requires var (cpu, gpu) := CapOf(s, c);
      && f1 == EnforceCluster(f0, writable, LITTLE, cpu.little)
      && f2 == EnforceCluster(f1, writable, MID, cpu.mid)
      && f3 == EnforceCluster(f2, writable, PRIME, cpu.prime)
      && f4 == EnforceCluster(f3, writable, [], gpu)
    ensures f4 == EnforceCaps(f0, writable, s, c)
  {
  }

  predicate IsNode(n: Node) {
    n.Gpu? || n.core < 8
  }

  /** Each file is in exactly one of the four groups. */
  lemma ClusterOf(n: Node)
    requires IsNode(n)
    ensures n.Gpu? ==> Covers([], n) && !Covers(LITTLE, n) && !Covers(MID, n) && !Covers(PRIME, n)
    ensures n.Cpu? && n.core < 4 ==> Covers(LITTLE, n) && !Covers(MID, n) && !Covers(PRIME, n) && !Covers([], n)
    ensures n.Cpu? && 4 <= n.core < 7 ==> !Covers(LITTLE, n) && Covers(MID, n) && !Covers(PRIME, n) && !Covers([], n)
    ensures n.Cpu? && n.core == 7 ==> !Covers(LITTLE, n) && !Covers(MID, n) && Covers(PRIME, n) && !Covers([], n)
  {
    if n.Cpu? && n.core < 4 {
      assert LITTLE[n.core] == n.core;
    } else if n.Cpu? && n.core < 7 {
      assert MID[n.core - 4] == n.core;
    } else if n.Cpu? {
      assert PRIME[n.core - 7] == n.core;
    }
  }

  lemma WrittenFileByFile(files: Files, writable: set<Node>, s: State, c: Ceilings, n: Node)
    requires IsNode(n) && n in files
    ensures n in WriteCaps(files, writable, s, c)
    ensures WriteCaps(files, writable, s, c)[n] == if n in writable then Some(Cap(s, c, n)) else files[n]
  {
    ClusterOf(n);
  }

  lemma EnforcedFileByFile(files: Files, writable: set<Node>, s: State, c: Ceilings, n: Node)
    requires IsNode(n) && n in files
    ensures n in EnforceCaps(files, writable, s, c)
    ensures EnforceCaps(files, writable, s, c)[n]
         == if n in writable && !(files[n].Some? && files[n].value <= Cap(s, c, n))
            then Some(Cap(s, c, n)) else files[n]
  {
    ClusterOf(n);
  }

  /** File by file: writing sets the cap, enforcing leaves alone what is known to be within it. */
  lemma CapsFileByFile(files: Files, writable: set<Node>, s: State, c: Ceilings, n: Node)
    requires IsNode(n) && n in files
    ensures WriteCaps(files, writable, s, c)[n] == if n in writable then Some(Cap(s, c, n)) else files[n]
    ensures EnforceCaps(files, writable, s, c)[n]
         == if n in writable && !(files[n].Some? && files[n].value <= Cap(s, c, n))
            then Some(Cap(s, c, n)) else files[n]
  {
    WrittenFileByFile(files, writable, s, c, n);
    EnforcedFileByFile(files, writable, s, c, n);
  }

  ghost predicate WithinCaps(files: Files, writable: set<Node>, s: State, c: Ceilings) {
    forall n :: IsNode(n) && n in writable && n in files ==> files[n].Some? && files[n].value <= Cap(s, c, n)
  }

  // ---------------------------------------------------------------- the looper

  /** Messages on the main looper: a run of the monitor started as the generation-th one, or a request
      to look at once. */
  datatype Task = Monitor(generation: nat) | Look

  /** parked is a book: the screen was last seen to go off while monitoring. */
  datatype Limiter = Limiter(
    monitoring: bool, interactive: bool, state: State, throttled: Option<string>,
    hasHandler: bool, generation: nat, queue: seq<Task>, parked: bool,
    ceilings: Ceilings, files: Files)

  function Initial(files: Files): Limiter {
    Limiter(false, true, NORMAL, None, false, 0, [], false, DEFAULT_CEILINGS, files)
  }

  /** What a run of the monitor finds. */
  datatype World = World(foreground: Option<string>, selected: set<string>, raw: Option<int>, prefs: Prefs)

  datatype Step =
    | Start(supported: bool, screenOn: bool, maxima: Maxima)
    | StopMonitoring(writable: set<Node>)
    | ScreenOff(writable: set<Node>)
    | ScreenOn
    | RequestLook
    | Dispatch(i: nat, world: World, writable: set<Node>)
    | OtherWriter(node: Node, content: Option<int>)

  function RemoveMonitor(queue: seq<Task>, generation: nat): seq<Task> {
    if queue == [] then []
    else (if queue[0] == Monitor(generation) then [] else [queue[0]]) + RemoveMonitor(queue[1..], generation)
  }

  function ResetFrequencies(l: Limiter, writable: set<Node>): Limiter {
    l.(files := WriteCaps(l.files, writable, NORMAL, l.ceilings), state := NORMAL)
  }

  function ReleaseThrottle(l: Limiter, writable: set<Node>): Limiter {
    if l.state == NORMAL then l.(throttled := None)
    else ResetFrequencies(l.(throttled := None), writable)
  }

  function AdjustFrequencies(l: Limiter, temperature: int, p: Prefs, writable: set<Node>): Limiter {
    var s := StateFor(temperature, p);
    if s != l.state then l.(state := s, files := WriteCaps(l.files, writable, s, l.ceilings))
    else if s != NORMAL then l.(files := EnforceCaps(l.files, writable, s, l.ceilings))
    else l
  }

  predicate Selected(w: World) {
    w.foreground.Some? && w.foreground.value in w.selected
  }

  function Tick(l: Limiter, w: World, writable: set<Node>): Limiter {
    if !l.monitoring || !l.interactive || !Selected(w) then ReleaseThrottle(l, writable)
    else AdjustFrequencies(l.(throttled := w.foreground), Temperature(w.raw), w.prefs, writable)
  }

  function Repost(l: Limiter): Limiter {
    l.(queue := RemoveMonitor(l.queue, l.generation) + [Monitor(l.generation)])
  }

  predicate Enabled(l: Limiter, step: Step) {
    match step
    case Dispatch(i, _, _) => i < |l.queue|
    case OtherWriter(node, _) => node in l.files
    case _ => true
  }

  function RunTask(l: Limiter, task: Task, w: World, writable: set<Node>): Limiter {
    match task
    case Monitor(g) =>
      if !l.monitoring then l
      else var ticked := Tick(l, w, writable); ticked.(queue := ticked.queue + [Monitor(g)])
    case Look => if l.monitoring && l.interactive then Repost(l) else l
  }

  function Next(l: Limiter, step: Step): Limiter
    requires Enabled(l, step)
  {
    match step
    case Start(supported, screenOn, maxima) =>
      if l.monitoring || !supported then l
      else l.(monitoring := true, hasHandler := true, ceilings := CeilingsFrom(maxima), interactive := screenOn,
              generation := l.generation + 1, queue := l.queue + [Monitor(l.generation + 1)], parked := false)
    case StopMonitoring(writable) =>
      if !l.monitoring then l
      else ResetFrequencies(
        l.(monitoring := false, queue := RemoveMonitor(l.queue, l.generation), throttled := None), writable)
    case ScreenOff(writable) =>
      if !l.monitoring then l
      else ReleaseThrottle(
        l.(interactive := false, queue := RemoveMonitor(l.queue, l.generation), parked := true), writable)
    case ScreenOn =>
      if !l.monitoring then l else Repost(l.(interactive := true, parked := false))
    case RequestLook => if l.hasHandler then l.(queue := l.queue + [Look]) else l
    case Dispatch(i, world, writable) =>
      RunTask(l.(queue := l.queue[..i] + l.queue[i + 1..]), l.queue[i], world, writable)
    case OtherWriter(node, content) => l.(files := l.files[node := content])
  }

  // ---------------------------------------------------------------- one monitor, never two

  function Monitors(queue: seq<Task>): nat {
    if queue == [] then 0 else (if queue[0].Monitor? then 1 else 0) + Monitors(queue[1..])
  }

  ghost predicate CurrentOnly(queue: seq<Task>, generation: nat) {
    forall t :: t in queue && t.Monitor? ==> t.generation == generation
  }

  lemma {:induction false} MonitorsConcat(a: seq<Task>, b: seq<Task>)
    ensures Monitors(a + b) == Monitors(a) + Monitors(b)
  {
    if a == [] {
      assert a + b == b;
    } else {
      assert (a + b)[1..] == a[1..] + b;
      MonitorsConcat(a[1..], b);
    }
  }

  lemma {:induction false} RemoveLeavesNone(queue: seq<Task>, generation: nat)
    requires CurrentOnly(queue, generation)
    ensures Monitors(RemoveMonitor(queue, generation)) == 0
  {
    if queue != [] {
      assert queue[0] in queue && forall t :: t in queue[1..] ==> t in queue;
      RemoveLeavesNone(queue[1..], generation);
      var head := if queue[0] == Monitor(generation) then [] else [queue[0]];
      MonitorsConcat(head, RemoveMonitor(queue[1..], generation));
    }
  }

  lemma {:induction false} NoMonitors(queue: seq<Task>)
    ensures Monitors(queue) == 0 <==> forall t :: t in queue ==> !t.Monitor?
  {
    if queue != [] {
      NoMonitors(queue[1..]);
      assert forall t :: t in queue <==> t == queue[0] || t in queue[1..];
    }
  }

  lemma MonitorsTake(queue: seq<Task>, i: nat)
    requires i < |queue|
    ensures Monitors(queue[..i] + queue[i + 1..]) == Monitors(queue) - if queue[i].Monitor? then 1 else 0
  {
    MonitorsConcat(queue[..i], queue[i..]);
    assert queue[..i] + queue[i..] == queue && queue[i..][1..] == queue[i + 1..];
    MonitorsConcat(queue[..i], queue[i + 1..]);
  }

  lemma MonitorsPost(queue: seq<Task>, t: Task)
    ensures Monitors(queue + [t]) == Monitors(queue) + if t.Monitor? then 1 else 0
  {
    MonitorsConcat(queue, [t]);
    assert [t][1..] == [];
  }

  /** One run of the monitor is queued while monitoring, unless the screen has gone off since; and
      whenever the limiter throttles it has every reason to. */
  ghost predicate Inv(l: Limiter) {
    && CurrentOnly(l.queue, l.generation)
    && Monitors(l.queue) == (if l.monitoring && !l.parked then 1 else 0)
    && (l.monitoring && l.parked ==> !l.interactive)
    && (l.state != NORMAL ==> l.monitoring && l.interactive && l.throttled.Some?)
  }

  lemma RemoveInv(l: Limiter)
    requires Inv(l)
    ensures CurrentOnly(RemoveMonitor(l.queue, l.generation), l.generation)
    ensures Monitors(RemoveMonitor(l.queue, l.generation)) == 0
    ensures CurrentOnly(Repost(l).queue, l.generation) && Monitors(Repost(l).queue) == 1
  {
    var q := RemoveMonitor(l.queue, l.generation);
    RemoveLeavesNone(l.queue, l.generation);
    NoMonitors(q);
    MonitorsPost(q, Monitor(l.generation));
  }

  lemma TickKeeps(l: Limiter, w: World, writable: set<Node>)
    ensures var r := Tick(l, w, writable);
            && r == l.(state := r.state, throttled := r.throttled, files := r.files)
            && (r.state != NORMAL ==> l.monitoring && l.interactive && r.throttled.Some?)
  {
  }

  lemma DispatchInv(l: Limiter, step: Step)
    requires Inv(l) && Enabled(l, step) && step.Dispatch?
    ensures Inv(Next(l, step))
  {
    var taken := l.(queue := l.queue[..step.i] + l.queue[step.i + 1..]);
    var task := l.queue[step.i];
    MonitorsTake(l.queue, step.i);
    assert CurrentOnly(taken.queue, l.generation) by {
      assert forall t :: t in taken.queue ==> t in l.queue;
    }
    if task.Look? {
      RemoveLeavesNone(taken.queue, l.generation);
      NoMonitors(RemoveMonitor(taken.queue, l.generation));
      MonitorsPost(RemoveMonitor(taken.queue, l.generation), Monitor(l.generation));
    } else {
      assert task in l.queue;
      TickKeeps(taken, step.world, step.writable);
      MonitorsPost(taken.queue, task);
    }
  }

  lemma StepInv(l: Limiter, step: Step)
    requires Inv(l) && Enabled(l, step)
    ensures Inv(Next(l, step))
  {
    RemoveInv(l);
    match step
    case Start(_, _, _) =>
      MonitorsPost(l.queue, Monitor(l.generation + 1));
      NoMonitors(l.queue);
    case RequestLook => MonitorsPost(l.queue, Look);
    case Dispatch(_, _, _) => DispatchInv(l, step);
    case _ =>
  }

  function Do(l: Limiter, step: Step): Limiter {
    if Enabled(l, step) then Next(l, step) else l
  }

  function Run(files: Files, steps: seq<Step>): Limiter {
    if steps == [] then Initial(files) else Do(Run(files, steps[..|steps| - 1]), steps[|steps| - 1])
  }

  lemma {:induction false} AlwaysInv(files: Files, steps: seq<Step>)
    ensures Inv(Run(files, steps))
  {
    if steps != [] {
      AlwaysInv(files, steps[..|steps| - 1]);
      var l, step := Run(files, steps[..|steps| - 1]), steps[|steps| - 1];
      if Enabled(l, step) {
        StepInv(l, step);
      }
    }
  }

  // ---------------------------------------------------------------- what the steps of a run amount to

  /** A start that found the device supported has not been undone by a stop. */
  predicate Monitoring(steps: seq<Step>) {
    steps != [] &&
      var before := steps[..|steps| - 1];
      match steps[|steps| - 1]
      case Start(supported, _, _) => supported || Monitoring(before)
      case StopMonitoring(_) => false
      case _ => Monitoring(before)
  }

  /** What the last start that took place read of the clusters' maxima. */
  function LastMaxima(steps: seq<Step>): Option<Maxima> {
    if steps == [] then None
    else
      var before, step := steps[..|steps| - 1], steps[|steps| - 1];
      if step.Start? && step.supported && !Monitoring(before) then Some(step.maxima) else LastMaxima(before)
  }

  /** The display is on, as far as the limiter was told: by the last start and, while monitoring, by the
      broadcasts since. */
  predicate DisplayOn(steps: seq<Step>) {
    steps != [] ==>
      var before := steps[..|steps| - 1];
      match steps[|steps| - 1]
      case Start(supported, screenOn, _) => if supported && !Monitoring(before) then screenOn else DisplayOn(before)
      case ScreenOff(_) => !Monitoring(before) && DisplayOn(before)
      case ScreenOn => Monitoring(before) || DisplayOn(before)
      case _ => DisplayOn(before)
  }

  lemma StepFlags(l: Limiter, step: Step)
    requires Enabled(l, step)
    ensures var r := Next(l, step);
            var starts := step.Start? && step.supported && !l.monitoring;
            && (r.monitoring <==> starts || (l.monitoring && !step.StopMonitoring?))
            && r.hasHandler == (l.hasHandler || starts)
            && r.ceilings == (if starts then CeilingsFrom(step.maxima) else l.ceilings)
            && (r.interactive <==>
                  if starts then step.screenOn
                  else if l.monitoring && step.ScreenOff? then false
                  else (l.monitoring && step.ScreenOn?) || l.interactive)
  {
    match step
    case Dispatch(i, world, writable) =>
      TickKeeps(l.(queue := l.queue[..i] + l.queue[i + 1..]), world, writable);
    case _ =>
  }

  /** So the limiter's flags are what the steps say. */
  lemma {:induction false} FlagsFollowSteps(files: Files, steps: seq<Step>)
    ensures var l := Run(files, steps);
            && l.monitoring == Monitoring(steps)
            && l.interactive == DisplayOn(steps)
            && (l.hasHandler <==> LastMaxima(steps).Some?)
            && l.ceilings == if LastMaxima(steps).Some? then CeilingsFrom(LastMaxima(steps).value) else DEFAULT_CEILINGS
  {
    if steps != [] {
      var before, step := steps[..|steps| - 1], steps[|steps| - 1];
      FlagsFollowSteps(files, before);
      if Enabled(Run(files, before), step) {
        StepFlags(Run(files, before), step);
      }
    }
  }

  /** Each cluster's ceiling is its own maximum as read at the last start, or the built-in one if nothing
      positive was read. */
  lemma CeilingsOfLastStart(files: Files, steps: seq<Step>)
    ensures var c := Run(files, steps).ceilings;
            match LastMaxima(steps)
            case None => c == Ceilings(1804800, 2496000, 2995200)
            case Some(m) =>
              && c.little == (if m.little.Some? && m.little.value > 0 then m.little.value else 1804800)
              && c.mid == (if m.mid.Some? && m.mid.value > 0 then m.mid.value else 2496000)
              && c.prime == (if m.prime.Some? && m.prime.value > 0 then m.prime.value else 2995200)
  {
    FlagsFollowSteps(files, steps);
  }

  /** A limiter started while the display is off, or whose display goes off, throttles nothing until the
      display goes on. */
  lemma IdleWhileOff(files: Files, steps: seq<Step>)
    requires !DisplayOn(steps)
    ensures Run(files, steps).state == NORMAL
  {
    FlagsFollowSteps(files, steps);
    AlwaysInv(files, steps);
  }

  /** In every state between two messages: at most one monitor is queued, exactly one while monitoring
      with the display on, none when not monitoring. */
  lemma OneMonitorQueued(files: Files, steps: seq<Step>)
    ensures var l := Run(files, steps);
            && Monitors(l.queue) <= 1
            && (l.monitoring && l.interactive ==> Monitors(l.queue) == 1)
            && (!l.monitoring ==> Monitors(l.queue) == 0)
  {
    AlwaysInv(files, steps);
  }

  /** The limiter throttles only while monitoring, with the display on, on behalf of an app. */
  lemma ThrottlesWithReason(files: Files, steps: seq<Step>)
    ensures var l := Run(files, steps);
            l.state != NORMAL ==> l.monitoring && l.interactive && l.throttled.Some?
  {
    AlwaysInv(files, steps);
  }

  /** After every run of the monitor that leaves the limiter throttling, every writable cap is in force,
      whatever others wrote before, on behalf of the selected app in front, and the state is the one
      the temperature calls for. */
  lemma CapsInForceAfterTick(files: Files, steps: seq<Step>, i: nat, world: World, writable: set<Node>)
    requires var l := Run(files, steps); i < |l.queue| && l.queue[i].Monitor?
    ensures var r := Next(Run(files, steps), Dispatch(i, world, writable));
            r.state != NORMAL ==>
              && r.state == StateFor(Temperature(world.raw), world.prefs)
              && Selected(world) && r.throttled == world.foreground
              && WithinCaps(r.files, writable, r.state, r.ceilings)
  {
    AlwaysInv(files, steps);
    var l := Run(files, steps);
    assert l.queue[i] in l.queue;
    if Monitors(l.queue) == 0 {
      NoMonitors(l.queue);
    }
    var r := Next(l, Dispatch(i, world, writable));
    forall n | IsNode(n) && n in writable && n in r.files && r.state != NORMAL
      ensures r.files[n].Some? && r.files[n].value <= Cap(r.state, r.ceilings, n)
    {
      CapsFileByFile(l.files, writable, r.state, l.ceilings, n);
    }
  }

  /** The battery's reading as a temperature in tenths of a degree: so it is up to 80 degrees, a larger
      number above 1000 is in hundredths, and all else counts as nothing. */
  predicate Reads(raw: Option<int>, t: int) {
    && (raw.Some? && 0 <= raw.value <= 800 ==> t == raw.value)
    && (raw.Some? && 1001 <= raw.value <= 8009 ==> t == raw.value / 10)
    && (raw.None? || raw.value < 0 || 801 <= raw.value <= 1000 || 8009 < raw.value ==> t == 0)
  }

  /** After every run of the monitor, the limiter is in the state the temperature calls for if it
      monitors, the display is on and a selected app is in front, and else in none; so it throttles
      exactly if the battery is at least warm then. */
  lemma ThrottlesIff(files: Files, steps: seq<Step>, i: nat, world: World, writable: set<Node>, t: int)
    requires var l := Run(files, steps); i < |l.queue| && l.queue[i].Monitor?
    requires Reads(world.raw, t)
    ensures var r, p := Next(Run(files, steps), Dispatch(i, world, writable)), Thresholds(world.prefs);
            var called := Monitoring(steps) && DisplayOn(steps)
                            && world.foreground.Some? && world.foreground.value in world.selected;
            && (r.state != NORMAL <==> called && t >= p.warm)
            && (r.state == WARM <==> called && p.warm <= t < p.high)
            && (r.state == HIGH <==> called && p.high <= t < p.critical)
            && (r.state == CRITICAL <==> called && p.critical <= t)
            && r.throttled == (if called then world.foreground else None)
  {
    AlwaysInv(files, steps);
    FlagsFollowSteps(files, steps);
    var l := Run(files, steps);
    assert l.queue[i] in l.queue;
    if Monitors(l.queue) == 0 {
      NoMonitors(l.queue);
    }
    StateAndInterval(t, world.prefs);
    ThresholdsAreOrdered(world.prefs);
    assert Temperature(world.raw) == t;
  }

  /** What a look at the temperature that ends in a state makes of a file. */
  function ContentAfter(l: Limiter, s: State, writable: set<Node>, n: Node): Option<int>
    requires n in l.files
  {
    var cap, content := Cap(s, l.ceilings, n), l.files[n];
    if n !in writable then content
    else if s == l.state && (s == NORMAL || (content.Some? && content.value <= cap)) then content
    else Some(cap)
  }

  lemma AdjustFiles(l: Limiter, temperature: int, p: Prefs, writable: set<Node>, n: Node)
    requires IsNode(n) && n in l.files
    ensures var r := AdjustFrequencies(l, temperature, p, writable);
            n in r.files && r.files[n] == ContentAfter(l, r.state, writable, n)
  {
    var s := StateFor(temperature, p);
    if s != l.state {
      WrittenFileByFile(l.files, writable, s, l.ceilings, n);
    } else if s != NORMAL {
      EnforcedFileByFile(l.files, writable, s, l.ceilings, n);
    }
  }

  lemma ReleaseFiles(l: Limiter, writable: set<Node>, n: Node)
    requires IsNode(n) && n in l.files
    ensures var r := ReleaseThrottle(l, writable);
            n in r.files && r.files[n] == ContentAfter(l, r.state, writable, n)
  {
    WrittenFileByFile(l.files, writable, NORMAL, l.ceilings, n);
  }

  lemma TickFiles(l: Limiter, w: World, writable: set<Node>, n: Node)
    requires IsNode(n) && n in l.files
    ensures var r := Tick(l, w, writable);
            n in r.files && r.files[n] == ContentAfter(l, r.state, writable, n)
  {
    if !l.monitoring || !l.interactive || !Selected(w) {
      ReleaseFiles(l, writable, n);
    } else {
      AdjustFiles(l.(throttled := w.foreground), Temperature(w.raw), w.prefs, writable, n);
    }
  }

  /** And file by file: a new state's cap is written to every writable file; in the same state, unless it
      is NORMAL, to those not known to be within it; the others are left alone. */
  lemma FilesAfterTick(files: Files, steps: seq<Step>, i: nat, world: World, writable: set<Node>, n: Node)
    requires var l := Run(files, steps); i < |l.queue| && l.queue[i].Monitor?
    requires IsNode(n) && n in Run(files, steps).files
    ensures var l, r := Run(files, steps), Next(Run(files, steps), Dispatch(i, world, writable));
            var cap, content := Cap(r.state, l.ceilings, n), l.files[n];
            var leave := || n !in writable
                         || (r.state == l.state && (r.state == NORMAL || (content.Some? && content.value <= cap)));
            n in r.files && r.files[n] == if leave then content else Some(cap)
  {
    AlwaysInv(files, steps);
    var l := Run(files, steps);
    TickFiles(l.(queue := l.queue[..i] + l.queue[i + 1..]), world, writable, n);
  }

  /** Whatever somebody else writes to a file is there until the monitor runs; while the limiter stays in
      its throttling state, that run leaves it there exactly if it is within the cap. */
  lemma OverruledAtNextTick(files: Files, steps: seq<Step>, i: nat, world: World, writable: set<Node>,
                            n: Node, content: Option<int>)
    requires IsNode(n) && n in Run(files, steps).files && n in writable
    requires var l := Run(files, steps); i < |l.queue| && l.queue[i].Monitor?
    ensures var l, w := Run(files, steps), Run(files, steps + [OtherWriter(n, content)]);
            && w.files == l.files[n := content] && w == l.(files := w.files)
            && var r := Next(w, Dispatch(i, world, writable));
               r.state == l.state && r.state != NORMAL ==>
                 var cap := Cap(l.state, l.ceilings, n);
                 n in r.files && r.files[n] == if content.Some? && content.value <= cap then content else Some(cap)
  {
    var written := steps + [OtherWriter(n, content)];
    assert written[..|steps|] == steps;
    assert Run(files, written) == Next(Run(files, steps), OtherWriter(n, content));
    FilesAfterTick(files, written, i, world, writable, n);
  }

  /** Stopping puts every writable file back to its ceiling, whether or not the limiter throttled. */
  lemma StopRestores(files: Files, steps: seq<Step>, writable: set<Node>, n: Node)
    requires Monitoring(steps) && IsNode(n) && n in Run(files, steps).files && n in writable
    ensures var l, r := Run(files, steps), Next(Run(files, steps), StopMonitoring(writable));
            && n in r.files && r.files[n] == Some(Cap(NORMAL, l.ceilings, n))
            && r.state == NORMAL && r.throttled == None
  {
    FlagsFollowSteps(files, steps);
    CapsFileByFile(Run(files, steps).files, writable, NORMAL, Run(files, steps).ceilings, n);
  }

  // ---------------------------------------------------------------- looking at once

  function Looks(queue: seq<Task>): nat {
    if queue == [] then 0 else (if queue[0].Look? then 1 else 0) + Looks(queue[1..])
  }

  lemma {:induction false} LooksConcat(a: seq<Task>, b: seq<Task>)
    ensures Looks(a + b) == Looks(a) + Looks(b)
  {
    if a == [] {
      assert a + b == b;
    } else {
      assert (a + b)[1..] == a[1..] + b;
      LooksConcat(a[1..], b);
    }
  }

  lemma {:induction false} RemovingKeepsLooks(queue: seq<Task>, generation: nat)
    ensures Looks(RemoveMonitor(queue, generation)) == Looks(queue)
  {
    if queue != [] {
      var head := if queue[0] == Monitor(generation) then [] else [queue[0]];
      RemovingKeepsLooks(queue[1..], generation);
      LooksConcat(head, RemoveMonitor(queue[1..], generation));
      assert [queue[0]][1..] == [];
    }
  }

  /** A request to look at once is queued exactly if the limiter was ever started. */
  lemma RequestLeadsTo(files: Files, steps: seq<Step>)
    ensures var l, r := Run(files, steps), Next(Run(files, steps), RequestLook);
            r == if LastMaxima(steps).Some? then l.(queue := l.queue + [Look]) else l
  {
    FlagsFollowSteps(files, steps);
  }

  lemma RepostKeepsLooks(queue: seq<Task>, i: nat, generation: nat)
    requires i < |queue| && queue[i].Look?
    ensures var rest := queue[..i] + queue[i + 1..];
            Looks(RemoveMonitor(rest, generation) + [Monitor(generation)]) == Looks(rest) == Looks(queue) - 1
  {
    var rest := queue[..i] + queue[i + 1..];
    LooksConcat(queue[..i], queue[i..]);
    assert queue[..i] + queue[i..] == queue && queue[i..][1..] == queue[i + 1..];
    LooksConcat(queue[..i], queue[i + 1..]);
    RemovingKeepsLooks(rest, generation);
    LooksConcat(RemoveMonitor(rest, generation), [Monitor(generation)]);
    assert [Monitor(generation)][1..] == [];
  }

  /** When it is run while monitoring with the display on, the one monitor starts anew at the end of the
      queue, and else nothing happens; no other request is lost. */
  lemma LookLeadsTo(files: Files, steps: seq<Step>, i: nat, world: World, writable: set<Node>)
    requires var l := Run(files, steps); i < |l.queue| && l.queue[i].Look?
    ensures var l := Run(files, steps);
            var r := Next(l, Dispatch(i, world, writable));
            && Looks(r.queue) == Looks(l.queue) - 1
            && r.(queue := l.queue) == l
            && (if Monitoring(steps) && DisplayOn(steps)
                then Monitors(r.queue) == 1 && r.queue != [] && r.queue[|r.queue| - 1] == Monitor(l.generation)
                else r.queue == l.queue[..i] + l.queue[i + 1..])
  {
    FlagsFollowSteps(files, steps);
    AlwaysInv(files, steps);
    var l := Run(files, steps);
    DispatchInv(l, Dispatch(i, world, writable));
    RepostKeepsLooks(l.queue, i, l.generation);
  }

  /** What a start that takes place, a broadcast or a run of the monitor leaves in the queue; a start
      throttles nothing and touches no file, and neither does the display going on. */
  lemma EventsLeadTo(files: Files, steps: seq<Step>, screenOn: bool, maxima: Maxima, writable: set<Node>)
    ensures var l, r := Run(files, steps), Next(Run(files, steps), Start(true, screenOn, maxima));
            !Monitoring(steps) ==>
              && r.state == NORMAL && r.throttled == l.throttled && r.files == l.files
              && r.queue == l.queue + [Monitor(r.generation)] && Monitors(r.queue) == 1
    ensures var l, r := Run(files, steps), Next(Run(files, steps), ScreenOff(writable));
            Monitoring(steps) ==>
              && r.state == NORMAL && r.throttled == None && (l.state == NORMAL ==> r.files == l.files)
              && Monitors(r.queue) == 0 && Looks(r.queue) == Looks(l.queue)
    ensures var l, r := Run(files, steps), Next(Run(files, steps), ScreenOn);
            Monitoring(steps) ==>
              && r.state == l.state && r.throttled == l.throttled && r.files == l.files
              && Monitors(r.queue) == 1 && Looks(r.queue) == Looks(l.queue)
              && r.queue[|r.queue| - 1] == Monitor(l.generation)
  {
    FlagsFollowSteps(files, steps);
    AlwaysInv(files, steps);
    var l := Run(files, steps);
    RemoveInv(l);
    MonitorsPost(l.queue, Monitor(l.generation + 1));
    RemovingKeepsLooks(l.queue, l.generation);
    LooksConcat(RemoveMonitor(l.queue, l.generation), [Monitor(l.generation)]);
    assert [Monitor(l.generation)][1..] == [];
  }

  /** A run of the monitor posts itself again, last. */
  lemma MonitorRunsOn(files: Files, steps: seq<Step>, i: nat, world: World, writable: set<Node>)
    requires var l := Run(files, steps); i < |l.queue| && l.queue[i].Monitor?
    ensures var l, r := Run(files, steps), Next(Run(files, steps), Dispatch(i, world, writable));
            r.queue == l.queue[..i] + l.queue[i + 1..] + [l.queue[i]]
  {
    AlwaysInv(files, steps);
    var l := Run(files, steps);
    assert l.queue[i] in l.queue;
    if Monitors(l.queue) == 0 {
      NoMonitors(l.queue);
    }
    TickKeeps(l.(queue := l.queue[..i] + l.queue[i + 1..]), world, writable);
  }

  // ---------------------------------------------------------------- back to normal

  lemma BackToNormal(l: Limiter, step: Step)
    requires Inv(l) && Enabled(l, step) && l.state != NORMAL && Next(l, step).state == NORMAL
    ensures step.StopMonitoring? || step.ScreenOff? || step.Dispatch?
    ensures Next(l, step).ceilings == l.ceilings
    ensures Next(l, step).files == WriteCaps(l.files, step.writable, NORMAL, l.ceilings)
  {
  }

  /** And whenever it stops throttling, every writable file is back at its ceiling. */
  lemma CeilingsRestored(files: Files, steps: seq<Step>, step: Step, n: Node)
    requires var l := Run(files, steps); Enabled(l, step) && l.state != NORMAL && Next(l, step).state == NORMAL
    requires (step.StopMonitoring? || step.ScreenOff? || step.Dispatch?) ==> n in step.writable
    requires IsNode(n) && n in Run(files, steps).files
    ensures var r := Next(Run(files, steps), step);
            n in r.files && r.files[n] == Some(Cap(NORMAL, r.ceilings, n))
  {
    AlwaysInv(files, steps);
    BackToNormal(Run(files, steps), step);
    CapsFileByFile(Run(files, steps).files, step.writable, NORMAL, Run(files, steps).ceilings, n);
  }
}
