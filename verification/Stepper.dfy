/** src/stepper.c: a stepper that runs through a queue of moves, each a number of steps whose interval
    grows by a constant.  Position, direction pin and step times are tied to a log of step edges. */
module Stepper {
  import opened Timer32
  import opened MovePool
  import opened Message

  const POSITION_BIAS := 0x4000_0000

  type int16 = n: int | -0x8000 <= n < 0x8000
  type uint16 = n: int | 0 <= n < 0x1_0000

  /** struct stepper_move, with the pool node that holds it. */
  datatype StepMove = StepMove(node: nat, interval: uint32, add: int16, count: uint16, flip: bool)

  /** A step: the time it was commanded for and the level of the direction pin. */
  datatype Edge = Edge(time: uint32, dir: bool)

  // ------------------------------------------------------------------ when steps happen

  /** The interval before step k + 1 of a move, as the registers compute it. */
  function IntervalAt(m: StepMove, k: nat): uint32 {
    if k == 0 then m.interval else Wrap(IntervalAt(m, k - 1) + m.add)
  }

  /** Step k of a move that follows a step at `base`, as the registers compute it. */
  function StepTime(base: uint32, m: StepMove, k: nat): uint32 {
    if k == 0 then base else Wrap(StepTime(base, m, k - 1) + IntervalAt(m, k - 1))
  }

  function Product(a: int, b: int): int { a * b }

  function Triangle(n: nat): int { n * (n - 1) / 2 }

  lemma {:induction false} IntervalIs(m: StepMove, k: nat)
    ensures IntervalAt(m, k) == Wrap(m.interval + Product(m.add, k))
  {
    hide Wrap, Product;
    if k == 0 {
      ProductSteps(m.add, 0);
      WrapWord(m.interval);
    } else {
      IntervalIs(m, k - 1);
      ProductSteps(m.add, k - 1);
      WrapAdd(m.interval + Product(m.add, k - 1), m.add);
    }
  }

  lemma WrapWord(x: uint32)
    ensures Wrap(x) == x
  {
  }

  lemma ProductSteps(a: int, n: int)
    ensures Product(a, 0) == 0 && Product(a, n + 1) == Product(a, n) + a
  {
  }

  lemma ProductSum(a: int, x: int, y: int)
    ensures Product(a, x + y) == Product(a, x) + Product(a, y)
  {
  }

  lemma TriangleSteps(n: nat)
    ensures Triangle(0) == 0 && Triangle(n + 1) == Triangle(n) + n
  {
    assert (n + 1) * n == n * (n - 1) + 2 * n;
  }

  lemma {:induction false} StepTimeIs(base: uint32, m: StepMove, k: nat)
    ensures StepTime(base, m, k) == Wrap(base + Product(m.interval, k) + Product(m.add, Triangle(k)))
  {
    hide Wrap, Product, Triangle, IntervalAt;
    if k == 0 {
      ProductSteps(m.interval, 0);
      ProductSteps(m.add, 0);
      TriangleSteps(0);
      WrapWord(base);
    } else {
      var n := k - 1;
      StepTimeIs(base, m, n);
      IntervalIs(m, n);
      var t, i := base + Product(m.interval, n) + Product(m.add, Triangle(n)), m.interval + Product(m.add, n);
      WrapAdd(t, Wrap(i));
      WrapAdd(i, t);
      ProductSteps(m.interval, n);
      TriangleSteps(n);
      ProductSum(m.add, Triangle(n), n);
    }
  }

  /** Step k is commanded at base + k * interval + add * k * (k - 1) / 2. */
  lemma StepTimeClosed(base: uint32, m: StepMove, k: nat)
    ensures StepTime(base, m, k) == Wrap(base + k * m.interval + m.add * (k * (k - 1) / 2))
  {
    hide Wrap, StepTime;
    StepTimeIs(base, m, k);
  }

  lemma NextClock(base: uint32, m: StepMove, k: nat)
    ensures StepTime(base, m, k + 1) == Wrap(StepTime(base, m, k) + IntervalAt(m, k))
    ensures IntervalAt(m, k + 1) == Wrap(IntervalAt(m, k) + m.add)
  {
  }

  /** The steps of a move after the first `from`. */
  function Steps(base: uint32, m: StepMove, dir: bool, from: nat): seq<Edge>
    requires from <= m.count
  {
    seq(m.count - from, i requires 0 <= i => Edge(StepTime(base, m, from + i + 1), dir))
  }

  lemma StepsHead(base: uint32, m: StepMove, dir: bool, from: nat)
    requires from < m.count
    ensures Steps(base, m, dir, from) == [Edge(StepTime(base, m, from + 1), dir)] + Steps(base, m, dir, from + 1)
  {
  }

  /** The steps of a queue of moves that follows a step at `base`; dirs are their directions. */
  function QueueSteps(base: uint32, queue: seq<StepMove>, dirs: seq<bool>): seq<Edge>
    requires |queue| == |dirs|
    decreases |queue|
  {
    if |queue| == 0 then []
    else Steps(base, queue[0], dirs[0], 0) + QueueSteps(StepTime(base, queue[0], queue[0].count), queue[1..], dirs[1..])
  }

  function QueueEnd(base: uint32, queue: seq<StepMove>): uint32
    decreases |queue|
  {
    if |queue| == 0 then base else QueueEnd(StepTime(base, queue[0], queue[0].count), queue[1..])
  }

  lemma {:induction false} QueueGrows(base: uint32, queue: seq<StepMove>, dirs: seq<bool>, m: StepMove, dir: bool)
    requires |queue| == |dirs|
    ensures QueueSteps(base, queue + [m], dirs + [dir]) == QueueSteps(base, queue, dirs) + Steps(QueueEnd(base, queue), m, dir, 0)
    ensures QueueEnd(base, queue + [m]) == StepTime(QueueEnd(base, queue), m, m.count)
    decreases |queue|
  {
    if |queue| == 0 {
      assert (queue + [m])[1..] == [] && (dirs + [dir])[1..] == [];
    } else {
      assert (queue + [m])[1..] == queue[1..] + [m] && (dirs + [dir])[1..] == dirs[1..] + [dir];
      QueueGrows(StepTime(base, queue[0], queue[0].count), queue[1..], dirs[1..], m, dir);
    }
  }

  // ------------------------------------------------------------------ where the stepper is

  /** The signed number of steps. */
  function Travelled(log: seq<Edge>): int {
    if |log| == 0 then 0 else Travelled(log[..|log| - 1]) + if log[|log| - 1].dir then 1 else -1
  }

  /** The position register at rest: counted towards the current direction. */
  function Fold(dir: bool, p: int): int { if dir then POSITION_BIAS + p else -(POSITION_BIAS + p) }

  /** The register holds the position at the end of the current move, `left` steps ahead. */
  predicate PlaceOk(position: uint32, dir: bool, log: seq<Edge>, left: nat) {
    position == Wrap(Fold(dir, Travelled(log)) + left)
  }

  /** The register can tell positions in this range from their reflections. */
  predicate InRange(p: int) { Wrap(POSITION_BIAS + p) <= HALF }

  lemma WrapNeg(a: int)
    ensures Wrap(0 - Wrap(a)) == Wrap(0 - a)
  {
    WrapDifference(0, a);
  }

  /** Reading the register back gives the position exactly when it is in range. */
  lemma Unfold(dir: bool, p: int, x: uint32)
    requires x == Wrap(Fold(dir, p))
    ensures (if x >= HALF then Wrap(0 - x) else x) == Wrap(POSITION_BIAS + p) <==> InRange(p)
  {
    var q: int := Wrap(POSITION_BIAS + p);
    if !dir {
      WrapNeg(POSITION_BIAS + p);
      assert x == Wrap(0 - q);
    }
    assert Wrap(0 - x) == if x == 0 then 0 else WRAP - x;
  }

  /** Positions up to 2^30 steps from the start are in range, and are reported as they are. */
  lemma ReportedPosition(p: int)
    requires -POSITION_BIAS <= p <= POSITION_BIAS
    ensures InRange(p) && Signed(Wrap(Wrap(POSITION_BIAS + p) - POSITION_BIAS)) == p
  {
    assert Wrap(POSITION_BIAS + p) == POSITION_BIAS + p;
  }

  /** One step further the register wraps, and the position read is a reflection. */
  lemma OutOfRange()
    ensures !InRange(POSITION_BIAS + 1) && !InRange(-POSITION_BIAS - 1)
  {
    assert Wrap(-1) == WRAP - 1;
  }

  function Signed(x: uint32): int { if x >= HALF then x - WRAP else x }

  // ------------------------------------------------------------------ what holds between events

  function DirBefore(dirs: seq<bool>, dirPin: bool, i: nat): bool
    requires i <= |dirs|
  {
    if i == 0 then dirPin else dirs[i - 1]
  }

  /** Each queued move turns the direction pin exactly when its direction differs from the one before;
      the last of them is the direction that was asked for last. */
  predicate DirsOk(queue: seq<StepMove>, dirs: seq<bool>, dirPin: bool, lastDir: bool) {
    && |queue| == |dirs|
    && (forall i :: 0 <= i < |queue| ==> queue[i].flip == (dirs[i] != DirBefore(dirs, dirPin, i)))
    && lastDir == DirBefore(dirs, dirPin, |dirs|)
    && (forall i :: 0 <= i < |queue| ==> queue[i].count > 0)
  }

  /** The steps of the current move that are still to come; in double-scheduled mode each step takes
      two events. */
  function Left(single: bool, count: nat): nat { if single then count else count / 2 }

  /** The registers of a running move: `clock` is the time of the next step or, between the two
      events of a step, of that step. */
  predicate ClockOk(single: bool, clock: uint32, interval: uint32, add: int16, count: nat, base: uint32, cur: StepMove) {
    && count > 0 && Left(single, count) <= cur.count && add == cur.add
    && var k := cur.count - Left(single, count);
    var n := if single || count % 2 == 0 then k + 1 else k;
    n > 0 && clock == StepTime(base, cur, n) && interval == IntervalAt(cur, n)
  }

  /** The steps issued and those still to come are the steps commanded. */
  ghost predicate PlanOk(log: seq<Edge>, plan: seq<Edge>, base: uint32, cur: StepMove, left: nat, dirPin: bool,
                         queue: seq<StepMove>, dirs: seq<bool>)
  {
    && left <= cur.count && |queue| == |dirs|
    && plan == log + Steps(base, cur, dirPin, cur.count - left) + QueueSteps(StepTime(base, cur, cur.count), queue, dirs)
  }

  function Nodes(queue: seq<StepMove>): multiset<nat> {
    if |queue| == 0 then multiset{} else multiset{queue[0].node} + Nodes(queue[1..])
  }

  // ------------------------------------------------------------------ the stepper

  /** struct stepper, with the levels of its pins and whether its timer is scheduled. */
  datatype Regs = Regs(waketime: uint32, nextStepTime: uint32, interval: uint32, add: int16, count: nat, position: uint32,
                       queue: seq<StepMove>, lastDir: bool, nextDir: bool, needReset: bool,
                       dirPin: bool, stepPin: bool, live: bool)

  /** What the registers stand for: the steps issued, the steps commanded (after those issued before
      the last stop), the time the next queued move follows, the current move and the time it
      follows, and the directions of the queued moves. */
  datatype Story = Story(log: seq<Edge>, plan: seq<Edge>, planTime: uint32, base: uint32, cur: StepMove, dirs: seq<bool>)

  /** The register that keeps the commanded times. */
  function Clock(single: bool, r: Regs): uint32 { if single then r.waketime else r.nextStepTime }

  /** Between two moves: the steps to come are those of the queue. */
  ghost predicate Between(single: bool, r: Regs, g: Story) {
    && DirsOk(r.queue, g.dirs, r.dirPin, r.lastDir)
    && g.plan == g.log + QueueSteps(Clock(single, r), r.queue, g.dirs)
    && g.planTime == QueueEnd(Clock(single, r), r.queue)
  }

  /** In the middle of a move. */
  ghost predicate Running(single: bool, r: Regs, g: Story) {
    var dirsOk, clockOk, planOk :=
      DirsOk(r.queue, g.dirs, r.dirPin, r.lastDir),
      ClockOk(single, Clock(single, r), r.interval, r.add, r.count, g.base, g.cur),
      PlanOk(g.log, g.plan, g.base, g.cur, Left(single, r.count), r.dirPin, r.queue, g.dirs);
    dirsOk && clockOk && planOk && g.planTime == QueueEnd(StepTime(g.base, g.cur, g.cur.count), r.queue)
  }

  ghost predicate Idle(single: bool, r: Regs, g: Story) { r.count == 0 && r.queue == [] && Between(single, r, g) }

  /** The position register agrees with the steps issued. */
  predicate Tracks(single: bool, r: Regs, g: Story) { PlaceOk(r.position, r.dirPin, g.log, Left(single, r.count)) }

  /** The registers for the first step of a move. */
  method LoadClock(single: bool, r: Regs, m: StepMove) returns (r': Regs)
    requires m.count > 0
    ensures r' == r.(interval := r'.interval, add := r'.add, count := r'.count, waketime := r'.waketime, nextStepTime := r'.nextStepTime)
    ensures ClockOk(single, Clock(single, r'), r'.interval, r'.add, r'.count, Clock(single, r), m)
    ensures Left(single, r'.count) == m.count && (!single ==> r'.waketime == r'.nextStepTime && r'.count % 2 == 0)
  {
    LoadTimes(Clock(single, r), m);
    r' := r.(add := m.add, interval := Wrap(m.interval + m.add));
    if single {
      r' := r'.(waketime := Wrap(r.waketime + m.interval), count := m.count);
    } else {
      var next := Wrap(r.nextStepTime + m.interval);
      r' := r'.(nextStepTime := next, waketime := next, count := m.count * 2);
    }
  }

  /** All steps of a move are added to the position at once. */
  method LoadPosition(r: Regs, m: StepMove, ghost log: seq<Edge>) returns (r': Regs)
    ensures r' == r.(position := r'.position, dirPin := r.dirPin != m.flip)
    ensures PlaceOk(r.position, r.dirPin, log, 0) ==> PlaceOk(r'.position, r'.dirPin, log, m.count)
  {
    if PlaceOk(r.position, r.dirPin, log, 0) {
      LoadPlace(r.position, r.dirPin, log, m);
    }
    if m.flip {
      r' := r.(position := Wrap(Wrap(0 - r.position) + m.count), dirPin := !r.dirPin);
    } else {
      r' := r.(position := Wrap(r.position + m.count));
    }
  }

  /** What stays as it is when a move is loaded. */
  predicate Kept(r: Regs, g: Story, r': Regs, g': Story) {
    && r' == r.(waketime := r'.waketime, nextStepTime := r'.nextStepTime, interval := r'.interval, add := r'.add,
                count := r'.count, position := r'.position, queue := r'.queue, dirPin := r'.dirPin)
    && g' == g.(base := g'.base, cur := g'.cur, dirs := g'.dirs)
  }

  /** The timer event, at time `now`, or a command. */
  datatype Act = Tick(now: uint32) | Reset(clock: uint32) | Command(command: Command)

  /** A command that does not reset the step clock. */
  datatype Command = Queue(interval: uint32, count: uint32, add: uint32, late: Option<uint32>) | SetDir(dir: bool) | StopNow

  // ------------------------------------------------------------------ what acts amount to

  /** A stepper as its commands see it: the steps commanded, of which the first `issued` have been issued, the
      time the next move follows, and whether it is between the two events of a step. */
  datatype Course = Course(plan: seq<Edge>, planTime: uint32, nextDir: bool, needReset: bool, issued: nat, high: bool)

  /** A move adds its steps to those commanded, after the last of them, or from the time to which the scheduler
      moves the first if the stepper was at rest.  An event issues the next one.  A stop takes back all that are
      not issued, and nothing more is accepted until the clock is reset. */
  function After(single: bool, c: Course, act: Act): Course {
    match act
    case Tick(_) =>
      if c.high then c.(high := false)
      else if c.issued < |c.plan| then c.(issued := c.issued + 1, high := !single) else c
    case Reset(clock) => c.(planTime := clock, needReset := false)
    case Command(Queue(interval, count, add, late)) =>
      if c.needReset then c
      else
        var m := StepMove(0, interval, Int16(add), count % 0x1_0000, false);
        var start := if late.Some? && single && c.issued == |c.plan| then Wrap(late.value - interval) else c.planTime;
        c.(plan := c.plan + Steps(start, m, c.nextDir, 0), planTime := StepTime(start, m, m.count))
    case Command(SetDir(dir)) => c.(nextDir := dir)
    case Command(StopNow) =>
      Course(if c.issued <= |c.plan| then c.plan[..c.issued] else c.plan, 0, false, true, c.issued, false)
  }

  function AfterAll(single: bool, c: Course, acts: seq<Act>): Course {
    if |acts| == 0 then c else After(single, AfterAll(single, c, acts[..|acts| - 1]), acts[|acts| - 1])
  }

  /** Without a stop nothing that was commanded is taken back: the steps are those of before and, after them,
      those of the moves. */
  lemma {:induction false} PlanGrows(single: bool, c: Course, acts: seq<Act>)
    requires Command(StopNow) !in acts && !c.needReset
    ensures var c' := AfterAll(single, c, acts);
      c.plan <= c'.plan && |c'.plan| == |c.plan| + StepsIn(acts) && !c'.needReset && c.issued <= c'.issued
  {
    hide After;
    if |acts| > 0 {
      var n := |acts| - 1;
      PlanGrows(single, c, acts[..n]);
      ActGrows(single, AfterAll(single, c, acts[..n]), acts[n]);
    }
  }

  lemma ActGrows(single: bool, c: Course, act: Act)
    requires act != Command(StopNow) && !c.needReset
    ensures var c' := After(single, c, act);
      c.plan <= c'.plan && |c'.plan| == |c.plan| + StepsOf(act) && !c'.needReset && c.issued <= c'.issued
  {
    hide StepTime, Wrap, Int16;
  }

  function StepsOf(act: Act): nat {
    if act.Command? && act.command.Queue? then act.command.count % 0x1_0000 else 0
  }

  function StepsIn(acts: seq<Act>): nat {
    if |acts| == 0 then 0
    else StepsIn(acts[..|acts| - 1]) + StepsOf(acts[|acts| - 1])
  }

  /** Neither the pool node of a move nor its flip matters for the times of its steps. */
  lemma {:induction false} SameTimes(base: uint32, m: StepMove, m': StepMove, k: nat)
    requires m' == m.(node := m'.node, flip := m'.flip)
    ensures StepTime(base, m, k) == StepTime(base, m', k) && IntervalAt(m, k) == IntervalAt(m', k)
  {
    hide Wrap;
    if k > 0 {
      SameTimes(base, m, m', k - 1);
    }
  }

  lemma SameSteps(base: uint32, m: StepMove, m': StepMove, dir: bool)
    requires m' == m.(node := m'.node, flip := m'.flip)
    ensures Steps(base, m, dir, 0) == Steps(base, m', dir, 0) && StepTime(base, m, m.count) == StepTime(base, m', m.count)
  {
    hide StepTime;
    forall k: nat ensures StepTime(base, m, k) == StepTime(base, m', k) {
      SameTimes(base, m, m', k);
    }
  }

  /** The registers count what is left of the steps commanded. */
  lemma LiveCourse(single: bool, r: Regs, g: Story)
    requires if r.count == 0 then Idle(single, r, g) else Running(single, r, g)
    ensures r.count == 0 ==> g.log == g.plan
    ensures r.count > 0 && (single || r.count % 2 == 0) ==> |g.log| < |g.plan|
    ensures g.log <= g.plan
  {
    hide DirsOk, QueueSteps, StepTime, QueueEnd;
    if r.count == 0 {
      IdleFacts(single, r, g);
    }
  }

  /** The first move of the queue has just been loaded. */
  predicate JustLoaded(single: bool, r: Regs, g: Story, r': Regs, g': Story) {
    && |r.queue| > 0 && r'.queue == r.queue[1..] && g'.cur == r.queue[0] && Left(single, r'.count) == g'.cur.count
    && g'.base == Clock(single, r) && r'.dirPin == (r.dirPin != g'.cur.flip)
    && (!single ==> r'.waketime == r'.nextStepTime && r'.count % 2 == 0)
  }

  /** The first move of the queue becomes the current move. */
  method LoadMove(single: bool, r: Regs, ghost g: Story) returns (r': Regs, ghost g': Story)
    requires Between(single, r, g) && |r.queue| > 0
    ensures Running(single, r', g') && r'.count > 0 && JustLoaded(single, r, g, r', g') && Kept(r, g, r', g')
    ensures PlaceOk(r.position, r.dirPin, g.log, 0) ==> Tracks(single, r', g')
  {
    hide DirsOk, PlanOk, PlaceOk, QueueEnd, QueueSteps, ClockOk, StepTime, IntervalAt, Wrap;
    var m := r.queue[0];
    var base := Clock(single, r);
    LoadPlan(g.log, g.plan, base, r.queue, g.dirs, r.dirPin, r.lastDir);
    g' := Loading(g, base, m);
    r' := LoadClock(single, r.(queue := r.queue[1..]), m);
    r' := LoadPosition(r', m, g.log);
  }

  ghost function Loading(g: Story, base: uint32, m: StepMove): Story
    requires |g.dirs| > 0
  {
    g.(base := base, cur := m, dirs := g.dirs[1..])
  }

  // ------------------------------------------------------------------ steps

  function Issued(g: Story, time: uint32, dir: bool): Story { g.(log := g.log + [Edge(time, dir)]) }

  /** The next step of the current move is issued. */
  lemma IssueStep(g: Story, left: nat, dirPin: bool, queue: seq<StepMove>)
    requires PlanOk(g.log, g.plan, g.base, g.cur, left, dirPin, queue, g.dirs) && left > 0
    ensures var g' := Issued(g, StepTime(g.base, g.cur, g.cur.count - left + 1), dirPin);
      PlanOk(g'.log, g.plan, g.base, g.cur, left - 1, dirPin, queue, g.dirs)
  {
    StepsHead(g.base, g.cur, dirPin, g.cur.count - left);
  }

  lemma IssuePlace(position: uint32, dirPin: bool, log: seq<Edge>, left: nat, time: uint32)
    requires PlaceOk(position, dirPin, log, left) && left > 0
    ensures PlaceOk(position, dirPin, log + [Edge(time, dirPin)], left - 1)
  {
    assert (log + [Edge(time, dirPin)])[..|log|] == log;
  }

  /** When all steps of a move are issued, the queue comes next. */
  lemma MoveOver(single: bool, r: Regs, g: Story)
    requires DirsOk(r.queue, g.dirs, r.dirPin, r.lastDir)
    requires PlanOk(g.log, g.plan, g.base, g.cur, 0, r.dirPin, r.queue, g.dirs)
    requires Clock(single, r) == StepTime(g.base, g.cur, g.cur.count)
    requires g.planTime == QueueEnd(StepTime(g.base, g.cur, g.cur.count), r.queue)
    ensures Between(single, r, g)
  {
    assert Steps(g.base, g.cur, r.dirPin, g.cur.count) == [];
  }

  /** stepper_event_edge up to the point where the next move may be loaded. */
  method StepEdge(r: Regs, ghost g: Story) returns (load: bool, r': Regs, ghost g': Story)
    requires Running(true, r, g)
    ensures g' == Issued(g, r.waketime, r.dirPin) && load == (r.count == 1)
    ensures r' == r.(stepPin := !r.stepPin, count := if load then r.count else r.count - 1, waketime := r'.waketime, interval := r'.interval)
    ensures if load then Between(true, r', g') else Running(true, r', g')
    ensures Tracks(true, r, g) ==> PlaceOk(r'.position, r'.dirPin, g'.log, r.count - 1)
  {
    hide DirsOk, PlanOk, PlaceOk, QueueEnd, StepTime, IntervalAt;
    NextClock(g.base, g.cur, g.cur.count - r.count + 1);
    IssueStep(g, r.count, r.dirPin, r.queue);
    g' := Issued(g, r.waketime, r.dirPin);
    if PlaceOk(r.position, r.dirPin, g.log, r.count) {
      IssuePlace(r.position, r.dirPin, g.log, r.count, r.waketime);
    }
    r' := r.(stepPin := !r.stepPin);
    var count := r.count - 1;
    load := count == 0;
    if load {
      MoveOver(true, r', g');
    } else {
      r' := r'.(count := count, waketime := Wrap(r.waketime + r.interval), interval := Wrap(r.interval + r.add));
    }
  }

  /** The first half of a double-scheduled step: the step itself. */
  method StepUp(r: Regs, ghost g: Story, minNextTime: uint32) returns (r': Regs, ghost g': Story)
    requires Running(false, r, g) && r.count % 2 == 0
    ensures g' == Issued(g, r.nextStepTime, r.dirPin)
    ensures r' == r.(stepPin := !r.stepPin, count := r.count - 1, waketime := minNextTime) && Running(false, r', g')
    ensures Tracks(false, r, g) ==> Tracks(false, r', g')
  {
    hide DirsOk, PlanOk, PlaceOk, QueueEnd, StepTime, IntervalAt;
    IssueStep(g, r.count / 2, r.dirPin, r.queue);
    g' := Issued(g, r.nextStepTime, r.dirPin);
    if PlaceOk(r.position, r.dirPin, g.log, r.count / 2) {
      IssuePlace(r.position, r.dirPin, g.log, r.count / 2, r.nextStepTime);
    }
    r' := r.(stepPin := !r.stepPin, count := r.count - 1, waketime := minNextTime);
  }

  /** The second half, when more steps follow: the next step keeps its time, even if its event is
      pushed back to give the pulse its length. */
  method StepDown(r: Regs, ghost g: Story, minNextTime: uint32) returns (r': Regs)
    requires Running(false, r, g) && r.count % 2 == 1 && r.count > 1
    ensures Running(false, r', g) && r'.count == r.count - 1 && r'.nextStepTime == Wrap(r.nextStepTime + r.interval)
    ensures r'.waketime == if IsBefore(r'.nextStepTime, minNextTime) then minNextTime else r'.nextStepTime
    ensures Tracks(false, r, g) ==> Tracks(false, r', g)
    ensures r' == r.(stepPin := !r.stepPin, count := r'.count, nextStepTime := r'.nextStepTime, interval := r'.interval, waketime := r'.waketime)
  {
    hide DirsOk, PlanOk, PlaceOk, QueueEnd, StepTime, IntervalAt;
    NextClock(g.base, g.cur, g.cur.count - r.count / 2);
    r' := r.(stepPin := !r.stepPin, count := r.count - 1);
    r' := r'.(nextStepTime := Wrap(r.nextStepTime + r.interval), interval := Wrap(r.interval + r.add));
    if IsBefore(r'.nextStepTime, minNextTime) {
      r' := r'.(waketime := minNextTime);
    } else {
      r' := r'.(waketime := r'.nextStepTime);
    }
  }

  /** A move for a stepper at rest is queued, loaded and started. */
  method StartRegs(single: bool, r: Regs, ghost g: Story, m: StepMove) returns (r': Regs, ghost g': Story)
    requires Idle(single, r, g) && m.flip == (r.lastDir != r.nextDir) && m.count > 0 && !r.needReset
    ensures Running(single, r', g') && Started(single, r, g, r', g', m) && r'.count > 0
    ensures r'.stepPin == r.stepPin && (single || r'.count % 2 == 0)
    ensures Tracks(single, r, g) ==> Tracks(single, r', g')
  {
    IdleFacts(single, r, g);
    hide DirsOk, PlanOk, PlaceOk, QueueEnd, QueueSteps, ClockOk, StepTime, Steps, Between;
    PushIdle(single, r, g, m);
    r', g' := LoadMove(single, Pushed(r, m), Planned(g, m, r.nextDir, g.planTime));
    r' := r'.(live := true);
  }

  class Stepper {
    const single: bool       // SF_SINGLE_SCHED: one event per step
    const invert: bool       // the idle level of the step pin
    const pulseTicks: uint32 // step_pulse_ticks
    const tooLate: uint32    // timer_from_us(1000)
    const pool: Pool
    var r: Regs
    ghost var g: Story
    var signalNext: Stepper? // stop_signal, a link in the list of a trsync
    var armed: bool          // its callback is set
    ghost var fired: seq<int> // the reasons the callback was called with

    constructor (single: bool, invert: bool, pulseTicks: uint32, tooLate: uint32, pool: Pool)
      ensures this.pool == pool && this.single == single && Valid() && Tracks(single, r, g)
      ensures g.log == g.plan == [] && r.queue == [] && !armed && signalNext == null && fired == []
    {
      this.single, this.invert, this.pulseTicks, this.tooLate, this.pool := single, invert, pulseTicks, tooLate, pool;
      r := Regs(0, 0, 0, 0, 0, Wrap(0 - POSITION_BIAS), [], false, false, false, false, invert, false);
      g := Story([], [], 0, 0, StepMove(0, 0, 0, 0, false), []);
      signalNext, armed, fired := null, false, [];
    }

    ghost predicate Valid()
      reads this
    {
      && r.live == (r.count > 0) && (r.needReset ==> r.count == 0)
      && (single || (r.stepPin != invert) == (r.count % 2 == 1))
      && if r.count == 0 then Idle(single, r, g) else Running(single, r, g)
    }

    /** The pool nodes this stepper can account for. */
    ghost function Held(): multiset<nat>
      reads this, pool
    {
      multiset(pool.free) + Nodes(r.queue)
    }

    /** stepper_load_next. */
    method LoadNext() returns (done: bool)
      requires Between(single, r, g)
      modifies this`r, this`g, pool
      ensures done <==> old(r.queue) == []
      ensures done ==> Idle(single, r, g) && r == old(r).(count := 0) && g == old(g)
      ensures !done ==> Running(single, r, g) && r.count > 0 && JustLoaded(single, old(r), old(g), r, g)
      ensures Kept(old(r), old(g), r, g)
      ensures PlaceOk(old(r.position), old(r.dirPin), old(g.log), 0) ==> Tracks(single, r, g)
      ensures Held() == old(Held())
    {
      if r.queue == [] {
        r := r.(count := 0);
        return true;
      }
      var node := r.queue[0].node;
      r, g := LoadMove(single, r, g);
      pool.Free(node);
      done := false;
    }

    /** The next commanded step has been issued, and nothing else has changed. */
    twostate predicate Stepped()
      reads this
    {
      |g.log| == |old(g.log)| + 1 && old(g.log) <= g.log <= g.plan
    }

    /** stepper_event_edge. */
    method EventEdge() returns (done: bool)
      requires Valid() && single && r.live
      modifies this`r, this`g, pool
      ensures Valid() && r.live == !done && Held() == old(Held())
      ensures Stepped() && g.plan == old(g.plan) && g.planTime == old(g.planTime) && r.nextDir == old(r.nextDir) && r.needReset == old(r.needReset)
      ensures old(Tracks(single, r, g)) ==> Tracks(single, r, g)
    {
      hide DirsOk, PlanOk, PlaceOk, QueueEnd, QueueSteps, ClockOk, Nodes;
      var load;
      load, r, g := StepEdge(r, g);
      done := false;
      if load {
        done := LoadNext();
        r := r.(live := !done);
      }
      Prefix(single, r, g);
    }

    /** stepper_event_full, at time `now`.  `halt` is the shutdown for a step that is too late. */
    method EventFull(now: uint32) returns (done: bool, halt: bool)
      requires Valid() && !single && r.live
      modifies this`r, this`g, pool
      ensures !halt ==> Valid() && r.live == !done && Held() == old(Held())
      ensures g.plan == old(g.plan) && g.planTime == old(g.planTime) && r.nextDir == old(r.nextDir) && r.needReset == old(r.needReset)
      ensures r.count % 2 == 1 - old(r.count) % 2
      ensures old(r.count) % 2 == 0 ==> Stepped()
      ensures old(r.count) % 2 == 1 ==> g.log == old(g.log)
      ensures old(Tracks(single, r, g)) ==> Tracks(single, r, g)
      ensures !halt && !done && old(r.count) % 2 == 1 ==>
        var soon := Wrap(now + pulseTicks);
        r.waketime == if IsBefore(r.nextStepTime, soon) then soon else r.nextStepTime
    {
      hide DirsOk, PlanOk, PlaceOk, QueueEnd, QueueSteps, ClockOk, Nodes;
      var minNextTime := Wrap(now + pulseTicks);
      done, halt := false, false;
      if r.count % 2 == 0 {
        r, g := StepUp(r, g, minNextTime);
        Prefix(single, r, g);
      } else if r.count > 1 {
        r := StepDown(r, g, minNextTime);
      } else {
        done, halt := EndMove(minNextTime);
      }
    }

    /** The end of the last step of a move in double-scheduled mode. */
    method EndMove(minNextTime: uint32) returns (done: bool, halt: bool)
      requires Valid() && !single && r.count == 1
      modifies this`r, this`g, pool
      ensures !halt ==> Valid() && r.live == !done && Held() == old(Held())
      ensures g.plan == old(g.plan) && g.planTime == old(g.planTime) && g.log == old(g.log) && r.nextDir == old(r.nextDir)
      ensures r.needReset == old(r.needReset) && r.count % 2 == 0
      ensures old(Tracks(single, r, g)) ==> Tracks(single, r, g)
      ensures !halt && !done ==>
        r.waketime == if IsBefore(r.nextStepTime, minNextTime) then minNextTime else r.nextStepTime
    {
      LastClock(r, g);
      hide DirsOk, PlanOk, PlaceOk, QueueEnd, QueueSteps, ClockOk, Nodes;
      r := r.(stepPin := !r.stepPin, count := 0);
      MoveOver(single, r, g);
      done := LoadNext();
      halt := false;
      if done {
        r := r.(live := false);
      } else if IsBefore(r.waketime, minNextTime) {
        halt := Signed(Wrap(r.waketime - minNextTime)) < Signed(Wrap(0 - tooLate));
        r := r.(waketime := minNextTime);
      }
    }

    /** command_queue_step.  `late` is the time to which the scheduler moves a timer that is already
        due.  A shutdown is reported as !ok. */
    method QueueStep(interval: uint32, count: uint32, add: uint32, late: Option<uint32>) returns (ok: bool)
      requires Valid()
      modifies this`r, this`g, pool
      ensures ok <==> old(pool.free) != [] && count % 0x1_0000 != 0
      ensures ok ==> Valid() && Held() == old(Held()) && g.log == old(g.log)
      ensures ok && old(r.needReset) ==> r == old(r) && g == old(g)
      ensures ok && !old(r.needReset) ==>
        var m := StepMove(old(pool.free[0]), interval, Int16(add), count % 0x1_0000, old(r.lastDir) != old(r.nextDir));
        var start := old(StartOf(m, late));
        && g.plan == old(g.plan) + Steps(start, m, old(r.nextDir), 0) && g.planTime == StepTime(start, m, m.count)
        && r.live && !r.needReset && r.nextDir == old(r.nextDir) && (single || r.count % 2 == old(r.count) % 2)
      ensures !ok ==> r == old(r) && g == old(g)
      ensures old(Tracks(single, r, g)) ==> Tracks(single, r, g)
    {
      hide DirsOk, PlanOk, PlaceOk, QueueEnd, QueueSteps, ClockOk, StepTime, Steps, Running, Between, Nodes, Int16, Tracks, Idle, Wrap, StartOf;
      var node;
      ok, node := pool.Alloc();
      if !ok || count % 0x1_0000 == 0 {
        return false;
      }
      var m := StepMove(node, interval, Int16(add), count % 0x1_0000, r.lastDir != r.nextDir);
      if r.needReset {
        pool.Free(node);
      } else {
        AddMove(m, late);
      }
    }

    /** Where the steps of a new move begin. */
    ghost function StartOf(m: StepMove, late: Option<uint32>): uint32
      reads this
    {
      if late.Some? && single && r.count == 0 then Wrap(late.value - m.interval) else g.planTime
    }

    /** The move goes to the queue, or is loaded at once. */
    method AddMove(m: StepMove, late: Option<uint32>)
      requires Valid() && !r.needReset && m.flip == (r.lastDir != r.nextDir) && m.count > 0
      modifies this`r, this`g, pool
      ensures Valid() && Held() == old(Held()) + multiset{m.node} && g.log == old(g.log)
      ensures var start := old(StartOf(m, late));
        g.plan == old(g.plan) + Steps(start, m, old(r.nextDir), 0) && g.planTime == StepTime(start, m, m.count)
      ensures r.live && !r.needReset && r.nextDir == old(r.nextDir) && (single || r.count % 2 == old(r.count) % 2)
      ensures old(Tracks(single, r, g)) ==> Tracks(single, r, g)
    {
      hide DirsOk, PlanOk, PlaceOk, QueueEnd, QueueSteps, ClockOk, StepTime, Steps, Running, Between, Nodes, Tracks, Idle, Wrap;
      if r.count > 0 {
        PushMove(m);
      } else {
        StartMove(m);
        if late.Some? {
          Postpone(late.value);
        }
      }
    }

    /** A move for a stepper in motion goes to the end of its queue. */
    method PushMove(m: StepMove)
      requires Valid() && r.count > 0 && m.flip == (r.lastDir != r.nextDir) && m.count > 0
      modifies this`r, this`g
      ensures Valid() && r == Pushed(old(r), m) && g == Planned(old(g), m, r.nextDir, old(g.planTime))
      ensures Nodes(r.queue) == Nodes(old(r.queue)) + multiset{m.node}
      ensures old(Tracks(single, r, g)) ==> Tracks(single, r, g)
    {
      hide Running, PlaceOk, Nodes, Steps, StepTime;
      PushRunning(single, r, g, m);
      NodesPush(r.queue, m);
      r, g := Pushed(r, m), Planned(g, m, r.nextDir, g.planTime);
    }

    /** A move for a stepper at rest is loaded at once, and its timer scheduled. */
    method StartMove(m: StepMove)
      requires Valid() && r.count == 0 && !r.needReset && m.flip == (r.lastDir != r.nextDir) && m.count > 0
      modifies this`r, this`g, pool
      ensures Valid() && Held() == old(Held()) + multiset{m.node}
      ensures Started(single, old(r), old(g), r, g, m) && (single || r.count % 2 == 0)
      ensures old(Tracks(single, r, g)) ==> Tracks(single, r, g)
    {
      hide Running, Tracks, Steps, StepTime;
      r, g := StartRegs(single, r, g, m);
      pool.Free(m.node);
    }

    /** The scheduler finds the first step due and moves it to time t. */
    method Postpone(t: uint32)
      requires Valid() && r.live && r.queue == [] && Left(single, r.count) == g.cur.count
      modifies this`r, this`g
      ensures Valid() && r == old(r).(waketime := t)
      ensures g == if single then Restarted(old(g), r.dirPin, Wrap(t - g.cur.interval)) else old(g)
      ensures old(Tracks(single, r, g)) ==> Tracks(single, r, g)
    {
      hide Running, PlaceOk;
      if single {
        LateStart(r, g, t);
        g := Restarted(g, r.dirPin, Wrap(t - g.cur.interval));
      } else {
        LateFull(r, g, t);
      }
      r := r.(waketime := t);
    }

    /** command_set_next_step_dir. */
    method SetNextStepDir(dir: bool)
      requires Valid()
      modifies this`r, this`g
      ensures Valid() && r == old(r).(nextDir := dir) && g == old(g)
      ensures old(Tracks(single, r, g)) ==> Tracks(single, r, g)
    {
      r := r.(nextDir := dir);
    }

    /** command_reset_step_clock; a stepper in motion makes it a shutdown. */
    method ResetStepClock(clock: uint32) returns (ok: bool)
      requires Valid()
      modifies this`r, this`g
      ensures ok <==> old(r.count) == 0
      ensures ok ==> Valid() && r == old(r).(nextStepTime := clock, waketime := clock, needReset := false)
      ensures ok ==> g == old(g).(planTime := clock)
      ensures !ok ==> r == old(r) && g == old(g)
      ensures old(Tracks(single, r, g)) ==> Tracks(single, r, g)
    {
      if r.count > 0 {
        return false;
      }
      r := r.(nextStepTime := clock, waketime := clock, needReset := false);
      g := g.(planTime := clock);
      ok := true;
    }

    /** stepper_get_position: exact, up to the bias, as long as the position is in range. */
    method GetPosition() returns (p: uint32)
      ensures Tracks(single, r, g) ==> (p == Wrap(POSITION_BIAS + Travelled(g.log)) <==> InRange(Travelled(g.log)))
    {
      var x := Wrap(r.position - Left(single, r.count));
      p := if x >= HALF then Wrap(0 - x) else x;
      if Tracks(single, r, g) {
        var fold := Fold(r.dirPin, Travelled(g.log));
        WrapAdd(fold + Left(single, r.count), 0 - Left(single, r.count));
        Unfold(r.dirPin, Travelled(g.log), x);
      }
    }

    /** stepper_stop: no steps are left, the nodes go back to the pool, and the position is kept. */
    method Stop()
      requires Valid()
      modifies this`r, this`g, pool
      ensures Valid() && Halted(r) && g.log == old(g.log) == g.plan && g.planTime == 0
      ensures multiset(pool.free) == old(Held())
      ensures old(Tracks(single, r, g)) ==> (Tracks(single, r, g) <==> InRange(Travelled(g.log)))
    {
      hide PlanOk, ClockOk, PlaceOk, InRange, Travelled, Nodes;
      var p: int := GetPosition();
      StopPlace(p, g.log);
      var queue := r.queue;
      r := r.(live := false, nextStepTime := 0, waketime := 0, position := Wrap(0 - p), count := 0,
              lastDir := false, nextDir := false, needReset := true, dirPin := false, queue := []);
      g := g.(plan := g.log, planTime := 0, dirs := []);
      if !single {
        r := r.(stepPin := invert);
      }
      FreeAll(queue);
    }

    /** The stepper as its commands see it. */
    ghost function Now(): Course
      reads this
    {
      Course(g.plan, g.planTime, r.nextDir, r.needReset, |g.log|, !single && r.count % 2 == 1)
    }

    /** What every act keeps: false is a shutdown. */
    twostate predicate Taken(act: Act, ok: bool)
      reads this, pool
    {
      && old(g.log) <= g.log
      && (ok ==> Valid() && Held() == old(Held()) && Now() == After(single, old(Now()), act))
      && (old(Tracks(single, r, g)) && (act == Command(StopNow) ==> InRange(Travelled(old(g.log)))) ==> Tracks(single, r, g))
    }

    method TakeTick(now: uint32) returns (ok: bool)
      requires Valid()
      modifies this`r, this`g, pool
      ensures Taken(Tick(now), ok)
    {
      hide Idle, Running, Tracks, Steps, StepTime, InRange, Nodes, Wrap;
      ok := true;
      LiveCourse(single, r, g);
      if r.live && single {
        var _ := EventEdge();
      } else if r.live {
        var _, halt := EventFull(now);
        ok := !halt;
      }
    }

    method TakeQueue(interval: uint32, count: uint32, add: uint32, late: Option<uint32>) returns (ok: bool)
      requires Valid()
      modifies this`r, this`g, pool
      ensures Taken(Command(Queue(interval, count, add, late)), ok)
    {
      hide Idle, Running, Tracks, Steps, StepTime, InRange, Nodes, Wrap, Int16;
      LiveCourse(single, r, g);
      ghost var m := StepMove(0, interval, Int16(add), count % 0x1_0000, false);
      ghost var m' := m.(node := if pool.free == [] then 0 else pool.free[0], flip := r.lastDir != r.nextDir);
      SameSteps(StartOf(m', late), m, m', r.nextDir);
      ok := QueueStep(interval, count, add, late);
    }

    method TakeReset(clock: uint32) returns (ok: bool)
      requires Valid()
      modifies this`r, this`g
      ensures Taken(Reset(clock), ok)
    {
      hide Idle, Running, Tracks, Steps, StepTime, InRange, Nodes, Wrap;
      ok := ResetStepClock(clock);
    }

    method TakeDir(dir: bool) returns (ok: bool)
      requires Valid()
      modifies this`r, this`g
      ensures Taken(Command(SetDir(dir)), ok)
    {
      hide Idle, Running, Tracks, Steps, StepTime, InRange, Nodes, Wrap;
      ok := true;
      SetNextStepDir(dir);
    }

    method TakeStop() returns (ok: bool)
      requires Valid()
      modifies this`r, this`g, pool
      ensures Taken(Command(StopNow), ok)
    {
      hide Idle, Running, Tracks, Steps, StepTime, InRange, Wrap, Travelled, Nodes;
      LiveCourse(single, r, g);
      NoNodes();
      ok := true;
      ghost var log, plan := g.log, g.plan;
      assert plan[..|log|] == log;
      Stop();
    }

    /** One command or timer event; false if it is a shutdown.  What is commanded and issued then is a function
        of the act. */
    method Take(act: Act) returns (ok: bool)
      requires Valid()
      modifies this`r, this`g, pool
      ensures Taken(act, ok)
    {
      hide Taken;
      match act
      case Tick(now) => ok := TakeTick(now);
      case Reset(clock) => ok := TakeReset(clock);
      case Command(Queue(interval, count, add, late)) => ok := TakeQueue(interval, count, add, late);
      case Command(SetDir(dir)) => ok := TakeDir(dir);
      case Command(StopNow) => ok := TakeStop();
    }

    /** Any mix of commands and timer events, until a shutdown.  The steps commanded are those of the acts, the
        steps issued are always the first of them, no node is lost, and the position stays exact as long as it
        stays in range. */
    method Run(acts: seq<Act>) returns (ok: bool)
      requires Valid() && Tracks(single, r, g)
      modifies this`r, this`g, pool
      ensures old(g.log) <= g.log
      ensures InRangeFrom(g.log, |old(g.log)|) ==> Tracks(single, r, g)
      ensures ok ==> Valid() && Held() == old(Held()) && g.log <= g.plan && Now() == AfterAll(single, old(Now()), acts)
    {
      hide Idle, Running, Between, Tracks, Nodes, InRange, After;
      ok := true;
      var i := 0;
      while i < |acts| && ok
        invariant i <= |acts| && old(g.log) <= g.log
        invariant InRangeFrom(g.log, |old(g.log)|) ==> Tracks(single, r, g)
        invariant ok ==> Valid() && Held() == old(Held()) && Now() == AfterAll(single, old(Now()), acts[..i])
      {
        ghost var log := g.log;
        assert acts[..i + 1][..i] == acts[..i];
        ok := Take(acts[i]);
        if InRangeFrom(g.log, |old(g.log)|) {
          InRangeBefore(log, g.log, |old(g.log)|);
        }
        i := i + 1;
      }
      assert acts[..|acts|] == acts;
      if ok {
        IssuedFirst();
      }
    }

    lemma IssuedFirst()
      requires Valid()
      ensures g.log <= g.plan
    {
      Prefix(single, r, g);
    }

    /** Whatever is sent to a stopped stepper, it issues no step before its clock is reset. */
    method Ignore(commands: seq<Command>)
      requires Valid() && r.needReset
      modifies this`r, this`g, pool
      ensures Valid() && r.needReset && !r.live && r.count == 0 && g.log == old(g.log) && Held() == old(Held())
    {
      hide Idle, Running, Tracks, Steps, StepTime, InRange;
      for i := 0 to |commands|
        invariant Valid() && r.needReset && g.log == old(g.log) && Held() == old(Held())
      {
        match commands[i]
        case Queue(interval, count, add, late) =>
          if pool.free != [] && count % 0x1_0000 != 0 { // otherwise the controller shuts down
            var _ := QueueStep(interval, count, add, late);
          }
        case SetDir(dir) => SetNextStepDir(dir);
        case StopNow => Stop();
      }
    }

    /** The nodes of a queue go back to the pool. */
    method FreeAll(queue: seq<StepMove>)
      modifies pool
      ensures multiset(pool.free) == old(multiset(pool.free)) + Nodes(queue)
    {
      var rest := queue;
      while rest != []
        invariant multiset(pool.free) + Nodes(rest) == old(multiset(pool.free)) + Nodes(queue)
        decreases |rest|
      {
        var m := rest[0];
        rest := rest[1..];
        pool.Free(m.node);
      }
    }
  }

  /** The position was in range after n steps and after every later one. */
  ghost predicate InRangeFrom(log: seq<Edge>, n: nat) {
    forall k :: n <= k <= |log| ==> InRange(Travelled(log[..k]))
  }

  lemma InRangeBefore(log: seq<Edge>, log': seq<Edge>, n: nat)
    requires log <= log' && n <= |log| && InRangeFrom(log', n)
    ensures InRangeFrom(log, n) && InRange(Travelled(log))
  {
    forall k | n <= k <= |log| ensures InRange(Travelled(log[..k])) {
      assert log'[..k] == log[..k];
    }
    assert log[..|log|] == log;
  }

  predicate Started(single: bool, r: Regs, g: Story, r': Regs, g': Story, m: StepMove) {
    var regs := r'.live && !r'.needReset && r'.nextDir == r.nextDir && r'.queue == [] && Left(single, r'.count) == m.count;
    var story := g'.log == g.log == g.plan && g'.cur == m && r'.dirPin == r.nextDir;
    var plan := g'.plan == g.plan + Steps(g.planTime, m, r.nextDir, 0) && g'.planTime == StepTime(g.planTime, m, m.count);
    regs && story && plan
  }

  /** A stopped stepper: no timer, no moves, and none accepted until its clock is reset. */
  predicate Halted(r: Regs) {
    var quiet, empty := !r.live && r.needReset && r.count == 0, r.queue == [] && !r.nextDir && !r.dirPin;
    quiet && empty
  }

  function Int16(x: uint32): int16 {
    var low := x % 0x1_0000;
    if low >= 0x8000 then low - 0x1_0000 else low
  }

  function Pushed(r: Regs, m: StepMove): Regs { r.(queue := r.queue + [m], lastDir := r.nextDir) }

  ghost function Planned(g: Story, m: StepMove, dir: bool, start: uint32): Story {
    g.(plan := g.plan + Steps(start, m, dir, 0), planTime := StepTime(start, m, m.count), dirs := g.dirs + [dir])
  }

  lemma PushDirs(queue: seq<StepMove>, dirs: seq<bool>, dirPin: bool, lastDir: bool, m: StepMove, dir: bool)
    requires DirsOk(queue, dirs, dirPin, lastDir) && m.flip == (lastDir != dir) && m.count > 0
    ensures DirsOk(queue + [m], dirs + [dir], dirPin, dir)
  {
    forall i | 0 <= i <= |queue| ensures DirBefore(dirs + [dir], dirPin, i) == DirBefore(dirs, dirPin, i) {
    }
  }

  lemma PushRunning(single: bool, r: Regs, g: Story, m: StepMove)
    requires Running(single, r, g) && m.flip == (r.lastDir != r.nextDir) && m.count > 0
    ensures Running(single, Pushed(r, m), Planned(g, m, r.nextDir, g.planTime))
  {
    hide DirsOk, ClockOk, Steps, QueueSteps, QueueEnd, StepTime;
    PushDirs(r.queue, g.dirs, r.dirPin, r.lastDir, m, r.nextDir);
    QueueGrows(StepTime(g.base, g.cur, g.cur.count), r.queue, g.dirs, m, r.nextDir);
  }

  lemma PushIdle(single: bool, r: Regs, g: Story, m: StepMove)
    requires Idle(single, r, g) && m.flip == (r.lastDir != r.nextDir) && m.count > 0
    ensures Between(single, Pushed(r, m), Planned(g, m, r.nextDir, g.planTime))
  {
    PushDirs(r.queue, g.dirs, r.dirPin, r.lastDir, m, r.nextDir);
    QueueGrows(Clock(single, r), r.queue, g.dirs, m, r.nextDir);
  }

  ghost function Restarted(g: Story, dir: bool, start: uint32): Story {
    g.(base := start, plan := g.log + Steps(start, g.cur, dir, 0), planTime := StepTime(start, g.cur, g.cur.count))
  }

  lemma LateDirs(r: Regs, g: Story)
    requires DirsOk(r.queue, g.dirs, r.dirPin, r.lastDir) && r.queue == []
    ensures g.dirs == []
  {
  }

  /** A first step that the scheduler postpones takes the steps after it along. */
  lemma LateStart(r: Regs, g: Story, t: uint32)
    requires Running(true, r, g) && r.queue == [] && r.count == g.cur.count
    ensures Running(true, r.(waketime := t), Restarted(g, r.dirPin, Wrap(t - g.cur.interval)))
  {
    LateDirs(r, g);
    hide DirsOk, Steps, IntervalAt, StepTime, Wrap;
    var start := Wrap(t - g.cur.interval);
    LoadTimes(start, g.cur);
    WrapAdd(t - g.cur.interval, g.cur.interval);
    WrapWord(t);
  }

  /** In double-scheduled mode the commanded times do not depend on the timer. */
  lemma LateFull(r: Regs, g: Story, t: uint32)
    requires Running(false, r, g)
    ensures Running(false, r.(waketime := t), g)
  {
  }

  lemma IdleFacts(single: bool, r: Regs, g: Story)
    requires Idle(single, r, g)
    ensures g.log == g.plan && r.lastDir == r.dirPin
  {
  }

  lemma NoNodes()
    ensures Nodes([]) == multiset{}
  {
  }

  lemma {:induction false} NodesPush(queue: seq<StepMove>, m: StepMove)
    ensures Nodes(queue + [m]) == Nodes(queue) + multiset{m.node}
  {
    if |queue| > 0 {
      assert (queue + [m])[1..] == queue[1..] + [m];
      NodesPush(queue[1..], m);
    } else {
      assert (queue + [m])[1..] == [];
    }
  }

  lemma StopPlace(p: uint32, log: seq<Edge>)
    ensures PlaceOk(Wrap(0 - p), false, log, 0) <==> p == Wrap(POSITION_BIAS + Travelled(log))
  {
    Negated(p, POSITION_BIAS + Travelled(log));
  }

  lemma Negated(p: uint32, a: int)
    ensures Wrap(0 - p) == Wrap(0 - a) <==> p == Wrap(a)
  {
    hide Wrap;
    WrapNeg(a);
    WrapNeg(0 - a);
    WrapNeg(0 - p);
    WrapWord(p);
  }

  lemma LastClock(r: Regs, g: Story)
    requires Running(false, r, g) && r.count == 1
    ensures r.nextStepTime == StepTime(g.base, g.cur, g.cur.count)
    ensures PlanOk(g.log, g.plan, g.base, g.cur, 0, r.dirPin, r.queue, g.dirs)
  {
  }

  /** The steps issued are the first of the steps commanded. */
  lemma Prefix(single: bool, r: Regs, g: Story)
    requires Running(single, r, g) || Between(single, r, g)
    ensures g.log <= g.plan
  {
  }

  lemma LoadTimes(base: uint32, m: StepMove)
    ensures StepTime(base, m, 1) == Wrap(base + m.interval) && IntervalAt(m, 1) == Wrap(m.interval + m.add)
  {
    assert IntervalAt(m, 0) == m.interval && StepTime(base, m, 0) == base;
  }

  lemma LoadPlace(position: uint32, dirPin: bool, log: seq<Edge>, m: StepMove)
    requires PlaceOk(position, dirPin, log, 0)
    ensures m.flip ==> PlaceOk(Wrap(Wrap(0 - position) + m.count), !dirPin, log, m.count)
    ensures !m.flip ==> PlaceOk(Wrap(position + m.count), dirPin, log, m.count)
  {
    var p := Fold(dirPin, Travelled(log));
    WrapNeg(p);
    WrapAdd(0 - p, m.count);
    WrapAdd(p, m.count);
  }

  lemma LoadDirs(queue: seq<StepMove>, dirs: seq<bool>, dirPin: bool, lastDir: bool)
    requires DirsOk(queue, dirs, dirPin, lastDir) && |queue| > 0
    ensures queue[0].count > 0 && dirs[0] == (dirPin != queue[0].flip)
    ensures DirsOk(queue[1..], dirs[1..], dirPin != queue[0].flip, lastDir)
  {
    assert queue[0].flip == (dirs[0] != DirBefore(dirs, dirPin, 0));
    forall i | 0 <= i < |queue| - 1
      ensures queue[1..][i].flip == (dirs[1..][i] != DirBefore(dirs[1..], dirs[0], i))
    {
      assert queue[1..][i] == queue[i + 1] && DirBefore(dirs, dirPin, i + 1) == dirs[i];
    }
  }

  lemma LoadPlan(log: seq<Edge>, plan: seq<Edge>, base: uint32, queue: seq<StepMove>, dirs: seq<bool>, dirPin: bool, lastDir: bool)
    requires DirsOk(queue, dirs, dirPin, lastDir) && |queue| > 0 && plan == log + QueueSteps(base, queue, dirs)
    ensures var m := queue[0];
      && m.count > 0 && |dirs| == |queue|
      && DirsOk(queue[1..], dirs[1..], dirPin != m.flip, lastDir)
      && PlanOk(log, plan, base, m, m.count, dirPin != m.flip, queue[1..], dirs[1..])
      && QueueEnd(base, queue) == QueueEnd(StepTime(base, m, m.count), queue[1..])
  {
    LoadDirs(queue, dirs, dirPin, lastDir);
    assert log + QueueSteps(base, queue, dirs)
        == log + Steps(base, queue[0], dirs[0], 0) + QueueSteps(StepTime(base, queue[0], queue[0].count), queue[1..], dirs[1..]);
  }
}
