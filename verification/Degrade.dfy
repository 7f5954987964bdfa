/**
 The degrade machine: anomalies raise a level at once, calm decisions lower it one step at a time, and
 every decision at a raised level starts a cooldown. Times are in seconds.
 */
module Degrade {
  import opened Results

  datatype Mode = Normal | ReduceRiskOnly | ObserveOnly

  datatype Severity = Warn | Error | Other

  datatype Anomaly = Anomaly(code: string, severity: Severity)

  /** What one cycle observes. */
  datatype Input = Input(
    now: int, anomalies: seq<Anomaly>, recentWarnCount: int, warnThreshold: int, warnCodes: set<string>,
    recentWarnCodes: set<string>, breakerOpen: bool, freezeActive: bool)

  /** A decision, which is also what the next cycle is fed. */
  datatype Decision = Decision(
    mode: Option<Mode>, cooldownUntil: Option<int>, level: int, shrinkFactor: real, universeCap: Option<int>, streak: int)

  const NORMAL := Decision(None, None, 0, 1.0, None, 0)

  function Rank(m: Mode): nat {
    match m
    case Normal => 0
    case ReduceRiskOnly => 1
    case ObserveOnly => 2
  }

  /** `combine_modes`: the stricter of the two. */
  function CombineModes(base: Mode, override: Option<Mode>): (m: Mode)
    ensures Rank(m) >= Rank(base) && (override.Some? ==> Rank(m) >= Rank(override.value))
    ensures m == base || override == Some(m)
  {
    if override.None? then base
    else if override.value.ObserveOnly? then ObserveOnly
    else if override.value.ReduceRiskOnly? && base.Normal? then ReduceRiskOnly
    else base
  }

  function CooldownSeconds(level: int): int {
    if level >= 3 then 1800 else if level == 2 then 900 else if level == 1 then 900 else 0
  }

  function Build(level: int, now: int, streak: int): Decision {
    var cooldown := if level >= 1 then Some(now + CooldownSeconds(level)) else None;
    if level >= 3 then Decision(Some(ObserveOnly), cooldown, level, 0.0, Some(2), streak)
    else if level == 2 then Decision(Some(ReduceRiskOnly), cooldown, level, 0.25, Some(4), streak)
    else if level == 1 then Decision(Some(ReduceRiskOnly), cooldown, level, 0.5, Some(8), streak)
    else Decision(None, cooldown, level, 1.0, None, streak)
  }

  function LevelFromOverride(mode: Option<Mode>): int {
    if mode == Some(ObserveOnly) then 3 else if mode == Some(ReduceRiskOnly) then 1 else 0
  }

  /** No codes to watch means watching them all. */
  predicate Watched(code: string, warnCodes: set<string>) {
    warnCodes == {} || code in warnCodes
  }

  predicate Cooling(d: Decision, now: int) {
    d.cooldownUntil.Some? && now < d.cooldownUntil.value
  }

  predicate Critical(i: Input) {
    i.breakerOpen || i.freezeActive || exists a :: a in i.anomalies && a.severity.Error?
  }

  /** The warnings that count toward the threshold: none when no watched code is current or recent. */
  function WarnCount(i: Input): int {
    if || (exists a :: a in i.anomalies && a.severity.Warn? && Watched(a.code, i.warnCodes))
       || (exists code :: code in i.recentWarnCodes && Watched(code, i.warnCodes))
    then i.recentWarnCount else 0
  }

  predicate Calm(i: Input) {
    !Critical(i) && WarnCount(i) < i.warnThreshold && WarnCount(i) < i.warnThreshold * 2
  }

  function Required(level: int): int {
    if level == 1 then 8 else 4
  }

  /** `decide_degrade`, fed with the previous decision. */
  function Decide(d: Decision, i: Input): Decision {
    if Cooling(d, i.now) && d.level >= 1 then Build(d.level, i.now, d.streak)
    else if Cooling(d, i.now) then Build(LevelFromOverride(d.mode), i.now, d.streak)
    else if Critical(i) then Build(3, i.now, 0)
    else if WarnCount(i) >= i.warnThreshold * 2 then Build(2, i.now, 0)
    else if WarnCount(i) >= i.warnThreshold then Build(1, i.now, 0)
    else if d.level >= 1 then
      if d.streak + 1 < Required(d.level) then Build(d.level, i.now, d.streak + 1)
      else Build(d.level - 1, i.now, 0)
    else Build(0, i.now, 0)
  }

  // --- timed runs

  /** A run: the inputs of successive cycles, and the decisions before, between and after them. */
  datatype Run = Run(ins: seq<Input>, ds: seq<Decision>)

  ghost predicate Decided(r: Run, i: int)
    requires 0 <= i < |r.ins| && |r.ds| == |r.ins| + 1
  {
    r.ds[i + 1] == Decide(r.ds[i], r.ins[i])
  }

  /** Starting undegraded, every decision is fed the one before it. */
  ghost predicate IsRun(r: Run) {
    && |r.ds| == |r.ins| + 1 && r.ds[0] == NORMAL
    && forall i :: 0 <= i < |r.ins| ==> Decided(r, i)
  }

  /** Seconds since the decision before. */
  ghost function Gap(r: Run, i: int): int
    requires 0 < i < |r.ins|
  {
    r.ins[i].now - r.ins[i - 1].now
  }

  /** What every run keeps: a cooldown exactly at raised levels, and a streak short of the step down. */
  ghost predicate Consistent(d: Decision) {
    && 0 <= d.level <= 3
    && (d.level >= 1 <==> d.cooldownUntil.Some?)
    && 0 <= d.streak < Required(d.level) && (d.level == 0 ==> d.streak == 0)
  }

  lemma {:induction false} DecideConsistent(d: Decision, i: Input)
    requires Consistent(d)
    ensures var d' := Decide(d, i);
            Consistent(d') && (d'.level >= 1 ==> d'.cooldownUntil == Some(i.now + CooldownSeconds(d'.level)))
  {
  }

  /** Every decision of a run is consistent, and cools down from when it was made. */
  lemma {:induction false} AlwaysConsistent(r: Run, n: int)
    requires IsRun(r) && 0 <= n <= |r.ins|
    ensures Consistent(r.ds[n])
    ensures n > 0 && r.ds[n].level >= 1 ==> r.ds[n].cooldownUntil == Some(r.ins[n - 1].now + CooldownSeconds(r.ds[n].level))
    decreases n
  {
    if n > 0 {
      AlwaysConsistent(r, n - 1);
      assert Decided(r, n - 1);
      DecideConsistent(r.ds[n - 1], r.ins[n - 1]);
    }
  }

  // --- recovery

  /** Calm input with the cooldown over counts toward the streak. */
  ghost predicate Counts(d: Decision, i: Input) {
    !Cooling(d, i.now) && Calm(i)
  }

  /** A decision that neither acts on anomalies nor resets the streak. */
  ghost predicate Uneventful(d: Decision, i: Input) {
    Cooling(d, i.now) || Calm(i)
  }

  /** From k on, before n, every decision is uneventful and taken at the given level. */
  ghost predicate Holds(r: Run, k: int, n: int, level: int)
    requires 0 <= k <= n <= |r.ins| < |r.ds|
  {
    forall i :: k <= i < n ==> r.ds[i].level == level && Uneventful(r.ds[i], r.ins[i])
  }

  ghost function CalmCount(r: Run, k: int, n: int): nat
    requires 0 <= k <= n <= |r.ins| < |r.ds|
    decreases n
  {
    if k == n then 0 else CalmCount(r, k, n - 1) + if Counts(r.ds[n - 1], r.ins[n - 1]) then 1 else 0
  }

  /** What one decision does to the level and the streak. */
  lemma {:induction false} DecideStreak(d: Decision, i: Input)
    requires Consistent(d)
    ensures var d' := Decide(d, i);
            && (!Uneventful(d, i) ==> d'.level >= 1 && d'.streak == 0)
            && (Uneventful(d, i) && d'.level == d.level >= 1 ==> d'.streak == d.streak + if Counts(d, i) then 1 else 0)
            && (Uneventful(d, i) && d'.level != d.level ==>
                  d'.level == d.level - 1 && d'.streak == 0 && Counts(d, i) && d.streak + 1 == Required(d.level))
  {
  }

  /** The streak is the number of counted decisions since the level was entered or entered again. */
  lemma {:induction false} StreakIsCount(r: Run, n: int) returns (k: int)
    requires IsRun(r) && 0 <= n <= |r.ins| && r.ds[n].level >= 1
    ensures 0 < k <= n && Holds(r, k, n, r.ds[n].level) && CalmCount(r, k, n) == r.ds[n].streak
    decreases n
  {
    var d := r.ds[n - 1];
    assert Decided(r, n - 1);
    AlwaysConsistent(r, n - 1);
    DecideStreak(d, r.ins[n - 1]);
    if d.level == r.ds[n].level && Uneventful(d, r.ins[n - 1]) {
      k := StreakIsCount(r, n - 1);
    } else {
      k := n;
    }
  }

  /** A counted decision at a raised level comes a whole cooldown after the decision before it. */
  lemma {:induction false} CountedIsLate(r: Run, i: int)
    requires IsRun(r) && 0 < i < |r.ins| && Counts(r.ds[i], r.ins[i]) && r.ds[i].level >= 1
    ensures Gap(r, i) >= CooldownSeconds(r.ds[i].level)
  {
    AlwaysConsistent(r, i);
  }

  /** Each counted decision from k to n comes at least so many seconds after the decision before it. */
  ghost predicate CountedLate(r: Run, k: int, n: int, seconds: int)
    requires 0 < k <= n <= |r.ins| < |r.ds|
  {
    forall i :: k <= i < n && Counts(r.ds[i], r.ins[i]) ==> Gap(r, i) >= seconds
  }

  /** Decision n ends a full streak of late, calm decisions that began at k, all at one level. */
  ghost predicate FullStreak(r: Run, k: int, n: int, level: int)
    requires 0 < k <= n < |r.ins| < |r.ds|
  {
    && Holds(r, k, n + 1, level) && Counts(r.ds[n], r.ins[n])
    && CalmCount(r, k, n + 1) == Required(level) && CountedLate(r, k, n + 1, CooldownSeconds(level))
  }

  /** Unless a warning threshold is acted on, a level drops by one, at the end of a full streak. */
  lemma {:induction false} StepsDownOneByOne(r: Run, n: int) returns (k: int)
    requires IsRun(r) && 0 <= n < |r.ins| && r.ds[n + 1].level < r.ds[n].level && Uneventful(r.ds[n], r.ins[n])
    ensures r.ds[n + 1].level == r.ds[n].level - 1
    ensures 0 < k <= n && FullStreak(r, k, n, r.ds[n].level)
  {
    assert Decided(r, n);
    AlwaysConsistent(r, n);
    DecideStreak(r.ds[n], r.ins[n]);
    k := StreakIsCount(r, n);
    forall i | k <= i < n + 1 && Counts(r.ds[i], r.ins[i]) ensures Gap(r, i) >= CooldownSeconds(r.ds[n].level) {
      CountedIsLate(r, i);
    }
  }

  /**
   Hysteresis: in every run, level 0 is reached from a raised level only from level 1, at the end of
   eight calm decisions with nothing critical and no warning threshold acted on between them, each at
   least 900 seconds after the decision before it.
   */
  lemma {:induction false} RecoveryTakesEight(r: Run, n: int) returns (k: int)
    requires IsRun(r) && 0 <= n < |r.ins| && r.ds[n].level >= 1 && r.ds[n + 1].level == 0
    ensures r.ds[n].level == 1 && 0 < k <= n && FullStreak(r, k, n, 1)
    ensures Required(1) == 8 && CooldownSeconds(1) == 900
  {
    assert Decided(r, n);
    AlwaysConsistent(r, n);
    DecideStreak(r.ds[n], r.ins[n]);
    k := StepsDownOneByOne(r, n);
  }

  ghost predicate ClockRuns(r: Run) {
    forall i :: 0 < i < |r.ins| ==> Gap(r, i) >= 0
  }

  lemma {:induction false} CalmTakesTime(r: Run, k: int, n: int, seconds: int)
    requires |r.ins| < |r.ds| && 0 < k <= n <= |r.ins| && ClockRuns(r) && CountedLate(r, k, n, seconds)
    ensures r.ins[n - 1].now >= r.ins[k - 1].now + CalmCount(r, k, n) * seconds
    decreases n
  {
    if k < n {
      CalmTakesTime(r, k, n - 1, seconds);
      assert Gap(r, n - 1) >= 0;
      Distribute(CalmCount(r, k, n - 1), seconds);
    }
  }

  lemma {:induction false} Distribute(count: nat, seconds: int)
    ensures (count + 1) * seconds == count * seconds + seconds
  {
  }

  lemma {:induction false} ClockOrder(r: Run, i: int, j: int)
    requires ClockRuns(r) && 0 <= i <= j < |r.ins|
    ensures r.ins[i].now <= r.ins[j].now
    decreases j
  {
    if i < j {
      ClockOrder(r, i, j - 1);
      assert Gap(r, j) >= 0;
    }
  }

  /** Recovery takes two hours: back at level 0, the last 7200 seconds held nothing but calm at level 1. */
  lemma {:induction false} RecoveryTakesTwoHours(r: Run, n: int)
    requires IsRun(r) && ClockRuns(r) && 0 <= n < |r.ins| && r.ds[n].level >= 1 && r.ds[n + 1].level == 0
    ensures forall i :: 0 <= i <= n && r.ins[i].now > r.ins[n].now - 7200 ==>
                          r.ds[i].level == 1 && Uneventful(r.ds[i], r.ins[i])
  {
    var k := RecoveryTakesEight(r, n);
    CalmTakesTime(r, k, n + 1, 900);
    forall i | 0 <= i < k ensures r.ins[i].now <= r.ins[n].now - 7200 {
      ClockOrder(r, i, k - 1);
    }
  }

  // --- being stuck

  /** Every decision from n on comes sooner after the one before it than the given time. */
  ghost predicate GapsBelow(r: Run, n: int, seconds: int)
    requires 0 < n
  {
    forall i :: n <= i < |r.ins| ==> Gap(r, i) < seconds
  }

  /**
   Every decision made while cooling starts the cooldown again. So with cycles closer together than the
   cooldown of the current level, the level never changes again: calm does not lower it, and neither an
   error nor an open breaker raises it.
   */
  lemma {:induction false} FrequentCyclesFreezeTheLevel(r: Run, n: int, m: int)
    requires IsRun(r) && 0 < n <= m <= |r.ins| && r.ds[n].level >= 1
    requires GapsBelow(r, n, CooldownSeconds(r.ds[n].level))
    ensures r.ds[m].level == r.ds[n].level && r.ds[m].streak == r.ds[n].streak
    decreases m
  {
    if n < m {
      FrequentCyclesFreezeTheLevel(r, n, m - 1);
      AlwaysConsistent(r, m - 1);
      assert Decided(r, m - 1);
      assert Gap(r, m - 1) < CooldownSeconds(r.ds[n].level);
    }
  }

  /** The decisions that follow from any inputs form a run. */
  function Decisions(ins: seq<Input>): (ds: seq<Decision>)
    ensures IsRun(Run(ins, ds))
  {
    if ins == [] then [NORMAL]
    else
      var n := |ins| - 1;
      var before := Decisions(ins[..n]);
      var ds := before + [Decide(before[n], ins[n])];
      assert forall i :: 0 <= i < n ==> Decided(Run(ins[..n], before), i) && (Decided(Run(ins, ds), i) <==> Decided(Run(ins[..n], before), i));
      ds
  }

  /** Outside a cooldown the level answers at once: it is 3 exactly on critical input, or at level 3 short of a streak. */
  lemma {:induction false} RaisedAtOnce(d: Decision, i: Input)
    requires Consistent(d) && !Cooling(d, i.now)
    ensures Decide(d, i).level == 3 <==> Critical(i) || (Calm(i) && d.level == 3 && d.streak + 1 < 4)
    ensures !Critical(i) && !Calm(i) ==> 1 <= Decide(d, i).level <= 2 && Decide(d, i).streak == 0
  {
  }

  // --- what a level means, and which one is chosen

  /** An open breaker, an active freeze, or some anomaly of severity ERROR. */
  ghost predicate MustObserve(i: Input) {
    i.breakerOpen || i.freezeActive || exists k :: 0 <= k < |i.anomalies| && i.anomalies[k].severity == Error
  }

  /** A warning that counts was seen now or lately; without configured codes every warning counts. */
  ghost predicate WarningSeen(i: Input) {
    || (exists k :: 0 <= k < |i.anomalies| && i.anomalies[k].severity == Warn && (i.warnCodes == {} || i.anomalies[k].code in i.warnCodes))
    || (if i.warnCodes == {} then i.recentWarnCodes != {} else i.recentWarnCodes * i.warnCodes != {})
  }

  /** The recent warnings are at least so many. */
  ghost predicate WarnedAtLeast(i: Input, count: int) {
    (if WarningSeen(i) then i.recentWarnCount else 0) >= count
  }

  lemma {:induction false} CriticalExactly(i: Input)
    ensures Critical(i) <==> MustObserve(i)
  {
    if a :| a in i.anomalies && a.severity.Error? {
      var k :| 0 <= k < |i.anomalies| && i.anomalies[k] == a;
      assert i.anomalies[k].severity == Error;
    }
    if k :| 0 <= k < |i.anomalies| && i.anomalies[k].severity == Error {
      assert i.anomalies[k] in i.anomalies;
    }
  }

  lemma {:induction false} SomeWatched(i: Input)
    ensures (exists code :: code in i.recentWarnCodes && Watched(code, i.warnCodes))
       <==> if i.warnCodes == {} then i.recentWarnCodes != {} else i.recentWarnCodes * i.warnCodes != {}
  {
    if code :| code in i.recentWarnCodes && Watched(code, i.warnCodes) {
      assert i.warnCodes != {} ==> code in i.recentWarnCodes * i.warnCodes;
    }
    if i.warnCodes == {} && i.recentWarnCodes != {} {
      var code :| code in i.recentWarnCodes;
      assert Watched(code, i.warnCodes);
    }
    if i.warnCodes != {} && i.recentWarnCodes * i.warnCodes != {} {
      var code :| code in i.recentWarnCodes * i.warnCodes;
      assert Watched(code, i.warnCodes);
    }
  }

  lemma {:induction false} WarnedExactly(i: Input, count: int)
    ensures WarnCount(i) >= count <==> WarnedAtLeast(i, count)
  {
    SomeWatched(i);
    if a :| a in i.anomalies && a.severity.Warn? && Watched(a.code, i.warnCodes) {
      var k :| 0 <= k < |i.anomalies| && i.anomalies[k] == a;
      assert i.anomalies[k].severity == Warn;
    }
    if k :| 0 <= k < |i.anomalies| && i.anomalies[k].severity == Warn && (i.warnCodes == {} || i.anomalies[k].code in i.warnCodes) {
      assert i.anomalies[k] in i.anomalies && Watched(i.anomalies[k].code, i.warnCodes);
    }
  }

  /** Half an hour at level 3, a quarter at levels 1 and 2, have not passed since the decision before. */
  ghost predicate TooSoon(r: Run, n: int)
    requires IsRun(r) && 0 <= n < |r.ins|
  {
    && n > 0 && r.ds[n].level >= 1
    && r.ins[n].now - r.ins[n - 1].now < (if r.ds[n].level == 3 then 1800 else 900)
  }

  /**
   Which level is chosen, in every run: the same one when it is too soon; else 3 on anything critical; else
   2 from twice the warning threshold on and 1 from the threshold on; else one less after four calm
   decisions, eight at level 1, and the same one before that.
   */
  lemma {:induction false} LevelsExactly(r: Run, n: int)
    requires IsRun(r) && 0 <= n < |r.ins|
    ensures var i, level := r.ins[n], r.ds[n].level;
            r.ds[n + 1].level ==
            if TooSoon(r, n) then level
            else if MustObserve(i) then 3
            else if WarnedAtLeast(i, 2 * i.warnThreshold) then 2
            else if WarnedAtLeast(i, i.warnThreshold) then 1
            else if level == 0 || r.ds[n].streak + 1 < (if level == 1 then 8 else 4) then level
            else level - 1
  {
    AlwaysConsistent(r, n);
    assert Decided(r, n);
    CriticalExactly(r.ins[n]);
    WarnedExactly(r.ins[n], 2 * r.ins[n].warnThreshold);
    WarnedExactly(r.ins[n], r.ins[n].warnThreshold);
  }

  /** What a level imposes: a mode, a share of the usual order size, and how many symbols may be traded. */
  ghost predicate Imposes(d: Decision) {
    && (d.level == 0 ==> d.mode == None && d.shrinkFactor == 1.0 && d.universeCap == None)
    && (d.level == 1 ==> d.mode == Some(ReduceRiskOnly) && d.shrinkFactor == 0.5 && d.universeCap == Some(8))
    && (d.level == 2 ==> d.mode == Some(ReduceRiskOnly) && d.shrinkFactor == 0.25 && d.universeCap == Some(4))
    && (d.level == 3 ==> d.mode == Some(ObserveOnly) && d.shrinkFactor == 0.0 && d.universeCap == Some(2))
  }

  /** Every decision of a run imposes what its level means. */
  lemma {:induction false} AlwaysImposes(r: Run, n: int)
    requires IsRun(r) && 0 <= n <= |r.ins|
    ensures 0 <= r.ds[n].level <= 3 && Imposes(r.ds[n])
  {
    AlwaysConsistent(r, n);
    if n > 0 {
      AlwaysConsistent(r, n - 1);
      assert Decided(r, n - 1);
    }
  }

  /** Of two decisions of a run, the one at the higher level is at least as strict in every respect. */
  lemma {:induction false} HigherIsStricter(r: Run, m: int, n: int, base: Mode)
    requires IsRun(r) && 0 <= m <= |r.ins| && 0 <= n <= |r.ins| && r.ds[m].level <= r.ds[n].level
    ensures Rank(CombineModes(base, r.ds[m].mode)) <= Rank(CombineModes(base, r.ds[n].mode))
    ensures r.ds[n].shrinkFactor <= r.ds[m].shrinkFactor
    ensures r.ds[m].universeCap.Some? ==> r.ds[n].universeCap.Some? && r.ds[n].universeCap.value <= r.ds[m].universeCap.value
  {
    AlwaysImposes(r, m);
    AlwaysImposes(r, n);
  }

  /**
   When an error is heard: in every run, critical input leads to level 3 exactly when the machine is not
   at level 1 or 2, or at least 900 seconds have passed since the decision before.
   */
  lemma {:induction false} ErrorsAreHeardExactly(r: Run, n: int)
    requires IsRun(r) && 0 < n < |r.ins| && MustObserve(r.ins[n])
    ensures r.ds[n + 1].level == 3 <==> r.ds[n].level == 0 || r.ds[n].level == 3 || Gap(r, n) >= 900
  {
    CriticalExactly(r.ins[n]);
    AlwaysConsistent(r, n);
    assert Decided(r, n);
  }
}
