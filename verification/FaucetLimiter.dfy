/**
 * The faucet's limits: a cooldown between two uses of an account, and a number of uses a day. Requests
 * interleave: each takes the limiter's lock once to register and, if it was funded, once more to be counted.
 */
module FaucetLimiter {
  type Account = nat
  type Seconds = nat

  const SECONDS_IN_A_DAY: nat := 86400

  function Day(t: Seconds): nat { t / SECONDS_IN_A_DAY }

  /** How often an account was counted since the cache was cleared, and when last. */
  datatype Usage = Usage(count: nat, lastUsed: Seconds)

  /** A counted use. */
  datatype Use = Use(account: Account, counted: Seconds)

  /** The limiter; `current` are the uses counted since the cache was cleared, `past` those of earlier periods. */
  datatype Limiter = Limiter(
    cache: map<Account, Usage>,
    maxDaily: nat,
    cooldown: Seconds,
    lastReset: Seconds,
    current: seq<Use>,
    past: seq<seq<Use>>)

  datatype Verdict = Allowed | Cooldown(period: Seconds) | DailyLimitExceeded

  function UsageOf(cache: map<Account, Usage>, a: Account): Usage {
    if a in cache then cache[a] else Usage(0, 0)
  }

  /** The cache is cleared when the day has changed since it was last cleared. */
  function Reset(l: Limiter, now: Seconds): Limiter {
    if Day(now) > Day(l.lastReset) then l.(cache := map[], lastReset := now, current := [], past := l.past + [l.current])
    else l
  }

  function Judge(l: Limiter, a: Account, now: Seconds): Verdict {
    var u := UsageOf(l.cache, a);
    if u.count >= l.maxDaily then DailyLimitExceeded
    else if now >= u.lastUsed + l.cooldown then Allowed
    else Cooldown(u.lastUsed + l.cooldown - now)
  }

  /** Looking an account up puts a default entry into the cache. */
  function Touch(l: Limiter, a: Account): Limiter {
    l.(cache := l.cache[a := UsageOf(l.cache, a)])
  }

  /** The use is counted only if the account is still under its limits. */
  function Increment(l: Limiter, a: Account, now: Seconds): Limiter {
    if Judge(l, a, now) == Allowed then
      l.(cache := l.cache[a := Usage(UsageOf(l.cache, a).count + 1, now)], current := l.current + [Use(a, now)])
    else Touch(l, a)
  }

  function New(maxDaily: nat, cooldown: Seconds, now: Seconds): Limiter {
    Limiter(map[], maxDaily, cooldown, now, [], [])
  }

  // ----- interleaved requests -----

  /**
   * What requests do under the limiter's lock, in the order in which they get it. A request begins by
   * registering, and its number is the position of that section; the clock is read once for the reset and
   * once for the verdict. It ends with `Finish`, which counts it if it was let through and funded.
   */
  datatype Section = Register(account: Account, arrives: Seconds, judged: Seconds) | Finish(of: nat, now: Seconds)

  datatype Admitted = Admitted(account: Account, arrived: Seconds)

  /** The limiter, and the requests that were accepted but not yet counted. */
  datatype Faucet = Faucet(limiter: Limiter, open: map<nat, Admitted>)

  /** A request is accepted if it is let through and then funded. */
  predicate Accepts(l: Limiter, s: Section, funded: bool)
    requires s.Register?
  {
    Judge(Reset(l, s.arrives), s.account, s.judged) == Allowed && funded
  }

  function Act(f: Faucet, id: nat, s: Section, funded: bool): Faucet {
    match s
    case Register(a, arrives, _) =>
      Faucet(Touch(Reset(f.limiter, arrives), a),
             if Accepts(f.limiter, s, funded) then f.open[id := Admitted(a, arrives)] else f.open)
    case Finish(of, now) =>
      if of in f.open then Faucet(Increment(f.limiter, f.open[of].account, now), f.open - {of}) else f
  }

  /** A schedule of sections; `funded` says which requests the minters can fund. */
  function Run(l: Limiter, funded: nat -> bool, ss: seq<Section>): Faucet
    decreases |ss|
  {
    if ss == [] then Faucet(l, map[])
    else
      var last := |ss| - 1;
      Act(Run(l, funded, ss[..last]), last, ss[last], funded(last))
  }

  /** The section is a request of `a`, arriving on `day`, that is accepted. */
  predicate Counts(l: Limiter, s: Section, funded: bool, a: Account, day: nat) {
    s.Register? && s.account == a && Day(s.arrives) == day && Accepts(l, s, funded)
  }

  /** How many requests of an account that arrived on a given day were accepted. */
  function AcceptedOn(l: Limiter, funded: nat -> bool, ss: seq<Section>, a: Account, day: nat): nat
    decreases |ss|
  {
    if ss == [] then 0
    else
      var last := |ss| - 1;
      AcceptedOn(l, funded, ss[..last], a, day)
      + if Counts(Run(l, funded, ss[..last]).limiter, ss[last], funded(last), a, day) then 1 else 0
  }

  // ----- the limits on counted uses -----

  function UsesOf(uses: seq<Use>, a: Account): seq<Use> {
    if uses == [] then []
    else UsesOf(uses[..|uses| - 1], a) + if uses[|uses| - 1].account == a then [uses[|uses| - 1]] else []
  }

  predicate Spaced(uses: seq<Use>, cooldown: Seconds) {
    forall i :: 0 < i < |uses| ==> uses[i - 1].counted + cooldown <= uses[i].counted
  }

  predicate WithinLimits(l: Limiter, uses: seq<Use>, a: Account) {
    |UsesOf(uses, a)| <= l.maxDaily && Spaced(UsesOf(uses, a), l.cooldown)
  }

  /** `u` sums up the uses `mine` of an account. */
  predicate SumsUp(u: Usage, mine: seq<Use>) {
    u.count == |mine| && u.lastUsed == if mine == [] then 0 else mine[|mine| - 1].counted
  }

  /** What the limiter keeps of an account whatever the order of the sections and the clock. */
  ghost predicate AccountSafe(l: Limiter, a: Account) {
    && SumsUp(UsageOf(l.cache, a), UsesOf(l.current, a))
    && WithinLimits(l, l.current, a)
    && forall i :: 0 <= i < |l.past| ==> WithinLimits(l, l.past[i], a)
  }

  lemma UsesAppend(uses: seq<Use>, u: Use, a: Account)
    ensures UsesOf(uses + [u], a) == UsesOf(uses, a) + if u.account == a then [u] else []
  {
    assert (uses + [u])[..|uses|] == uses;
  }

  /** One more use under the limits. */
  lemma OneMoreUse(mine: seq<Use>, u: Usage, use: Use, cooldown: Seconds)
    requires SumsUp(u, mine) && Spaced(mine, cooldown) && u.lastUsed + cooldown <= use.counted
    ensures Spaced(mine + [use], cooldown) && SumsUp(Usage(u.count + 1, use.counted), mine + [use])
  {
  }

  lemma IncrementSafe(l: Limiter, b: Account, now: Seconds, a: Account)
    requires AccountSafe(l, a)
    ensures AccountSafe(Increment(l, b, now), a)
  {
    var r := Increment(l, b, now);
    PastSame(l, r, a);
    if Judge(l, b, now) == Allowed {
      UsesAppend(l.current, Use(b, now), a);
      if a == b {
        OneMoreUse(UsesOf(l.current, a), UsageOf(l.cache, a), Use(b, now), l.cooldown);
      } else {
        assert UsesOf(r.current, a) == UsesOf(l.current, a);
      }
    }
  }

  lemma PastSame(l: Limiter, r: Limiter, a: Account)
    requires r.past == l.past && r.maxDaily == l.maxDaily && r.cooldown == l.cooldown
    requires forall i :: 0 <= i < |l.past| ==> WithinLimits(l, l.past[i], a)
    ensures forall i :: 0 <= i < |r.past| ==> WithinLimits(r, r.past[i], a)
  {
    forall i | 0 <= i < |r.past| ensures WithinLimits(r, r.past[i], a) {
      assert WithinLimits(l, l.past[i], a);
    }
  }

  lemma ResetSafe(l: Limiter, now: Seconds, a: Account)
    requires AccountSafe(l, a)
    ensures AccountSafe(Reset(l, now), a)
  {
    var r := Reset(l, now);
    forall i | 0 <= i < |r.past| ensures WithinLimits(r, r.past[i], a) {
      assert i < |l.past| ==> WithinLimits(l, l.past[i], a);
    }
  }

  lemma RegisterSafe(l: Limiter, b: Account, now: Seconds, a: Account)
    requires AccountSafe(l, a)
    ensures AccountSafe(Touch(Reset(l, now), b), a)
  {
    ResetSafe(l, now, a);
    PastSame(Reset(l, now), Touch(Reset(l, now), b), a);
  }

  lemma {:induction false} RunSafe(l: Limiter, funded: nat -> bool, ss: seq<Section>, a: Account)
    requires AccountSafe(l, a)
    ensures AccountSafe(Run(l, funded, ss).limiter, a)
    decreases |ss|
  {
    if ss != [] {
      var last := |ss| - 1;
      RunSafe(l, funded, ss[..last], a);
      var f := Run(l, funded, ss[..last]);
      match ss[last] {
        case Register(b, arrives, _) => RegisterSafe(f.limiter, b, arrives, a);
        case Finish(of, now) => if of in f.open { IncrementSafe(f.limiter, f.open[of].account, now, a); }
      }
    }
  }

  lemma {:induction false} SameSettings(l: Limiter, funded: nat -> bool, ss: seq<Section>)
    ensures var r := Run(l, funded, ss).limiter; r.maxDaily == l.maxDaily && r.cooldown == l.cooldown
    decreases |ss|
  {
    if ss != [] {
      SameSettings(l, funded, ss[..|ss| - 1]);
    }
  }

  lemma {:induction false} SpanOf(uses: seq<Use>, cooldown: Seconds)
    requires Spaced(uses, cooldown) && uses != []
    ensures uses[|uses| - 1].counted - uses[0].counted >= (|uses| - 1) * cooldown
    decreases |uses|
  {
    if |uses| > 1 {
      SpanOf(uses[..|uses| - 1], cooldown);
      assert (|uses| - 1) * cooldown == (|uses| - 2) * cooldown + cooldown;
    }
  }

  /** The uses counted between two clearings of the cache, the current period last. */
  function Periods(l: Limiter): seq<seq<Use>> { l.past + [l.current] }

  /**
   * Between any two clearings of the cache, the counted uses of an account are at least the cooldown
   * apart, so `n` of them span at least `n - 1` cooldowns, and there are at most the daily limit. This
   * holds under every interleaving and even if the clock goes back, because a use is judged again when
   * it is counted.
   */
  lemma CooldownOverTime(maxDaily: nat, cooldown: Seconds, start: Seconds, funded: nat -> bool, ss: seq<Section>,
                         p: nat, a: Account)
    requires p < |Periods(Run(New(maxDaily, cooldown, start), funded, ss).limiter)|
    ensures var mine := UsesOf(Periods(Run(New(maxDaily, cooldown, start), funded, ss).limiter)[p], a);
      && Spaced(mine, cooldown) && |mine| <= maxDaily
      && (mine != [] ==> mine[|mine| - 1].counted - mine[0].counted >= (|mine| - 1) * cooldown)
  {
    var l0 := New(maxDaily, cooldown, start);
    RunSafe(l0, funded, ss, a);
    SameSettings(l0, funded, ss);
    var l := Run(l0, funded, ss).limiter;
    assert WithinLimits(l, Periods(l)[p], a);
    var mine := UsesOf(Periods(l)[p], a);
    if mine != [] {
      SpanOf(mine, cooldown);
    }
  }

  // ----- which requests are let through -----

  /** The time from which the account may be served again: a cooldown after its last use, or after time 0. */
  function NotBefore(mine: seq<Use>, cooldown: Seconds): Seconds {
    (if mine == [] then 0 else mine[|mine| - 1].counted) + cooldown
  }

  /** A verdict in terms of the account's counted uses. */
  predicate VerdictFits(l: Limiter, a: Account, mine: seq<Use>, now: Seconds) {
    var verdict := Judge(l, a, now);
    && (verdict == Allowed <==> |mine| < l.maxDaily && NotBefore(mine, l.cooldown) <= now)
    && (verdict == DailyLimitExceeded <==> |mine| >= l.maxDaily)
    && (verdict.Cooldown? ==> verdict.period > 0 && now + verdict.period == NotBefore(mine, l.cooldown))
  }

  /**
   * In every run a request is let through exactly when the account has uses left since the cache was cleared
   * and a cooldown has passed since its last one; it is told that the limit is reached exactly when it is;
   * and a wait it is told is the shortest after which it would be let through.
   */
  lemma LetThroughExactly(maxDaily: nat, cooldown: Seconds, start: Seconds, funded: nat -> bool, ss: seq<Section>,
                          a: Account, arrives: Seconds, now: Seconds)
    ensures var l := Reset(Run(New(maxDaily, cooldown, start), funded, ss).limiter, arrives);
      var verdict := Judge(l, a, now);
      && l.maxDaily == maxDaily && l.cooldown == cooldown
      && VerdictFits(l, a, UsesOf(l.current, a), now)
      && (verdict.Cooldown? ==> forall t :: now <= t <= now + verdict.period ==>
            (Judge(l, a, t) == Allowed <==> t == now + verdict.period))
  {
    var l0 := New(maxDaily, cooldown, start);
    RunSafe(l0, funded, ss, a);
    SameSettings(l0, funded, ss);
    ResetSafe(Run(l0, funded, ss).limiter, arrives, a);
    var l := Reset(Run(l0, funded, ss).limiter, arrives);
    JudgeMeans(l, a, UsesOf(l.current, a), now);
    forall t | now <= t ensures VerdictFits(l, a, UsesOf(l.current, a), t) {
      JudgeMeans(l, a, UsesOf(l.current, a), t);
    }
  }

  lemma JudgeMeans(l: Limiter, a: Account, mine: seq<Use>, now: Seconds)
    requires SumsUp(UsageOf(l.cache, a), mine)
    ensures VerdictFits(l, a, mine, now)
  {
  }

  /** Midnight of a day, in seconds. */
  function Midnight(k: nat): Seconds { k * (24 * 60 * 60) }

  ghost predicate MidnightBetween(t: Seconds, u: Seconds) {
    exists k: nat :: t < Midnight(k) <= u
  }

  /** The cache is cleared exactly when midnight has passed since it was last cleared, and then wholly. */
  lemma ClearedAtMidnight(l: Limiter, now: Seconds)
    ensures var r := Reset(l, now);
      if MidnightBetween(l.lastReset, now) then r.cache == map[] && r.current == [] && r.lastReset == now else r == l
  {
    if Day(now) > Day(l.lastReset) {
      assert l.lastReset < Midnight(Day(now)) <= now;
    } else {
      forall k: nat ensures !(l.lastReset < Midnight(k) <= now) {
        if l.lastReset < Midnight(k) {
          assert k > Day(l.lastReset);
        }
      }
    }
  }

  // ----- the daily limit on accepted requests -----

  function First(s: Section): Seconds { if s.Register? then s.arrives else s.now }

  function Last(s: Section): Seconds { if s.Register? then s.judged else s.now }

  /** The clock never goes back, from `start` through each section to the next. */
  predicate Clock(start: Seconds, ss: seq<Section>) {
    && (forall i :: 0 <= i < |ss| ==> start <= First(ss[i]) <= Last(ss[i]))
    && (forall i :: 0 < i < |ss| ==> Last(ss[i - 1]) <= First(ss[i]))
  }

  function End(start: Seconds, ss: seq<Section>): Seconds {
    if ss == [] then start else Last(ss[|ss| - 1])
  }

  predicate Ends(s: Section, id: nat) { s.Finish? && s.of == id }

  /** Requests `j` and `i` of an account arrive on the same day, and `i` registers before `j` has ended. */
  predicate Overlap(ss: seq<Section>, a: Account, j: nat, i: nat) {
    && j < i < |ss|
    && ss[j].Register? && ss[j].account == a && ss[i].Register? && ss[i].account == a
    && Day(ss[j].arrives) == Day(ss[i].arrives)
    && forall k :: j < k < i ==> !Ends(ss[k], j)
  }

  /** The account makes its requests of each day one after the other. */
  predicate OneAtATime(ss: seq<Section>, a: Account) {
    forall i, j :: 0 <= j < i < |ss| ==> !Overlap(ss, a, j, i)
  }

  /** An accepted request of the account and day waits to be counted. */
  ghost predicate HasOpen(f: Faucet, a: Account, day: nat) {
    exists id :: id in f.open && f.open[id].account == a && Day(f.open[id].arrived) == day
  }

  /**
   * The requests accepted on the current day are covered by counted uses, except for at most one that
   * waits to be counted and is sure to be.
   */
  ghost predicate Covered(f: Faucet, a: Account, now: Seconds, accepted: nat) {
    var u := UsageOf(f.limiter.cache, a);
    || accepted <= u.count
    || (HasOpen(f, a, Day(f.limiter.lastReset)) && accepted <= u.count + 1 && u.lastUsed + f.limiter.cooldown <= now)
  }

  ghost predicate DaySafe(f: Faucet, a: Account, day: nat, now: Seconds, accepted: nat) {
    && f.limiter.lastReset <= now && accepted <= f.limiter.maxDaily
    && (day > Day(f.limiter.lastReset) ==> accepted == 0)
    && (day == Day(f.limiter.lastReset) ==> Covered(f, a, now, accepted))
  }

  lemma RegisterKeepsDay(f: Faucet, id: nat, s: Section, funded: bool, a: Account, day: nat, now: Seconds, accepted: nat)
    requires DaySafe(f, a, day, now, accepted) && s.Register? && now <= s.arrives <= s.judged && id !in f.open
    requires s.account == a ==> !HasOpen(f, a, Day(s.arrives))
    ensures DaySafe(Act(f, id, s, funded), a, day, s.judged,
                    accepted + if Counts(f.limiter, s, funded, a, day) then 1 else 0)
  {
    var g, r := Act(f, id, s, funded), Reset(f.limiter, s.arrives);
    assert Day(now) <= Day(s.arrives) && Day(f.limiter.lastReset) <= Day(now);
    assert Day(r.lastReset) == Day(s.arrives);
    assert UsageOf(g.limiter.cache, a) == UsageOf(r.cache, a);
    if Counts(f.limiter, s, funded, a, day) {
      assert g.open[id] == Admitted(a, s.arrives);
      assert HasOpen(g, a, day);
    } else if day == Day(s.arrives) && HasOpen(f, a, day) {
      StillOpen(f, g, a, day);
    }
  }

  lemma StillOpen(f: Faucet, g: Faucet, a: Account, day: nat)
    requires HasOpen(f, a, day)
    requires forall id :: id in f.open && f.open[id].account == a ==> id in g.open && g.open[id] == f.open[id]
    ensures HasOpen(g, a, day)
  {
    var id :| id in f.open && f.open[id].account == a && Day(f.open[id].arrived) == day;
    assert id in g.open;
  }

  lemma FinishKeepsDay(f: Faucet, id: nat, s: Section, funded: bool, a: Account, day: nat, now: Seconds, accepted: nat)
    requires DaySafe(f, a, day, now, accepted) && s.Finish? && now <= s.now
    ensures DaySafe(Act(f, id, s, funded), a, day, s.now, accepted)
  {
    var g := Act(f, id, s, funded);
    if s.of in f.open && f.open[s.of].account != a && HasOpen(f, a, Day(f.limiter.lastReset)) {
      StillOpen(f, g, a, Day(f.limiter.lastReset));
    }
  }

  /** What is open in a run was registered there and has not ended. */
  lemma {:induction false} OpenHasNotEnded(l: Limiter, funded: nat -> bool, ss: seq<Section>, id: nat)
    requires id in Run(l, funded, ss).open
    ensures id < |ss| && ss[id].Register? && forall k :: id < k < |ss| ==> !Ends(ss[k], id)
    ensures Run(l, funded, ss).open[id] == Admitted(ss[id].account, ss[id].arrives)
    decreases |ss|
  {
    if ss != [] {
      var last := |ss| - 1;
      if id in Run(l, funded, ss[..last]).open {
        OpenHasNotEnded(l, funded, ss[..last], id);
      }
    }
  }

  lemma NothingOpen(l: Limiter, funded: nat -> bool, ss: seq<Section>, a: Account)
    requires ss != [] && OneAtATime(ss, a)
    requires var s := ss[|ss| - 1]; s.Register? && s.account == a
    ensures !HasOpen(Run(l, funded, ss[..|ss| - 1]), a, Day(ss[|ss| - 1].arrives))
  {
    var last := |ss| - 1;
    var f := Run(l, funded, ss[..last]);
    if id :| id in f.open && f.open[id].account == a && Day(f.open[id].arrived) == Day(ss[last].arrives) {
      OpenHasNotEnded(l, funded, ss[..last], id);
      assert Overlap(ss, a, id, last);
    }
  }

  lemma {:induction false} RunKeepsDay(l: Limiter, start: Seconds, funded: nat -> bool, ss: seq<Section>, a: Account, day: nat)
    requires l.lastReset == start && l.cache == map[] && Clock(start, ss) && OneAtATime(ss, a)
    ensures DaySafe(Run(l, funded, ss), a, day, End(start, ss), AcceptedOn(l, funded, ss, a, day))
    decreases |ss|
  {
    if ss != [] {
      var last := |ss| - 1;
      var front, s := ss[..last], ss[last];
      PrefixAsWell(start, ss, a);
      RunKeepsDay(l, start, funded, front, a, day);
      var f, accepted := Run(l, funded, front), AcceptedOn(l, funded, front, a, day);
      if s.Finish? {
        FinishKeepsDay(f, last, s, funded(last), a, day, End(start, front), accepted);
      } else {
        if last in f.open { OpenHasNotEnded(l, funded, front, last); }
        if s.account == a { NothingOpen(l, funded, ss, a); }
        RegisterKeepsDay(f, last, s, funded(last), a, day, End(start, front), accepted);
      }
    }
  }

  lemma OverlapInPrefix(ss: seq<Section>, a: Account, j: nat, i: nat)
    requires i < |ss| - 1
    ensures Overlap(ss[..|ss| - 1], a, j, i) <==> Overlap(ss, a, j, i)
  {
    assert forall k :: 0 <= k <= i ==> ss[..|ss| - 1][k] == ss[k];
  }

  lemma PrefixAsWell(start: Seconds, ss: seq<Section>, a: Account)
    requires ss != [] && Clock(start, ss) && OneAtATime(ss, a)
    ensures var front := ss[..|ss| - 1];
      Clock(start, front) && OneAtATime(front, a) && End(start, front) <= First(ss[|ss| - 1])
  {
    var front := ss[..|ss| - 1];
    forall i, j | 0 <= j < i < |front| ensures !Overlap(front, a, j, i) {
      OverlapInPrefix(ss, a, j, i);
    }
    if front != [] {
      assert Last(ss[|ss| - 2]) <= First(ss[|ss| - 1]);
    }
  }

  /**
   * The daily limit over time: if an account makes its requests of a day one after the other, at most the
   * limit are accepted of those that arrive on one day. Requests of other accounts, requests that are still
   * open when the day changes, and funding are arbitrary.
   */
  lemma DailyLimitOverTime(maxDaily: nat, cooldown: Seconds, start: Seconds, funded: nat -> bool, ss: seq<Section>,
                           a: Account, day: nat)
    requires Clock(start, ss) && OneAtATime(ss, a)
    ensures AcceptedOn(New(maxDaily, cooldown, start), funded, ss, a, day) <= maxDaily
  {
    RunKeepsDay(New(maxDaily, cooldown, start), start, funded, ss, a, day);
    SameSettings(New(maxDaily, cooldown, start), funded, ss);
  }

  /** Funding for two requests only. */
  function Only(j: nat, i: nat): nat -> bool { n => n == j || n == i }

  /** After `k` sections no use of the account was counted, and request `j` waits if it has registered. */
  predicate Quiet(f: Faucet, a: Account, k: nat, j: nat) {
    && (if j < k then f.open.Keys == {j} else f.open == map[])
    && f.limiter.maxDaily == 1
    && UsageOf(f.limiter.cache, a) == Usage(0, 0)
  }

  lemma QuietStep(f: Faucet, a: Account, k: nat, s: Section, j: nat, funded: bool)
    requires Quiet(f, a, k, j) && f.limiter.cooldown <= Last(s) && !(j < k && Ends(s, j))
    requires funded == (k == j) && (k == j ==> s.Register? && s.account == a)
    ensures Quiet(Act(f, k, s, funded), a, k + 1, j)
    ensures s.Register? && s.account == a ==> Judge(Reset(f.limiter, s.arrives), a, s.judged) == Allowed
  {
    if s.Finish? {
      assert s.of !in f.open;
    } else if k == j {
      assert Act(f, k, s, funded).open == map[j := Admitted(s.account, s.arrives)];
    }
  }

  lemma RunNext(l: Limiter, funded: nat -> bool, ss: seq<Section>, k: nat, a: Account, day: nat)
    requires k < |ss|
    ensures var f := Run(l, funded, ss[..k]);
      && Run(l, funded, ss[..k + 1]) == Act(f, k, ss[k], funded(k))
      && AcceptedOn(l, funded, ss[..k + 1], a, day)
         == AcceptedOn(l, funded, ss[..k], a, day) + if Counts(f.limiter, ss[k], funded(k), a, day) then 1 else 0
  {
    assert ss[..k + 1][..k] == ss[..k];
  }

  /** An invariant of the sections, the state and the number of accepted requests holds along every run. */
  lemma {:induction false} RunInvariant(l: Limiter, funded: nat -> bool, ss: seq<Section>, a: Account, day: nat,
                                        inv: (nat, Faucet, nat) -> bool, k: nat)
    requires k <= |ss| && inv(0, Faucet(l, map[]), 0)
    requires forall n: nat, f, c: nat :: n < |ss| && inv(n, f, c) ==>
      inv(n + 1, Act(f, n, ss[n], funded(n)), c + if Counts(f.limiter, ss[n], funded(n), a, day) then 1 else 0)
    ensures inv(k, Run(l, funded, ss[..k]), AcceptedOn(l, funded, ss[..k], a, day))
    decreases k
  {
    if k > 0 {
      RunInvariant(l, funded, ss, a, day, inv, k - 1);
      RunNext(l, funded, ss, k - 1, a, day);
    }
  }

  /**
   * When only `j` and `i` are funded, no use is counted and `j` waits until `i` registers; then both are
   * accepted.
   */
  predicate Waiting(cooldown: Seconds, a: Account, j: nat, i: nat, k: nat, f: Faucet, accepted: nat) {
    && (k <= i ==> Quiet(f, a, k, j) && f.limiter.cooldown == cooldown && accepted == if j < k then 1 else 0)
    && (k == i + 1 ==> accepted == 2)
  }

  lemma WaitingStep(cooldown: Seconds, start: Seconds, ss: seq<Section>, a: Account, j: nat, i: nat,
                    k: nat, f: Faucet, accepted: nat)
    requires Clock(start, ss) && cooldown <= start && Overlap(ss, a, j, i) && k < |ss|
    requires Waiting(cooldown, a, j, i, k, f, accepted)
    ensures Waiting(cooldown, a, j, i, k + 1, Act(f, k, ss[k], Only(j, i)(k)),
                    accepted + if Counts(f.limiter, ss[k], Only(j, i)(k), a, Day(ss[i].arrives)) then 1 else 0)
  {
    if k <= i {
      assert start <= First(ss[k]) <= Last(ss[k]);
      QuietStep(f, a, k, ss[k], j, k == j);
    }
  }

  lemma {:induction false} AcceptedGrows(l: Limiter, funded: nat -> bool, ss: seq<Section>, a: Account, day: nat, k: nat)
    requires k <= |ss|
    ensures AcceptedOn(l, funded, ss[..k], a, day) <= AcceptedOn(l, funded, ss, a, day)
    decreases |ss|
  {
    if k == |ss| {
      assert ss[..k] == ss;
    } else {
      var front := ss[..|ss| - 1];
      AcceptedGrows(l, funded, front, a, day, k);
      assert front[..k] == ss[..k];
    }
  }

  /** Of two overlapping requests that are the only ones funded, both are accepted although the limit is one. */
  lemma BothAccepted(l: Limiter, start: Seconds, ss: seq<Section>, a: Account, j: nat, i: nat, day: nat)
    requires l == New(1, l.cooldown, start) && Clock(start, ss) && l.cooldown <= start
    requires Overlap(ss, a, j, i) && day == Day(ss[i].arrives)
    ensures AcceptedOn(l, Only(j, i), ss[..i + 1], a, day) == 2
  {
    var inv := (k: nat, f: Faucet, accepted: nat) => Waiting(l.cooldown, a, j, i, k, f, accepted);
    forall k: nat, f, c: nat | k < |ss| && inv(k, f, c)
      ensures inv(k + 1, Act(f, k, ss[k], Only(j, i)(k)),
                  c + if Counts(f.limiter, ss[k], Only(j, i)(k), a, day) then 1 else 0)
    {
      WaitingStep(l.cooldown, start, ss, a, j, i, k, f, c);
    }
    RunInvariant(l, Only(j, i), ss, a, day, inv, i + 1);
  }

  lemma OverlapBreaksLimit(cooldown: Seconds, start: Seconds, ss: seq<Section>, a: Account, j: nat, i: nat)
    requires Clock(start, ss) && cooldown <= start && Overlap(ss, a, j, i)
    ensures AcceptedOn(New(1, cooldown, start), Only(j, i), ss, a, Day(ss[i].arrives)) >= 2
  {
    BothAccepted(New(1, cooldown, start), start, ss, a, j, i, Day(ss[i].arrives));
    AcceptedGrows(New(1, cooldown, start), Only(j, i), ss, a, Day(ss[i].arrives), i + 1);
  }

  /**
   * When the daily limit can be relied on: whatever the limit is and whichever requests are funded, no more
   * than the limit are accepted of the requests of an account that arrive on one day, if and only if the
   * account never registers a request while an earlier one of the same day has not ended.
   */
  lemma DailyLimitExactly(cooldown: Seconds, start: Seconds, ss: seq<Section>, a: Account)
    requires Clock(start, ss) && cooldown <= start
    ensures OneAtATime(ss, a) <==>
      forall maxDaily: nat, funded: nat -> bool, day: nat ::
        AcceptedOn(New(maxDaily, cooldown, start), funded, ss, a, day) <= maxDaily
  {
    if OneAtATime(ss, a) {
      forall maxDaily: nat, funded: nat -> bool, day: nat
        ensures AcceptedOn(New(maxDaily, cooldown, start), funded, ss, a, day) <= maxDaily
      {
        DailyLimitOverTime(maxDaily, cooldown, start, funded, ss, a, day);
      }
    } else {
      var i, j :| 0 <= j < i < |ss| && Overlap(ss, a, j, i);
      OverlapBreaksLimit(cooldown, start, ss, a, j, i);
      assert AcceptedOn(New(1, cooldown, start), Only(j, i), ss, a, Day(ss[i].arrives)) > 1;
    }
  }

  function Everyone(): nat -> bool { n => true }

  /** A run that breaks the limit: two requests register before either is counted, and only one of them is. */
  lemma RacingRequests(a: Account, t: Seconds)
    ensures var ss := [Register(a, t, t), Register(a, t, t), Finish(0, t), Finish(1, t)];
      && Clock(t, ss)
      && AcceptedOn(New(1, 0, t), Everyone(), ss, a, Day(t)) == 2
      && Run(New(1, 0, t), Everyone(), ss).limiter.current == [Use(a, t)]
  {
    var l, r, waiting := New(1, 0, t), Register(a, t, t), Admitted(a, t);
    var ss := [r, r, Finish(0, t), Finish(1, t)];
    assert ss[..3] == [r, r, Finish(0, t)] && ss[..3][..2] == [r, r] && [r, r][..1] == [r] && [r][..0] == [];
    var none := Faucet(l, map[]);
    var seen := l.(cache := map[a := Usage(0, 0)]);
    var one := Faucet(seen, map[0 := waiting]);
    var two := Faucet(seen, map[0 := waiting, 1 := waiting]);
    var used := l.(cache := map[a := Usage(1, t)], current := [Use(a, t)]);
    RaceSteps(a, t, none, one, two, used);
    assert Run(l, Everyone(), [r]) == one && AcceptedOn(l, Everyone(), [r], a, Day(t)) == 1;
    assert Run(l, Everyone(), [r, r]) == two && AcceptedOn(l, Everyone(), [r, r], a, Day(t)) == 2;
    assert Run(l, Everyone(), ss[..3]) == Faucet(used, map[1 := waiting]);
  }

  lemma RaceSteps(a: Account, t: Seconds, none: Faucet, one: Faucet, two: Faucet, used: Limiter)
    requires none == Faucet(New(1, 0, t), map[])
    requires one == Faucet(New(1, 0, t).(cache := map[a := Usage(0, 0)]), map[0 := Admitted(a, t)])
    requires two == one.(open := map[0 := Admitted(a, t), 1 := Admitted(a, t)])
    requires used == New(1, 0, t).(cache := map[a := Usage(1, t)], current := [Use(a, t)])
    ensures Act(none, 0, Register(a, t, t), true) == one && Counts(none.limiter, Register(a, t, t), true, a, Day(t))
    ensures Act(one, 1, Register(a, t, t), true) == two && Counts(one.limiter, Register(a, t, t), true, a, Day(t))
    ensures Act(two, 2, Finish(0, t), true) == Faucet(used, map[1 := Admitted(a, t)])
    ensures Act(Faucet(used, map[1 := Admitted(a, t)]), 3, Finish(1, t), true) == Faucet(used, map[])
  {
    assert map[a := Usage(0, 0)][a := Usage(0, 0)] == map[a := Usage(0, 0)];
    assert map[a := Usage(0, 0)][a := Usage(1, t)] == map[a := Usage(1, t)];
    assert map[0 := Admitted(a, t)][1 := Admitted(a, t)] == two.open;
    assert two.open - {0} == map[1 := Admitted(a, t)];
    assert map[1 := Admitted(a, t)] - {1} == map[];
  }

  // ----- the limiter as the program has it -----

  class FaucetCallLimiter {
    var cache: map<Account, Usage>
    const maxDailyRequest: nat
    const cooldownPeriod: Seconds
    var lastReset: Seconds
    ghost var current: seq<Use>
    ghost var past: seq<seq<Use>>

    ghost function View(): Limiter
      reads this
    {
      Limiter(cache, maxDailyRequest, cooldownPeriod, lastReset, current, past)
    }

    constructor (maxDailyRequest: nat, cooldownPeriod: Seconds, now: Seconds)
      ensures View() == New(maxDailyRequest, cooldownPeriod, now)
    {
      this.maxDailyRequest, this.cooldownPeriod := maxDailyRequest, cooldownPeriod;
      cache, lastReset, current, past := map[], now, [], [];
    }

    method ResetCacheIfNeeded(now: Seconds)
      modifies this
      ensures View() == Reset(old(View()), now)
    {
      if now / SECONDS_IN_A_DAY > lastReset / SECONDS_IN_A_DAY {
        past := past + [current];
        current := [];
        cache, lastReset := map[], now;
      }
    }

    /** The clock is read once for the reset and once more for the verdict. */
    method RegisterAccount(account: Account, arrives: Seconds, now: Seconds) returns (verdict: Verdict)
      modifies this
      ensures View() == Touch(Reset(old(View()), arrives), account)
      ensures verdict == Judge(Reset(old(View()), arrives), account, now)
    {
      ResetCacheIfNeeded(arrives);
      var item := if account in cache then cache[account] else Usage(0, 0);
      cache := cache[account := item];
      if item.count < maxDailyRequest {
        if now >= item.lastUsed + cooldownPeriod {
          verdict := Allowed;
        } else {
          verdict := Cooldown(item.lastUsed + cooldownPeriod - now);
        }
      } else {
        verdict := DailyLimitExceeded;
      }
    }

    method IncrementAccountUseCounterIfUnderLimit(account: Account, now: Seconds)
      modifies this
      ensures View() == Increment(old(View()), account, now)
    {
      var item := if account in cache then cache[account] else Usage(0, 0);
      cache := cache[account := item];
      if item.count < maxDailyRequest {
        if now >= item.lastUsed + cooldownPeriod {
          cache := cache[account := Usage(item.count + 1, now)];
          current := current + [Use(account, now)];
        }
      }
    }
  }

  /** The request handlers that share a limiter. Each runs in two sections, with the funding in between. */
  class FaucetHandlers {
    const limiter: FaucetCallLimiter
    /** The requests that were accepted and have still to be counted. */
    var open: map<nat, Admitted>

    ghost function View(): Faucet
      reads this, limiter
    {
      Faucet(limiter.View(), open)
    }

    constructor (limiter: FaucetCallLimiter)
      ensures this.limiter == limiter && View() == Faucet(limiter.View(), map[])
    {
      this.limiter := limiter;
      open := map[];
    }

    /** Registers the request and has it funded. */
    method Begin(id: nat, account: Account, arrives: Seconds, judged: Seconds, funded: bool) returns (verdict: Verdict)
      modifies this, limiter
      ensures View() == Act(old(View()), id, Register(account, arrives, judged), funded)
      ensures verdict == Allowed && funded <==>
        Accepts(old(limiter.View()), Register(account, arrives, judged), funded)
    {
      verdict := limiter.RegisterAccount(account, arrives, judged);
      if verdict == Allowed && funded {
        open := open[id := Admitted(account, arrives)];
      }
    }

    /** Counts the request, if it was accepted, before it is answered. */
    method Complete(id: nat, now: Seconds)
      modifies this, limiter
      ensures View() == Act(old(View()), id, Finish(id, now), false)
    {
      if id in open {
        limiter.IncrementAccountUseCounterIfUnderLimit(open[id].account, now);
        open := open - {id};
      }
    }
  }
}
