/** Rules that drop messages on purpose, one in so many or one every so often.
    Which message exactly is up to random numbers, and when, to the clock: both
    come from outside. Delay rules decide in the same way. */
module DropRule {
  import opened Arithmetic
  import opened Options

  /** `struct lnet_drop_rule`: either `rate` or `interval` is 0. */
  datatype Rule = Rule(rate: nat, interval: nat, count: nat, dropAt: nat, dropTime: int, timeBase: int)

  /** A random number below `n`. */
  function Below(n: nat, rnd: nat): nat {
    if n == 0 then 0 else rnd % n
  }

  lemma BelowIs(n: nat, rnd: nat)
    requires n > 0
    ensures Below(n, rnd) < n
  {
  }

  /** `lnet_drop_rule_add`. The clock is read twice. */
  function Add(rate: nat, interval: nat, now1: int, now2: int, rnd: nat): Option<Rule> {
    if (rate == 0) == (interval == 0) then None
    else if interval != 0 then Some(Rule(rate, interval, 0, 0, now2 + Below(interval, rnd), now1 + interval))
    else Some(Rule(rate, interval, 0, Below(rate, rnd), 0, 0))
  }

  /** `lnet_drop_rule_reset`. Here the clock is read in the other order. */
  function Reset(r: Rule, now1: int, now2: int, rnd: nat): Rule {
    if r.rate != 0 then r.(count := 0, dropAt := Below(r.rate, rnd))
    else r.(count := 0, dropTime := now1 + Below(r.interval, rnd), timeBase := now2 + r.interval)
  }

  /** The part of `drop_rule_match` for rules with a drop time. */
  function MatchTime(r: Rule, now: int, rnd: nat): (bool, Rule) {
    var r1 := r.(count := r.count + 1);
    if now < r.dropTime then (false, r1)
    else
      var base := if now > r.timeBase then now else r.timeBase;
      (true, r1.(dropTime := base + Below(r.interval, rnd), timeBase := base + r.interval))
  }

  /** The part for rules without. */
  function MatchRate(r: Rule, rnd: nat): (bool, Rule)
    requires r.rate != 0
  {
    var r1 := r.(count := r.count + 1);
    (r.count == r.dropAt, if r1.count % r.rate == 0 then r1.(dropAt := r1.count + Below(r.rate, rnd)) else r1)
  }

  /** What a rule does with a matching message, unless it divides by zero. */
  function Match(r: Rule, now: int, rnd: nat): Option<(bool, Rule)> {
    if r.dropTime != 0 then Some(MatchTime(r, now, rnd))
    else if r.rate == 0 then None
    else Some(MatchRate(r, rnd))
  }

  // ---------------------------------------------------------------- one in so many

  /** A rate rule with no message yet. */
  predicate NewRate(r: Rule) {
    r.rate > 0 && r.interval == 0 && r.count == 0 && r.dropAt < r.rate && r.dropTime == 0
  }

  /** That is how a rate rule is added, and what a reset makes of it. */
  lemma FreshRate(rate: nat, now1: int, now2: int, rnd: nat, r: Rule)
    requires rate > 0
    ensures var added := Add(rate, 0, now1, now2, rnd); added.Some? && NewRate(added.value)
    ensures r.rate == rate && r.interval == 0 && r.dropTime == 0 ==> NewRate(Reset(r, now1, now2, rnd))
  {
  }

  /** The rule after `i` matching messages; `rnds` are the random numbers drawn. */
  function After(r: Rule, rnds: nat -> nat, i: nat): Rule
    requires r.rate != 0
    ensures After(r, rnds, i).rate == r.rate && After(r, rnds, i).dropTime == r.dropTime
  {
    if i == 0 then r else MatchRate(After(r, rnds, i - 1), rnds(i - 1)).1
  }

  /** Whether the `i`th matching message is dropped. */
  predicate Drops(r: Rule, rnds: nat -> nat, i: nat)
    requires r.rate != 0
  {
    MatchRate(After(r, rnds, i), rnds(i)).0
  }

  /** Within window `w` the number of the message to drop does not change. */
  lemma {:induction false} InWindow(r: Rule, rnds: nat -> nat, w: nat, j: nat)
    requires NewRate(r) && j < r.rate
    ensures var s := After(r, rnds, w * r.rate + j);
            && s.count == w * r.rate + j && w * r.rate <= s.dropAt < w * r.rate + r.rate
            && s.dropAt == After(r, rnds, w * r.rate).dropAt
    decreases w, j
  {
    if j > 0 {
      InWindow(r, rnds, w, j - 1);
      DivUnique(w * r.rate + j, r.rate, w, j);
    } else if w > 0 {
      InWindow(r, rnds, w - 1, r.rate - 1);
      assert (w - 1) * r.rate + r.rate == w * r.rate;
      DivUnique(w * r.rate, r.rate, w, 0);
      BelowIs(r.rate, rnds(w * r.rate - 1));
    }
  }

  /** A rate-R rule drops exactly one message of every aligned window of R,
      whatever the random numbers. */
  lemma OnePerWindow(r: Rule, rnds: nat -> nat, w: nat) returns (p: nat)
    requires NewRate(r)
    ensures w * r.rate <= p < w * r.rate + r.rate
    ensures forall i :: w * r.rate <= i < w * r.rate + r.rate ==> (Drops(r, rnds, i) <==> i == p)
  {
    InWindow(r, rnds, w, 0);
    var start := w * r.rate;
    p := After(r, rnds, start).dropAt;
    forall i | start <= i < start + r.rate ensures Drops(r, rnds, i) <==> i == p {
      InWindow(r, rnds, w, i - start);
    }
  }

  // ---------------------------------------------------------------- one every so often

  /** A message that matches, and the random number drawn if it is dropped. */
  datatype Arrival = Arrival(now: int, rnd: nat)

  /** How many of the arrivals are dropped, and the rule after them. */
  function Dropped(r: Rule, arrivals: seq<Arrival>): (nat, Rule) {
    if arrivals == [] then (0, r)
    else
      var before := Dropped(r, arrivals[..|arrivals| - 1]);
      var a := arrivals[|arrivals| - 1];
      var d := MatchTime(before.1, a.now, a.rnd);
      (before.0 + (if d.0 then 1 else 0), d.1)
  }

  /** An interval rule as added or reset at time `t0`. */
  predicate NewInterval(r: Rule, t0: int) {
    r.interval > 0 && r.rate == 0 && r.dropTime >= t0 && r.timeBase >= t0 + r.interval
  }

  lemma FreshInterval(interval: nat, now1: int, now2: int, rnd: nat, r: Rule)
    requires interval > 0 && now1 <= now2
    ensures var added := Add(0, interval, now1, now2, rnd); added.Some? && NewInterval(added.value, now1)
    ensures r.rate == 0 && r.interval == interval ==> NewInterval(Reset(r, now1, now2, rnd), now1)
  {
  }

  /** After `n` drops the next is due no sooner than `n` intervals from the start. */
  lemma {:induction false} Spaced(r: Rule, t0: int, arrivals: seq<Arrival>)
    requires NewInterval(r, t0)
    ensures var (n, s) := Dropped(r, arrivals);
            && s.interval == r.interval && s.rate == 0
            && s.dropTime >= t0 + n * r.interval && s.timeBase >= t0 + (n + 1) * r.interval
    ensures var (n, s) := Dropped(r, arrivals);
            n > 0 ==> exists a :: a in arrivals && a.now >= t0 + (n - 1) * r.interval
  {
    if arrivals != [] {
      var front, a := arrivals[..|arrivals| - 1], arrivals[|arrivals| - 1];
      Spaced(r, t0, front);
      var n := Dropped(r, front).0;
      BelowIs(r.interval, a.rnd);
      assert (n + 2) * r.interval == (n + 1) * r.interval + r.interval;
      assert (n + 1) * r.interval == n * r.interval + r.interval;
      assert a in arrivals && forall b :: b in front ==> b in arrivals;
    }
  }

  /** An interval-I rule started at `t0` drops at most `(t - t0) / I + 1` messages
      by time `t`, whatever the random numbers and the arrivals. */
  lemma AtMostPerInterval(r: Rule, t0: int, arrivals: seq<Arrival>, t: int)
    requires NewInterval(r, t0) && t >= t0
    requires forall a :: a in arrivals ==> a.now <= t
    ensures Dropped(r, arrivals).0 <= (t - t0) / r.interval + 1
  {
    Spaced(r, t0, arrivals);
    var n := Dropped(r, arrivals).0;
    if n > 0 {
      DivBelow(t - t0, r.interval, n - 1);
    }
  }

  // ---------------------------------------------------------------- drop time 0

  /** A rule is taken for an interval rule exactly when its drop time is not 0.
      That can fail for an interval rule added or reset in the clock's first
      second: with random number 0 its drop time is 0, and the next match divides
      by the rate, which is 0. */
  lemma TimeZero(interval: nat, now1: int, now2: int, rnd: nat, was: Rule, now: int, rnd2: nat)
    requires interval > 0 && 0 <= now1 <= now2 && was.rate == 0 && was.interval == interval
    ensures var r := Add(0, interval, now1, now2, rnd).value;
            Match(r, now, rnd2).None? <==> now2 == 0 && rnd % interval == 0
    ensures var r := Reset(was, now1, now2, rnd);
            Match(r, now, rnd2).None? <==> now1 == 0 && rnd % interval == 0
  {
  }

  /** If it is not so at first it never is. */
  lemma NeverZeroAgain(r: Rule, t0: int, arrivals: seq<Arrival>)
    requires NewInterval(r, t0) && t0 >= 0 && r.dropTime != 0
    ensures Dropped(r, arrivals).1.dropTime != 0
  {
    DroppedTime(r, t0, arrivals);
    Spaced(r, t0, arrivals);
    var n := Dropped(r, arrivals).0;
    if n > 0 {
      Apart(r.interval, 0, n);
    }
  }

  lemma {:induction false} DroppedTime(r: Rule, t0: int, arrivals: seq<Arrival>)
    requires NewInterval(r, t0)
    ensures Dropped(r, arrivals).0 == 0 ==> Dropped(r, arrivals).1.dropTime == r.dropTime
  {
    if arrivals != [] {
      DroppedTime(r, t0, arrivals[..|arrivals| - 1]);
    }
  }

  /** The decisions of the code, one after another, unless it divides by zero. */
  function Decided(r: Rule, arrivals: seq<Arrival>): Option<(nat, Rule)> {
    if arrivals == [] then Some((0, r))
    else
      var before := Decided(r, arrivals[..|arrivals| - 1]);
      var a := arrivals[|arrivals| - 1];
      if before.None? then None
      else
        var d := Match(before.value.1, a.now, a.rnd);
        if d.None? then None else Some((before.value.0 + (if d.value.0 then 1 else 0), d.value.1))
  }

  lemma {:induction false} DecidedIs(r: Rule, t0: int, arrivals: seq<Arrival>)
    requires NewInterval(r, t0) && t0 >= 0
    ensures Decided(r, arrivals) ==
              if r.dropTime == 0 && arrivals != [] then None else Some(Dropped(r, arrivals))
  {
    if arrivals != [] {
      var front := arrivals[..|arrivals| - 1];
      DecidedIs(r, t0, front);
      if r.dropTime != 0 {
        NeverZeroAgain(r, t0, front);
      }
    }
  }

  /** So of an interval-I rule started at `t0`: it gets through any arrivals
      exactly when its first drop time is not 0, and then by time `t` it drops at
      most `(t - t0) / I + 1` of them. */
  lemma IntervalRule(r: Rule, t0: int, arrivals: seq<Arrival>, t: int)
    requires NewInterval(r, t0) && 0 <= t0 <= t
    requires forall a :: a in arrivals ==> a.now <= t
    ensures Decided(r, arrivals).Some? <==> r.dropTime != 0 || arrivals == []
    ensures Decided(r, arrivals).Some? ==> Decided(r, arrivals).value.0 <= (t - t0) / r.interval + 1
  {
    DecidedIs(r, t0, arrivals);
    AtMostPerInterval(r, t0, arrivals, t);
  }

  // ---------------------------------------------------------------- the rule object

  class DropRule {
    const rate: nat
    const interval: nat
    var count: nat
    var dropAt: nat
    var dropTime: int
    var timeBase: int
    var dropped: nat

    ghost function St(): Rule
      reads this
    {
      Rule(rate, interval, count, dropAt, dropTime, timeBase)
    }

    /** `drop_rule_match` for a message that passes the filters. */
    method MatchMessage(now: int, rnd: nat) returns (drop: bool)
      requires Match(St(), now, rnd).Some?
      modifies this
      ensures Some((drop, St())) == Match(old(St()), now, rnd)
      ensures dropped == old(dropped) + if drop then 1 else 0
    {
      if dropTime != 0 {
        count := count + 1;
        drop := now >= dropTime;
        if drop {
          if now > timeBase {
            timeBase := now;
          }
          dropTime := timeBase + Below(interval, rnd);
          timeBase := timeBase + interval;
        }
      } else {
        drop := count == dropAt;
        count := count + 1;
        if count % rate == 0 {
          dropAt := count + Below(rate, rnd);
        }
      }
      if drop {
        dropped := dropped + 1;
      }
    }
  }
}
