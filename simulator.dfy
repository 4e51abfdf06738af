/**
 * The SeeLevel simulator: a stand-in for an NMEA2000 tank system that reports several
 * tanks in rotation through one bus service. Each tick publishes the current tank and its
 * level, then moves a cursor to the next enabled tank; in "auto" mode each published level
 * walks up and down between 0 and 100.
 */
module SeeLevelSimulator {

  /** A level of -99 disables a tank: it is skipped by the rotation. */
  const Skip: int := -99

  /** One auto-mode step of a level: add the increment; leaving 0..100 reverses the increment
      and undoes the step. Returns the new level and the new increment. */
  function Bounce(level: int, increment: int): (r: (int, int))
    ensures r.1 == increment || r.1 == -increment
    ensures 0 <= level <= 100 ==> 0 <= r.0 <= 100
    ensures 0 <= level + increment <= 100 ==> r == (level + increment, increment)
    ensures 0 <= level <= 100 && !(0 <= level + increment <= 100) ==> r == (level, -increment)
  {
    var (l1, i1) := (level + increment, increment);
    var (l2, i2) := if l1 > 100 then (l1 + -i1, -i1) else (l1, i1);
    if l2 < 0 then (l2 + -i2, -i2) else (l2, i2)
  }

  /** The tank `m` cursor steps after `t` among `n` tanks, for 0 <= t < n and 0 <= m <= n. */
  function Ahead(t: int, m: int, n: int): int
  {
    if t + m >= n then t + m - n else t + m
  }

  /** How many cursor steps lead from `t` to `r` (1..n; a full turn when r == t). */
  function Gap(t: int, r: int, n: int): int
  {
    if r > t then r - t else r - t + n
  }

  /** `r` is the first enabled tank after `t` in cyclic order. */
  ghost predicate IsNextEnabled(levels: seq<int>, t: int, r: int)
  {
    0 <= t < |levels| && 0 <= r < |levels| && levels[r] != Skip &&
    forall m | 1 <= m < Gap(t, r, |levels|) :: levels[Ahead(t, m, |levels|)] == Skip
  }

  /** At most one tank is the next enabled one. */
  lemma NextEnabledUnique(levels: seq<int>, t: int, r1: int, r2: int)
    requires 0 <= t < |levels|
    requires IsNextEnabled(levels, t, r1) && IsNextEnabled(levels, t, r2)
    ensures r1 == r2
  {
    var n := |levels|;
    var g1, g2 := Gap(t, r1, n), Gap(t, r2, n);
    // each tank is reached from `t` after exactly its own gap, so neither gap can lie
    // inside the other's run of disabled tanks
    assert Ahead(t, g1, n) == r1 && Ahead(t, g2, n) == r2;
  }

  /**
   * With every tank disabled, each position the cursor steps to during a full turn is
   * skipped, so the `break` of the source's cursor loop is never taken, and no tank is next.
   */
  lemma NoNextWhenAllSkipped(levels: seq<int>, t: int, r: int)
    requires forall i | 0 <= i < |levels| :: levels[i] == Skip
    ensures 0 <= t < |levels| ==>
              forall k | 1 <= k <= |levels| :: 0 <= Ahead(t, k, |levels|) < |levels| &&
                                              levels[Ahead(t, k, |levels|)] == Skip
    ensures !IsNextEnabled(levels, t, r)
  {
  }

  /** A level that is not disabled lies in 0..100. */
  ghost predicate LevelsInRange(levels: seq<int>)
  {
    forall i | 0 <= i < |levels| :: levels[i] == Skip || 0 <= levels[i] <= 100
  }

  class DbusTankService {
    var Auto: bool
    var Tank: int
    const Levels: array<int>
    const Increment: array<int>
    // the /FluidType and /Level paths of the simulated service
    var PublishedFluidType: int
    var PublishedLevel: int

    ghost predicate Valid()
      reads this, Levels, Increment
    {
      Levels != Increment && Levels.Length == Increment.Length &&
      0 <= Tank < Levels.Length &&
      (exists i | 0 <= i < Levels.Length :: Levels[i] != Skip) &&
      LevelsInRange(Levels[..])
    }

    /** The service as created: tanks 1, 2 and 5 enabled, the cursor on tank 0. */
    constructor (simulate: bool, auto: bool)
      ensures Valid() && fresh(Levels) && fresh(Increment)
      ensures Levels[..] == [Skip, 70, 30, Skip, Skip, 60]
      ensures Increment[..] == [0, -3, 2, 0, 0, 1]
      ensures Tank == 0 && Auto == (simulate && auto)
      ensures PublishedFluidType == 0 && PublishedLevel == Skip
    {
      Levels := new int[6] [Skip, 70, 30, Skip, Skip, 60];
      Increment := new int[6] [0, -3, 2, 0, 0, 1];
      Tank := 0;
      Auto := simulate && auto;
      PublishedFluidType := 0;
      PublishedLevel := Skip;
      new;
      assert Levels[1] != Skip;
    }

    /** `_update`: publish the current tank, then move the cursor to the next enabled one. */
    method Update()
      requires Valid()
      modifies this, Levels, Increment
      ensures Valid()
      ensures Auto == old(Auto)
      ensures var t, level := old(Tank), old(Levels[Tank]);
              if level == Skip then
                Levels[..] == old(Levels[..]) && Increment[..] == old(Increment[..]) &&
                PublishedFluidType == old(PublishedFluidType) && PublishedLevel == old(PublishedLevel)
              else if !Auto then
                Levels[..] == old(Levels[..]) && Increment[..] == old(Increment[..]) &&
                PublishedFluidType == t && PublishedLevel == level
              else
                var (l, inc) := Bounce(level, old(Increment[t]));
                Levels[..] == old(Levels[..])[t := l] && Increment[..] == old(Increment[..])[t := inc] &&
                PublishedFluidType == t && PublishedLevel == l
      ensures IsNextEnabled(Levels[..], old(Tank), Tank)
    {
      var level := Levels[Tank];
      if level != Skip {
        if Auto {
          level := level + Increment[Tank];
          if level > 100 {
            Increment[Tank] := -Increment[Tank];
            level := level + Increment[Tank];
          }
          if level < 0 {
            Increment[Tank] := -Increment[Tank];
            level := level + Increment[Tank];
          }
          Levels[Tank] := level;
        }
        PublishedFluidType := Tank;
        PublishedLevel := level;
      }
      AdvanceCursor();
    }

    /** The `while True` loop of `_update`: step cyclically until an enabled tank. */
    method AdvanceCursor()
      requires Valid()
      modifies this`Tank
      ensures Valid()
      ensures IsNextEnabled(Levels[..], old(Tank), Tank)
    {
      var n := Levels.Length;
      ghost var t0 := Tank;
      ghost var k := 0;
      ghost var e :| 0 <= e < n && Levels[e] != Skip;
      assert Ahead(t0, Gap(t0, e, n), n) == e;
      while true
        invariant 0 <= k < Gap(t0, e, n) <= n
        invariant Tank == Ahead(t0, k, n)
        invariant forall m | 1 <= m <= k :: Levels[Ahead(t0, m, n)] == Skip
        decreases n - k
      {
        Tank := Tank + 1;
        if Tank >= n {
          Tank := 0;
        }
        k := k + 1;
        assert Tank == Ahead(t0, k, n);
        if Levels[Tank] != Skip {
          break;
        }
      }
      assert Gap(t0, Tank, n) == k;
      assert forall m | 1 <= m < k :: Levels[..][Ahead(t0, m, n)] == Skip;
    }
  }
}
