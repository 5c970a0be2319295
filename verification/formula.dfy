/**
 * The formulas the scheduler hands to the solver for one pair of offsets, and
 * the window test that decides whether two transmissions may collide.
 *
 * `selection` says whether path selection is on. With it, an offset equal to 0
 * means that the frame does not use the link, and each formula is relaxed for
 * that case.
 */
module Formulas {
  import opened Constraints
  import opened Frames

  /** The value of the terms built here, for every environment. */
  lemma TermValues()
    ensures forall x, env :: Value(V(x), env) == env(x)
    ensures forall x, d, env :: Value(Plus(x, d), env) == env(x) + d
    ensures forall c, env :: Value(Lit(c), env) == c
  {
    forall x, env
      ensures Value(V(x), env) == env(x)
    {
      ValueOf(x, 0, 0, env);
    }
    forall x, d, env
      ensures Value(Plus(x, d), env) == env(x) + d
    {
      ValueOf(x, d, 0, env);
    }
  }

  /** Pins `o2` to `o1 + distance`. With path selection, an unused `o1` forces
      `o2` to be unused too. */
  function FixedDistance(o1: Var, o2: Var, distance: int, selection: bool): (c: Constraint)
    ensures forall env :: Holds(c, env) <==>
      if selection && env(o1) == 0 then env(o2) == 0 else env(o2) == env(o1) + distance
  {
    TermValues();
    var pin := Eq(V(o2), Plus(o1, distance));
    if selection then Ite(IsZero(o1), IsZero(o2), pin) else pin
  }

  /** Keeps `o` in the range (`min`, `max`]: the lower bound is strict. With path
      selection the lower bound may be escaped by leaving `o` unused; the upper
      bound always applies. */
  function OffsetRange(o: Var, min: int, max: int, selection: bool): (cs: seq<Constraint>)
    ensures |cs| == 2
    ensures forall env :: HoldsAll(cs, env) <==>
      (env(o) > min || (selection && env(o) == 0)) && env(o) <= max
  {
    TermValues();
    var lower := Gt(V(o), Lit(min));
    var upper := Le(V(o), Lit(max));
    var cs := [if selection then Or([lower, IsZero(o)]) else lower, upper];
    forall env
      ensures HoldsAll(cs, env) <==> Holds(cs[0], env) && Holds(cs[1], env)
      ensures Holds(Or([lower, IsZero(o)]), env) <==> env(o) > min || env(o) == 0
    {
      Or2(lower, IsZero(o), env);
    }
    cs
  }

  /** The two transmissions do not overlap: one ends before the other starts.
      With path selection an unused `o1` also satisfies it. */
  function AvoidIntersection(o1: Var, o2: Var, d1: int, d2: int, selection: bool): (c: Constraint)
    ensures forall env :: Holds(c, env) <==>
      env(o1) + d1 <= env(o2) || env(o2) + d2 <= env(o1) || (selection && env(o1) == 0)
  {
    TermValues();
    var apart := Or([Le(Plus(o1, d1), V(o2)), Le(Plus(o2, d2), V(o1))]);
    forall env
      ensures Holds(apart, env) <==> env(o1) + d1 <= env(o2) || env(o2) + d2 <= env(o1)
      ensures Holds(Or([apart, IsZero(o1)]), env) <==> Holds(apart, env) || env(o1) == 0
    {
      Or2(Le(Plus(o1, d1), V(o2)), Le(Plus(o2, d2), V(o1)), env);
      Or2(apart, IsZero(o1), env);
    }
    if selection then Or([apart, IsZero(o1)]) else apart
  }

  /** `o2` starts at most `distance` after `o1`. */
  function MaximumDistance(o1: Var, o2: Var, distance: int): (c: Constraint)
    ensures forall env :: Holds(c, env) <==> env(o2) <= env(o1) + distance
  {
    TermValues();
    Ge(Plus(o1, distance), V(o2))
  }

  /** `o2` starts at least `distance` after `o1`. With path selection it only
      binds when the path's selector is not 0. */
  function MinimumDistance(o1: Var, o2: Var, distance: int, selection: bool, selector: Var): (c: Constraint)
    ensures forall env :: Holds(c, env) <==>
      env(o1) + distance <= env(o2) || (selection && env(selector) == 0)
  {
    TermValues();
    var gap := Le(Plus(o1, distance), V(o2));
    forall env
      ensures Holds(Or([gap, IsZero(selector)]), env) <==> Holds(gap, env) || env(selector) == 0
    {
      Or2(gap, IsZero(selector), env);
    }
    if selection then Or([gap, IsZero(selector)]) else gap
  }

  // ---------------------------------------------------------------------------
  // Transmission windows
  // ---------------------------------------------------------------------------

  /** The first instant of instance `i`'s window, shifted by one so that 0 stays free. */
  function WindowStart(f: Frame, i: int): int
  {
    f.period * i + f.starting + 1
  }

  /** The instant just past instance `i`'s window. */
  function WindowEnd(f: Frame, i: int): int
  {
    f.period * i + f.deadline + 1
  }

  predicate InWindow(f: Frame, i: int, t: int)
  {
    WindowStart(f, i) <= t < WindowEnd(f, i)
  }

  /** Instance `i1` of `f1` and instance `i2` of `f2` may collide: one window
      starts inside the other. */
  function OffsetsShareInterval(f1: Frame, i1: int, f2: Frame, i2: int): (r: bool)
    ensures f1.starting < f1.deadline && f2.starting < f2.deadline ==>
      (r <==> WindowStart(f1, i1) < WindowEnd(f2, i2) && WindowStart(f2, i2) < WindowEnd(f1, i1))
    ensures r ==> WindowStart(f1, i1) < WindowEnd(f1, i1) || WindowStart(f2, i2) < WindowEnd(f2, i2)
  {
    var min1 := WindowStart(f1, i1);
    var max1 := WindowEnd(f1, i1);
    var min2 := WindowStart(f2, i2);
    var max2 := WindowEnd(f2, i2);
    (min1 <= min2 && min2 < max1) || (min2 <= min1 && min1 < max2)
  }

  /** The test does not depend on which frame comes first. */
  lemma ShareSymmetric(f1: Frame, i1: int, f2: Frame, i2: int)
    ensures OffsetsShareInterval(f1, i1, f2, i2) == OffsetsShareInterval(f2, i2, f1, i1)
  {
  }

  /** For frames whose starting time is below their deadline, the windows
      share an instant exactly when the test says so. */
  lemma ShareIffCommonInstant(f1: Frame, i1: int, f2: Frame, i2: int)
    requires f1.starting < f1.deadline && f2.starting < f2.deadline
    ensures OffsetsShareInterval(f1, i1, f2, i2) <==> exists t :: InWindow(f1, i1, t) && InWindow(f2, i2, t)
  {
    if OffsetsShareInterval(f1, i1, f2, i2) {
      var t := if WindowStart(f1, i1) <= WindowStart(f2, i2) then WindowStart(f2, i2) else WindowStart(f1, i1);
      assert InWindow(f1, i1, t) && InWindow(f2, i2, t);
    }
  }

  /** The lowest admissible value, excluded, of the cells of instance `i`. */
  function RangeMin(f: Frame, i: int): int
  {
    f.starting + f.period * i
  }

  /** The highest admissible value of the cells of instance `i`: the
      transmission must end by the deadline. */
  function RangeMax(f: Frame, o: Offset, i: int): int
  {
    f.deadline - o.timeslots + f.period * i
  }

  /** A transmission placed in the admissible range lies inside its window. */
  lemma RangeInsideWindow(f: Frame, o: Offset, i: int, t: int)
    requires RangeMin(f, i) < t <= RangeMax(f, o, i)
    ensures InWindow(f, i, t) || o.timeslots < 0
    ensures WindowStart(f, i) <= t && t + o.timeslots < WindowEnd(f, i)
  {
  }

  /** Transmissions placed in the ranges of two instances whose windows do not
      share an instant cannot overlap. */
  lemma DisjointWindowsSeparate(f1: Frame, o1: Offset, i1: int, t1: int, f2: Frame, o2: Offset, i2: int, t2: int)
    requires RangeMin(f1, i1) < t1 <= RangeMax(f1, o1, i1)
    requires RangeMin(f2, i2) < t2 <= RangeMax(f2, o2, i2)
    requires !OffsetsShareInterval(f1, i1, f2, i2)
    ensures t1 + o1.timeslots <= t2 || t2 + o2.timeslots <= t1
  {
    RangeInsideWindow(f1, o1, i1, t1);
    RangeInsideWindow(f2, o2, i2, t2);
  }
}
