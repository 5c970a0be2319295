/**
 * The solver's constraint language, reduced to what the scheduler emits:
 * comparisons between linear integer terms, disjunctions and if-then-else.
 * A constraint holds in an environment that gives every variable an integer.
 */
module Constraints {
  import opened Seqs

  /** A solver variable: the transmission time of one cell of a frame's
      offset on a link, or the selector of one candidate path of one receiver. */
  datatype Var =
    | Cell(frame: int, link: int, instance: int, replica: int)
    | Selector(frame: int, receiver: int, path: int)

  /** The sum of `vars` plus `constant`. */
  datatype Term = Term(vars: seq<Var>, constant: int)

  datatype Constraint =
    | Le(lhs: Term, rhs: Term)
    | Ge(lhs: Term, rhs: Term)
    | Gt(lhs: Term, rhs: Term)
    | Eq(lhs: Term, rhs: Term)
    | Or(disjuncts: seq<Constraint>)
    | Ite(cond: Constraint, thn: Constraint, els: Constraint)

  /** An assignment of an integer to every variable. */
  type Env = Var -> int

  /** The variable alone. */
  function V(x: Var): Term
  {
    Term([x], 0)
  }

  /** The variable plus a constant. */
  function Plus(x: Var, d: int): Term
  {
    Term([x], d)
  }

  /** A constant. */
  function Lit(c: int): Term
  {
    Term([], c)
  }

  /** The variable is 0. */
  function IsZero(x: Var): Constraint
  {
    Eq(V(x), Lit(0))
  }

  function Sum(vs: seq<Var>, env: Env): int
  {
    if |vs| == 0 then 0 else env(vs[0]) + Sum(vs[1..], env)
  }

  function Value(t: Term, env: Env): int
  {
    Sum(t.vars, env) + t.constant
  }

  predicate Holds(c: Constraint, env: Env)
    decreases c
  {
    match c
    case Le(a, b) => Value(a, env) <= Value(b, env)
    case Ge(a, b) => Value(a, env) >= Value(b, env)
    case Gt(a, b) => Value(a, env) > Value(b, env)
    case Eq(a, b) => Value(a, env) == Value(b, env)
    case Or(ds) => exists k :: 0 <= k < |ds| && Holds(ds[k], env)
    case Ite(b, x, y) => if Holds(b, env) then Holds(x, env) else Holds(y, env)
  }

  /** Every constraint of the list holds. */
  predicate HoldsAll(cs: seq<Constraint>, env: Env)
  {
    forall k :: 0 <= k < |cs| ==> Holds(cs[k], env)
  }

  /** The value of the small terms the scheduler builds. */
  lemma ValueOf(x: Var, d: int, c: int, env: Env)
    ensures Value(V(x), env) == env(x)
    ensures Value(Plus(x, d), env) == env(x) + d
    ensures Value(Lit(c), env) == c
  {
    assert Sum([x][1..], env) == 0;
  }

  /** A two-way disjunction holds exactly when one of its sides does. */
  lemma Or2(a: Constraint, b: Constraint, env: Env)
    ensures Holds(Or([a, b]), env) <==> Holds(a, env) || Holds(b, env)
  {
    if Holds(a, env) {
      assert Holds([a, b][0], env);
    }
    if Holds(b, env) {
      assert Holds([a, b][1], env);
    }
  }

  /** The sum distributes over concatenation. */
  lemma {:induction false} SumAppend(a: seq<Var>, b: seq<Var>, env: Env)
    ensures Sum(a + b, env) == Sum(a, env) + Sum(b, env)
  {
    if |a| == 0 {
      assert a + b == b;
    } else {
      assert (a + b)[1..] == a[1..] + b;
      SumAppend(a[1..], b, env);
    }
  }

  /** A sum of non-negative values is at least 1 exactly when one of them is. */
  lemma {:induction false} SumPositive(vs: seq<Var>, env: Env)
    requires forall k :: 0 <= k < |vs| ==> env(vs[k]) >= 0
    ensures Sum(vs, env) >= 0
    ensures Sum(vs, env) >= 1 <==> exists k :: 0 <= k < |vs| && env(vs[k]) >= 1
  {
    if |vs| > 0 {
      SumPositive(vs[1..], env);
      if Sum(vs[1..], env) >= 1 {
        var k :| 0 <= k < |vs| - 1 && env(vs[1..][k]) >= 1;
        assert env(vs[k + 1]) >= 1;
      }
      if exists k :: 0 <= k < |vs| && env(vs[k]) >= 1 {
        var k :| 0 <= k < |vs| && env(vs[k]) >= 1;
        if k > 0 {
          assert env(vs[1..][k - 1]) >= 1;
        }
      }
    }
  }

  /** A sum of 0/1 values is 1 exactly when one of them is 1 and the others 0. */
  lemma {:induction false} SumOneHot(vs: seq<Var>, env: Env)
    requires forall k :: 0 <= k < |vs| ==> 0 <= env(vs[k]) <= 1
    ensures Sum(vs, env) == 1 <==>
      exists k :: 0 <= k < |vs| && env(vs[k]) == 1 && forall j :: 0 <= j < |vs| && j != k ==> env(vs[j]) == 0
  {
    if |vs| > 0 {
      var tail := vs[1..];
      SumOneHot(tail, env);
      SumPositive(tail, env);
      if Sum(vs, env) == 1 {
        if env(vs[0]) == 1 {
          assert Sum(tail, env) == 0;
          forall j | 0 <= j < |vs| && j != 0
            ensures env(vs[j]) == 0
          {
            assert !(exists k :: 0 <= k < |tail| && env(tail[k]) >= 1);
            assert env(tail[j - 1]) <= 0;
          }
        } else {
          var k :| 0 <= k < |tail| && env(tail[k]) == 1 && forall j :: 0 <= j < |tail| && j != k ==> env(tail[j]) == 0;
          forall j | 0 <= j < |vs| && j != k + 1
            ensures env(vs[j]) == 0
          {
            if j > 0 {
              assert env(tail[j - 1]) == 0;
            }
          }
          assert env(vs[k + 1]) == 1;
        }
      }
      if exists k :: 0 <= k < |vs| && env(vs[k]) == 1 && forall j :: 0 <= j < |vs| && j != k ==> env(vs[j]) == 0 {
        var k :| 0 <= k < |vs| && env(vs[k]) == 1 && forall j :: 0 <= j < |vs| && j != k ==> env(vs[j]) == 0;
        if k == 0 {
          forall j | 0 <= j < |tail|
            ensures env(tail[j]) < 1
          {
            assert env(vs[j + 1]) == 0;
          }
          assert Sum(tail, env) == 0;
        } else {
          assert env(vs[0]) == 0;
          assert env(tail[k - 1]) == 1;
          forall j | 0 <= j < |tail| && j != k - 1
            ensures env(tail[j]) == 0
          {
            assert env(vs[j + 1]) == 0;
          }
        }
      }
    }
  }

  /** A list of constraints holds exactly when each of its parts holds. */
  lemma {:induction false} HoldsAllAppend(a: seq<Constraint>, b: seq<Constraint>, env: Env)
    ensures HoldsAll(a + b, env) <==> HoldsAll(a, env) && HoldsAll(b, env)
  {
    if HoldsAll(a + b, env) {
      forall k | 0 <= k < |a|
        ensures Holds(a[k], env)
      {
        assert (a + b)[k] == a[k];
      }
      forall k | 0 <= k < |b|
        ensures Holds(b[k], env)
      {
        assert (a + b)[|a| + k] == b[k];
      }
    }
    if HoldsAll(a, env) && HoldsAll(b, env) {
      forall k | 0 <= k < |a + b|
        ensures Holds((a + b)[k], env)
      {
        if k >= |a| {
          assert (a + b)[k] == b[k - |a|];
        }
      }
    }
  }

  /** A one-element list holds exactly when its element does. */
  lemma HoldsAllOne(c: Constraint, env: Env)
    ensures HoldsAll([c], env) <==> Holds(c, env)
  {
    assert [c][0] == c;
  }

  /** A flattened list holds exactly when each of its blocks holds. */
  lemma {:induction false} HoldsAllFlatten(xss: seq<seq<Constraint>>, env: Env)
    ensures HoldsAll(Flatten(xss), env) <==> forall i :: 0 <= i < |xss| ==> HoldsAll(xss[i], env)
  {
    if |xss| > 0 {
      HoldsAllAppend(xss[0], Flatten(xss[1..]), env);
      HoldsAllFlatten(xss[1..], env);
      if HoldsAll(Flatten(xss), env) {
        forall i | 0 <= i < |xss|
          ensures HoldsAll(xss[i], env)
        {
          if i > 0 {
            assert xss[i] == xss[1..][i - 1];
          }
        }
      }
      if forall i :: 0 <= i < |xss| ==> HoldsAll(xss[i], env) {
        forall i | 0 <= i < |xss| - 1
          ensures HoldsAll(xss[1..][i], env)
        {
          assert xss[1..][i] == xss[i + 1];
        }
      }
    }
  }
}
