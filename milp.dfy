/** The part of the MILP engine the script uses: create an integer variable, add a linear
    constraint, set an objective coefficient, choose minimisation. The engine's solving
    algorithm is not modelled; its answer reaches the extractor as a valuation. */
module Milp {
  import opened Domain

  /** The composite keys of the script's `buy`, `use` and `sell` dictionaries. The engine's
      variable handle for a key is identified with the key itself. */
  datatype VarKey =
    | Buy(v: VehicleId, year: int)
    | Use(v: VehicleId, fuel: FuelId, bucket: Bucket, year: int)
    | Sell(v: VehicleId, year: int)

  /** A linear expression without constant part: a coefficient per variable. */
  type LinExpr = map<VarKey, real>

  function Coef(e: LinExpr, k: VarKey): real {
    if k in e then e[k] else 0.0
  }

  /** `solver.Sum([...])` over distinct variables. */
  function Ones(keys: set<VarKey>): LinExpr {
    map k | k in keys :: 1.0
  }

  /** `a - b`. */
  function Minus(a: LinExpr, b: LinExpr): LinExpr {
    map k | k in a.Keys + b.Keys :: Coef(a, k) - Coef(b, k)
  }

  /** `c * a`. */
  function Scale(c: real, a: LinExpr): LinExpr {
    map k | k in a :: c * a[k]
  }

  datatype Sense = AtMost | Exactly | AtLeast

  /** `solver.Add(lhs <sense> rhs)`, kept as `terms <sense> bound` with the variables of the
      right-hand side moved to the left and its constant to the right. */
  datatype Constraint = Constraint(terms: LinExpr, sense: Sense, bound: real)

  class Solver {
    var vars: set<VarKey>
    var constraints: seq<Constraint>
    var objective: map<VarKey, real>
    var minimize: bool

    /** Constraints and objective mention only variables of this solver. */
    ghost predicate Valid()
      reads this
    {
      && objective.Keys <= vars
      && forall i :: 0 <= i < |constraints| ==> constraints[i].terms.Keys <= vars
    }

    /** `pywraplp.Solver.CreateSolver('SCIP')`: a fresh objective minimises unless told otherwise. */
    constructor ()
      ensures Valid()
      ensures vars == {} && constraints == [] && objective == map[] && minimize
    {
      vars, constraints, objective, minimize := {}, [], map[], true;
    }

    /** `solver.IntVar(0, solver.infinity(), name)` */
    method IntVar(k: VarKey)
      requires Valid()
      modifies this
      ensures Valid()
      ensures vars == old(vars) + {k}
      ensures constraints == old(constraints) && objective == old(objective) && minimize == old(minimize)
    {
      vars := vars + {k};
    }

    /** `solver.Add(constraint)` */
    method Add(c: Constraint)
      requires Valid() && c.terms.Keys <= vars
      modifies this
      ensures Valid()
      ensures constraints == old(constraints) + [c]
      ensures vars == old(vars) && objective == old(objective) && minimize == old(minimize)
    {
      constraints := constraints + [c];
    }

    /** `objective.SetCoefficient(var, c)`: replaces any earlier coefficient of the variable. */
    method SetCoefficient(k: VarKey, c: real)
      requires Valid() && k in vars
      modifies this
      ensures Valid()
      ensures objective == old(objective)[k := c]
      ensures vars == old(vars) && constraints == old(constraints) && minimize == old(minimize)
    {
      objective := objective[k := c];
    }

    /** `objective.SetMinimization()` */
    method SetMinimization()
      requires Valid()
      modifies this
      ensures Valid() && minimize
      ensures vars == old(vars) && constraints == old(constraints) && objective == old(objective)
    {
      minimize := true;
    }
  }
}
