/** Driver configuration done by `set_drivers`: each driver component of a custom property gets
    an expression and one variable per source object, named `var0..var{n-1}`, each reading either
    a data path or a world-space transform channel. Three versions exist; they differ in whether
    old variables are cleared, whether `use_self` is set, and which `driver_add` results they
    configure. */
module Drivers {
  import opened Seqs
  import opened Naming

  /** What a driver variable reads from its target object. */
  datatype Target = PathTarget(id: string, dataPath: string)
                  | TransformTarget(id: string, transformType: string, space: string)

  datatype Variable = Variable(name: string, varType: string, target: Target)

  const WorldSpace := "WORLD_SPACE"

  /** The variable number `idx` of driver component `i`, reading object `v`: a data path when
      `path1` is set, otherwise the component's axis of the transform channel. */
  function ComponentVariable(idx: nat, v: string, driverType: string, transformType: string,
                             path1: string, path2: string, path3: string, i: nat): (r: Variable)
    requires path1 != "" || i < 3
    ensures r.name == VarName(idx) && r.varType == driverType && r.target.id == v
  {
    Variable(VarName(idx), driverType,
      if path1 != "" then PathTarget(v, DataPath(path1, path2, path3, i))
      else TransformTarget(v, AxisTransformType(transformType, i), WorldSpace))
  }

  /** The variables `set_drivers` adds to driver component `i`, one per object of `obs`, in order. */
  function ComponentVariables(obs: seq<string>, driverType: string, transformType: string,
                              path1: string, path2: string, path3: string, i: nat): (r: seq<Variable>)
    requires path1 != "" || i < 3
    ensures |r| == |obs|
  {
    seq(|obs|, k requires 0 <= k < |obs| => ComponentVariable(k, obs[k], driverType, transformType, path1, path2, path3, i))
  }

  function VariableNames(vs: seq<Variable>): (r: seq<string>)
    ensures |r| == |vs|
  {
    seq(|vs|, k requires 0 <= k < |vs| => vs[k].name)
  }

  /** The variables of a component are `var0..var{n-1}` in `obs` order, reading `obs[k]` with the
      requested type; their names are pairwise different. */
  lemma ComponentVariablesNamed(obs: seq<string>, driverType: string, transformType: string,
                                path1: string, path2: string, path3: string, i: nat)
    requires path1 != "" || i < 3
    ensures var r := ComponentVariables(obs, driverType, transformType, path1, path2, path3, i);
      && VariableNames(r) == VarNames(|obs|)
      && NoDup(VariableNames(r))
      && forall k :: 0 <= k < |r| ==> r[k].target.id == obs[k] && r[k].varType == driverType
  {
    var r := ComponentVariables(obs, driverType, transformType, path1, path2, path3, i);
    forall a, b | 0 <= a < b < |r| ensures VariableNames(r)[a] != VariableNames(r)[b] {
      if VarName(a) == VarName(b) {
        VarNameInjective(a, b);
      }
    }
  }

  /** The driver expression's argument list names exactly the variables the driver defines: the
      light master's expression `lvcp_driver_func(self["idx"],[var0,...])` never refers to a
      missing variable. */
  lemma ExpressionArgumentsDefined(obs: seq<string>, driverType: string, transformType: string,
                                   path1: string, path2: string, path3: string, i: nat)
    requires path1 != "" || i < 3
    requires |obs| > 0
    ensures Split(LightsArgString(|obs|), ',') ==
            VariableNames(ComponentVariables(obs, driverType, transformType, path1, path2, path3, i))
  {
    LightsArgStringSplits(|obs|);
    ComponentVariablesNamed(obs, driverType, transformType, path1, path2, path3, i);
  }

  /** Two components whose path has an "index" part read different data paths. */
  lemma ComponentsReadDistinctPaths(v: string, driverType: string, transformType: string,
                                    path1: string, path2: string, path3: string, i: nat, j: nat)
    requires path1 != "" && (path2 == "index" || path3 == "index") && i != j
    ensures ComponentVariable(0, v, driverType, transformType, path1, path2, path3, i).target !=
            ComponentVariable(0, v, driverType, transformType, path1, path2, path3, j).target
  {
    if DataPath(path1, path2, path3, i) == DataPath(path1, path2, path3, j) {
      DataPathInjective(path1, path2, path3, i, j);
    }
  }

  /** One driver (an FCurve's `driver`). */
  class Driver {
    var expression: string
    var useSelf: bool
    var variables: seq<Variable>

    constructor ()
      ensures expression == "" && !useSelf && variables == []
    {
      expression := "";
      useSelf := false;
      variables := [];
    }

    /** `for var in list(variables): variables.remove(var)`. */
    method ClearVariables()
      modifies this
      ensures variables == [] && expression == old(expression) && useSelf == old(useSelf)
    {
      var existing := variables;
      var j := 0;
      while j < |existing|
        invariant 0 <= j <= |existing|
        invariant variables == existing[j..]
        invariant expression == old(expression) && useSelf == old(useSelf)
      {
        variables := variables[1..];
        j := j + 1;
      }
    }

    /** `for j, ob in enumerate(obs): var = variables.new(); ...`: one variable per object of
        `obs`, named `var{j}`, reading component `i` of that object. */
    method AddVariables(obs: seq<string>, driverType: string, transformType: string,
                        path1: string, path2: string, path3: string, i: nat)
      requires path1 != "" || i < 3
      modifies this
      ensures expression == old(expression) && useSelf == old(useSelf)
      ensures variables == old(variables) + ComponentVariables(obs, driverType, transformType, path1, path2, path3, i)
    {
      ghost var base := variables;
      var idx := 0;
      while idx < |obs|
        invariant 0 <= idx <= |obs|
        invariant |variables| == |base| + idx && variables[..|base|] == base
        invariant forall k :: 0 <= k < idx ==>
                    variables[|base| + k] == ComponentVariable(k, obs[k], driverType, transformType, path1, path2, path3, i)
        invariant expression == old(expression) && useSelf == old(useSelf)
      {
        var v := Variable(VarName(idx), driverType,
          if path1 != "" then PathTarget(obs[idx], DataPath(path1, path2, path3, i))
          else TransformTarget(obs[idx], AxisTransformType(transformType, i), WorldSpace));
        variables := variables + [v];
        idx := idx + 1;
      }
      assert variables == base + ComponentVariables(obs, driverType, transformType, path1, path2, path3, i);
    }

    /** Configure this driver as component `i`: set the expression, optionally set `use_self`,
        optionally clear the old variables, then add one variable per object of `obs`. */
    method Configure(expr: string, obs: seq<string>, driverType: string, transformType: string,
                     path1: string, path2: string, path3: string, i: nat, setUseSelf: bool, clear: bool)
      requires path1 != "" || i < 3
      modifies this
      ensures expression == expr && useSelf == (setUseSelf || old(useSelf))
      ensures variables == (if clear then [] else old(variables)) +
                           ComponentVariables(obs, driverType, transformType, path1, path2, path3, i)
    {
      expression := expr;
      if setUseSelf {
        useSelf := true;
      }
      if clear {
        ClearVariables();
      }
      AddVariables(obs, driverType, transformType, path1, path2, path3, i);
    }
  }

  /** What `driver_add` returned: nothing, one FCurve (a scalar property) or one per component. */
  datatype DriverAdd = NoCurve | SingleCurve(d: Driver) | CurveList(ds: seq<Driver>)

  /** The drivers `set_drivers` configures: every component of a list result and nothing else (a
      single FCurve's driver has no `driver` attribute, so the current version skips it, and the
      older versions only handle lists). */
  function ConfiguredDrivers(curves: DriverAdd): seq<Driver>
  {
    if curves.CurveList? then curves.ds else []
  }

  predicate DistinctDrivers(ds: seq<Driver>)
  {
    forall a, b :: 0 <= a < b < |ds| ==> ds[a] != ds[b]
  }

  /** `set_drivers`: configure every driver of a list result as its component. `clear` and
      `setUseSelf` select the version: the current one clears and sets `use_self`, the older
      single-module version sets `use_self` only, the oldest version neither. */
  method SetDrivers(curves: DriverAdd, expr: string, obs: seq<string>, driverType: string, transformType: string,
                    path1: string, path2: string, path3: string, setUseSelf: bool, clear: bool)
    requires DistinctDrivers(ConfiguredDrivers(curves))
    requires path1 != "" || |ConfiguredDrivers(curves)| <= 3
    modifies set d | d in ConfiguredDrivers(curves)
    ensures var ds := ConfiguredDrivers(curves);
      forall i :: 0 <= i < |ds| ==>
        && ds[i].expression == expr
        && ds[i].useSelf == (setUseSelf || old(ds[i].useSelf))
        && ds[i].variables == (if clear then [] else old(ds[i].variables)) +
                              ComponentVariables(obs, driverType, transformType, path1, path2, path3, i)
  {
    var ds := ConfiguredDrivers(curves);
    var i := 0;
    while i < |ds|
      invariant 0 <= i <= |ds|
      invariant forall j :: 0 <= j < i ==>
        && ds[j].expression == expr
        && ds[j].useSelf == (setUseSelf || old(ds[j].useSelf))
        && ds[j].variables == (if clear then [] else old(ds[j].variables)) +
                              ComponentVariables(obs, driverType, transformType, path1, path2, path3, j)
      invariant forall j :: i <= j < |ds| ==>
        ds[j].expression == old(ds[j].expression) && ds[j].useSelf == old(ds[j].useSelf) &&
        ds[j].variables == old(ds[j].variables)
    {
      ds[i].Configure(expr, obs, driverType, transformType, path1, path2, path3, i, setUseSelf, clear);
      i := i + 1;
    }
  }

  /** The drivers on each object's `vecLight` property, by object name: one F-curve, and so one
      driver, per component of the vector. */
  class AnimData {
    var vecLight: map<string, seq<Driver>>

    constructor ()
      ensures vecLight == map[]
    {
      vecLight := map[];
    }

    /** `del_drivers(obj, "vecLight")`: `driver_remove` drops the property's F-curves; the error
        raised when there are none is ignored. */
    method DriverRemove(obj: string)
      modifies this
      ensures vecLight == old(vecLight) - {obj}
    {
      vecLight := vecLight - {obj};
    }

    /** `driver_add('["vecLight"]')`: the property's existing drivers, or three new, empty ones,
        one per component. */
    method DriverAdd(obj: string) returns (ds: seq<Driver>)
      modifies this
      ensures obj in old(vecLight) ==> ds == old(vecLight)[obj] && vecLight == old(vecLight)
      ensures obj !in old(vecLight) ==>
        && vecLight == old(vecLight)[obj := ds]
        && |ds| == 3 && DistinctDrivers(ds)
        && forall i :: 0 <= i < 3 ==> fresh(ds[i]) && ds[i].expression == "" && !ds[i].useSelf && ds[i].variables == []
    {
      if obj in vecLight {
        return vecLight[obj];
      }
      var x := new Driver();
      var y := new Driver();
      var z := new Driver();
      ds := [x, y, z];
      vecLight := vecLight[obj := ds];
    }
  }
}
