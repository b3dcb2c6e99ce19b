/**
 * `parseLists` of app.js: every item of every list variable is resolved to a
 * number, through the constants first and the flat mass table second; the
 * first item that resolves through neither aborts the whole table.
 */
module Lists {
  import opened Results
  import opened Numbers
  import opened Tables

  /** A list variable's value: an array of item names, or anything else (skipped). */
  datatype ListSpec = Items(names: seq<string>) | NotArray

  /** The two errors `parseLists` throws; both name the list. */
  datatype ListError =
    | MassNotFound(list: string, key: string)       // item `m(key)` whose mass is missing or NaN
    | NotConstantOrMass(list: string, item: string) // item that is neither a constant nor `m(...)`

  /**
   * The regular expression `^m\(([^)]+)\)$`: the text between `m(` and the
   * closing `)` that ends the item, when it is non-empty and holds no `)`.
   */
  function MassKey(s: string): (k: Option<string>)
    ensures k.Some? ==> s == "m(" + k.value + ")" && k.value != "" && ')' !in k.value
  {
    if |s| >= 4 && s[0] == 'm' && s[1] == '(' && s[|s| - 1] == ')' && ')' !in s[2..|s| - 1]
    then Some(s[2..|s| - 1])
    else None
  }

  /** Conversely, every `m(key)` with a non-empty key free of `)` matches, with that key. */
  lemma MassKeyOfCall(key: string)
    ensures MassKey("m(" + key + ")") == if key != "" && ')' !in key then Some(key) else None
  {
    var s := "m(" + key + ")";
    assert s[2..|s| - 1] == key;
  }

  /** Whether a lookup found a number that is not NaN (`typeof v === 'number' && !isNaN(v)`). */
  predicate Usable(table: map<string, Num>, key: string)
  {
    key in table && !table[key].NaN?
  }

  /** The callback `parseLists` maps over one list's item names. */
  function ResolveItem(list: string, name: string, constants: map<string, Num>, masses: map<string, Num>): (r: Result<Num, ListError>)
    ensures r.Ok? ==> !r.value.NaN?
    ensures Usable(constants, name) ==> r == Ok(constants[name])
    ensures !Usable(constants, name) && MassKey(name).Some? ==>
              r == if Usable(masses, MassKey(name).value) then Ok(masses[MassKey(name).value])
                   else Err(MassNotFound(list, MassKey(name).value))
    ensures !Usable(constants, name) && MassKey(name).None? ==> r == Err(NotConstantOrMass(list, name))
  {
    if Usable(constants, name) then Ok(constants[name])
    else match MassKey(name)
      case Some(key) => if Usable(masses, key) then Ok(masses[key]) else Err(MassNotFound(list, key))
      case None => Err(NotConstantOrMass(list, name))
  }

  /** One list's items resolved in order; the first failing item's error. */
  function ResolveItems(list: string, names: seq<string>, constants: map<string, Num>, masses: map<string, Num>): Result<seq<Num>, ListError>
  {
    if names == [] then Ok([])
    else match ResolveItems(list, names[..|names| - 1], constants, masses)
      case Err(e) => Err(e)
      case Ok(vs) =>
        match ResolveItem(list, names[|names| - 1], constants, masses)
        case Err(e) => Err(e)
        case Ok(v) => Ok(vs + [v])
  }

  /** The table `parseLists` returns, or the error of the first failing item. */
  function ResolveLists(vars: Entries<ListSpec>, constants: map<string, Num>, masses: map<string, Num>): Result<map<string, seq<Num>>, ListError>
  {
    if vars == [] then Ok(map[])
    else match ResolveLists(vars[..|vars| - 1], constants, masses)
      case Err(e) => Err(e)
      case Ok(table) =>
        var (name, spec) := vars[|vars| - 1];
        match spec
        case NotArray => Ok(table)
        case Items(names) =>
          match ResolveItems(name, names, constants, masses)
          case Err(e) => Err(e)
          case Ok(vs) => Ok(table[name := vs])
  }

  /** `parseLists`, with the flat mass table it reads as an explicit parameter. */
  method ParseLists(vars: Entries<ListSpec>, constants: map<string, Num>, masses: map<string, Num>) returns (r: Result<map<string, seq<Num>>, ListError>)
    ensures r == ResolveLists(vars, constants, masses)
  {
    var table := map[];
    var i := 0;
    while i < |vars|
      invariant 0 <= i <= |vars|
      invariant ResolveLists(vars[..i], constants, masses) == Ok(table)
    {
      assert vars[..i + 1][..i] == vars[..i];
      var (name, spec) := vars[i];
      if spec.Items? {
        var names := spec.names;
        var values := [];
        var j := 0;
        while j < |names|
          invariant 0 <= j <= |names|
          invariant ResolveItems(name, names[..j], constants, masses) == Ok(values)
        {
          assert names[..j + 1][..j] == names[..j];
          var item := ResolveItem(name, names[j], constants, masses);
          if item.Err? {
            assert ResolveItems(name, names[..j + 1], constants, masses) == Err(item.error);
            ResolveItemsErrPropagates(name, names, j + 1, constants, masses);
            ResolveListsErrPropagates(vars, i + 1, constants, masses);
            return Err(item.error);
          }
          values := values + [item.value];
          j := j + 1;
        }
        assert names[..j] == names;
        table := table[name := values];
      }
      i := i + 1;
    }
    assert vars[..i] == vars;
    r := Ok(table);
  }

  /** Once a prefix of a list fails, the whole list fails with the same error. */
  lemma {:induction false} ResolveItemsErrPropagates(list: string, names: seq<string>, j: nat, constants: map<string, Num>, masses: map<string, Num>)
    requires j <= |names| && ResolveItems(list, names[..j], constants, masses).Err?
    ensures ResolveItems(list, names, constants, masses) == ResolveItems(list, names[..j], constants, masses)
    decreases |names| - j
  {
    if j < |names| {
      assert names[..j + 1][..j] == names[..j];
      ResolveItemsErrPropagates(list, names, j + 1, constants, masses);
    } else {
      assert names[..j] == names;
    }
  }

  /** Once a prefix of the list variables fails, the whole table fails with the same error. */
  lemma {:induction false} ResolveListsErrPropagates(vars: Entries<ListSpec>, i: nat, constants: map<string, Num>, masses: map<string, Num>)
    requires i <= |vars| && ResolveLists(vars[..i], constants, masses).Err?
    ensures ResolveLists(vars, constants, masses) == ResolveLists(vars[..i], constants, masses)
    decreases |vars| - i
  {
    if i < |vars| {
      assert vars[..i + 1][..i] == vars[..i];
      ResolveListsErrPropagates(vars, i + 1, constants, masses);
    } else {
      assert vars[..i] == vars;
    }
  }

  /** A list resolves exactly when each of its items does. */
  lemma {:induction false} ResolveItemsOk(list: string, names: seq<string>, constants: map<string, Num>, masses: map<string, Num>)
    ensures ResolveItems(list, names, constants, masses).Ok? <==>
              forall j :: 0 <= j < |names| ==> ResolveItem(list, names[j], constants, masses).Ok?
  {
    if names != [] {
      var n := |names| - 1;
      ResolveItemsOk(list, names[..n], constants, masses);
      assert forall j :: 0 <= j < n ==> names[..n][j] == names[j];
    }
  }

  /** A resolved list keeps the length and the order of its items. */
  lemma {:induction false} ResolveItemsValues(list: string, names: seq<string>, constants: map<string, Num>, masses: map<string, Num>)
    requires ResolveItems(list, names, constants, masses).Ok?
    ensures var vs := ResolveItems(list, names, constants, masses).value;
            |vs| == |names| && forall j :: 0 <= j < |names| ==> ResolveItem(list, names[j], constants, masses) == Ok(vs[j])
  {
    if names != [] {
      var n := |names| - 1;
      ResolveItemsValues(list, names[..n], constants, masses);
      assert forall j :: 0 <= j < n ==> names[..n][j] == names[j];
    }
  }

  /** A list that does not resolve fails with the error of its first failing item. */
  lemma {:induction false} ResolveItemsFirstError(list: string, names: seq<string>, constants: map<string, Num>, masses: map<string, Num>)
    requires ResolveItems(list, names, constants, masses).Err?
    ensures exists j :: 0 <= j < |names|
                        && ResolveItem(list, names[j], constants, masses) == Err(ResolveItems(list, names, constants, masses).error)
                        && forall i :: 0 <= i < j ==> ResolveItem(list, names[i], constants, masses).Ok?
  {
    var n := |names| - 1;
    var prefix := names[..n];
    assert forall j :: 0 <= j < n ==> prefix[j] == names[j];
    if ResolveItems(list, prefix, constants, masses).Err? {
      ResolveItemsFirstError(list, prefix, constants, masses);
    } else {
      ResolveItemsOk(list, prefix, constants, masses);
    }
  }

  /** The names of the list variables whose value is an array. */
  function ArrayListNames(vars: Entries<ListSpec>): set<string>
  {
    set i | 0 <= i < |vars| && vars[i].1.Items? :: vars[i].0
  }

  /** Whether the array-valued list at position `i` resolves. */
  predicate ListResolves(vars: Entries<ListSpec>, i: nat, constants: map<string, Num>, masses: map<string, Num>)
    requires i < |vars|
  {
    vars[i].1.Items? ==> ResolveItems(vars[i].0, vars[i].1.names, constants, masses).Ok?
  }

  /** The table resolves exactly when every array-valued list does. */
  lemma {:induction false} ResolveListsOk(vars: Entries<ListSpec>, constants: map<string, Num>, masses: map<string, Num>)
    ensures ResolveLists(vars, constants, masses).Ok? <==>
              forall i :: 0 <= i < |vars| ==> ListResolves(vars, i, constants, masses)
  {
    if vars != [] {
      var n := |vars| - 1;
      ResolveListsOk(vars[..n], constants, masses);
      assert forall i :: 0 <= i < n ==> vars[..n][i] == vars[i];
      assert forall i :: 0 <= i < n ==> (ListResolves(vars[..n], i, constants, masses) <==> ListResolves(vars, i, constants, masses));
      if ResolveLists(vars[..n], constants, masses).Ok? {
        assert ResolveLists(vars, constants, masses).Ok? <==> ListResolves(vars, n, constants, masses);
      } else {
        assert exists i :: 0 <= i < n && !ListResolves(vars, i, constants, masses);
      }
    }
  }

  /**
   * A resolved table holds exactly the array-valued lists, each resolved from
   * its own items (list names are distinct, as an object's keys are).
   */
  lemma {:induction false} ResolveListsTable(vars: Entries<ListSpec>, constants: map<string, Num>, masses: map<string, Num>)
    requires DistinctKeys(vars)
    requires ResolveLists(vars, constants, masses).Ok?
    ensures var table := ResolveLists(vars, constants, masses).value;
            table.Keys == ArrayListNames(vars) &&
            forall i :: 0 <= i < |vars| && vars[i].1.Items? ==>
              Ok(table[vars[i].0]) == ResolveItems(vars[i].0, vars[i].1.names, constants, masses)
  {
    if vars != [] {
      var n := |vars| - 1;
      var prefix := vars[..n];
      assert forall i :: 0 <= i < n ==> prefix[i] == vars[i];
      ResolveListsTable(prefix, constants, masses);
      assert ArrayListNames(vars) == ArrayListNames(prefix) + (if vars[n].1.Items? then {vars[n].0} else {}) by {
        forall k | k in ArrayListNames(vars) ensures k in ArrayListNames(prefix) + (if vars[n].1.Items? then {vars[n].0} else {}) {
          var i :| 0 <= i < |vars| && vars[i].1.Items? && vars[i].0 == k;
          if i < n { assert prefix[i] == vars[i]; }
        }
      }
    }
  }

  /** A table that does not resolve fails with the error of the first list that fails. */
  lemma {:induction false} ResolveListsFirstError(vars: Entries<ListSpec>, constants: map<string, Num>, masses: map<string, Num>)
    requires ResolveLists(vars, constants, masses).Err?
    ensures exists i :: 0 <= i < |vars| && vars[i].1.Items?
                        && ResolveItems(vars[i].0, vars[i].1.names, constants, masses) == Err(ResolveLists(vars, constants, masses).error)
                        && forall c :: 0 <= c < i ==> ListResolves(vars, c, constants, masses)
  {
    var n := |vars| - 1;
    var prefix := vars[..n];
    assert forall i :: 0 <= i < n ==> prefix[i] == vars[i];
    assert forall i :: 0 <= i < n ==> (ListResolves(prefix, i, constants, masses) <==> ListResolves(vars, i, constants, masses));
    if ResolveLists(prefix, constants, masses).Err? {
      ResolveListsFirstError(prefix, constants, masses);
      var i :| 0 <= i < n && prefix[i].1.Items?
               && ResolveItems(prefix[i].0, prefix[i].1.names, constants, masses) == Err(ResolveLists(prefix, constants, masses).error)
               && forall c :: 0 <= c < i ==> ListResolves(prefix, c, constants, masses);
      assert vars[i] == prefix[i];
    } else {
      ResolveListsOk(prefix, constants, masses);
    }
  }

  /**
   * Every item of an array-valued list becomes the number it resolves to,
   * in the same position; the table holds nothing but these lists.
   */
  lemma ParsedListItems(vars: Entries<ListSpec>, constants: map<string, Num>, masses: map<string, Num>, i: nat)
    requires DistinctKeys(vars)
    requires ResolveLists(vars, constants, masses).Ok?
    requires i < |vars| && vars[i].1.Items?
    ensures var table := ResolveLists(vars, constants, masses).value;
            var names := vars[i].1.names;
            vars[i].0 in table && |table[vars[i].0]| == |names| &&
            forall j :: 0 <= j < |names| ==> ResolveItem(vars[i].0, names[j], constants, masses) == Ok(table[vars[i].0][j])
  {
    ResolveListsTable(vars, constants, masses);
    ResolveItemsValues(vars[i].0, vars[i].1.names, constants, masses);
  }

  /**
   * With an empty flat mass table (what `mergeDict` returns when no category
   * is an object), any list holding an `m(...)` item that is not also a
   * constant makes the whole table fail.
   */
  lemma MassItemNeedsMasses(vars: Entries<ListSpec>, constants: map<string, Num>, i: nat, j: nat)
    requires i < |vars| && vars[i].1.Items? && j < |vars[i].1.names|
    requires MassKey(vars[i].1.names[j]).Some? && !Usable(constants, vars[i].1.names[j])
    ensures ResolveLists(vars, constants, map[]).Err?
  {
    var names := vars[i].1.names;
    assert ResolveItem(vars[i].0, names[j], constants, map[]).Err?;
    ResolveItemsOk(vars[i].0, names, constants, map[]);
    assert !ListResolves(vars, i, constants, map[]);
    ResolveListsOk(vars, constants, map[]);
  }
}
