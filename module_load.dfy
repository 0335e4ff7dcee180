/**
  Top-level evaluation order of src/models/user.model.js.

  A `const` binding is in scope for the whole module but stays uninitialised
  until its declaration runs; reading it earlier throws a ReferenceError (the
  "temporal dead zone"). The schema literal that starts at line 5 reads
  `validateEmail` (line 17) and `validatePassword` (line 45), whose `const`
  declarations only run at lines 92 and 97.
*/
module ModuleLoad {
  import opened Wrappers

  /** One top-level step: run a `const` declaration, or evaluate an expression that reads bindings. */
  datatype Step = Declare(name: string) | Evaluate(names: seq<string>)

  /** The first name in `names` that is not yet initialised, if any. */
  function FirstUninitialised(names: seq<string>, initialised: set<string>): (r: Option<string>)
    ensures r.None? <==> forall i | 0 <= i < |names| :: names[i] in initialised
    ensures r.Some? ==> r.value in names && r.value !in initialised
  {
    if names == [] then None
    else if names[0] !in initialised then Some(names[0])
    else FirstUninitialised(names[1..], initialised)
  }

  /** Runs the steps in order; Err(name) is the ReferenceError thrown when `name` is read too early. */
  function Load(steps: seq<Step>, initialised: set<string>): Result<set<string>, string>
    decreases |steps|
  {
    if steps == [] then Ok(initialised)
    else
      match steps[0]
      case Declare(name) => Load(steps[1..], initialised + {name})
      case Evaluate(names) =>
        match FirstUninitialised(names, initialised)
        case Some(name) => Err(name)
        case None => Load(steps[1..], initialised)
  }

  /** Every binding a step reads was initialised before it, or declared by an earlier step. */
  predicate DeclaredBeforeUse(steps: seq<Step>, initialised: set<string>) {
    forall i, j | 0 <= i < |steps| && 0 <= j < |ReadsOf(steps[i])| ::
      ReadsOf(steps[i])[j] in initialised + DeclaredIn(steps[..i])
  }

  function ReadsOf(step: Step): seq<string> {
    match step
    case Declare(_) => []
    case Evaluate(names) => names
  }

  function DeclaredIn(steps: seq<Step>): set<string> {
    if steps == [] then {}
    else DeclaredIn(steps[..|steps| - 1]) + (if steps[|steps| - 1].Declare? then {steps[|steps| - 1].name} else {})
  }

  lemma DeclaredInCons(first: Step, rest: seq<Step>, i: nat)
    requires i <= |rest|
    ensures DeclaredIn(([first] + rest)[..i + 1])
         == (if first.Declare? then {first.name} else {}) + DeclaredIn(rest[..i])
    decreases i
  {
    var steps := [first] + rest;
    if i > 0 {
      DeclaredInCons(first, rest, i - 1);
      assert steps[..i + 1][..i] == steps[..i];
      assert rest[..i][..i - 1] == rest[..i - 1];
    }
  }

  /** Loading succeeds exactly when no step reads a binding before it is initialised. */
  lemma {:induction false} LoadSucceedsIff(steps: seq<Step>, initialised: set<string>)
    ensures Load(steps, initialised).Ok? <==> DeclaredBeforeUse(steps, initialised)
    decreases |steps|
  {
    if steps != [] {
      var first, rest := steps[0], steps[1..];
      assert steps == [first] + rest;
      var next := if first.Declare? then initialised + {first.name} else initialised;
      LoadSucceedsIff(rest, next);
      forall i | 0 <= i < |rest|
        ensures initialised + DeclaredIn(steps[..i + 1]) == next + DeclaredIn(rest[..i])
      {
        DeclaredInCons(first, rest, i);
      }
      assert DeclaredIn(steps[..0]) == {};
      if DeclaredBeforeUse(steps, initialised) {
        forall i, j | 0 <= i < |rest| && 0 <= j < |ReadsOf(rest[i])|
          ensures ReadsOf(rest[i])[j] in next + DeclaredIn(rest[..i])
        {
          assert rest[i] == steps[i + 1];
          assert ReadsOf(steps[i + 1])[j] in initialised + DeclaredIn(steps[..i + 1]);
        }
        assert forall j | 0 <= j < |ReadsOf(first)| :: ReadsOf(first)[j] in initialised;
        assert Load(rest, next).Ok?;
        if first.Evaluate? {
          assert ReadsOf(first) == first.names;
          assert FirstUninitialised(first.names, initialised).None?;
        }
        assert Load(steps, initialised) == Load(rest, next);
      }
      if Load(steps, initialised).Ok? {
        assert forall j | 0 <= j < |ReadsOf(first)| :: ReadsOf(first)[j] in initialised;
        assert Load(rest, next).Ok?;
        forall i, j | 0 <= i < |steps| && 0 <= j < |ReadsOf(steps[i])|
          ensures ReadsOf(steps[i])[j] in initialised + DeclaredIn(steps[..i])
        {
          if i > 0 {
            assert steps[i] == rest[i - 1];
            assert ReadsOf(rest[i - 1])[j] in next + DeclaredIn(rest[..i - 1]);
          }
        }
      }
    }
  }

  /** user.model.js as written: the schema literal (line 5) reads both validators (lines 17 and 45)
      before their declarations (lines 92 and 97); the indexes and the method of lines 83-90 read the
      schema before those declarations too, and the statics and the model (from line 104) read it after. */
  const AsWritten: seq<Step> := [
    Evaluate(["validateEmail", "validatePassword"]),
    Declare("userSchema"),
    Evaluate(["userSchema"]),
    Declare("validateEmail"),
    Declare("validatePassword"),
    Evaluate(["userSchema"])
  ]

  /** The evidently intended order: the validators are declared before the schema that uses them. */
  const Corrected: seq<Step> := [
    Declare("validateEmail"),
    Declare("validatePassword"),
    Evaluate(["validateEmail", "validatePassword"]),
    Declare("userSchema"),
    Evaluate(["userSchema"]),
    Evaluate(["userSchema"])
  ]

  /** Importing user.model.js as written throws a ReferenceError for validateEmail. */
  lemma AsWrittenLoadFails()
    ensures !DeclaredBeforeUse(AsWritten, {})
    ensures Load(AsWritten, {}) == Err("validateEmail")
  {
    assert ReadsOf(AsWritten[0])[0] == "validateEmail";
    assert DeclaredIn(AsWritten[..0]) == {};
  }

  /** With the validators declared first the module loads and every binding is initialised. */
  lemma CorrectedOrderLoads()
    ensures DeclaredBeforeUse(Corrected, {})
    ensures Load(Corrected, {}) == Ok({"validateEmail", "validatePassword", "userSchema"})
  {
    var all := {"validateEmail", "validatePassword", "userSchema"};
    var validators := {"validateEmail", "validatePassword"};
    assert Corrected[1..][1..] == Corrected[2..];
    assert Corrected[2..][1..] == Corrected[3..];
    assert Corrected[3..][1..] == Corrected[4..];
    assert Corrected[4..][1..] == Corrected[5..];
    assert Corrected[5..][1..] == [];
    assert Load(Corrected[5..], all) == Ok(all);
    assert Load(Corrected[4..], all) == Ok(all);
    assert validators + {"userSchema"} == all;
    assert {"validateEmail"} + {"validatePassword"} == validators;
    assert {} + {"validateEmail"} == {"validateEmail"};
    assert Load(Corrected[3..], validators) == Ok(all);
    assert FirstUninitialised(["validateEmail", "validatePassword"], validators).None?;
    assert Load(Corrected[2..], validators) == Ok(all);
    assert Load(Corrected[1..], {"validateEmail"}) == Ok(all);
    LoadSucceedsIff(Corrected, {});
  }
}
