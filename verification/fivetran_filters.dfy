/**
  The filter compiler of the Fivetran connector (`buildFilterConditions_`).

  The source turns a list of flat key/value specs into a JavaScript boolean
  expression that is later `eval`-ed against each item. Here the compiled
  predicate is a typed value: a disjunction of clauses, each clause the
  conjunction of the equalities `item.key == value` of one non-empty spec.
*/
module FivetranFilters {

  /** One remote record (a group, user, team or connector): field name to its text. */
  type Item = map<string, string>

  /** One filter spec: field name to the text that field must equal. */
  type Spec = map<string, string>

  /** The compiled predicate: the disjunction of its clauses. */
  datatype Condition = Condition(clauses: seq<Spec>)

  /** What `buildFilterConditions_` returns: the "filter required" flag and the predicate. */
  datatype Compiled = Compiled(filterRequired: bool, condition: Condition)

  /** `item.key == value`; a field missing from the item never matches. */
  predicate FieldEquals(item: Item, key: string, value: string) {
    key in item && item[key] == value
  }

  /** One clause: every key of the spec holds the spec's value in the item. */
  predicate ClauseHolds(clause: Spec, item: Item) {
    forall key :: key in clause ==> FieldEquals(item, key, clause[key])
  }

  /** The compiled condition accepts `item` when one of its clauses holds. */
  predicate Holds(c: Condition, item: Item) {
    exists i :: 0 <= i < |c.clauses| && ClauseHolds(c.clauses[i], item)
  }

  /** Some spec of the list has at least one key. */
  predicate HasNonEmpty(specs: seq<Spec>) {
    exists i :: 0 <= i < |specs| && |specs[i]| > 0
  }

  /**
    The clauses in the order `buildFilterConditions_` emits them: it pops the
    list from its end and skips the empty specs.
  */
  function CompiledClauses(specs: seq<Spec>): (r: seq<Spec>)
    ensures |r| <= |specs|
    ensures forall i :: 0 <= i < |r| ==> |r[i]| > 0
  {
    if specs == [] then []
    else
      var last := specs[|specs| - 1];
      (if |last| > 0 then [last] else []) + CompiledClauses(specs[..|specs| - 1])
  }

  /**
    The value `buildFilterConditions_` returns for `specs`: the "filter
    required" flag is set iff some spec has a key.
  */
  function Compile(specs: seq<Spec>): (r: Compiled)
    ensures r.filterRequired <==> HasNonEmpty(specs)
  {
    var clauses := CompiledClauses(specs);
    CompiledClausesNonEmpty(specs);
    Compiled(clauses != [], Condition(clauses))
  }

  /** The non-empty specs, in input order. */
  function NonEmptySpecs(specs: seq<Spec>): seq<Spec> {
    if specs == [] then []
    else (if |specs[0]| > 0 then [specs[0]] else []) + NonEmptySpecs(specs[1..])
  }

  function Reverse<T>(s: seq<T>): seq<T> {
    if s == [] then [] else Reverse(s[1..]) + [s[0]]
  }

  /** A clause is emitted exactly when it is a non-empty spec of the input. */
  lemma {:induction false} CompiledClausesMembers(specs: seq<Spec>)
    ensures forall s :: s in CompiledClauses(specs) <==> s in specs && |s| > 0
  {
    if specs != [] {
      var init := specs[..|specs| - 1];
      CompiledClausesMembers(init);
      assert specs == init + [specs[|specs| - 1]];
    }
  }

  /** Some clause is emitted iff some spec has a key. */
  lemma CompiledClausesNonEmpty(specs: seq<Spec>)
    ensures CompiledClauses(specs) != [] <==> HasNonEmpty(specs)
  {
    CompiledClausesMembers(specs);
    if HasNonEmpty(specs) {
      var i :| 0 <= i < |specs| && |specs[i]| > 0;
      assert specs[i] in CompiledClauses(specs);
    }
    if CompiledClauses(specs) != [] {
      assert CompiledClauses(specs)[0] in CompiledClauses(specs);
    }
  }

  /** An item the compiled predicate accepts satisfies some non-empty spec of the input. */
  lemma CompileSound(specs: seq<Spec>, item: Item) returns (i: nat)
    requires Holds(Compile(specs).condition, item)
    ensures i < |specs| && |specs[i]| > 0 && ClauseHolds(specs[i], item)
  {
    var clauses := CompiledClauses(specs);
    var j :| 0 <= j < |clauses| && ClauseHolds(clauses[j], item);
    CompiledClausesMembers(specs);
    assert clauses[j] in clauses;
    var k :| 0 <= k < |specs| && specs[k] == clauses[j];
    i := k;
  }

  /** An item satisfying a non-empty spec of the input is accepted by the compiled predicate. */
  lemma CompileComplete(specs: seq<Spec>, item: Item, i: nat)
    requires i < |specs| && |specs[i]| > 0 && ClauseHolds(specs[i], item)
    ensures Holds(Compile(specs).condition, item)
  {
    var clauses := CompiledClauses(specs);
    CompiledClausesMembers(specs);
    assert specs[i] in specs;
    assert specs[i] in clauses;
    var j :| 0 <= j < |clauses| && clauses[j] == specs[i];
    assert ClauseHolds(clauses[j], item);
  }

  /**
    The compiled predicate accepts an item iff, for some non-empty spec of the
    input, every key's field equals that spec's value.
  */
  lemma CompileSemantics(specs: seq<Spec>, item: Item)
    ensures Holds(Compile(specs).condition, item)
        <==> exists i :: 0 <= i < |specs| && |specs[i]| > 0 && ClauseHolds(specs[i], item)
  {
    if Holds(Compile(specs).condition, item) {
      var i := CompileSound(specs, item);
    }
    if exists i :: 0 <= i < |specs| && |specs[i]| > 0 && ClauseHolds(specs[i], item) {
      var i :| 0 <= i < |specs| && |specs[i]| > 0 && ClauseHolds(specs[i], item);
      CompileComplete(specs, item, i);
    }
  }

  /** Clauses come out in reverse input order, because the list is consumed with `pop`. */
  lemma {:induction false} CompiledClausesReversed(specs: seq<Spec>)
    ensures CompiledClauses(specs) == Reverse(NonEmptySpecs(specs))
  {
    if specs != [] {
      var init, last := specs[..|specs| - 1], specs[|specs| - 1];
      assert specs == init + [last];
      NonEmptySpecsAppend(init, last);
      CompiledClausesReversed(init);
      ReverseAppend(NonEmptySpecs(init), if |last| > 0 then [last] else []);
    }
  }

  lemma {:induction false} NonEmptySpecsAppend(specs: seq<Spec>, s: Spec)
    ensures NonEmptySpecs(specs + [s]) == NonEmptySpecs(specs) + (if |s| > 0 then [s] else [])
  {
    if specs != [] {
      assert (specs + [s])[1..] == specs[1..] + [s];
      NonEmptySpecsAppend(specs[1..], s);
    } else {
      assert NonEmptySpecs([s]) == (if |s| > 0 then [s] else []) + NonEmptySpecs([]);
    }
  }

  lemma {:induction false} ReverseAppend<T>(a: seq<T>, b: seq<T>)
    ensures Reverse(a + b) == Reverse(b) + Reverse(a)
  {
    if a == [] {
      assert a + b == b;
    } else {
      assert (a + b)[1..] == a[1..] + b;
      ReverseAppend(a[1..], b);
    }
  }

  /**
    The truth value of the disjunction does not depend on the order (or the
    repetition) of its clauses.
  */
  lemma HoldsOrderIrrelevant(c1: Condition, c2: Condition, item: Item)
    requires forall s :: s in c1.clauses <==> s in c2.clauses
    ensures Holds(c1, item) <==> Holds(c2, item)
  {
    if Holds(c1, item) {
      var i :| 0 <= i < |c1.clauses| && ClauseHolds(c1.clauses[i], item);
      assert c1.clauses[i] in c2.clauses;
    }
    if Holds(c2, item) {
      var i :| 0 <= i < |c2.clauses| && ClauseHolds(c2.clauses[i], item);
      assert c2.clauses[i] in c1.clauses;
    }
  }

  /**
    A JavaScript array of filter specs, which `buildFilterConditions_` consumes
    in place with `pop` and which callers may share between queries.
  */
  class FilterList {
    var specs: seq<Spec>

    constructor (specs: seq<Spec>)
      ensures this.specs == specs
    {
      this.specs := specs;
    }

    /** `Array.prototype.pop` on a non-empty array: removes and returns the last spec. */
    method Pop() returns (s: Spec)
      requires |specs| > 0
      modifies this
      ensures s == old(specs)[|old(specs)| - 1]
      ensures specs == old(specs)[..|old(specs)| - 1]
    {
      s := specs[|specs| - 1];
      specs := specs[..|specs| - 1];
    }
  }

  /**
    `buildFilterConditions_`: pops every spec off `queryTexts`, skipping the
    empty ones, and leaves the list empty.
  */
  method BuildFilterConditions(queryTexts: FilterList) returns (doApplyFilter: bool, filter: Condition)
    modifies queryTexts
    ensures queryTexts.specs == []
    ensures Compiled(doApplyFilter, filter) == Compile(old(queryTexts.specs))
  {
    var filters: seq<Spec> := [];
    doApplyFilter := false;
    while |queryTexts.specs| > 0
      invariant CompiledClauses(old(queryTexts.specs)) == filters + CompiledClauses(queryTexts.specs)
      invariant doApplyFilter == (filters != [])
      decreases |queryTexts.specs|
    {
      ghost var before := queryTexts.specs;
      var filterQuery := queryTexts.Pop();
      assert CompiledClauses(before)
          == (if |filterQuery| > 0 then [filterQuery] else []) + CompiledClauses(queryTexts.specs);
      if |filterQuery| > 0 {
        doApplyFilter := true;
        assert filters + ([filterQuery] + CompiledClauses(queryTexts.specs))
            == (filters + [filterQuery]) + CompiledClauses(queryTexts.specs);
        filters := filters + [filterQuery];
      } else {
        assert [] + CompiledClauses(queryTexts.specs) == CompiledClauses(queryTexts.specs);
      }
    }
    filter := Condition(filters);
  }
}
