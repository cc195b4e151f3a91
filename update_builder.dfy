/**
 * The partial-update builders of the services: each walks a fixed list of (body key, column) rules in order and, for
 * every key whose value passes the rule's gate, pushes the fragment "<column> = ?" onto `updates` and the value onto
 * `params`. Some rules also reject a value that `parseInt` cannot read, with a 400 error.
 *
 * The specification is written on prefixes of the rule list, one rule at a time, so that each step of a service's
 * straight-line builder is one step of the specification.
 */
module UpdateBuilder {
  import opened Js
  import opened Sql

  /** How a rule decides whether a key takes part: `if (data.k)` or `if (data.k !== undefined && data.k !== null)`. */
  datatype Gate = IfTruthy | IfPresent

  /** One `if (...) { updates.push('<column> = ?'); params.push(data.<key>); }` step. */
  datatype Rule = Rule(key: string, column: string, gate: Gate, numeric: Option<string>)

  predicate Admits(g: Gate, v: Value) {
    match g
    case IfTruthy => Truthy(v)
    case IfPresent => Present(v)
  }

  predicate Included(r: Rule, data: Obj) {
    Admits(r.gate, Get(data, r.key))
  }

  /** An included value that the rule requires to be numeric and that `isNaN(parseInt(...))` rejects. */
  predicate Invalid(r: Rule, data: Obj) {
    Included(r, data) && r.numeric.Some? && ParseIntIsNaN(Get(data, r.key))
  }

  function Last(rules: seq<Rule>): Rule
    requires |rules| > 0
  {
    rules[|rules| - 1]
  }

  function Init(rules: seq<Rule>): seq<Rule>
    requires |rules| > 0
  {
    rules[..|rules| - 1]
  }

  /** The `updates` array after all of `rules` have run. */
  function Fragments(rules: seq<Rule>, data: Obj): seq<string>
    decreases |rules|
  {
    if |rules| == 0 then []
    else Fragments(Init(rules), data) + (if Included(Last(rules), data) then [Fragment(Last(rules).column)] else [])
  }

  /** The `params` array after all of `rules` have run. */
  function Params(rules: seq<Rule>, data: Obj): (ps: seq<Value>)
    decreases |rules|
    ensures |ps| == |Fragments(rules, data)|
  {
    if |rules| == 0 then []
    else Params(Init(rules), data) + (if Included(Last(rules), data) then [Get(data, Last(rules).key)] else [])
  }

  /** The positions of the rules that take part, in order. */
  function Chosen(rules: seq<Rule>, data: Obj): (s: seq<int>)
    decreases |rules|
    ensures forall j :: 0 <= j < |s| ==> 0 <= s[j] < |rules| && Included(rules[s[j]], data)
    ensures forall i :: 0 <= i < |rules| && Included(rules[i], data) ==> i in s
    ensures forall j, k :: 0 <= j < k < |s| ==> s[j] < s[k]
  {
    if |rules| == 0 then []
    else
      var c := Chosen(Init(rules), data);
      var s := if Included(Last(rules), data) then c + [|rules| - 1] else c;
      ChosenLast(rules, data, c, s);
      s
  }

  /** The last rule extends the positions chosen among the others by its own, when it takes part. */
  lemma ChosenLast(rules: seq<Rule>, data: Obj, c: seq<int>, s: seq<int>)
    requires |rules| > 0
    requires forall j :: 0 <= j < |c| ==> 0 <= c[j] < |rules| - 1 && Included(Init(rules)[c[j]], data)
    requires forall i :: 0 <= i < |rules| - 1 && Included(Init(rules)[i], data) ==> i in c
    requires forall j, k :: 0 <= j < k < |c| ==> c[j] < c[k]
    requires s == if Included(Last(rules), data) then c + [|rules| - 1] else c
    ensures forall j :: 0 <= j < |s| ==> 0 <= s[j] < |rules| && Included(rules[s[j]], data)
    ensures forall i :: 0 <= i < |rules| && Included(rules[i], data) ==> i in s
    ensures forall j, k :: 0 <= j < k < |s| ==> s[j] < s[k]
  {
    forall j | 0 <= j < |s|
      ensures 0 <= s[j] < |rules| && Included(rules[s[j]], data)
    {
      ChosenLastSound(rules, data, c, s, j);
    }
    forall i | 0 <= i < |rules| && Included(rules[i], data)
      ensures i in s
    {
      ChosenLastComplete(rules, data, c, s, i);
    }
    forall j, k | 0 <= j < k < |s|
      ensures s[j] < s[k]
    {
      if k < |c| {
        assert s[j] == c[j] && s[k] == c[k];
      }
    }
  }

  lemma ChosenLastSound(rules: seq<Rule>, data: Obj, c: seq<int>, s: seq<int>, j: int)
    requires |rules| > 0
    requires forall j :: 0 <= j < |c| ==> 0 <= c[j] < |rules| - 1 && Included(Init(rules)[c[j]], data)
    requires s == if Included(Last(rules), data) then c + [|rules| - 1] else c
    requires 0 <= j < |s|
    ensures 0 <= s[j] < |rules| && Included(rules[s[j]], data)
  {
    if j < |c| {
      assert s[j] == c[j] && Init(rules)[c[j]] == rules[c[j]];
    }
  }

  lemma ChosenLastComplete(rules: seq<Rule>, data: Obj, c: seq<int>, s: seq<int>, i: int)
    requires |rules| > 0
    requires forall i :: 0 <= i < |rules| - 1 && Included(Init(rules)[i], data) ==> i in c
    requires s == if Included(Last(rules), data) then c + [|rules| - 1] else c
    requires 0 <= i < |rules| && Included(rules[i], data)
    ensures i in s
  {
    if i < |rules| - 1 {
      assert Init(rules)[i] == rules[i];
      assert i in c;
    } else {
      assert s[|s| - 1] == i;
    }
  }

  /** The 400 message of the first rule whose value fails its numeric check, if any. */
  function FirstInvalid(rules: seq<Rule>, data: Obj): Option<string>
    decreases |rules|
  {
    if |rules| == 0 then None
    else if FirstInvalid(Init(rules), data).Some? then FirstInvalid(Init(rules), data)
    else if Invalid(Last(rules), data) then Some(Last(rules).numeric.value)
    else None
  }

  /** The lists a builder hands to the model, or the 400 error it throws first. */
  datatype Built = Built(updates: seq<string>, params: seq<Value>)

  function Build(rules: seq<Rule>, data: Obj): Outcome<Built> {
    match FirstInvalid(rules, data)
    case Some(m) => Threw(Fail(m, 400))
    case None => Returned(Built(Fragments(rules, data), Params(rules, data)))
  }

  // ---------------------------------------------------------------------
  // One step of a builder
  // ---------------------------------------------------------------------

  lemma Step(rules: seq<Rule>, i: int, data: Obj)
    requires 0 <= i < |rules|
    ensures Fragments(rules[..i + 1], data) ==
              Fragments(rules[..i], data) + (if Included(rules[i], data) then [Fragment(rules[i].column)] else [])
    ensures Params(rules[..i + 1], data) ==
              Params(rules[..i], data) + (if Included(rules[i], data) then [Get(data, rules[i].key)] else [])
    ensures FirstInvalid(rules[..i], data).None? ==>
              FirstInvalid(rules[..i + 1], data) == (if Invalid(rules[i], data) then Some(rules[i].numeric.value) else None)
    ensures FirstInvalid(rules[..i], data).Some? ==> FirstInvalid(rules[..i + 1], data) == FirstInvalid(rules[..i], data)
  {
    assert Init(rules[..i + 1]) == rules[..i];
  }

  /** The builder's two lists after the first `i` rules, none of which has thrown. */
  predicate Upto(rules: seq<Rule>, i: int, data: Obj, updates: seq<string>, params: seq<Value>)
    requires 0 <= i <= |rules|
  {
    updates == Fragments(rules[..i], data) && params == Params(rules[..i], data) && FirstInvalid(rules[..i], data).None?
  }

  /** Rule `i` pushes its fragment and value when its key takes part, and otherwise leaves both lists alone. */
  lemma Advance(rules: seq<Rule>, i: int, data: Obj, updates: seq<string>, params: seq<Value>,
                updates': seq<string>, params': seq<Value>)
    requires 0 <= i < |rules| && Upto(rules, i, data, updates, params) && !Invalid(rules[i], data)
    requires Included(rules[i], data) ==>
               updates' == updates + [Fragment(rules[i].column)] && params' == params + [Get(data, rules[i].key)]
    requires !Included(rules[i], data) ==> updates' == updates && params' == params
    ensures Upto(rules, i + 1, data, updates', params')
  {
    Step(rules, i, data);
  }

  /** Rule `i` rejects a value that does not parse: the build fails with that rule's message, whatever follows. */
  lemma Reject(rules: seq<Rule>, i: int, data: Obj, updates: seq<string>, params: seq<Value>)
    requires 0 <= i < |rules| && Upto(rules, i, data, updates, params) && Invalid(rules[i], data)
    ensures Build(rules, data) == Threw(Fail(rules[i].numeric.value, 400))
  {
    Step(rules, i, data);
    FirstInvalidSticks(rules, i + 1, data);
  }

  /** After the last rule the lists are the whole build. */
  lemma Finish(rules: seq<Rule>, data: Obj, updates: seq<string>, params: seq<Value>)
    requires Upto(rules, |rules|, data, updates, params)
    ensures Build(rules, data) == Returned(Built(updates, params))
  {
    assert rules[..|rules|] == rules;
  }

  /** Once a rule has thrown, the rules after it do not matter. */
  lemma {:induction false} FirstInvalidSticks(rules: seq<Rule>, i: int, data: Obj)
    requires 0 <= i <= |rules| && FirstInvalid(rules[..i], data).Some?
    ensures FirstInvalid(rules, data) == FirstInvalid(rules[..i], data)
    decreases |rules| - i
  {
    if i < |rules| {
      Step(rules, i, data);
      FirstInvalidSticks(rules, i + 1, data);
    } else {
      assert rules[..i] == rules;
    }
  }

  // ---------------------------------------------------------------------
  // What every builder guarantees
  // ---------------------------------------------------------------------

  /**
   * The two lists have the same length, one entry per rule that takes part, in rule order; entry j assigns the column
   * of the j-th such rule the value of its key.
   */
  lemma {:induction false} BuildShape(rules: seq<Rule>, data: Obj)
    decreases |rules|
    ensures |Fragments(rules, data)| == |Params(rules, data)| == |Chosen(rules, data)|
    ensures forall j :: 0 <= j < |Chosen(rules, data)| ==>
              Fragments(rules, data)[j] == Fragment(rules[Chosen(rules, data)[j]].column) &&
              Params(rules, data)[j] == Get(data, rules[Chosen(rules, data)[j]].key)
  {
    if |rules| > 0 {
      BuildShape(Init(rules), data);
      assert forall i :: 0 <= i < |rules| - 1 ==> Init(rules)[i] == rules[i];
    }
  }

  /** The lists are empty exactly when no rule takes part. */
  lemma EmptyIffNoneIncluded(rules: seq<Rule>, data: Obj)
    ensures |Fragments(rules, data)| == 0 <==> forall i :: 0 <= i < |rules| ==> !Included(rules[i], data)
  {
    BuildShape(rules, data);
    if |Chosen(rules, data)| > 0 {
      assert Included(rules[Chosen(rules, data)[0]], data);
    }
  }

  /** A truthy-gated key with a falsy value ("", 0, false, null, undefined) is dropped. */
  lemma FalsyDropped(rules: seq<Rule>, data: Obj, i: int)
    requires 0 <= i < |rules| && rules[i].gate == IfTruthy && !Truthy(Get(data, rules[i].key))
    ensures i !in Chosen(rules, data)
  {
  }

  /** The builder throws exactly when some taking-part value fails its check, with the message of the first such rule. */
  lemma {:induction false} FirstInvalidSpec(rules: seq<Rule>, data: Obj)
    decreases |rules|
    ensures FirstInvalid(rules, data).Some? <==> exists i :: 0 <= i < |rules| && Invalid(rules[i], data)
    ensures FirstInvalid(rules, data).Some? ==>
              exists i :: 0 <= i < |rules| && Invalid(rules[i], data) && FirstInvalid(rules, data) == Some(rules[i].numeric.value) &&
                          forall h :: 0 <= h < i ==> !Invalid(rules[h], data)
  {
    if |rules| > 0 {
      FirstInvalidSpec(Init(rules), data);
      assert forall i :: 0 <= i < |rules| - 1 ==> Init(rules)[i] == rules[i];
      if FirstInvalid(Init(rules), data).None? && Invalid(Last(rules), data) {
        assert forall h :: 0 <= h < |rules| - 1 ==> !Invalid(rules[h], data) by {
          forall h | 0 <= h < |rules| - 1 ensures !Invalid(rules[h], data) {
            assert Init(rules)[h] == rules[h];
          }
        }
      }
    }
  }

  /** When the first rule takes part it comes first among the chosen rules. */
  lemma FirstChosen(rules: seq<Rule>, data: Obj)
    requires |rules| > 0 && Included(rules[0], data)
    ensures |Chosen(rules, data)| > 0 && Chosen(rules, data)[0] == 0
  {
    var ch := Chosen(rules, data);
    assert 0 in ch;
  }

  /** The SET list of a build assigns, in rule order, each taking-part rule's column the value of its key. */
  lemma BuildPairs(rules: seq<Rule>, data: Obj)
    ensures |Params(rules, data)| == |Fragments(rules, data)|
    ensures var assigns := Pairs(Fragments(rules, data), Params(rules, data));
            |assigns| == |Chosen(rules, data)| &&
            forall j :: 0 <= j < |assigns| ==>
              assigns[j] == (rules[Chosen(rules, data)[j]].column, Get(data, rules[Chosen(rules, data)[j]].key))
  {
    BuildShape(rules, data);
    forall j | 0 <= j < |Chosen(rules, data)| {
      ColumnOfFragment(rules[Chosen(rules, data)[j]].column);
    }
  }

  /** Every column of the SET list is the column of some rule. */
  lemma ColumnOfSomeRule(rules: seq<Rule>, data: Obj, c: string)
    requires c in Columns(Pairs(Fragments(rules, data), Params(rules, data)))
    ensures exists k :: 0 <= k < |rules| && rules[k].column == c
  {
    BuildPairs(rules, data);
    var cols := Columns(Pairs(Fragments(rules, data), Params(rules, data)));
    var i :| 0 <= i < |cols| && cols[i] == c;
    assert c == rules[Chosen(rules, data)[i]].column;
  }

  /** A rule list without numeric checks never throws: its build is always the two lists. */
  lemma UncheckedBuild(rules: seq<Rule>, data: Obj)
    requires forall i :: 0 <= i < |rules| ==> rules[i].numeric.None?
    ensures Build(rules, data) == Returned(Built(Fragments(rules, data), Params(rules, data)))
  {
    FirstInvalidSpec(rules, data);
  }

  /** No two rules write the same column. */
  predicate DistinctColumns(rules: seq<Rule>) {
    forall i, j :: 0 <= i < j < |rules| ==> rules[i].column != rules[j].column
  }

  /** No two rules that take part write the same column. */
  predicate NoSharedColumn(rules: seq<Rule>, data: Obj) {
    forall i, j :: 0 <= i < j < |rules| && Included(rules[i], data) && Included(rules[j], data) ==>
      rules[i].column != rules[j].column
  }

  /** When no two taking-part rules share a column and one takes part, the SET list is accepted: non-empty, no column twice. */
  lemma WellFormedSet(rules: seq<Rule>, data: Obj)
    requires NoSharedColumn(rules, data) && |Fragments(rules, data)| > 0
    ensures var assigns := Pairs(Fragments(rules, data), Params(rules, data));
            |assigns| > 0 && Distinct(Columns(assigns))
  {
    BuildPairs(rules, data);
    var assigns := Pairs(Fragments(rules, data), Params(rules, data));
    var ch := Chosen(rules, data);
    forall i, j | 0 <= i < j < |assigns| ensures Columns(assigns)[i] != Columns(assigns)[j] {
      assert ch[i] < ch[j];
    }
  }

  /** Two rules that take part and write the same column put that column into the SET list twice. */
  lemma SharedColumn(rules: seq<Rule>, data: Obj, i: int, j: int)
    requires 0 <= i < j < |rules| && Included(rules[i], data) && Included(rules[j], data)
    requires rules[i].column == rules[j].column
    ensures var assigns := Pairs(Fragments(rules, data), Params(rules, data));
            |assigns| > 0 && !Distinct(Columns(assigns))
  {
    BuildPairs(rules, data);
    var assigns := Pairs(Fragments(rules, data), Params(rules, data));
    var ch := Chosen(rules, data);
    var p :| 0 <= p < |ch| && ch[p] == i;
    var q :| 0 <= q < |ch| && ch[q] == j;
    assert p < q;
    assert Columns(assigns)[p] == Columns(assigns)[q];
  }
}
