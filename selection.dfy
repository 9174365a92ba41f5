/** What `get_ns` appends to the project list: for each acronym in order, the
    listed projects whose name contains it, in listing order. Nothing is
    deduplicated. */
module Selection {
  import opened Text

  /** The names in `names` that contain `acronym`, in listing order (the inner
      loop of `get_ns` for one acronym). */
  function MatchingProjects(acronym: string, names: seq<string>): seq<string>
    decreases |names|
  {
    if names == [] then []
    else
      var last := names[|names| - 1];
      MatchingProjects(acronym, names[..|names| - 1]) + (if Contains(acronym, last) then [last] else [])
  }

  /** The names `get_ns` appends for `acronyms` (outer loop), acronym-major. */
  function Selected(acronyms: seq<string>, names: seq<string>): seq<string>
    decreases |acronyms|
  {
    if acronyms == [] then []
    else Selected(acronyms[..|acronyms| - 1], names) + MatchingProjects(acronyms[|acronyms| - 1], names)
  }

  /** How many entries of `acronyms` occur in `name`. */
  function MatchCount(acronyms: seq<string>, name: string): nat
    decreases |acronyms|
  {
    if acronyms == [] then 0
    else MatchCount(acronyms[..|acronyms| - 1], name) + (if Contains(acronyms[|acronyms| - 1], name) then 1 else 0)
  }

  /** Filtering a concatenated listing keeps the order of the listing. */
  lemma {:induction false} MatchingProjectsAppend(acronym: string, names1: seq<string>, names2: seq<string>)
    ensures MatchingProjects(acronym, names1 + names2)
         == MatchingProjects(acronym, names1) + MatchingProjects(acronym, names2)
    decreases |names2|
  {
    if names2 != [] {
      var all := names1 + names2;
      assert all[..|all| - 1] == names1 + names2[..|names2| - 1];
      assert all[|all| - 1] == names2[|names2| - 1];
      MatchingProjectsAppend(acronym, names1, names2[..|names2| - 1]);
    } else {
      assert names1 + names2 == names1;
    }
  }

  /** A name is kept for an acronym exactly when it is listed and contains the
      acronym, and it is kept as often as it is listed. */
  lemma {:induction false} MatchingProjectsCount(acronym: string, names: seq<string>, name: string)
    ensures multiset(MatchingProjects(acronym, names))[name]
         == if Contains(acronym, name) then multiset(names)[name] else 0
    decreases |names|
  {
    if names != [] {
      var init := names[..|names| - 1];
      assert names == init + [names[|names| - 1]];
      MatchingProjectsCount(acronym, init, name);
    }
  }

  /** Selection over a concatenated acronym list: every match for the first
      acronyms comes before every match for the later ones. */
  lemma {:induction false} SelectedAppend(acronyms1: seq<string>, acronyms2: seq<string>, names: seq<string>)
    ensures Selected(acronyms1 + acronyms2, names) == Selected(acronyms1, names) + Selected(acronyms2, names)
    decreases |acronyms2|
  {
    if acronyms2 != [] {
      var all := acronyms1 + acronyms2;
      assert all[..|all| - 1] == acronyms1 + acronyms2[..|acronyms2| - 1];
      assert all[|all| - 1] == acronyms2[|acronyms2| - 1];
      SelectedAppend(acronyms1, acronyms2[..|acronyms2| - 1], names);
    } else {
      assert acronyms1 + acronyms2 == acronyms1;
    }
  }

  /** No deduplication: a listed name appears once per acronym it contains
      (and once more per further listing of it). */
  lemma {:induction false} SelectedCount(acronyms: seq<string>, names: seq<string>, name: string)
    ensures multiset(Selected(acronyms, names))[name] == multiset(names)[name] * MatchCount(acronyms, name)
    decreases |acronyms|
  {
    if acronyms != [] {
      var init, last := acronyms[..|acronyms| - 1], acronyms[|acronyms| - 1];
      var m := multiset(names)[name];
      var k := MatchCount(init, name);
      var b := if Contains(last, name) then 1 else 0;
      var total := multiset(Selected(acronyms, names))[name];
      var before := multiset(Selected(init, names))[name];
      var added := multiset(MatchingProjects(last, names))[name];
      assert total == before + added by { SelectedCountSplit(acronyms, names, name); }
      assert before == m * k by { SelectedCount(init, names, name); }
      assert added == (if b == 1 then m else 0) by { MatchingProjectsCount(last, names, name); }
      assert MatchCount(acronyms, name) == k + b;
      CountStep(total, before, added, m, k, b);
    } else {
      CountStep(0, 0, 0, multiset(names)[name], 0, 0);
    }
  }

  /** The count of a name after the last acronym is the count before it plus
      the count that acronym's matches contribute. */
  lemma SelectedCountSplit(acronyms: seq<string>, names: seq<string>, name: string)
    requires acronyms != []
    ensures multiset(Selected(acronyms, names))[name]
         == multiset(Selected(acronyms[..|acronyms| - 1], names))[name]
            + multiset(MatchingProjects(acronyms[|acronyms| - 1], names))[name]
  {
  }

  /** Arithmetic step of `SelectedCount`: adding one acronym that matches adds
      one more copy per listing. */
  lemma CountStep(total: nat, before: nat, added: nat, m: nat, k: nat, b: nat)
    requires b <= 1 && total == before + added
    requires before == m * k && added == (if b == 1 then m else 0)
    ensures total == m * (k + b)
  {
  }

  /** Arithmetic step of `SelectedMembers`. */
  lemma ProductPositive(m: nat, k: nat)
    ensures m * k > 0 <==> m > 0 && k > 0
  {
  }

  /** Every selected name is listed and contains at least one acronym; and
      every listed name containing some acronym is selected. */
  lemma {:induction false} SelectedMembers(acronyms: seq<string>, names: seq<string>, name: string)
    ensures name in Selected(acronyms, names)
        <==> name in names && exists i :: 0 <= i < |acronyms| && Contains(acronyms[i], name)
  {
    var selected := Selected(acronyms, names);
    var m, k := multiset(names)[name], MatchCount(acronyms, name);
    SelectedCount(acronyms, names, name);
    MatchCountPositive(acronyms, name);
    ProductPositive(m, k);
    assert name in selected <==> multiset(selected)[name] > 0;
    assert name in names <==> m > 0;
  }

  /** `MatchCount` is positive exactly when some acronym occurs in the name. */
  lemma {:induction false} MatchCountPositive(acronyms: seq<string>, name: string)
    ensures MatchCount(acronyms, name) > 0 <==> exists i :: 0 <= i < |acronyms| && Contains(acronyms[i], name)
    decreases |acronyms|
  {
    if acronyms != [] {
      var init := acronyms[..|acronyms| - 1];
      MatchCountPositive(init, name);
      if exists i :: 0 <= i < |acronyms| && Contains(acronyms[i], name) {
        var i :| 0 <= i < |acronyms| && Contains(acronyms[i], name);
        if i < |init| {
          assert init[i] == acronyms[i];
        }
      }
      if exists i :: 0 <= i < |init| && Contains(init[i], name) {
        var i :| 0 <= i < |init| && Contains(init[i], name);
        assert acronyms[i] == init[i];
      }
    }
  }
}
