/** The search bar (src/components/SearchBar.tsx): a query submission, the category filter toggle
    and clearing the filter, each building a URLSearchParams from the current page's parameters
    and navigating to /search with it. */
module Search {
  import opened Wrappers
  import opened JsText

  /** One name=value pair of a query string. */
  datatype Param = Param(name: string, value: string)

  const QueryKey := "q"
  const CategoryKey := "category"

  predicate HasName(es: seq<Param>, name: string) {
    exists i :: 0 <= i < |es| && es[i].name == name
  }

  lemma HasNameTail(es: seq<Param>, name: string)
    requires |es| > 0
    ensures HasName(es, name) <==> es[0].name == name || HasName(es[1..], name)
  {
    if HasName(es, name) && es[0].name != name {
      var i :| 0 <= i < |es| && es[i].name == name;
      assert es[1..][i - 1].name == name;
    }
    if HasName(es[1..], name) {
      var i :| 0 <= i < |es[1..]| && es[1..][i].name == name;
      assert es[i + 1].name == name;
    }
  }

  /** URLSearchParams.get: the value of the first pair with the name, or null. */
  function Get(es: seq<Param>, name: string): (r: Option<string>)
    ensures r.None? <==> !HasName(es, name)
    ensures r.Some? ==> exists i :: 0 <= i < |es| && es[i] == Param(name, r.value) && NoNameBefore(es, name, i)
  {
    if |es| == 0 then None
    else if es[0].name == name then
      assert es[0] == Param(name, es[0].value) && NoNameBefore(es, name, 0);
      Some(es[0].value)
    else
      var r := Get(es[1..], name);
      HasNameTail(es, name);
      if r.Some? then
        var i :| 0 <= i < |es[1..]| && es[1..][i] == Param(name, r.value) && NoNameBefore(es[1..], name, i);
        assert es[i + 1] == es[1..][i];
        assert forall j :: 1 <= j < i + 1 ==> es[j] == es[1..][j - 1];
        assert NoNameBefore(es, name, i + 1);
        r
      else r
  }

  /** No pair before position i has the name. */
  predicate NoNameBefore(es: seq<Param>, name: string, i: int)
    requires 0 <= i <= |es|
  {
    forall j :: 0 <= j < i ==> es[j].name != name
  }

  /** URLSearchParams.delete: every pair with the name removed, the others kept in order. */
  function DeleteAll(es: seq<Param>, name: string): (r: seq<Param>)
    ensures |r| <= |es|
    ensures !HasName(r, name)
    ensures forall k :: 0 <= k < |r| ==> r[k] in es
  {
    if |es| == 0 then []
    else (if es[0].name == name then [] else [es[0]]) + DeleteAll(es[1..], name)
  }

  /** Delete works pair by pair: deleting from two parts of the pairs gives the two results one
      after the other (so the other pairs keep their order), and a single pair is kept exactly when
      its name differs. */
  lemma {:induction false} DeleteAllConcat(a: seq<Param>, b: seq<Param>, name: string)
    ensures DeleteAll(a + b, name) == DeleteAll(a, name) + DeleteAll(b, name)
    ensures |a| == 1 ==> DeleteAll(a, name) == if a[0].name == name then [] else a
  {
    if |a| > 0 {
      assert (a + b)[0] == a[0];
      assert (a + b)[1..] == a[1..] + b;
      DeleteAllConcat(a[1..], b, name);
    } else {
      assert a + b == b;
    }
    if |a| == 1 {
      assert a[1..] == [];
      assert [a[0]] + [] == a;
    }
  }

  /** URLSearchParams.set: the first pair with the name takes the value and later pairs with the
      name are removed; without such a pair, the pair is appended. */
  function SetValue(es: seq<Param>, name: string, value: string): seq<Param>
  {
    if |es| == 0 then [Param(name, value)]
    else if es[0].name == name then [Param(name, value)] + DeleteAll(es[1..], name)
    else [es[0]] + SetValue(es[1..], name, value)
  }

  /** Set rewrites the first pair with the name in place and drops the later ones. */
  lemma {:induction false} SetReplacesFirst(a: seq<Param>, b: seq<Param>, name: string, oldValue: string, value: string)
    requires !HasName(a, name)
    ensures SetValue(a + [Param(name, oldValue)] + b, name, value) == a + [Param(name, value)] + DeleteAll(b, name)
  {
    var es := a + [Param(name, oldValue)] + b;
    if |a| == 0 {
      assert es == [Param(name, oldValue)] + b;
      assert es[1..] == b;
    } else {
      HasNameTail(a, name);
      assert es[0] == a[0];
      assert es[1..] == a[1..] + [Param(name, oldValue)] + b;
      SetReplacesFirst(a[1..], b, name, oldValue, value);
      assert [a[0]] + (a[1..] + [Param(name, value)] + DeleteAll(b, name)) == a + [Param(name, value)] + DeleteAll(b, name);
    }
  }

  /** After set, get returns the value that was set. */
  lemma {:induction false} GetAfterSet(es: seq<Param>, name: string, value: string)
    ensures Get(SetValue(es, name, value), name) == Some(value)
  {
    if |es| > 0 && es[0].name != name {
      GetAfterSet(es[1..], name, value);
      assert SetValue(es, name, value)[1..] == SetValue(es[1..], name, value);
    }
  }

  /** Set changes nothing but the pairs with its name: removing them afterwards gives what
      removing them before gives. */
  lemma {:induction false} SetKeepsOthers(es: seq<Param>, name: string, value: string)
    ensures DeleteAll(SetValue(es, name, value), name) == DeleteAll(es, name)
  {
    if |es| == 0 {
      assert DeleteAll([Param(name, value)], name) == [] + DeleteAll([], name);
    } else if es[0].name == name {
      var rest := DeleteAll(es[1..], name);
      assert ([Param(name, value)] + rest)[1..] == rest;
      DeleteTwice(es[1..], name);
    } else {
      SetKeepsOthers(es[1..], name, value);
      assert ([es[0]] + SetValue(es[1..], name, value))[1..] == SetValue(es[1..], name, value);
    }
  }

  lemma {:induction false} DeleteTwice(es: seq<Param>, name: string)
    ensures DeleteAll(DeleteAll(es, name), name) == DeleteAll(es, name)
  {
    DeleteAbsent(DeleteAll(es, name), name);
  }

  /** Deleting a name that does not occur changes nothing. */
  lemma {:induction false} DeleteAbsent(es: seq<Param>, name: string)
    requires !HasName(es, name)
    ensures DeleteAll(es, name) == es
  {
    if |es| > 0 {
      HasNameTail(es, name);
      DeleteAbsent(es[1..], name);
      assert [es[0]] + es[1..] == es;
    }
  }

  /** Setting a name that does not occur appends the pair. */
  lemma {:induction false} SetAbsentAppends(es: seq<Param>, name: string, value: string)
    requires !HasName(es, name)
    ensures SetValue(es, name, value) == es + [Param(name, value)]
  {
    if |es| > 0 {
      HasNameTail(es, name);
      SetAbsentAppends(es[1..], name, value);
      assert [es[0]] + (es[1..] + [Param(name, value)]) == es + [Param(name, value)];
    }
  }

  /** Deleting the name of a pair appended last removes just that pair. */
  lemma {:induction false} DeleteAppended(es: seq<Param>, name: string, value: string)
    ensures DeleteAll(es + [Param(name, value)], name) == DeleteAll(es, name)
  {
    if |es| == 0 {
      assert [] + [Param(name, value)] == [Param(name, value)];
      assert DeleteAll([Param(name, value)], name) == [] + DeleteAll([], name);
    } else {
      assert (es + [Param(name, value)])[1..] == es[1..] + [Param(name, value)];
      DeleteAppended(es[1..], name, value);
    }
  }

  /** A URLSearchParams object: its pairs, in order. */
  class SearchParams {
    var entries: seq<Param>

    /** new URLSearchParams(init) */
    constructor (init: seq<Param>)
      ensures entries == init
    {
      entries := init;
    }

    function GetParam(name: string): (r: Option<string>)
      reads this
      ensures r.None? <==> !HasName(entries, name)
    {
      Get(entries, name)
    }

    method Set(name: string, value: string)
      modifies this
      ensures entries == SetValue(old(entries), name, value)
      ensures GetParam(name) == Some(value)
    {
      GetAfterSet(entries, name, value);
      entries := SetValue(entries, name, value);
    }

    method Delete(name: string)
      modifies this
      ensures entries == DeleteAll(old(entries), name)
      ensures GetParam(name).None?
    {
      entries := DeleteAll(entries, name);
    }
  }

  /** `if (selectedCategory)`: a category is selected when the parameter is present and non-empty. */
  function SelectedCategory(current: seq<Param>): Option<string> {
    var c := Get(current, CategoryKey);
    if c.Some? && c.value != "" then c else None
  }

  /** handleSearch: no navigation for a blank query; otherwise fresh parameters holding the query
      as typed (untrimmed) and the selected category, if any. */
  method HandleSearch(query: string, current: seq<Param>) returns (target: Option<seq<Param>>)
    ensures Blank(query) ==> target.None?
    ensures !Blank(query) ==> target.Some?
    ensures target.Some? ==> Get(target.value, QueryKey) == Some(query)
    ensures target.Some? ==> Get(target.value, CategoryKey) == SelectedCategory(current)
    ensures target.Some? ==>
      target.value == [Param(QueryKey, query)] + (if SelectedCategory(current).Some? then [Param(CategoryKey, SelectedCategory(current).value)] else [])
  {
    if Trim(query) == [] {
      return None;
    }
    var params := new SearchParams([]);
    params.Set(QueryKey, query);
    var selected := Get(current, CategoryKey);
    if selected.Some? && selected.value != "" {
      params.Set(CategoryKey, selected.value);
    }
    return Some(params.entries);
  }

  /** What a click on a category leaves: the filter removed when it was the selected one,
      otherwise set to the clicked category. */
  function Toggled(current: seq<Param>, categoryId: string): seq<Param> {
    if Get(current, CategoryKey) == Some(categoryId) then DeleteAll(current, CategoryKey)
    else SetValue(current, CategoryKey, categoryId)
  }

  method HandleCategoryClick(current: seq<Param>, categoryId: string) returns (target: seq<Param>)
    ensures target == Toggled(current, categoryId)
  {
    var params := new SearchParams(current);
    var selected := params.GetParam(CategoryKey);
    if selected == Some(categoryId) {
      params.Delete(CategoryKey);
    } else {
      params.Set(CategoryKey, categoryId);
    }
    return params.entries;
  }

  /** clearFilters: the category removed, every other parameter kept in order. */
  method ClearFilters(current: seq<Param>) returns (target: seq<Param>)
    ensures !HasName(target, CategoryKey)
    ensures target == DeleteAll(current, CategoryKey)
  {
    var params := new SearchParams(current);
    params.Delete(CategoryKey);
    return params.entries;
  }

  /** A click selects the clicked category unless it was the selected one, in which case no
      category remains; either way the other parameters are kept, in order. */
  lemma ToggleSelects(current: seq<Param>, categoryId: string)
    ensures Get(current, CategoryKey) == Some(categoryId) ==> Get(Toggled(current, categoryId), CategoryKey).None?
    ensures Get(current, CategoryKey) != Some(categoryId) ==>
      Get(Toggled(current, categoryId), CategoryKey) == Some(categoryId)
    ensures DeleteAll(Toggled(current, categoryId), CategoryKey) == DeleteAll(current, CategoryKey)
  {
    if Get(current, CategoryKey) == Some(categoryId) {
      DeleteTwice(current, CategoryKey);
    } else {
      GetAfterSet(current, CategoryKey, categoryId);
      SetKeepsOthers(current, CategoryKey, categoryId);
    }
  }

  /** With no category in the parameters, clicking the same category twice gives them back. */
  lemma ToggleTwiceRestores(current: seq<Param>, categoryId: string)
    requires !HasName(current, CategoryKey)
    ensures Toggled(Toggled(current, categoryId), categoryId) == current
  {
    SetAbsentAppends(current, CategoryKey, categoryId);
    GetAfterSet(current, CategoryKey, categoryId);
    DeleteAppended(current, CategoryKey, categoryId);
    DeleteAbsent(current, CategoryKey);
  }

  /** With another category selected, two clicks on one category do not restore it: the second
      click removes the filter altogether. */
  lemma ToggleTwiceFromOther(current: seq<Param>, categoryId: string, other: string)
    requires Get(current, CategoryKey) == Some(other) && other != categoryId
    ensures Toggled(Toggled(current, categoryId), categoryId) == DeleteAll(current, CategoryKey)
  {
    GetAfterSet(current, CategoryKey, categoryId);
    SetKeepsOthers(current, CategoryKey, categoryId);
  }
}
