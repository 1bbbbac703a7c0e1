/** The shopping-cart reducer (src/lib/cartContext.tsx): add a note once, remove it by id, clear. */
module Cart {
  import opened Wrappers

  datatype CartItem = CartItem(id: string, title: string, price: int)

  datatype CartState = CartState(items: seq<CartItem>, total: int)

  datatype CartAction = AddItem(item: CartItem) | RemoveItem(id: string) | ClearCart

  /** The state the provider starts from. */
  const InitialCart := CartState([], 0)

  predicate HasId(items: seq<CartItem>, id: string) {
    exists i :: 0 <= i < |items| && items[i].id == id
  }

  lemma HasIdTail(items: seq<CartItem>, id: string)
    requires |items| > 0
    ensures HasId(items, id) <==> items[0].id == id || HasId(items[1..], id)
  {
    if HasId(items, id) && items[0].id != id {
      var i :| 0 <= i < |items| && items[i].id == id;
      assert items[1..][i - 1].id == id;
    }
    if HasId(items[1..], id) {
      var i :| 0 <= i < |items[1..]| && items[1..][i].id == id;
      assert items[i + 1].id == id;
    }
  }

  lemma HasIdAppend(items: seq<CartItem>, item: CartItem, id: string)
    ensures HasId(items + [item], id) <==> HasId(items, id) || item.id == id
  {
    if HasId(items + [item], id) && item.id != id {
      var i :| 0 <= i < |items + [item]| && (items + [item])[i].id == id;
      assert items[i].id == id;
    }
    if HasId(items, id) {
      var i :| 0 <= i < |items| && items[i].id == id;
      assert (items + [item])[i].id == id;
    }
    if item.id == id {
      assert (items + [item])[|items|].id == id;
    }
  }

  /** Array.prototype.find: the first item with the id. */
  function FindById(items: seq<CartItem>, id: string): (r: Option<CartItem>)
    ensures r.Some? <==> HasId(items, id)
    ensures r.Some? ==> r.value in items && r.value.id == id
  {
    if |items| == 0 then None
    else if items[0].id == id then Some(items[0])
    else
      HasIdTail(items, id);
      FindById(items[1..], id)
  }

  /** Array.prototype.filter keeping the items whose id differs. */
  function WithoutId(items: seq<CartItem>, id: string): (r: seq<CartItem>)
    ensures |r| <= |items|
    ensures forall j :: 0 <= j < |r| ==> r[j] in items && r[j].id != id
  {
    if |items| == 0 then []
    else if items[0].id == id then WithoutId(items[1..], id)
    else [items[0]] + WithoutId(items[1..], id)
  }

  /** The filter works item by item: filtering two parts of the cart gives the two results one
      after the other (so the kept items keep their order), and a single item is kept exactly when
      its id differs. */
  lemma {:induction false} WithoutIdConcat(a: seq<CartItem>, b: seq<CartItem>, id: string)
    ensures WithoutId(a + b, id) == WithoutId(a, id) + WithoutId(b, id)
    ensures |a| == 1 ==> WithoutId(a, id) == if a[0].id == id then [] else a
  {
    if |a| > 0 {
      assert (a + b)[0] == a[0];
      assert (a + b)[1..] == a[1..] + b;
      WithoutIdConcat(a[1..], b, id);
    } else {
      assert a + b == b;
    }
    if |a| == 1 {
      assert a[1..] == [];
      assert [a[0]] == a;
    }
  }

  function SumPrices(items: seq<CartItem>): int {
    if |items| == 0 then 0 else items[0].price + SumPrices(items[1..])
  }

  predicate DistinctIds(items: seq<CartItem>) {
    |items| == 0 || (!HasId(items[1..], items[0].id) && DistinctIds(items[1..]))
  }

  /** What the reducer keeps true from the initial state on. */
  predicate Consistent(s: CartState) {
    DistinctIds(s.items) && s.total == SumPrices(s.items)
  }

  function Reduce(state: CartState, action: CartAction): (s: CartState)
  {
    match action
    case AddItem(item) =>
      if HasId(state.items, item.id) then state
      else CartState(state.items + [item], state.total + item.price)
    case RemoveItem(id) =>
      var removed := FindById(state.items, id);
      CartState(WithoutId(state.items, id), state.total - (if removed.Some? then removed.value.price else 0))
    case ClearCart =>
      CartState([], 0)
  }

  /** The state after dispatching the actions in order. */
  function Run(state: CartState, actions: seq<CartAction>): CartState
    decreases |actions|
  {
    if |actions| == 0 then state else Run(Reduce(state, actions[0]), actions[1..])
  }

  lemma AddExistingUnchanged(state: CartState, item: CartItem)
    requires HasId(state.items, item.id)
    ensures Reduce(state, AddItem(item)) == state
    ensures Reduce(Reduce(state, AddItem(item)), AddItem(item)) == Reduce(state, AddItem(item))
  {
  }

  lemma AddNewAppends(state: CartState, item: CartItem)
    requires !HasId(state.items, item.id)
    ensures Reduce(state, AddItem(item)).items == state.items + [item]
    ensures Reduce(state, AddItem(item)).total == state.total + item.price
  {
  }

  lemma {:induction false} WithoutAbsent(items: seq<CartItem>, id: string)
    requires !HasId(items, id)
    ensures WithoutId(items, id) == items
  {
    if |items| > 0 {
      HasIdTail(items, id);
      WithoutAbsent(items[1..], id);
      assert [items[0]] + items[1..] == items;
    }
  }

  lemma RemoveAbsentUnchanged(state: CartState, id: string)
    requires !HasId(state.items, id)
    ensures Reduce(state, RemoveItem(id)) == state
  {
    WithoutAbsent(state.items, id);
  }

  lemma {:induction false} WithoutAppended(items: seq<CartItem>, item: CartItem)
    ensures WithoutId(items + [item], item.id) == WithoutId(items, item.id)
  {
    if |items| == 0 {
      assert [] + [item] == [item];
      assert [item][1..] == [];
    } else {
      assert (items + [item])[1..] == items[1..] + [item];
      WithoutAppended(items[1..], item);
    }
  }

  lemma {:induction false} FindAppended(items: seq<CartItem>, item: CartItem)
    requires !HasId(items, item.id)
    ensures FindById(items + [item], item.id) == Some(item)
  {
    if |items| == 0 {
      assert [] + [item] == [item];
    } else {
      HasIdTail(items, item.id);
      assert (items + [item])[1..] == items[1..] + [item];
      FindAppended(items[1..], item);
    }
  }

  /** Adding a new note and then removing it gives back the earlier cart. */
  lemma AddThenRemoveRestores(state: CartState, item: CartItem)
    requires !HasId(state.items, item.id)
    ensures Reduce(Reduce(state, AddItem(item)), RemoveItem(item.id)) == state
  {
    WithoutAppended(state.items, item);
    WithoutAbsent(state.items, item.id);
    FindAppended(state.items, item);
  }

  lemma ClearEmpties(state: CartState)
    ensures Reduce(state, ClearCart) == InitialCart
    ensures Consistent(Reduce(state, ClearCart))
  {
  }

  lemma {:induction false} SumAppend(items: seq<CartItem>, item: CartItem)
    ensures SumPrices(items + [item]) == SumPrices(items) + item.price
  {
    if |items| == 0 {
      assert [] + [item] == [item];
    } else {
      assert (items + [item])[1..] == items[1..] + [item];
      SumAppend(items[1..], item);
    }
  }

  lemma {:induction false} DistinctAppend(items: seq<CartItem>, item: CartItem)
    requires DistinctIds(items) && !HasId(items, item.id)
    ensures DistinctIds(items + [item])
  {
    if |items| > 0 {
      var rest := items[1..];
      assert (items + [item])[1..] == rest + [item];
      HasIdTail(items, item.id);
      DistinctAppend(rest, item);
      HasIdAppend(rest, item, items[0].id);
    } else {
      assert [] + [item] == [item];
    }
  }

  lemma WithoutKeepsAbsent(items: seq<CartItem>, id: string, other: string)
    requires !HasId(items, other)
    ensures !HasId(WithoutId(items, id), other)
  {
    var w := WithoutId(items, id);
    forall j | 0 <= j < |w|
      ensures w[j].id != other
    {
      var i :| 0 <= i < |items| && items[i] == w[j];
    }
  }

  /** Filtering keeps ids distinct, keeps the price balance, and removes every item with the id. */
  lemma {:induction false} WithoutDistinct(items: seq<CartItem>, id: string)
    requires DistinctIds(items)
    ensures DistinctIds(WithoutId(items, id))
    ensures !HasId(WithoutId(items, id), id)
    ensures SumPrices(WithoutId(items, id))
         == SumPrices(items) - (if FindById(items, id).Some? then FindById(items, id).value.price else 0)
  {
    if |items| > 0 {
      var rest := items[1..];
      WithoutDistinct(rest, id);
      if items[0].id == id {
        WithoutAbsent(rest, id);
      } else {
        var w := WithoutId(rest, id);
        assert WithoutId(items, id) == [items[0]] + w;
        assert ([items[0]] + w)[1..] == w;
        WithoutKeepsAbsent(rest, id, items[0].id);
      }
    }
  }

  /** Every action keeps the ids distinct and the total equal to the sum of the prices. */
  lemma ReducePreserves(state: CartState, action: CartAction)
    requires Consistent(state)
    ensures Consistent(Reduce(state, action))
  {
    match action
    case AddItem(item) =>
      if !HasId(state.items, item.id) {
        DistinctAppend(state.items, item);
        SumAppend(state.items, item);
      }
    case RemoveItem(id) =>
      WithoutDistinct(state.items, id);
    case ClearCart =>
  }

  lemma {:induction false} RunPreserves(state: CartState, actions: seq<CartAction>)
    requires Consistent(state)
    ensures Consistent(Run(state, actions))
    decreases |actions|
  {
    if |actions| > 0 {
      ReducePreserves(state, actions[0]);
      RunPreserves(Reduce(state, actions[0]), actions[1..]);
    }
  }

  /** From the provider's initial state, whatever is dispatched, ids stay distinct and the total
      is the sum of the items' prices. */
  lemma ReachableConsistent(actions: seq<CartAction>)
    ensures Consistent(Run(InitialCart, actions))
  {
    RunPreserves(InitialCart, actions);
  }
}
