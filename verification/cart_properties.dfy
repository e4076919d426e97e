/** What the cart handlers promise: the add/increment rule, the cart invariant, and round trips. */
module CartProperties {
  import opened Base
  import opened Cart

  // ---------------------------------------------------------------- sequence facts

  lemma {:induction false} WithoutAbsent(items: seq<LineItem>, pid: ProductId)
    requires !Has(items, pid)
    ensures Without(items, pid) == items
  {
    if |items| > 0 {
      assert !Has(items[1..], pid) by {
        forall k | 0 <= k < |items[1..]| ensures items[1..][k].productId != pid {
          assert items[1..][k] == items[k + 1];
        }
      }
      WithoutAbsent(items[1..], pid);
      assert items[0].productId != pid;
      assert items == [items[0]] + items[1..];
    }
  }

  lemma {:induction false} WithoutAppend(a: seq<LineItem>, b: seq<LineItem>, pid: ProductId)
    ensures Without(a + b, pid) == Without(a, pid) + Without(b, pid)
  {
    if |a| > 0 {
      var ab := a + b;
      assert ab[1..] == a[1..] + b;
      assert ab[0] == a[0];
      WithoutAppend(a[1..], b, pid);
      if a[0].productId == pid {
        assert Without(ab, pid) == Without(a[1..] + b, pid);
        assert Without(a, pid) == Without(a[1..], pid);
      } else {
        assert Without(ab, pid) == [a[0]] + Without(a[1..] + b, pid);
        assert Without(a, pid) == [a[0]] + Without(a[1..], pid);
      }
    } else {
      assert a + b == b;
    }
  }

  lemma {:induction false} WithoutKeepsUnique(items: seq<LineItem>, pid: ProductId)
    requires UniqueIds(items)
    ensures UniqueIds(Without(items, pid))
  {
    if |items| > 0 {
      assert UniqueIds(items[1..]) by {
        forall i, j | 0 <= i < j < |items[1..]|
          ensures items[1..][i].productId != items[1..][j].productId
        {
          assert items[1..][i] == items[i + 1] && items[1..][j] == items[j + 1];
        }
      }
      WithoutKeepsUnique(items[1..], pid);
      if items[0].productId != pid {
        var rest := Without(items[1..], pid);
        var r := [items[0]] + rest;
        forall i, j | 0 <= i < j < |r| ensures r[i].productId != r[j].productId {
          if i == 0 {
            assert r[j] == rest[j - 1];
            assert rest[j - 1] in items[1..];
            var k :| 0 <= k < |items[1..]| && items[1..][k] == rest[j - 1];
            assert items[k + 1] == rest[j - 1];
          } else {
            assert r[i] == rest[i - 1] && r[j] == rest[j - 1];
          }
        }
      }
    }
  }

  lemma WithoutKeepsPositive(items: seq<LineItem>, pid: ProductId)
    requires PositiveQuantities(items)
    ensures PositiveQuantities(Without(items, pid))
  {
    var r := Without(items, pid);
    forall i | 0 <= i < |r| ensures r[i].quantity >= 1 {
      assert r[i] in items;
    }
  }

  lemma {:induction false} TotalAppend(a: seq<LineItem>, x: LineItem)
    ensures TotalQuantity(a + [x]) == TotalQuantity(a) + x.quantity
  {
    if |a| > 0 {
      assert (a + [x])[1..] == a[1..] + [x];
      TotalAppend(a[1..], x);
    }
  }

  lemma {:induction false} TotalUpdate(a: seq<LineItem>, i: int, x: LineItem)
    requires 0 <= i < |a|
    ensures TotalQuantity(a[i := x]) == TotalQuantity(a) - a[i].quantity + x.quantity
  {
    if i == 0 {
      assert a[i := x][1..] == a[1..];
    } else {
      assert a[i := x][1..] == a[1..][i - 1 := x];
      TotalUpdate(a[1..], i - 1, x);
    }
  }

  // ---------------------------------------------------------------- add

  /** Adding a product the cart lacks appends exactly one line of quantity 1 after the existing
      lines; for a user without a cart it creates a cart holding only that line. */
  lemma AddNewProduct(store: CartStore, email: Email, p: ProductRef)
    requires !Has(ReadCart(store, email).items, p.id)
    ensures AddToCart(store, email, p).0[email] == ReadCart(store, email).items + [NewLine(p)]
    ensures NewLine(p).quantity == 1 && NewLine(p).productId == p.id
    ensures email !in store ==> AddToCart(store, email, p) == (store[email := [NewLine(p)]], CartCreated)
  {
    if email in store {
      match IndexOf(store[email], p.id)
      case None =>
      case Some(i) => assert false;
    }
  }

  /** Adding a product already in the cart raises the quantity of its (first) line by exactly one
      and changes nothing else: same number of lines, every other line as it was. */
  lemma AddExistingProduct(store: CartStore, email: Email, p: ProductRef, i: int)
    requires email in store && FirstMatch(store[email], p.id, i)
    ensures AddToCart(store, email, p).1 == ItemAdded
    ensures |AddToCart(store, email, p).0[email]| == |store[email]|
    ensures AddToCart(store, email, p).0[email][i] == store[email][i].(quantity := store[email][i].quantity + 1)
    ensures forall k :: 0 <= k < |store[email]| && k != i ==> AddToCart(store, email, p).0[email][k] == store[email][k]
  {
    var j := IndexOf(store[email], p.id);
    assert j.Some? && j.value == i;
  }

  /** Each add contributes exactly one unit to the cart. */
  lemma AddIncrementsTotal(store: CartStore, email: Email, p: ProductRef)
    ensures TotalQuantity(AddToCart(store, email, p).0[email]) == TotalQuantity(ReadCart(store, email).items) + 1
  {
    var items := ReadCart(store, email).items;
    if email !in store {
      assert [NewLine(p)][1..] == [];
    } else {
      match IndexOf(items, p.id)
      case None => TotalAppend(items, NewLine(p));
      case Some(i) => TotalUpdate(items, i, items[i].(quantity := items[i].quantity + 1));
    }
  }

  /** Add keeps every cart free of duplicate products and of quantities below one. */
  lemma AddPreservesValid(store: CartStore, email: Email, p: ProductRef)
    requires ValidStore(store)
    ensures ValidStore(AddToCart(store, email, p).0)
  {
    var r := AddToCart(store, email, p).0;
    if email in store {
      var items := store[email];
      match IndexOf(items, p.id)
      case None =>
        var n := items + [NewLine(p)];
        assert r[email] == n;
        forall i, j | 0 <= i < j < |n| ensures n[i].productId != n[j].productId {
          if j == |items| { assert n[j].productId == p.id; assert n[i] == items[i]; }
        }
      case Some(k) =>
        assert ValidItems(r[email]);
    }
  }

  // ---------------------------------------------------------------- set quantity

  /** A valid quantity replaces the quantity of the first matching line and nothing else. */
  lemma SetQuantityUpdatesLine(store: CartStore, email: Email, pid: ProductId, quantity: int, i: int)
    requires quantity >= 1
    requires email in store && FirstMatch(store[email], pid, i)
    ensures SetQuantity(store, email, pid, quantity).Ok?
    ensures |SetQuantity(store, email, pid, quantity).value[email]| == |store[email]|
    ensures SetQuantity(store, email, pid, quantity).value[email][i] == store[email][i].(quantity := quantity)
    ensures forall k :: 0 <= k < |store[email]| && k != i ==>
              SetQuantity(store, email, pid, quantity).value[email][k] == store[email][k]
  {
    var j := IndexOf(store[email], pid);
    assert j.Some? && j.value == i;
  }

  /** Without a cart, or without a line for the product, a valid quantity changes nothing;
      a quantity below one is refused whatever the cart holds. */
  lemma SetQuantityNoMatch(store: CartStore, email: Email, pid: ProductId, quantity: int)
    requires !Has(ReadCart(store, email).items, pid)
    ensures quantity >= 1 ==> SetQuantity(store, email, pid, quantity) == Ok(store)
    ensures quantity < 1 ==> SetQuantity(store, email, pid, quantity) == Err(QuantityBelowOne)
  {
    if email in store {
      match IndexOf(store[email], pid)
      case None =>
      case Some(i) => assert false;
    }
  }

  /** Setting a quantity and then setting the old one back restores the store. */
  lemma SetQuantityRoundTrip(store: CartStore, email: Email, pid: ProductId, quantity: int, i: int)
    requires quantity >= 1
    requires email in store && FirstMatch(store[email], pid, i) && store[email][i].quantity >= 1
    ensures SetQuantity(SetQuantity(store, email, pid, quantity).value, email, pid, store[email][i].quantity) == Ok(store)
  {
    SetQuantityUpdatesLine(store, email, pid, quantity, i);
    var s1 := SetQuantity(store, email, pid, quantity).value;
    assert FirstMatch(s1[email], pid, i);
    SetQuantityUpdatesLine(s1, email, pid, store[email][i].quantity, i);
    var s2 := SetQuantity(s1, email, pid, store[email][i].quantity).value;
    assert s2[email] == store[email];
    assert s2 == store;
  }

  /** Set-quantity keeps the cart invariant. */
  lemma SetQuantityPreservesValid(store: CartStore, email: Email, pid: ProductId, quantity: int)
    requires ValidStore(store)
    ensures SetQuantity(store, email, pid, quantity).Ok? ==> ValidStore(SetQuantity(store, email, pid, quantity).value)
  {
    if quantity >= 1 && email in store {
      match IndexOf(store[email], pid)
      case None =>
      case Some(i) =>
        var r := SetQuantity(store, email, pid, quantity).value;
        assert ValidItems(r[email]);
    }
  }

  // ---------------------------------------------------------------- remove

  /** In a cart without duplicates, removing a product deletes exactly its line and keeps the
      others in order; removing a product the cart lacks changes nothing. */
  lemma RemoveDeletesLine(store: CartStore, email: Email, pid: ProductId, i: int)
    requires email in store && UniqueIds(store[email])
    requires 0 <= i < |store[email]| && store[email][i].productId == pid
    ensures RemoveItem(store, email, pid)[email] == store[email][..i] + store[email][i + 1..]
  {
    var items := store[email];
    assert items == items[..i] + ([items[i]] + items[i + 1..]);
    WithoutAppend(items[..i], [items[i]] + items[i + 1..], pid);
    WithoutAppend([items[i]], items[i + 1..], pid);
    var front, back := items[..i], items[i + 1..];
    assert !Has(front, pid) by {
      forall k | 0 <= k < |front| ensures front[k].productId != pid { assert front[k] == items[k]; }
    }
    assert !Has(back, pid) by {
      forall k | 0 <= k < |back| ensures back[k].productId != pid { assert back[k] == items[i + 1 + k]; }
    }
    WithoutAbsent(items[..i], pid);
    WithoutAbsent(items[i + 1..], pid);
    assert Without([items[i]], pid) == [];
  }

  /** Removing a product no line holds, or removing from a user without a cart, is a no-op. */
  lemma RemoveAbsentIsNoOp(store: CartStore, email: Email, pid: ProductId)
    requires !Has(ReadCart(store, email).items, pid)
    ensures RemoveItem(store, email, pid) == store
  {
    if email in store {
      WithoutAbsent(store[email], pid);
    }
  }

  /** Removing twice is removing once. */
  lemma RemoveIdempotent(store: CartStore, email: Email, pid: ProductId)
    ensures RemoveItem(RemoveItem(store, email, pid), email, pid) == RemoveItem(store, email, pid)
  {
    var r := RemoveItem(store, email, pid);
    if email in store {
      WithoutAbsent(r[email], pid);
    }
  }

  /** Remove keeps the cart invariant. */
  lemma RemovePreservesValid(store: CartStore, email: Email, pid: ProductId)
    requires ValidStore(store)
    ensures ValidStore(RemoveItem(store, email, pid))
  {
    if email in store {
      WithoutKeepsUnique(store[email], pid);
      WithoutKeepsPositive(store[email], pid);
    }
  }

  /** Adding a product the cart lacks and then removing it gives back the cart a read showed before. */
  lemma AddThenRemoveNew(store: CartStore, email: Email, p: ProductRef)
    requires !Has(ReadCart(store, email).items, p.id)
    ensures ReadCart(RemoveItem(AddToCart(store, email, p).0, email, p.id), email) == ReadCart(store, email)
  {
    var items := ReadCart(store, email).items;
    AddNewProduct(store, email, p);
    WithoutAppend(items, [NewLine(p)], p.id);
    WithoutAbsent(items, p.id);
    assert Without([NewLine(p)], p.id) == [];
  }

  // ---------------------------------------------------------------- clear

  /** Clear keeps the invariant of every remaining cart. */
  lemma ClearPreservesValid(store: CartStore, email: Email)
    requires ValidStore(store)
    ensures ValidStore(ClearCart(store, email))
  {
  }

  /** After a clear, reading the cart gives the empty cart, while every other user reads what they read before. */
  lemma ClearThenReadEmpty(store: CartStore, email: Email, other: Email)
    requires other != email
    ensures ReadCart(ClearCart(store, email), email) == Cart(email, [])
    ensures ReadCart(ClearCart(store, email), other) == ReadCart(store, other)
  {
  }
}
