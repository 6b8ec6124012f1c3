/** `SaveForLaterView`: the saved lines, moving one to the cart and swipe-deleting. The
    saved lines are a plain sequence owned by the screen; the manager is not shown to
    declare them.
 */
module SaveForLater {
  import opened Wrappers
  import opened Storefront
  import opened Seqs
  import CartManager

  /** The empty state is shown exactly when nothing is saved. */
  predicate ShowsEmptyState(saved: seq<CartLine>)
    ensures ShowsEmptyState(saved) ==> forall id :: FirstIndexOf(saved, id).None?
    ensures !ShowsEmptyState(saved) ==> FirstIndexOf(saved, saved[0].id) == Some(0)
  {
    |saved| == 0
  }

  /** `firstIndex(where: { $0.id == id })`. */
  function FirstIndexOf(saved: seq<CartLine>, id: Id): Option<nat>
  {
    FirstIndexWhere(saved, (line: CartLine) => line.id == id)
  }

  /** `remove(at:)`. */
  function RemoveAt<T>(s: seq<T>, i: nat): (r: seq<T>)
    requires i < |s|
    ensures |r| == |s| - 1
    ensures forall k :: 0 <= k < i ==> r[k] == s[k]
    ensures forall k :: i <= k < |r| ==> r[k] == s[k + 1]
  {
    s[..i] + s[i + 1..]
  }

  /** The effect of "Move to Cart": the saved lines afterwards, the cart field, and the add
      request sent (if any). */
  datatype Move = Move(saved: seq<CartLine>, cart: Option<Cart>, request: Option<CartManager.CartRequest>)

  /** `moveToCart(item:)`: only a product-variant line moves. Its variant is added to the
      cart, and the first saved line with the same id is dropped, whatever the add's
      outcome. */
  function MoveToCart(saved: seq<CartLine>, cart: Option<Cart>, item: CartLine, outcome: CartManager.MutationOutcome): (r: Move)
    ensures item.merchandise.OtherMerchandise? ==> r == Move(saved, cart, None)
    ensures item.merchandise.VariantMerchandise? ==>
              && r.request == CartManager.AddItem(cart, item.merchandise.variant.id, outcome).request
              && r.cart == CartManager.AddItem(cart, item.merchandise.variant.id, outcome).cart
    ensures item.merchandise.VariantMerchandise? && FirstIndexOf(saved, item.id).Some? ==>
              r.saved == RemoveAt(saved, FirstIndexOf(saved, item.id).value)
    ensures FirstIndexOf(saved, item.id).None? ==> r.saved == saved
  {
    match item.merchandise
    case OtherMerchandise => Move(saved, cart, None)
    case VariantMerchandise(v, _) =>
      var step := CartManager.AddItem(cart, v.id, outcome);
      var rest := match FirstIndexOf(saved, item.id) case Some(i) => RemoveAt(saved, i) case None => saved;
      Move(rest, step.cart, step.request)
  }

  /** The saved list after a move does not depend on how the add went, and only the first
      matching line goes: the others stay, in order. */
  lemma MoveIgnoresAddOutcome(saved: seq<CartLine>, cart: Option<Cart>, item: CartLine, o1: CartManager.MutationOutcome, o2: CartManager.MutationOutcome)
    ensures MoveToCart(saved, cart, item, o1).saved == MoveToCart(saved, cart, item, o2).saved
    ensures Sublist(MoveToCart(saved, cart, item, o1).saved, saved)
    ensures item.merchandise.VariantMerchandise? && FirstIndexOf(saved, item.id).Some? ==>
              |MoveToCart(saved, cart, item, o1).saved| == |saved| - 1
  {
    var r := MoveToCart(saved, cart, item, o1).saved;
    if r == saved {
      SublistRefl(saved);
    } else {
      var i := FirstIndexOf(saved, item.id).value;
      RemoveAtIsSublist(saved, i);
    }
  }

  lemma {:induction false} RemoveAtIsSublist<T>(s: seq<T>, i: nat)
    requires i < |s|
    ensures Sublist(RemoveAt(s, i), s)
    decreases |s|
  {
    if i == 0 {
      assert RemoveAt(s, 0) == s[1..];
      SublistRefl(s[1..]);
      SublistDropFront(s[1..], s);
    } else {
      RemoveAtIsSublist(s[1..], i - 1);
      assert RemoveAt(s, i) == [s[0]] + RemoveAt(s[1..], i - 1);
      assert RemoveAt(s, i)[1..] == RemoveAt(s[1..], i - 1);
    }
  }

  /** The lines at positions `k..` that are not among `offsets`, in order. */
  function KeepFrom<T>(s: seq<T>, offsets: set<nat>, k: nat): (r: seq<T>)
    requires k <= |s|
    decreases |s| - k
  {
    if k == |s| then []
    else (if k in offsets then [] else [s[k]]) + KeepFrom(s, offsets, k + 1)
  }

  /** `remove(atOffsets:)`: swipe-delete the lines at the given positions, which must all be
      positions of the list. */
  function DeleteSavedItem(saved: seq<CartLine>, offsets: set<nat>): (r: seq<CartLine>)
    requires forall o :: o in offsets ==> o < |saved|
  {
    KeepFrom(saved, offsets, 0)
  }

  ghost function OffsetsFrom(offsets: set<nat>, k: nat): set<nat>
  {
    set o | o in offsets && o >= k
  }

  lemma {:induction false} KeepFromFacts<T>(s: seq<T>, offsets: set<nat>, k: nat)
    requires k <= |s|
    requires forall o :: o in offsets ==> o < |s|
    ensures |KeepFrom(s, offsets, k)| == |s| - k - |OffsetsFrom(offsets, k)|
    ensures forall i :: k <= i < |s| && i !in offsets ==> s[i] in KeepFrom(s, offsets, k)
    ensures Sublist(KeepFrom(s, offsets, k), s[k..])
    decreases |s| - k
  {
    if k == |s| {
      assert OffsetsFrom(offsets, k) == {};
    } else {
      KeepFromFacts(s, offsets, k + 1);
      var tail := KeepFrom(s, offsets, k + 1);
      assert s[k..][1..] == s[k + 1..];
      if k in offsets {
        assert OffsetsFrom(offsets, k) == OffsetsFrom(offsets, k + 1) + {k};
        assert KeepFrom(s, offsets, k) == tail;
        SublistDropFront(tail, s[k..]);
      } else {
        assert OffsetsFrom(offsets, k) == OffsetsFrom(offsets, k + 1);
        assert KeepFrom(s, offsets, k) == [s[k]] + tail;
        assert KeepFrom(s, offsets, k)[1..] == tail;
      }
    }
  }

  /** Deleting removes exactly the chosen positions: the length drops by their number,
      every other line survives, and the survivors keep their order. */
  lemma DeleteRemovesExactlyOffsets(saved: seq<CartLine>, offsets: set<nat>)
    requires forall o :: o in offsets ==> o < |saved|
    ensures |DeleteSavedItem(saved, offsets)| == |saved| - |offsets|
    ensures forall i :: 0 <= i < |saved| && i !in offsets ==> saved[i] in DeleteSavedItem(saved, offsets)
    ensures Sublist(DeleteSavedItem(saved, offsets), saved)
  {
    KeepFromFacts(saved, offsets, 0);
    assert OffsetsFrom(offsets, 0) == offsets;
    assert saved[0..] == saved;
  }

  /** Deleting one position is `remove(at:)`. */
  lemma {:induction false} DeleteOneIsRemoveAt(saved: seq<CartLine>, i: nat)
    requires i < |saved|
    ensures DeleteSavedItem(saved, {i}) == RemoveAt(saved, i)
  {
    KeepFromSingle(saved, i, 0);
    assert saved[..0] == [];
  }

  lemma {:induction false} KeepFromSingle<T>(s: seq<T>, i: nat, k: nat)
    requires k <= |s| && i < |s|
    ensures k <= i ==> KeepFrom(s, {i}, k) == s[k..i] + s[i + 1..]
    ensures k > i ==> KeepFrom(s, {i}, k) == s[k..]
    decreases |s| - k
  {
    if k < |s| {
      KeepFromSingle(s, i, k + 1);
      if k == i {
        assert KeepFrom(s, {i}, k) == KeepFrom(s, {i}, k + 1);
        assert s[k..i] == [];
      } else if k < i {
        assert s[k..i] == [s[k]] + s[k + 1..i];
      } else {
        assert s[k..] == [s[k]] + s[k + 1..];
      }
    }
  }
}
