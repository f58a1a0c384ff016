/**
 * The invoice page's draft (pages/invoice.js): the product lines being edited
 * and the three amounts derived from them on every render. Every update
 * builds a new list, so the model is functions on sequences.
 */
module InvoiceDraft {
  import opened Wrappers
  import opened Records

  /** The product names the page offers; a new line takes the first. */
  const ProductOptions: seq<string> := ["Fabric + Stitching", "Readymade Cloth", "Cut Piece", "Stitching"]

  /** A fresh line: quantity 1, price 0, total 0, named after the first option. */
  function NewLine(id: int): Product {
    Product(id, ProductOptions[0], 1, 0, 0)
  }

  /** The product list the page starts with. */
  const InitialProducts: seq<Product> := [NewLine(1)]

  /** What a table control can change on one line. */
  datatype ProductEdit = SetName(name: string) | SetQuantity(quantity: int) | SetPrice(price: int)

  /** One line after an edit: a quantity or price edit recomputes the stored total
      from the other stored factor, a name edit keeps the stored total. */
  function EditLine(p: Product, e: ProductEdit): (r: Product)
    ensures r.id == p.id
    ensures e.SetName? ==> r.name == e.name && r.quantity == p.quantity && r.price == p.price && r.total == p.total
    ensures e.SetQuantity? ==> r.name == p.name && r.quantity == e.quantity && r.price == p.price
    ensures e.SetPrice? ==> r.name == p.name && r.quantity == p.quantity && r.price == e.price
    ensures !e.SetName? ==> r.total == r.quantity * r.price
  {
    match e
    case SetName(n) => p.(name := n)
    case SetQuantity(q) => p.(quantity := q, total := q * p.price)
    case SetPrice(v) => p.(price := v, total := p.quantity * v)
  }

  /** `handleProductChange(index, field, value)`: the line at `index` is edited;
      an index outside the list matches no line. */
  function HandleProductChange(ps: seq<Product>, index: int, e: ProductEdit): (r: seq<Product>)
    ensures |r| == |ps|
    ensures forall i :: 0 <= i < |ps| && i != index ==> r[i] == ps[i]
    ensures 0 <= index < |ps| ==> r[index] == EditLine(ps[index], e)
  {
    seq(|ps|, i requires 0 <= i < |ps| => if i == index then EditLine(ps[i], e) else ps[i])
  }

  /** `addProduct`: a new line whose id is the old length plus one. */
  function AddProduct(ps: seq<Product>): (r: seq<Product>)
    ensures |r| == |ps| + 1
    ensures r[..|ps|] == ps
    ensures r[|ps|] == NewLine(|ps| + 1)
  {
    ps + [NewLine(|ps| + 1)]
  }

  /** The lines of `ps` whose position, counted from `from`, is not `index`
      (the `filter((_, i) => i !== index)` of `removeProduct`). */
  function KeepOtherPositions(ps: seq<Product>, index: int, from: int): (r: seq<Product>)
    ensures from <= index < from + |ps| ==> r == ps[..index - from] + ps[index - from + 1..]
    ensures !(from <= index < from + |ps|) ==> r == ps
    decreases |ps|
  {
    if ps == [] then []
    else (if from == index then [] else [ps[0]]) + KeepOtherPositions(ps[1..], index, from + 1)
  }

  /** `removeProduct(index)`: exactly the line at `index` goes, the rest keep their order. */
  function RemoveProduct(ps: seq<Product>, index: int): (r: seq<Product>)
    ensures 0 <= index < |ps| ==> |r| == |ps| - 1 && r == ps[..index] + ps[index + 1..]
    ensures !(0 <= index < |ps|) ==> r == ps
  {
    KeepOtherPositions(ps, index, 0)
  }

  /** `products.reduce((sum, product) => sum + product.total, 0)`. */
  function TotalAmount(ps: seq<Product>): (r: int)
    ensures (forall i :: 0 <= i < |ps| ==> ps[i].total >= 0) ==> r >= 0
    ensures (forall i :: 0 <= i < |ps| ==> ps[i].total == 0) ==> r == 0
  {
    if ps == [] then 0 else TotalAmount(ps[..|ps| - 1]) + ps[|ps| - 1].total
  }

  /** The three amounts the page derives and sends with the invoice. */
  datatype Amounts = Amounts(totalAmount: int, finalAmount: int, pendingAmount: int)

  /** `finalAmount = totalAmount - discount`, `pendingAmount = finalAmount - advance`,
      with a non-numeric discount or advance read as 0 and no clamp at zero. */
  function ComputeAmounts(ps: seq<Product>, discount: FormNumber, advance: FormNumber): (r: Amounts)
    ensures r.totalAmount == TotalAmount(ps)
    ensures r.totalAmount - r.finalAmount == NumberOrZero(discount)
    ensures r.finalAmount - r.pendingAmount == NumberOrZero(advance)
  {
    var total := TotalAmount(ps);
    var final := total - NumberOrZero(discount);
    Amounts(total, final, final - NumberOrZero(advance))
  }

  // ---------------------------------------------------------------------------
  // Reference definitions and the lemmas that connect the operations to them

  /** A line whose stored total is its quantity times its price. */
  predicate LineConsistent(p: Product) {
    p.total == p.quantity * p.price
  }

  predicate AllConsistent(ps: seq<Product>) {
    forall i :: 0 <= i < |ps| ==> LineConsistent(ps[i])
  }

  /** The sum of quantity times price over the lines, independent of stored totals. */
  function LineValue(ps: seq<Product>): int {
    if ps == [] then 0 else ps[0].quantity * ps[0].price + LineValue(ps[1..])
  }

  /** The total of a concatenation is the sum of the totals. */
  lemma {:induction false} TotalAppend(ps: seq<Product>, qs: seq<Product>)
    ensures TotalAmount(ps + qs) == TotalAmount(ps) + TotalAmount(qs)
  {
    if qs == [] {
      assert ps + qs == ps;
    } else {
      var n := |qs| - 1;
      assert (ps + qs)[..|ps + qs| - 1] == ps + qs[..n];
      TotalAppend(ps, qs[..n]);
    }
  }

  /** The total adds up the stored line totals, first line first. */
  lemma {:induction false} TotalFirst(ps: seq<Product>)
    requires ps != []
    ensures TotalAmount(ps) == ps[0].total + TotalAmount(ps[1..])
  {
    assert ps == [ps[0]] + ps[1..];
    TotalAppend([ps[0]], ps[1..]);
    assert [ps[0]][..0] == [];
  }

  /** When every stored total is quantity times price, the total is the
      quantity-times-price sum over the lines. */
  lemma {:induction false} TotalIsLineValue(ps: seq<Product>)
    requires AllConsistent(ps)
    ensures TotalAmount(ps) == LineValue(ps)
  {
    if ps != [] {
      TotalFirst(ps);
      assert LineConsistent(ps[0]);
      TotalIsLineValue(ps[1..]);
    }
  }

  /** A quantity or price edit leaves the edited line consistent whatever it
      held before; a name edit keeps the line's consistency as it was. */
  lemma EditLineConsistency(p: Product, e: ProductEdit)
    ensures !e.SetName? ==> LineConsistent(EditLine(p, e))
    ensures e.SetName? ==> (LineConsistent(EditLine(p, e)) <==> LineConsistent(p))
  {
  }

  /** Editing a quantity stores newQuantity times the existing price; editing a
      price stores the existing quantity times newPrice; editing the name keeps
      the stored total, the quantity and the price. */
  lemma EditTotalRule(ps: seq<Product>, index: int, e: ProductEdit)
    requires 0 <= index < |ps|
    ensures var r := HandleProductChange(ps, index, e)[index];
      && r.id == ps[index].id
      && (e.SetQuantity? ==> r.quantity == e.quantity && r.price == ps[index].price
                             && r.total == e.quantity * ps[index].price && r.name == ps[index].name)
      && (e.SetPrice? ==> r.price == e.price && r.quantity == ps[index].quantity
                          && r.total == ps[index].quantity * e.price && r.name == ps[index].name)
      && (e.SetName? ==> r.name == e.name && r.total == ps[index].total
                         && r.quantity == ps[index].quantity && r.price == ps[index].price)
  {
  }

  /** Every edit, append and removal keeps a consistent list consistent. */
  lemma EditsPreserveConsistency(ps: seq<Product>, index: int, e: ProductEdit)
    requires AllConsistent(ps)
    ensures AllConsistent(HandleProductChange(ps, index, e))
    ensures AllConsistent(AddProduct(ps))
    ensures AllConsistent(RemoveProduct(ps, index))
  {
    var r := HandleProductChange(ps, index, e);
    forall i | 0 <= i < |r|
      ensures LineConsistent(r[i])
    {
      if i == index {
        EditLineConsistency(ps[i], e);
      }
    }
    var a := AddProduct(ps);
    forall i | 0 <= i < |a|
      ensures LineConsistent(a[i])
    {
      if i < |ps| {
        assert a[i] == a[..|ps|][i];
      }
    }
    var d := RemoveProduct(ps, index);
    forall i | 0 <= i < |d|
      ensures LineConsistent(d[i])
    {
      if 0 <= index < |ps| && i >= index {
        assert d[i] == ps[i + 1];
      }
    }
  }

  /** An edit moves the total by exactly the change in the edited line's total. */
  lemma {:induction false} TotalAfterEdit(ps: seq<Product>, index: int, e: ProductEdit)
    requires 0 <= index < |ps|
    ensures TotalAmount(HandleProductChange(ps, index, e))
         == TotalAmount(ps) - ps[index].total + EditLine(ps[index], e).total
  {
    var r := HandleProductChange(ps, index, e);
    assert ps == ps[..index] + [ps[index]] + ps[index + 1..];
    assert r == ps[..index] + [EditLine(ps[index], e)] + ps[index + 1..];
    TotalAppend(ps[..index] + [ps[index]], ps[index + 1..]);
    TotalAppend(ps[..index], [ps[index]]);
    TotalAppend(ps[..index] + [EditLine(ps[index], e)], ps[index + 1..]);
    TotalAppend(ps[..index], [EditLine(ps[index], e)]);
    assert [ps[index]][..0] == [];
    assert [EditLine(ps[index], e)][..0] == [];
  }

  /** A new line adds 0 to the total. */
  lemma TotalAfterAdd(ps: seq<Product>)
    ensures TotalAmount(AddProduct(ps)) == TotalAmount(ps)
  {
    var r := AddProduct(ps);
    assert r[..|r| - 1] == ps;
  }

  /** Removing a line takes exactly its stored total off the total. */
  lemma {:induction false} TotalAfterRemove(ps: seq<Product>, index: int)
    requires 0 <= index < |ps|
    ensures TotalAmount(RemoveProduct(ps, index)) == TotalAmount(ps) - ps[index].total
  {
    assert ps == ps[..index] + [ps[index]] + ps[index + 1..];
    TotalAppend(ps[..index] + [ps[index]], ps[index + 1..]);
    TotalAppend(ps[..index], [ps[index]]);
    TotalAppend(ps[..index], ps[index + 1..]);
    assert [ps[index]][..0] == [];
  }

  /** The remove control is shown only while there are two or more lines, so
      a removal through the page never leaves the list empty. */
  lemma RemoveThroughPageKeepsALine(ps: seq<Product>, index: int)
    requires |ps| > 1 && 0 <= index < |ps|
    ensures |RemoveProduct(ps, index)| >= 1
  {
  }

  /** Ids come from the length, so after a removal an append can repeat one:
      from lines 1 and 2, removing the first and adding gives two lines with id 2. */
  lemma IdsCanRepeat()
    ensures var r := AddProduct(RemoveProduct(AddProduct(InitialProducts), 0));
      |r| == 2 && r[0].id == 2 && r[1].id == 2
  {
    var two := AddProduct(InitialProducts);
    assert two[1].id == 2;
    var one := RemoveProduct(two, 0);
    assert one == [two[1]];
  }

  /** The page's starting draft (one zero line, discount 0, advance 0) has all
      three amounts 0. */
  lemma InitialAmountsAreZero()
    ensures ComputeAmounts(InitialProducts, Some(0), Some(0)) == Amounts(0, 0, 0)
  {
    assert InitialProducts[..0] == [];
  }

  /** There is no clamp: an advance larger than the final amount gives a
      negative pending amount. */
  lemma {:induction false} PendingNotClamped(ps: seq<Product>, discount: FormNumber, advance: int)
    requires advance > TotalAmount(ps) - NumberOrZero(discount)
    ensures ComputeAmounts(ps, discount, Some(advance)).pendingAmount < 0
  {
  }
}
