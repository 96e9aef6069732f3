/**
 * The product image table and `ProductImage.save()`, which keeps at most one main
 * image per product.
 */
module Images {

  /** A stored image row; `product` is the product's key. */
  datatype ImageRow = ImageRow(id: nat, product: nat, file: string, isMain: bool, displayOrder: int)

  /** Row keys are unique, as primary keys are. */
  predicate UniqueIds(rows: seq<ImageRow>) {
    forall i, j :: 0 <= i < j < |rows| ==> rows[i].id != rows[j].id
  }

  /** No product has two main images. */
  predicate AtMostOneMain(rows: seq<ImageRow>) {
    forall i, j :: 0 <= i < j < |rows| && rows[i].isMain && rows[j].isMain ==>
      rows[i].product != rows[j].product
  }

  /**
   * The bulk update `filter(product=p, is_main=True).update(is_main=False)`: the main
   * flag is cleared on the rows of product `p`; every other field and row is kept.
   */
  function MainCleared(rows: seq<ImageRow>, p: nat): (r: seq<ImageRow>)
    ensures |r| == |rows|
    ensures forall i :: 0 <= i < |rows| ==>
              r[i] == rows[i].(isMain := rows[i].isMain && rows[i].product != p)
  {
    seq(|rows|, i requires 0 <= i < |rows| =>
      if rows[i].product == p then rows[i].(isMain := false) else rows[i])
  }

  /** The row with key `id`, if any. */
  function IndexOfId(rows: seq<ImageRow>, id: nat): (r: int)
    ensures -1 <= r < |rows|
    ensures r >= 0 ==> rows[r].id == id
    ensures r < 0 ==> forall i :: 0 <= i < |rows| ==> rows[i].id != id
  {
    if rows == [] then -1
    else if rows[|rows| - 1].id == id then |rows| - 1
    else IndexOfId(rows[..|rows| - 1], id)
  }

  /** The row-level save: an existing key is overwritten, a new key is inserted. */
  function Stored(rows: seq<ImageRow>, image: ImageRow): (r: seq<ImageRow>)
    ensures UniqueIds(rows) ==> UniqueIds(r)
    ensures image in r
    ensures forall row :: row in rows && row.id != image.id ==> row in r
    ensures forall row :: row in r ==> row == image || row in rows
  {
    var k := IndexOfId(rows, image.id);
    if k < 0 then rows + [image]
    else
      var r := rows[k := image];
      assert r[k] == image;
      assert forall i :: 0 <= i < |rows| && i != k ==> r[i] == rows[i];
      r
  }

  /** `ProductImage.save()` on the table: a main image first clears the others' flag. */
  function Saved(rows: seq<ImageRow>, image: ImageRow): (r: seq<ImageRow>)
    ensures image in r
    ensures UniqueIds(rows) ==> UniqueIds(r)
    ensures forall row ::
              (row in rows && row.id != image.id && !(image.isMain && row.isMain && row.product == image.product))
              ==> row in r
  {
    var base := if image.isMain then MainCleared(rows, image.product) else rows;
    assert forall i :: 0 <= i < |rows| && !(image.isMain && rows[i].isMain && rows[i].product == image.product) ==>
             base[i] == rows[i];
    assert UniqueIds(rows) ==> UniqueIds(base) by {
      assert forall i :: 0 <= i < |rows| ==> base[i].id == rows[i].id;
    }
    Stored(base, image)
  }

  /** After saving a main image it is the one main image of its product. */
  lemma OnlyMainImage(rows: seq<ImageRow>, image: ImageRow)
    requires image.isMain
    ensures var r := Saved(rows, image);
            forall row :: row in r && row.product == image.product && row.isMain ==> row == image
  {
    var cleared := MainCleared(rows, image.product);
    forall row | row in cleared
      ensures row.product == image.product ==> !row.isMain
    {
      var i :| 0 <= i < |cleared| && cleared[i] == row;
    }
  }

  /** Images of other products keep their rows, main flag included. */
  lemma OtherProductsUntouched(rows: seq<ImageRow>, image: ImageRow, row: ImageRow)
    requires row in rows && row.product != image.product && row.id != image.id
    ensures row in Saved(rows, image)
  {
    if image.isMain {
      var i :| 0 <= i < |rows| && rows[i] == row;
      assert MainCleared(rows, image.product)[i] == row;
    }
  }

  /** Saving keeps keys unique and never gives a product a second main image. */
  lemma SavePreservesTable(rows: seq<ImageRow>, image: ImageRow)
    requires UniqueIds(rows) && AtMostOneMain(rows)
    ensures UniqueIds(Saved(rows, image)) && AtMostOneMain(Saved(rows, image))
  {
    var before := if image.isMain then MainCleared(rows, image.product) else rows;
    var r := Saved(rows, image);
    assert UniqueIds(before);
    assert AtMostOneMain(before);
    var k := IndexOfId(before, image.id);
    forall i, j | 0 <= i < j < |r| && r[i].isMain && r[j].isMain
      ensures r[i].product != r[j].product
    {
      if r[i] == image || r[j] == image {
        if image.isMain {
          OnlyMainImage(rows, image);
        }
      }
    }
  }

  /** The image table. */
  class ImageTable {
    var rows: seq<ImageRow>

    constructor ()
      ensures rows == []
    {
      rows := [];
    }

    predicate Valid()
      reads this
    {
      UniqueIds(rows) && AtMostOneMain(rows)
    }

    /** `ProductImage.save()`. */
    method Save(image: ImageRow)
      requires Valid()
      modifies this
      ensures rows == Saved(old(rows), image)
      ensures Valid()
      ensures image in rows
    {
      if image.isMain {
        rows := MainCleared(rows, image.product);
      }
      rows := Stored(rows, image);
      SavePreservesTable(old(rows), image);
    }
  }
}
