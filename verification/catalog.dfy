/**
 * The catalogue: categories with their parent chain, and products with their stock
 * and their URL slug. Prices are whole kopecks (the source keeps decimals with two
 * places).
 */
module Catalog {

  import opened Wrappers
  import Text

  /**
   * A category and, through `parent`, its ancestors. The chain is a value, so it is
   * finite and acyclic; a cycle of parents would make `get_full_path` loop forever.
   */
  datatype Category = Category(name: string, slug: string, parent: Option<Category>)

  /** The separator `get_full_path` joins names with. */
  const PathSeparator: string := " → "

  /** Number of ancestors of `c`. */
  function Depth(c: Category): nat {
    if c.parent.None? then 0 else Depth(c.parent.value) + 1
  }

  /** The top of the parent chain. */
  function Root(c: Category): Category {
    if c.parent.None? then c else Root(c.parent.value)
  }

  /** The names from the root category down to `c`, one per level. */
  function PathNames(c: Category): (r: seq<string>)
    ensures |r| == Depth(c) + 1
    ensures r[0] == Root(c).name && r[|r| - 1] == c.name
  {
    if c.parent.None? then [c.name] else PathNames(c.parent.value) + [c.name]
  }

  /** The names above a point in the walk: nothing once the chain is exhausted. */
  function NamesAbove(p: Option<Category>): seq<string> {
    if p.None? then [] else PathNames(p.value)
  }

  /**
   * `Category.get_full_path()`: walks up the parents, putting each name in front,
   * and joins the names with " → ".
   */
  method GetFullPath(c: Category) returns (path: string)
    ensures path == Text.Join(PathNames(c), PathSeparator)
  {
    var names := [c.name];
    var parent := c.parent;
    while parent.Some?
      invariant PathNames(c) == NamesAbove(parent) + names
      decreases parent
    {
      names := [parent.value.name] + names;
      parent := parent.value.parent;
    }
    assert NamesAbove(parent) + names == names;
    path := Text.Join(names, PathSeparator);
  }

  /** Joining one more part onto a non-empty list adds the separator and that part. */
  lemma {:induction false} JoinSnoc(parts: seq<string>, last: string, sep: string)
    requires parts != []
    ensures Text.Join(parts + [last], sep) == Text.Join(parts, sep) + sep + last
    decreases |parts|
  {
    if |parts| > 1 {
      JoinSnoc(parts[1..], last, sep);
      assert (parts + [last])[1..] == parts[1..] + [last];
    }
  }

  /** A child's path is its parent's path, the separator and the child's own name. */
  lemma ChildPath(c: Category)
    requires c.parent.Some?
    ensures Text.Join(PathNames(c), PathSeparator) ==
            Text.Join(PathNames(c.parent.value), PathSeparator) + PathSeparator + c.name
  {
    JoinSnoc(PathNames(c.parent.value), c.name, PathSeparator);
  }

  /** A top-level category's path is its own name. */
  lemma RootPath(c: Category)
    requires c.parent.None?
    ensures Text.Join(PathNames(c), PathSeparator) == c.name
  {
  }

  /** `Category.save()`: an empty slug is filled from the name; nothing else changes. */
  function SaveCategory(c: Category, slugify: string -> string): (r: Category)
    ensures r.name == c.name && r.parent == c.parent
    ensures c.slug != "" ==> r.slug == c.slug
    ensures c.slug == "" ==> r.slug == slugify(c.name)
  {
    if c.slug == "" then c.(slug := slugify(c.name)) else c
  }

  /** Saving a category twice gives the same category as saving it once. */
  lemma SaveCategoryStable(c: Category, slugify: string -> string)
    ensures SaveCategory(SaveCategory(c, slugify), slugify) == SaveCategory(c, slugify)
  {
  }

  /**
   * Unlike `Product.save`, `Category.save` runs no collision loop: a name that `slugify`
   * turns into nothing leaves the slug empty, save after save.
   */
  lemma CategorySlugMayStayEmpty(c: Category, slugify: string -> string)
    requires c.slug == "" && slugify(c.name) == ""
    ensures SaveCategory(c, slugify).slug == ""
    ensures SaveCategory(SaveCategory(c, slugify), slugify).slug == ""
  {
  }

  /** Why a stock change was refused (the `ValueError`s of the stock methods). */
  datatype StockError = NonPositiveQuantity | InsufficientStock(available: int)

  /**
   * The slug tried after `k` collisions: the base itself, then `base-1`, `base-2`, ...
   */
  function SlugCandidate(base: string, k: nat): (r: string)
    ensures k == 0 ==> r == base
    ensures k > 0 ==> |r| > |base| + 1 && r[..|base|] == base && r[|base|] == '-'
  {
    if k == 0 then base else base + "-" + Text.NatToString(k)
  }

  /** Different collision counts give different slugs. */
  lemma SlugCandidateInjective(base: string, a: nat, b: nat)
    requires SlugCandidate(base, a) == SlugCandidate(base, b)
    ensures a == b
  {
    if a > 0 && b > 0 {
      assert Text.NatToString(a) == SlugCandidate(base, a)[|base| + 1..];
      assert Text.NatToString(b) == SlugCandidate(base, b)[|base| + 1..];
      Text.NatToStringInjective(a, b);
    }
  }

  /** The first `n` candidates. */
  function Candidates(base: string, n: nat): set<string> {
    set k | 0 <= k < n :: SlugCandidate(base, k)
  }

  /** Candidate `n` is none of the first `n`. */
  lemma CandidateIsNew(base: string, n: nat)
    ensures SlugCandidate(base, n) !in Candidates(base, n)
  {
    if SlugCandidate(base, n) in Candidates(base, n) {
      var k :| 0 <= k < n && SlugCandidate(base, k) == SlugCandidate(base, n);
      SlugCandidateInjective(base, k, n);
    }
  }

  /** The first `n` candidates are `n` distinct slugs. */
  lemma {:induction false} CandidatesCount(base: string, n: nat)
    ensures |Candidates(base, n)| == n
  {
    if n > 0 {
      CandidatesCount(base, n - 1);
      CandidateIsNew(base, n - 1);
      assert Candidates(base, n) == Candidates(base, n - 1) + {SlugCandidate(base, n - 1)};
    }
  }

  /** Taken slugs bound the number of collisions in a row. */
  lemma CollisionsBounded(base: string, n: nat, taken: set<string>)
    requires forall k :: 0 <= k < n ==> SlugCandidate(base, k) in taken
    ensures n <= |taken|
  {
    var tried := Candidates(base, n);
    CandidatesCount(base, n);
    assert tried <= taken;
    SubsetCard(tried, taken);
  }

  lemma {:induction false} SubsetCard(a: set<string>, b: set<string>)
    requires a <= b
    ensures |a| <= |b|
    decreases |a|
  {
    if a != {} {
      var x :| x in a;
      SubsetCard(a - {x}, b - {x});
    }
  }

  /** The slugs stored in the product table `table`. */
  function StoredSlugs(table: set<Product>): set<string>
    reads table
  {
    set p | p in table :: p.slug
  }

  /**
   * The slug `Product.save()` leaves behind: a set slug is kept; an empty one becomes
   * the first of `base`, `base-1`, `base-2`, ... that is not among the stored slugs.
   */
  ghost predicate SlugAfterSave(before: string, after: string, taken: set<string>, base: string) {
    (before != "" ==> after == before) &&
    (before == "" ==>
       after !in taken &&
       exists k: nat :: after == SlugCandidate(base, k) &&
         forall j :: 0 <= j < k ==> SlugCandidate(base, j) in taken)
  }

  /**
   * A product stored with an empty slug has "" among the stored slugs, so its next
   * save gives it a different, non-empty slug.
   */
  lemma EmptySlugRenamed(after: string, taken: set<string>, base: string)
    requires "" in taken && SlugAfterSave("", after, taken, base)
    ensures after != ""
  {
  }

  /** A product. Only `stock` and `slug` are ever written by the core. */
  class Product {
    const name: string
    /** Price in kopecks. */
    const price: nat
    const isAvailable: bool
    var slug: string
    var stock: int

    constructor (name: string, price: nat, isAvailable: bool, stock: int, slug: string)
      ensures this.name == name && this.price == price && this.isAvailable == isAvailable
      ensures this.stock == stock && this.slug == slug
    {
      this.name := name;
      this.price := price;
      this.isAvailable := isAvailable;
      this.stock := stock;
      this.slug := slug;
    }

    /** `in_stock`: at least one unit left. */
    function InStock(): (r: bool)
      reads this
      ensures r <==> stock >= 1
    {
      stock > 0
    }

    /**
     * `decrease_stock(quantity)`: refuses a non-positive quantity, then a quantity
     * above the stock (reporting what is available); otherwise takes it off the stock
     * and saves, which re-runs the slug rule. `taken` holds the slugs stored when
     * that save runs, this product's own stored slug among them.
     */
    method DecreaseStock(quantity: int, taken: set<string>, slugify: string -> string)
      returns (outcome: Outcome<StockError>)
      modifies this
      ensures quantity <= 0 ==> outcome == Fail(NonPositiveQuantity)
      ensures 0 < quantity && old(stock) < quantity ==> outcome == Fail(InsufficientStock(old(stock)))
      ensures outcome.Pass? <==> 0 < quantity <= old(stock)
      ensures outcome.Pass? ==> stock == old(stock) - quantity
      ensures outcome.Pass? ==> (InStock() <==> quantity < old(stock))
      ensures outcome.Pass? ==> SlugAfterSave(old(slug), slug, taken, slugify(name))
      ensures outcome.Fail? ==> stock == old(stock) && slug == old(slug)
      ensures old(stock) >= 0 ==> stock >= 0
    {
      if quantity <= 0 {
        return Fail(NonPositiveQuantity);
      }
      if stock < quantity {
        return Fail(InsufficientStock(stock));
      }
      stock := stock - quantity;
      Save(taken, slugify);
      outcome := Pass;
    }

    /**
     * `increase_stock(quantity)`: refuses a non-positive quantity, otherwise adds it
     * and saves, which re-runs the slug rule.
     */
    method IncreaseStock(quantity: int, taken: set<string>, slugify: string -> string)
      returns (outcome: Outcome<StockError>)
      modifies this
      ensures quantity <= 0 ==> outcome == Fail(NonPositiveQuantity) && stock == old(stock) && slug == old(slug)
      ensures quantity > 0 ==> outcome == Pass && stock == old(stock) + quantity
      ensures quantity > 0 ==> SlugAfterSave(old(slug), slug, taken, slugify(name))
      ensures quantity > 0 && old(stock) >= 0 ==> InStock()
      ensures old(stock) >= 0 ==> stock >= 0
    {
      if quantity <= 0 {
        return Fail(NonPositiveQuantity);
      }
      stock := stock + quantity;
      Save(taken, slugify);
      outcome := Pass;
    }

    /**
     * `Product.save()`: a product without a slug gets `slugify(name)`, or when that is
     * taken the first of `base-1`, `base-2`, ... that no stored product uses. `taken`
     * is the set of slugs already stored.
     */
    method Save(taken: set<string>, slugify: string -> string)
      modifies this
      ensures stock == old(stock)
      ensures SlugAfterSave(old(slug), slug, taken, slugify(name))
    {
      if slug == "" {
        var base := slugify(name);
        slug := base;
        var counter: nat := 1;
        while slug in taken
          invariant counter >= 1 && stock == old(stock)
          invariant slug == SlugCandidate(base, counter - 1)
          invariant forall j :: 0 <= j < counter - 1 ==> SlugCandidate(base, j) in taken
          invariant counter - 1 <= |taken|
          decreases |taken| - (counter - 1)
        {
          CollisionsBounded(base, counter, taken);
          slug := base + "-" + Text.NatToString(counter);
          counter := counter + 1;
        }
      }
    }
  }
}
