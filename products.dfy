/** Products (src/models/product.rs): a `products` row plus the
    `product_categories` links that file it under categories. As for
    discounts, the multi-statement operations are not transactional. */
module Products {
  import opened Base
  import opened Text
  import opened Links
  import opened Store
  import opened Paging

  /** The fields a client sends to add or update a product. */
  datatype ProductRequest = ProductRequest(name: string, imageUrl: string, brandId: I32, categories: seq<I32>)

  /** A category as a product read reports it. */
  datatype Category = Category(categoryId: int, name: string)

  /** What a read returns for a product (`created_at` left out). */
  datatype Product = Product(productId: int, name: string, imageUrl: string, brandId: I32,
                             brandName: string, categories: seq<Category>)

  /** The row `add_product` inserts. */
  function NewProductRow(req: ProductRequest): ProductRow
  {
    ProductRow(req.name, req.imageUrl, req.brandId, false)
  }

  /** `add_product`: insert the product (statement 0), then one category link
      per entry of `categories`, in order (statements 1 .. n). `fault` names
      the first statement that fails; the statements before it stay applied. */
  method AddProduct(db: Database, req: ProductRequest, fault: Option<nat>) returns (r: Outcome<Unit>)
    requires db.Valid()
    modifies db`products, db`categoryLinks, db`productSerial
    ensures db.Valid()
    ensures var inserted := !Fails(fault, 0) && old(db.productSerial) < MaxI32;
            (r.Ok? <==> inserted && Completed(fault, 1, |req.categories|) == |req.categories|) &&
            (inserted ==>
               var id := old(db.productSerial) + 1;
               db.productSerial == id && id !in old(db.products) &&
               db.products == old(db.products)[id := NewProductRow(req)] &&
               db.categoryLinks == old(db.categoryLinks) +
                                   Fresh(id, req.categories[..Completed(fault, 1, |req.categories|)])) &&
            (!inserted ==>
               db.products == old(db.products) && db.categoryLinks == old(db.categoryLinks) &&
               db.productSerial == old(db.productSerial))
  {
    if Fails(fault, 0) || db.productSerial >= MaxI32 {
      return Err;
    }
    db.productSerial := db.productSerial + 1;
    var id := db.productSerial;
    db.products := db.products[id := NewProductRow(req)];
    var links, ok := InsertLinks(db.categoryLinks, id, req.categories, fault, 1);
    db.categoryLinks := links;
    r := if ok then Ok(Unit) else Err;
  }

  /** `update_product`'s first statement: overwrite name, image and brand of
      row `id`, with no `deleted_at` condition. */
  function Renamed(products: map<int, ProductRow>, id: int, req: ProductRequest): map<int, ProductRow>
  {
    if id in products then
      products[id := products[id].(name := req.name, imageUrl := req.imageUrl, brandId := req.brandId)]
    else products
  }

  /** The files `update_product` tries to remove once the rows are written:
      none when the image is unchanged, otherwise the old image and its
      `_original` companion. */
  function Cleanup(oldImageUrl: string, newImageUrl: string): (files: seq<string>)
    ensures files == [] <==> oldImageUrl == newImageUrl
    ensures files != [] ==> files == [oldImageUrl, OriginalName(oldImageUrl)]
  {
    if oldImageUrl != newImageUrl then [oldImageUrl, OriginalName(oldImageUrl)] else []
  }

  /** `update_product`: overwrite the row (statement 0), delete all its
      category links (statement 1), insert one link per entry of
      `categories` (statements 2 .. n + 1), then, when the image changed,
      try to remove the old files. `removals` lists the files it tries to
      remove; a failed removal is only logged, so it never changes `r`. */
  method UpdateProduct(db: Database, id: int, oldImageUrl: string, req: ProductRequest, fault: Option<nat>)
    returns (r: Outcome<Unit>, removals: seq<string>)
    requires db.Valid()
    modifies db`products, db`categoryLinks
    ensures db.Valid()
    ensures r.Ok? <==> Completed(fault, 0, |req.categories| + 2) == |req.categories| + 2
    ensures db.products == if Fails(fault, 0) then old(db.products) else Renamed(old(db.products), id, req)
    ensures db.categoryLinks ==
              if Fails(fault, 0) || Fails(fault, 1) then old(db.categoryLinks)
              else Without(old(db.categoryLinks), id) + Fresh(id, req.categories[..Completed(fault, 2, |req.categories|)])
    ensures r.Ok? ==> db.categoryLinks == Replace(old(db.categoryLinks), id, req.categories)
    ensures removals == if r.Ok? then Cleanup(oldImageUrl, req.imageUrl) else []
  {
    removals := [];
    if Fails(fault, 0) {
      return Err, removals;
    }
    db.products := Renamed(db.products, id, req);
    if Fails(fault, 1) {
      return Err, removals;
    }
    db.categoryLinks := Without(db.categoryLinks, id);
    var links, ok := InsertLinks(db.categoryLinks, id, req.categories, fault, 2);
    db.categoryLinks := links;
    if !ok {
      return Err, removals;
    }
    assert req.categories[..|req.categories|] == req.categories;
    if oldImageUrl != req.imageUrl {
      removals := [oldImageUrl, OriginalName(oldImageUrl)];
    }
    r := Ok(Unit);
  }

  /** `delete_product`: set the deleted marker only; the category links stay. */
  method DeleteProduct(db: Database, id: int, fails: bool) returns (r: Outcome<Unit>)
    requires db.Valid()
    modifies db`products
    ensures db.Valid()
    ensures r.Ok? <==> !fails
    ensures db.products ==
              if fails || id !in old(db.products) then old(db.products)
              else old(db.products)[id := old(db.products)[id].(deleted := true)]
  {
    if fails {
      return Err;
    }
    if id in db.products {
      db.products := db.products[id := db.products[id].(deleted := true)];
    }
    r := Ok(Unit);
  }

  /** The members of `ids` that are stored categories, in order. */
  function Stored(ids: seq<int>, categories: map<int, string>): (out: seq<int>)
    ensures forall c :: c in out <==> c in ids && c in categories
  {
    if ids == [] then []
    else if ids[0] in categories then [ids[0]] + Stored(ids[1..], categories)
    else Stored(ids[1..], categories)
  }

  /** The category ids of a list of categories. */
  function CategoryIds(cs: seq<Category>): (ids: seq<int>)
    ensures |ids| == |cs|
    ensures forall i :: 0 <= i < |cs| ==> ids[i] == cs[i].categoryId
  {
    if cs == [] then [] else [cs[0].categoryId] + CategoryIds(cs[1..])
  }

  /** The categories of product `id`: its links, in table order, joined with
      the categories table. Every link of the product to a stored category
      gives one entry, in link order, and nothing else does. */
  function LinkedCategories(links: seq<Link>, categories: map<int, string>, id: int): (cs: seq<Category>)
    ensures |cs| <= |links|
    ensures forall i :: 0 <= i < |cs| ==>
              cs[i].categoryId in categories && cs[i].name == categories[cs[i].categoryId] &&
              cs[i].categoryId in OwnedBy(links, id)
    ensures CategoryIds(cs) == Stored(OwnedBy(links, id), categories)
  {
    if links == [] then []
    else
      var rest := LinkedCategories(links[1..], categories, id);
      var c := links[0].member;
      if links[0].owner == id && c in categories then [Category(c, categories[c])] + rest else rest
  }

  /** `get_product_by_id`: the product joined with its brand, unless it is
      missing or soft-deleted (or its brand row is gone) or the query fails
      (`queryFails`); a failed category query (`linkQueryFails`) gives no
      categories, not a missing product. */
  function GetProductById(products: map<int, ProductRow>, brands: map<int, string>, links: seq<Link>,
                          categories: map<int, string>, id: int, queryFails: bool, linkQueryFails: bool)
    : (p: Option<Product>)
    ensures p.Some? <==> !queryFails && id in products && !products[id].deleted && products[id].brandId in brands
    ensures p.Some? ==>
              p.value.productId == id && p.value.name == products[id].name &&
              p.value.imageUrl == products[id].imageUrl && p.value.brandId == products[id].brandId &&
              p.value.brandName == brands[products[id].brandId]
    ensures p.Some? ==>
              p.value.categories == if linkQueryFails then [] else LinkedCategories(links, categories, id)
  {
    if !queryFails && id in products && !products[id].deleted && products[id].brandId in brands then
      var row := products[id];
      Some(Product(id, row.name, row.imageUrl, row.brandId, brands[row.brandId],
                   if linkQueryFails then [] else LinkedCategories(links, categories, id)))
    else None
  }

  /** A link of product `id` to a stored category, the given one if any. */
  predicate Filed(links: seq<Link>, categories: map<int, string>, id: int, categoryId: Option<nat>)
  {
    exists i :: 0 <= i < |links| && links[i].owner == id && links[i].member in categories &&
                (categoryId.None? || links[i].member == categoryId.value)
  }

  /** The products `get_products` lists: live, with a stored brand (the
      requested one, if any), and filed under at least one stored category
      (the requested one, if any). The inner join with the links drops a
      product without categories. */
  predicate Shown(products: map<int, ProductRow>, brands: map<int, string>, links: seq<Link>,
                  categories: map<int, string>, categoryId: Option<nat>, brandId: Option<nat>, id: int)
  {
    id in products && !products[id].deleted && products[id].brandId in brands &&
    (brandId.None? || products[id].brandId == brandId.value) &&
    Filed(links, categories, id, categoryId)
  }

  /** The ids of the shown products. */
  function ShownIds(products: map<int, ProductRow>, brands: map<int, string>, links: seq<Link>,
                    categories: map<int, string>, categoryId: Option<nat>, brandId: Option<nat>): (ids: set<int>)
    ensures forall id :: id in ids <==> Shown(products, brands, links, categories, categoryId, brandId, id)
  {
    set id | id in products && Shown(products, brands, links, categories, categoryId, brandId, id)
  }

  /** The row loop of `get_products`: one product per id, built from its
      row, its brand's name and its categories, as the by-id read shows it. */
  method ProductRows(products: map<int, ProductRow>, brands: map<int, string>, links: seq<Link>,
                     categories: map<int, string>, ids: seq<int>)
    returns (data: seq<Product>)
    requires forall k :: 0 <= k < |ids| ==>
               ids[k] in products && !products[ids[k]].deleted && products[ids[k]].brandId in brands
    ensures |data| == |ids|
    ensures forall k :: 0 <= k < |ids| ==>
              data[k].productId == ids[k] &&
              Some(data[k]) == GetProductById(products, brands, links, categories, ids[k], false, false)
  {
    data := [];
    var i := 0;
    while i < |ids|
      invariant 0 <= i <= |ids| && |data| == i
      invariant forall k :: 0 <= k < i ==>
                  data[k].productId == ids[k] &&
                  Some(data[k]) == GetProductById(products, brands, links, categories, ids[k], false, false)
    {
      var row := products[ids[i]];
      var cats := LinkedCategories(links, categories, ids[i]);
      data := data + [Product(ids[i], row.name, row.imageUrl, row.brandId, brands[row.brandId], cats)];
      i := i + 1;
    }
  }

  /** `get_products`: the shown products, each with all its categories, and
      the paging fields. `fails` stands for a query that fails, the category
      query of any row included. */
  method GetProducts(products: map<int, ProductRow>, serial: nat, brands: map<int, string>, links: seq<Link>,
                     categories: map<int, string>, categoryId: Option<nat>, brandId: Option<nat>, role: string,
                     page: Option<nat>, perPage: Option<nat>, fails: bool)
    returns (r: Outcome<Paged<Product>>, order: SortKey)
    requires IdsValid(products, serial)
    ensures order == RoleOrder(role)
    ensures r.Ok? <==> !fails
    ensures r.Ok? ==>
              var data := r.value.data;
              (forall i :: 0 <= i < |data| ==>
                 Shown(products, brands, links, categories, categoryId, brandId, data[i].productId) &&
                 Some(data[i]) == GetProductById(products, brands, links, categories, data[i].productId, false, false)) &&
              (forall id :: Shown(products, brands, links, categories, categoryId, brandId, id) ==>
                 exists i :: 0 <= i < |data| && data[i].productId == id) &&
              (forall i, j :: 0 <= i < j < |data| ==> data[i].productId != data[j].productId) &&
              PagedFor(r.value, page, perPage)
  {
    order := RoleOrder(role);
    if fails {
      return Err, order;
    }
    var ids := ScanIds(ShownIds(products, brands, links, categories, categoryId, brandId), serial);
    forall k | 0 <= k < |ids| ensures Shown(products, brands, links, categories, categoryId, brandId, ids[k]) {
      assert ids[k] in ids;
    }
    var data := ProductRows(products, brands, links, categories, ids);
    forall id | Shown(products, brands, links, categories, categoryId, brandId, id)
      ensures exists k :: 0 <= k < |data| && data[k].productId == id
    {
      assert id in ids;
      var k :| 0 <= k < |ids| && ids[k] == id;
    }
    r := Ok(PagedResult(data, page, perPage));
  }

  // ---------------------------------------------------------------------------
  // What the reads see after a write

  /** After an update that succeeds, the product's category links are exactly
      `categories`, in order, and every other product's are as before; a
      read of a live product shows the new name, image and brand, and the
      requested categories that are stored, in request order. */
  lemma UpdatedProductReads(products: map<int, ProductRow>, brands: map<int, string>, links: seq<Link>,
                            categories: map<int, string>, id: int, req: ProductRequest, other: int)
    requires other != id
    requires id in products && !products[id].deleted && req.brandId in brands
    ensures OwnedBy(Replace(links, id, req.categories), id) == req.categories
    ensures OwnedBy(Replace(links, id, req.categories), other) == OwnedBy(links, other)
    ensures var p := GetProductById(Renamed(products, id, req), brands, Replace(links, id, req.categories),
                                    categories, id, false, false);
            p.Some? && p.value.name == req.name && p.value.imageUrl == req.imageUrl &&
            p.value.brandId == req.brandId && p.value.brandName == brands[req.brandId] &&
            CategoryIds(p.value.categories) == Stored(req.categories, categories)
  {
    ReplaceExact(links, id, req.categories, id);
    ReplaceExact(links, id, req.categories, other);
  }

  /** After a delete the product is no longer found or listed, while its
      category links are kept. */
  lemma DeletedProductHidden(products: map<int, ProductRow>, brands: map<int, string>, links: seq<Link>,
                             categories: map<int, string>, id: int, queryFails: bool, linkQueryFails: bool,
                             categoryId: Option<nat>, brandId: Option<nat>)
    requires id in products
    ensures var after := products[id := products[id].(deleted := true)];
            GetProductById(after, brands, links, categories, id, queryFails, linkQueryFails) == None &&
            !Shown(after, brands, links, categories, categoryId, brandId, id)
  {
  }

  // ---------------------------------------------------------------------------
  // The `_original` file name: `Path::file_stem` and `Path::extension` of the
  // old image path, formatted as "{stem}_original.{extension}".

  /** The components `Path::components` reports as names: the pieces between
      slashes, without the empty pieces and the "." pieces (a leading "."
      is the current directory, which is not a name either). */
  function Names(pieces: seq<string>): (ns: seq<string>)
    ensures forall i :: 0 <= i < |ns| ==> ns[i] != "" && ns[i] != "." && ns[i] in pieces
  {
    if pieces == [] then []
    else
      var rest := Names(pieces[1..]);
      if pieces[0] == "" || pieces[0] == "." then rest else [pieces[0]] + rest
  }

  /** `Path::file_name`: the last component, when it is a name and not "..". */
  function FileName(path: string): (f: Option<string>)
    ensures f.Some? ==> f.value != "" && Lacks(f.value, '/')
  {
    var ns := Names(Split(path, '/'));
    if ns == [] || ns[|ns| - 1] == ".." then None else Some(ns[|ns| - 1])
  }

  /** Position of the last `c` in `s`. */
  function LastIndex(s: string, c: char): (k: Option<nat>)
    ensures k.Some? ==> k.value < |s| && s[k.value] == c && forall i :: k.value < i < |s| ==> s[i] != c
    ensures k.None? ==> forall i :: 0 <= i < |s| ==> s[i] != c
  {
    if s == [] then None
    else if s[|s| - 1] == c then Some(|s| - 1)
    else LastIndex(s[..|s| - 1], c)
  }

  /** `rsplit_file_at_dot`: the part before the last dot and the part after
      it. ".." and a name whose only dot is its first character have no
      extension; a name without a dot is all "after". */
  function SplitAtDot(name: string): (parts: (Option<string>, Option<string>))
    requires Lacks(name, '/')
    ensures parts.0.Some? ==> Lacks(parts.0.value, '/')
    ensures parts.1.Some? ==> Lacks(parts.1.value, '/')
  {
    if name == ".." then (Some(name), None)
    else
      match LastIndex(name, '.')
      case None => (None, Some(name))
      case Some(k) => if k == 0 then (Some(name), None) else (Some(name[..k]), Some(name[k + 1..]))
  }

  /** `Path::file_stem`: `before.or(after)`. */
  function FileStem(path: string): (stem: Option<string>)
    ensures stem.Some? ==> Lacks(stem.value, '/')
  {
    match FileName(path)
    case None => None
    case Some(name) =>
      var (before, after) := SplitAtDot(name);
      if before.Some? then before else after
  }

  /** `Path::extension`: `before.and(after)`. */
  function Extension(path: string): (ext: Option<string>)
    ensures ext.Some? ==> Lacks(ext.value, '/')
  {
    match FileName(path)
    case None => None
    case Some(name) =>
      var (before, after) := SplitAtDot(name);
      if before.Some? then after else None
  }

  /** `format!("{stem}_original.{extension}")`, a missing part being "".
      Both parts come from the last path component, so the name never
      holds a directory, whatever the path. */
  function OriginalName(path: string): (n: string)
    ensures Lacks(n, '/')
  {
    var stem := if FileStem(path).Some? then FileStem(path).value else "";
    var ext := if Extension(path).Some? then Extension(path).value else "";
    stem + "_original." + ext
  }

  lemma {:induction false} NamesAppend(ps: seq<string>, n: string)
    requires n != "" && n != "."
    ensures Names(ps + [n]) == Names(ps) + [n]
  {
    if ps == [] {
      assert ps + [n] == [n];
      assert [n][1..] == [];
    } else {
      assert (ps + [n])[1..] == ps[1..] + [n];
      NamesAppend(ps[1..], n);
    }
  }

  /** The last dot of "{a}.{e}", `e` having none, is the one after `a`. */
  lemma {:induction false} LastDot(a: string, e: string)
    requires Lacks(e, '.')
    ensures LastIndex(a + "." + e, '.') == Some(|a|)
  {
    var name := a + "." + e;
    if e != [] {
      assert name[|name| - 1] == e[|e| - 1];
      assert name[..|name| - 1] == a + "." + e[..|e| - 1];
      LastDot(a, e[..|e| - 1]);
    }
  }

  /** A name after the last slash is the path's file name. */
  lemma LastComponent(dir: string, name: string)
    requires name != "" && name != "." && name != ".." && Lacks(name, '/')
    ensures FileName(dir + "/" + name) == Some(name)
  {
    assert dir + "/" + name == dir + ['/'] + name;
    SplitAround(dir, name, '/');
    SplitNoSep(name, '/');
    NamesAppend(Split(dir, '/'), name);
  }

  /** The name is taken from the last path component only: for an image
      stored as "{dir}/{stem}.{ext}", the `_original` name is
      "{stem}_original.{ext}", without the directory. */
  lemma OriginalNameDropsDirectory(dir: string, stem: string, ext: string)
    requires stem != "" && stem != "." && Lacks(stem, '/')
    requires Lacks(ext, '/') && Lacks(ext, '.')
    ensures OriginalName(dir + "/" + stem + "." + ext) == stem + "_original." + ext
  {
    var name := stem + "." + ext;
    assert dir + "/" + stem + "." + ext == dir + "/" + name;
    assert Lacks(name, '/') by {
      forall i | 0 <= i < |name| ensures name[i] != '/' {
        if i < |stem| { assert name[i] == stem[i]; }
        else if i > |stem| { assert name[i] == ext[i - |stem| - 1]; }
      }
    }
    assert |name| > 2 || name[0] != '.';
    LastComponent(dir, name);
    LastDot(stem, ext);
    assert name[..|stem|] == stem && name[|stem| + 1..] == ext;
  }

  /** A last component without a dot is all stem: "{name}_original.". */
  lemma OriginalNameNoExtension(dir: string, name: string)
    requires name != "" && name != "." && name != ".." && Lacks(name, '/') && Lacks(name, '.')
    ensures OriginalName(dir + "/" + name) == name + "_original."
  {
    LastComponent(dir, name);
  }

  /** A path without a file name (empty, the root, "..") gives "_original.". */
  lemma OriginalNameOfNothing()
    ensures OriginalName("") == "_original."
    ensures OriginalName("/") == "_original."
  {
    assert Split("", '/') == [""];
    assert Split("/", '/') == ["", ""] by {
      assert "/"[1..] == "";
    }
  }
}
