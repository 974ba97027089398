/**
 * The service-entry form (components/ServiceModal.tsx): the category list and
 * the filtered catalog shown in the catalog tab, the form state with its two
 * effects (area from width and length, subtotal from area and prices), and
 * the select, close and submit handlers.
 *
 * The three number inputs (width, length, quantity) are held as what
 * `parseFloat` reads from them: `None` stands for text that reads as NaN,
 * the empty text included.
 */
module ServiceModal {
  import opened Types
  import opened JsText
  import JsSet
  import Catalog

  // ---------------------------------------------------------------- catalog tab

  /** `Array.from(new Set(currentCatalog.map(item => item.category)))`. */
  function Categories(catalog: seq<Catalog.CatalogItem>): seq<string>
  {
    JsSet.Dedup(CategoryColumn(catalog))
  }

  function CategoryColumn(catalog: seq<Catalog.CatalogItem>): (cs: seq<string>)
    ensures |cs| == |catalog|
    ensures forall i | 0 <= i < |catalog| :: cs[i] == catalog[i].category
  {
    seq(|catalog|, i requires 0 <= i < |catalog| => catalog[i].category)
  }

  /** The category list holds every category of the catalog once, in order of first appearance. */
  lemma CategoriesSpec(catalog: seq<Catalog.CatalogItem>)
    ensures forall c :: c in Categories(catalog) <==> exists i | 0 <= i < |catalog| :: catalog[i].category == c
    ensures JsSet.Distinct(Categories(catalog))
    ensures forall i, j | 0 <= i < j < |Categories(catalog)| ::
      Categories(catalog)[i] in CategoryColumn(catalog) && Categories(catalog)[j] in CategoryColumn(catalog) &&
      JsSet.FirstIndex(CategoryColumn(catalog), Categories(catalog)[i]) < JsSet.FirstIndex(CategoryColumn(catalog), Categories(catalog)[j])
  {
    var column := CategoryColumn(catalog);
    JsSet.DedupMembers(column);
    forall c ensures c in Categories(catalog) <==> exists i | 0 <= i < |catalog| :: catalog[i].category == c {
      if c in column {
        var i :| 0 <= i < |column| && column[i] == c;
        assert catalog[i].category == c;
      }
    }
    forall i, j | 0 <= i < j < |Categories(catalog)|
      ensures Categories(catalog)[i] in column && Categories(catalog)[j] in column
      ensures JsSet.FirstIndex(column, Categories(catalog)[i]) < JsSet.FirstIndex(column, Categories(catalog)[j])
    {
      JsSet.DedupOrder(column, i, j);
    }
  }

  /** The number shown under a category tile: entries of the static catalog in it. */
  function CategoryCount(catalog: seq<Catalog.CatalogItem>, category: string): nat
  {
    if |catalog| == 0 then 0
    else CategoryCount(catalog[..|catalog| - 1], category) + (if catalog[|catalog| - 1].category == category then 1 else 0)
  }

  /**
   * The tile count is taken from the static catalog while the tiles come from
   * the merged one; the two agree, because price overrides keep categories.
   */
  lemma {:induction false} CategoryCountUnaffected(catalog: seq<Catalog.CatalogItem>, overrides: map<string, real>, category: string)
    ensures var merged := seq(|catalog|, i requires 0 <= i < |catalog| => Catalog.ApplyOverride(catalog[i], overrides));
      CategoryCount(merged, category) == CategoryCount(catalog, category)
  {
    var merged := seq(|catalog|, i requires 0 <= i < |catalog| => Catalog.ApplyOverride(catalog[i], overrides));
    if |catalog| > 0 {
      var n := |catalog|;
      CategoryCountUnaffected(catalog[..n - 1], overrides, category);
      assert merged[..n - 1] == seq(n - 1, i requires 0 <= i < n - 1 => Catalog.ApplyOverride(catalog[..n - 1][i], overrides));
      assert merged[n - 1].category == catalog[n - 1].category;
    }
  }

  /** The catalog filter: the search text matches, and the category does when one is selected. */
  predicate Matches(item: Catalog.CatalogItem, query: string, selected: Option<string>)
  {
    && (Contains(ToLower(item.description), ToLower(query)) || Contains(item.code, query))
    && (selected.None? || selected.value == "" || item.category == selected.value)
  }

  /** `filteredCatalog`. */
  function FilteredCatalog(catalog: seq<Catalog.CatalogItem>, query: string, selected: Option<string>): seq<Catalog.CatalogItem>
  {
    if |catalog| == 0 then []
    else
      var last := catalog[|catalog| - 1];
      FilteredCatalog(catalog[..|catalog| - 1], query, selected) + (if Matches(last, query, selected) then [last] else [])
  }

  /** Positions of the entries the filter keeps, in increasing order. */
  function KeptIndices(catalog: seq<Catalog.CatalogItem>, query: string, selected: Option<string>): seq<nat>
  {
    if |catalog| == 0 then []
    else
      var n := |catalog| - 1;
      KeptIndices(catalog[..n], query, selected) + (if Matches(catalog[n], query, selected) then [n] else [])
  }

  /**
   * The filtered list is the subsequence of the catalog at the kept
   * positions, which rise strictly and are exactly the positions whose entry
   * matches.
   */
  lemma FilteredIsSubsequence(catalog: seq<Catalog.CatalogItem>, query: string, selected: Option<string>)
    ensures |FilteredCatalog(catalog, query, selected)| == |KeptIndices(catalog, query, selected)|
    ensures forall k | 0 <= k < |KeptIndices(catalog, query, selected)| ::
      KeptIndices(catalog, query, selected)[k] < |catalog| &&
      FilteredCatalog(catalog, query, selected)[k] == catalog[KeptIndices(catalog, query, selected)[k]]
    ensures forall k, l | 0 <= k < l < |KeptIndices(catalog, query, selected)| ::
      KeptIndices(catalog, query, selected)[k] < KeptIndices(catalog, query, selected)[l]
    ensures forall i | 0 <= i < |catalog| :: i in KeptIndices(catalog, query, selected) <==> Matches(catalog[i], query, selected)
  {
    KeptIndicesRise(catalog, query, selected);
    KeptIndicesMatch(catalog, query, selected);
    FilteredAtKept(catalog, query, selected);
  }

  /** The kept positions lie in the catalog and rise strictly. */
  lemma {:induction false} KeptIndicesRise(catalog: seq<Catalog.CatalogItem>, query: string, selected: Option<string>)
    ensures forall k | 0 <= k < |KeptIndices(catalog, query, selected)| ::
      KeptIndices(catalog, query, selected)[k] < |catalog|
    ensures forall k, l | 0 <= k < l < |KeptIndices(catalog, query, selected)| ::
      KeptIndices(catalog, query, selected)[k] < KeptIndices(catalog, query, selected)[l]
  {
    if |catalog| > 0 {
      var n := |catalog| - 1;
      KeptIndicesRise(catalog[..n], query, selected);
    }
  }

  /** The kept positions are exactly those whose entry matches. */
  lemma {:induction false} KeptIndicesMatch(catalog: seq<Catalog.CatalogItem>, query: string, selected: Option<string>)
    ensures forall i | 0 <= i < |catalog| :: i in KeptIndices(catalog, query, selected) <==> Matches(catalog[i], query, selected)
  {
    if |catalog| > 0 {
      var n := |catalog| - 1;
      var init := catalog[..n];
      KeptIndicesMatch(init, query, selected);
      KeptIndicesRise(init, query, selected);
      var idx0 := KeptIndices(init, query, selected);
      var idx := KeptIndices(catalog, query, selected);
      forall i | 0 <= i < |catalog| ensures i in idx <==> Matches(catalog[i], query, selected) {
        if i < n {
          assert catalog[i] == init[i];
        }
      }
    }
  }

  /** The filtered list holds the entries at the kept positions, in order. */
  lemma {:induction false} FilteredAtKept(catalog: seq<Catalog.CatalogItem>, query: string, selected: Option<string>)
    ensures |FilteredCatalog(catalog, query, selected)| == |KeptIndices(catalog, query, selected)|
    ensures forall k | 0 <= k < |KeptIndices(catalog, query, selected)| ::
      KeptIndices(catalog, query, selected)[k] < |catalog| &&
      FilteredCatalog(catalog, query, selected)[k] == catalog[KeptIndices(catalog, query, selected)[k]]
  {
    if |catalog| > 0 {
      var n := |catalog| - 1;
      var init := catalog[..n];
      FilteredAtKept(init, query, selected);
      var f0, idx0 := FilteredCatalog(init, query, selected), KeptIndices(init, query, selected);
      var f, idx := FilteredCatalog(catalog, query, selected), KeptIndices(catalog, query, selected);
      forall k | 0 <= k < |idx0| ensures idx[k] < |catalog| && f[k] == catalog[idx[k]] {
        assert idx[k] == idx0[k] && f[k] == f0[k] && catalog[idx0[k]] == init[idx0[k]];
      }
    }
  }

  /** With no search text and no category, every entry is listed. */
  lemma {:induction false} EmptyFilterKeepsAll(catalog: seq<Catalog.CatalogItem>)
    ensures FilteredCatalog(catalog, "", None) == catalog
  {
    if |catalog| > 0 {
      var n := |catalog| - 1;
      EmptyFilterKeepsAll(catalog[..n]);
      assert OccursAt(ToLower(catalog[n].description), ToLower(""), 0);
      assert catalog[..n] + [catalog[n]] == catalog;
    }
  }

  // ---------------------------------------------------------------- numbers

  /** `Number(x.toFixed(2))`: rounded to two decimals, halves away from zero. */
  function Round2(x: real): real
  {
    if x >= 0.0 then RoundHalfUp2(x) else -RoundHalfUp2(-x)
  }

  function RoundHalfUp2(x: real): real
  {
    ((x * 100.0 + 0.5).Floor as real) / 100.0
  }

  /** Rounding to two decimals moves a value by at most half a cent. */
  lemma Round2Close(x: real)
    ensures -0.005 <= Round2(x) - x <= 0.005
  {
    var y := if x >= 0.0 then x else -x;
    var f := (y * 100.0 + 0.5).Floor as real;
    assert f <= y * 100.0 + 0.5 < f + 1.0;
    assert RoundHalfUp2(y) == f / 100.0;
  }

  /** `parseFloat(area) || 0`: NaN and zero both count as zero. */
  function NumericArea(area: Option<real>): real
  {
    if area.Some? then area.value else 0.0
  }

  /** What the area effect writes: the product of width and length, rounded. */
  function CalculatedArea(width: real, length: real): real
  {
    Round2(width * length)
  }

  /** What the subtotal effect writes: unit material plus unit labour, times the quantity. */
  function Subtotal(materialPrice: real, laborPrice: real, area: Option<real>): real
  {
    (materialPrice + laborPrice) * NumericArea(area)
  }

  /** The price split of a catalog entry: 60% material, 40% labour, each rounded. */
  function MaterialShare(price: real): real { Round2(price * 0.6) }
  function LaborShare(price: real): real { Round2(price * 0.4) }

  /** The two shares add up to the catalog price to within one cent. */
  lemma ShareSplit(price: real)
    ensures -0.01 <= MaterialShare(price) + LaborShare(price) - price <= 0.01
  {
    Round2Close(price * 0.6);
    Round2Close(price * 0.4);
  }

  // ---------------------------------------------------------------- the new item

  /** `description`, followed by ` (Ref: brand model)` when a brand or a model is given. */
  function SubmittedName(description: string, brand: string, model: string): string
  {
    if brand != "" || model != "" then description + " (Ref: " + brand + " " + model + ")" else description
  }

  /** The name is the bare description exactly when there is neither brand nor model; otherwise it extends it. */
  lemma SubmittedNameSpec(description: string, brand: string, model: string)
    ensures var name := SubmittedName(description, brand, model);
      && |name| >= |description| && name[..|description|] == description
      && (name == description <==> brand == "" && model == "")
      && (name != description ==> name[|description|..] == " (Ref: " + brand + " " + model + ")")
  {
    var name := SubmittedName(description, brand, model);
    if brand != "" || model != "" {
      assert name == description + (" (Ref: " + brand + " " + model + ")");
    }
  }

  const OtherCategory := "Outros"
  const DefaultSource := "CDHU"
  const DefaultUnit := "m²"

  datatype Tab = CatalogTab | ManualTab

  /** Which free-text detail of the manual tab an input edits. */
  datatype Detail = Environment | Brand | Model

  // ---------------------------------------------------------------- the form

  class Form {
    var tab: Tab
    var selectedCategory: Option<string>
    var searchQuery: string
    var description: string
    var detailedSpec: string
    var memorialDef: Option<MemorialDef>
    var width: Option<real>
    var length: Option<real>
    var area: Option<real>
    var environment: string
    var brand: string
    var model: string
    var code: string
    var source: string
    var category: string
    var unit: string
    var materialPrice: real
    var laborPrice: real
    var subtotal: real

    /** The subtotal effect has run for the current area and prices. */
    predicate Valid()
      reads this
    {
      subtotal == Subtotal(materialPrice, laborPrice, area)
    }

    /**
     * The fields `handleClose` puts back. Source and unit are not among
     * them: they keep whatever they held.
     */
    predicate Cleared()
      reads this
    {
      InputsCleared() && SelectionCleared()
    }

    /** Navigation, calculator and free-text inputs are back to their initial values. */
    predicate InputsCleared()
      reads this
    {
      && tab == CatalogTab && selectedCategory.None? && searchQuery == ""
      && width.None? && length.None? && area.None?
      && environment == "" && brand == "" && model == ""
    }

    /** No catalog entry is selected any more. */
    predicate SelectionCleared()
      reads this
    {
      && description == "" && detailedSpec == "" && memorialDef.None?
      && code == "" && category == "" && materialPrice == 0.0 && laborPrice == 0.0
    }

    constructor()
      ensures Cleared() && Valid()
      ensures source == DefaultSource && unit == DefaultUnit && subtotal == 0.0
    {
      tab, selectedCategory, searchQuery := CatalogTab, None, "";
      description, detailedSpec, memorialDef := "", "", None;
      width, length, area := None, None, None;
      environment, brand, model := "", "", "";
      code, source, category, unit := "", DefaultSource, "", DefaultUnit;
      materialPrice, laborPrice, subtotal := 0.0, 0.0, 0.0;
    }

    /** The effect on `[width, length]`: the area becomes their product, rounded, when both are positive. */
    method AreaEffect()
      modifies this`area
      ensures width.Some? && length.Some? && width.value > 0.0 && length.value > 0.0 ==>
        area == Some(CalculatedArea(width.value, length.value))
      ensures !(width.Some? && length.Some? && width.value > 0.0 && length.value > 0.0) ==> area == old(area)
    {
      if width.Some? && length.Some? && width.value > 0.0 && length.value > 0.0 {
        area := Some(CalculatedArea(width.value, length.value));
      }
    }

    /** The effect on `[area, materialPrice, laborPrice]`. */
    method SubtotalEffect()
      modifies this`subtotal
      ensures Valid()
    {
      subtotal := Subtotal(materialPrice, laborPrice, area);
    }

    /** Typing a width; the area and then the subtotal effects follow. */
    method SetWidth(w: Option<real>)
      modifies this`width, this`area, this`subtotal
      ensures width == w && Valid()
      ensures length.Some? && w.Some? && w.value > 0.0 && length.value > 0.0 ==> area == Some(CalculatedArea(w.value, length.value))
      ensures !(length.Some? && w.Some? && w.value > 0.0 && length.value > 0.0) ==> area == old(area)
    {
      width := w;
      AreaEffect();
      SubtotalEffect();
    }

    /** Typing a length; the area and then the subtotal effects follow. */
    method SetLength(l: Option<real>)
      modifies this`length, this`area, this`subtotal
      ensures length == l && Valid()
      ensures width.Some? && l.Some? && width.value > 0.0 && l.value > 0.0 ==> area == Some(CalculatedArea(width.value, l.value))
      ensures !(width.Some? && l.Some? && width.value > 0.0 && l.value > 0.0) ==> area == old(area)
    {
      length := l;
      AreaEffect();
      SubtotalEffect();
    }

    /** Typing the quantity directly; only the subtotal effect follows. */
    method SetArea(a: Option<real>)
      modifies this`area, this`subtotal
      ensures area == a && Valid()
    {
      area := a;
      SubtotalEffect();
    }

    /** Typing an environment, a brand or a model. */
    method SetDetail(d: Detail, text: string)
      modifies this`environment, this`brand, this`model
      ensures environment == (if d == Environment then text else old(environment))
      ensures brand == (if d == Brand then text else old(brand))
      ensures model == (if d == Model then text else old(model))
    {
      match d
      case Environment => environment := text;
      case Brand => brand := text;
      case Model => model := text;
    }

    /** A category tile (`Some`), or the back button (`None`). */
    method SelectCategory(c: Option<string>)
      modifies this`selectedCategory
      ensures selectedCategory == c
    {
      selectedCategory := c;
    }

    method SetSearch(q: string)
      modifies this`searchQuery
      ensures searchQuery == q
    {
      searchQuery := q;
    }

    method SetTab(t: Tab)
      modifies this`tab
      ensures tab == t
    {
      tab := t;
    }

    /** `handleCatalogSelect`, then the effects its changes trigger. */
    method CatalogSelect(item: Catalog.CatalogItem)
      modifies this`code, this`description, this`detailedSpec, this`memorialDef, this`category, this`unit
      modifies this`materialPrice, this`laborPrice, this`width, this`length, this`area, this`tab, this`subtotal
      ensures code == item.code && description == item.description && category == item.category && unit == item.unit
      ensures detailedSpec == item.detailedSpec && memorialDef == item.memorialDef
      ensures materialPrice == MaterialShare(item.price) && laborPrice == LaborShare(item.price)
      ensures width.None? && length.None? && area.None? && subtotal == 0.0 && Valid()
      ensures tab == ManualTab
    {
      code, description := item.code, item.description;
      detailedSpec, memorialDef := item.detailedSpec, item.memorialDef;
      category, unit := item.category, item.unit;
      materialPrice, laborPrice := MaterialShare(item.price), LaborShare(item.price);
      width, length, area := None, None, None;
      tab := ManualTab;
      AreaEffect();
      SubtotalEffect();
    }

    /** `handleClose`, then the subtotal effect; the caller's `onClose` is the application's part. */
    method Close()
      modifies this
      ensures Cleared() && Valid() && subtotal == 0.0
      ensures source == old(source) && unit == old(unit)
    {
      ClearInputs();
      ClearSelection();
      SubtotalEffect();
    }

    method ClearInputs()
      modifies this`area, this`width, this`length, this`environment, this`brand, this`model
      modifies this`searchQuery, this`selectedCategory, this`tab
      ensures InputsCleared()
    {
      area, width, length := None, None, None;
      environment, brand, model := "", "", "";
      searchQuery, selectedCategory := "", None;
      tab := CatalogTab;
    }

    method ClearSelection()
      modifies this`description, this`detailedSpec, this`memorialDef, this`category, this`code
      modifies this`materialPrice, this`laborPrice
      ensures SelectionCleared()
    {
      description, detailedSpec, memorialDef := "", "", None;
      category, code := "", "";
      materialPrice, laborPrice := 0.0, 0.0;
    }

    /**
     * `handleSubmit` with `id` for the random identifier. A quantity that is
     * not positive adds nothing and leaves the form as it was; otherwise the
     * new item is returned for `onAddService` and the form is closed.
     */
    method Submit(id: string) returns (added: Option<ServiceItem>)
      modifies this
      ensures added.None? <==> NumericArea(old(area)) <= 0.0
      ensures added.None? ==> unchanged(this)
      ensures added.Some? ==> added.value == ServiceItem(
        id, old(code), old(source), old(SubmittedName(description, brand, model)), old(unit),
        NumericArea(old(area)), old(environment), old(detailedSpec), "", old(brand), old(model),
        old(materialPrice), old(laborPrice), old(memorialDef),
        if old(category) == "" then OtherCategory else old(category))
      ensures added.Some? ==> Cleared() && Valid() && source == old(source) && unit == old(unit)
    {
      var quantity := NumericArea(area);
      if quantity <= 0.0 {
        return None;
      }
      var name := SubmittedName(description, brand, model);
      var item := ServiceItem(id, code, source, name, unit, quantity, environment, detailedSpec, "",
        brand, model, materialPrice, laborPrice, memorialDef,
        if category == "" then OtherCategory else category);
      added := Some(item);
      Close();
    }
  }

  /** A submitted item always has a positive quantity and a non-empty category. */
  lemma SubmittedItemShape(item: ServiceItem, category: string, quantity: real)
    requires quantity > 0.0
    requires item.category == (if category == "" then OtherCategory else category) && item.area == quantity
    ensures item.area > 0.0 && item.category != ""
    ensures item.category == OtherCategory <==> category == "" || category == OtherCategory
  {
  }
}
