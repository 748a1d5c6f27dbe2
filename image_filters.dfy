/**
 * The filter panel (`ImageFilters`): seven filter amounts, one of which may be
 * selected for editing with a slider, and a rendering of the original image
 * through the browser's filter chain built from those amounts. The pixel
 * effect of each filter belongs to the browser and is not modelled; a
 * rendering is described by the image it starts from and the chain applied.
 */
module ImageFilters {
  import opened Common

  datatype Filter = Grayscale | Sepia | Invert | Blur | Brightness | Contrast | Saturate

  /** The `FilterValues` record: one amount per filter. */
  datatype FilterValues = FilterValues(
    grayscale: int, sepia: int, invert: int, blur: int,
    brightness: int, contrast: int, saturate: int)

  /** Identity settings: no grayscale, sepia, inversion or blur; 100% brightness, contrast and saturation. */
  const Defaults: FilterValues := FilterValues(0, 0, 0, 0, 100, 100, 100)

  /** The order in which the filters appear in the filter chain. */
  const ChainOrder: seq<Filter> := [Grayscale, Sepia, Invert, Blur, Brightness, Contrast, Saturate]

  function Get(f: FilterValues, which: Filter): int
  {
    match which
    case Grayscale => f.grayscale
    case Sepia => f.sepia
    case Invert => f.invert
    case Blur => f.blur
    case Brightness => f.brightness
    case Contrast => f.contrast
    case Saturate => f.saturate
  }

  /** The record with the amount of `which` replaced by `v`; the other six amounts are kept. */
  function With(f: FilterValues, which: Filter, v: int): (g: FilterValues)
    ensures Get(g, which) == v
    ensures forall other :: other != which ==> Get(g, other) == Get(f, other)
  {
    match which
    case Grayscale => f.(grayscale := v)
    case Sepia => f.(sepia := v)
    case Invert => f.(invert := v)
    case Blur => f.(blur := v)
    case Brightness => f.(brightness := v)
    case Contrast => f.(contrast := v)
    case Saturate => f.(saturate := v)
  }

  /** `getFilterMax`: the slider's upper end; every slider starts at 0 and moves in steps of 1. */
  function FilterMax(which: Filter): (m: int)
    ensures m == 100 <==> which in {Grayscale, Sepia, Invert}
    ensures m == 20 <==> which == Blur
    ensures m == 200 <==> which in {Brightness, Contrast, Saturate}
  {
    match which
    case Grayscale => 100
    case Sepia => 100
    case Invert => 100
    case Blur => 20
    case Brightness => 200
    case Contrast => 200
    case Saturate => 200
  }

  /** Every amount lies on its slider's range. */
  predicate InRange(f: FilterValues)
  {
    forall which :: 0 <= Get(f, which) <= FilterMax(which)
  }

  /** The name of the filter function in the chain. */
  function Name(which: Filter): string
  {
    match which
    case Grayscale => "grayscale"
    case Sepia => "sepia"
    case Invert => "invert"
    case Blur => "blur"
    case Brightness => "brightness"
    case Contrast => "contrast"
    case Saturate => "saturate"
  }

  /** The unit of the amount: pixels for blur, percent for every other filter. */
  function Unit(which: Filter): (u: string)
    ensures u == "px" <==> which == Blur
    ensures u == "%" <==> which != Blur
  {
    if which == Blur then "px" else "%"
  }

  /** One function of the filter chain, such as `blur(3px)`. */
  datatype FilterFunction = FilterFunction(name: string, amount: int, unit: string)

  /**
   * The filter chain handed to the canvas: all seven filters, in chain order,
   * each with its current amount and unit.
   */
  function FilterChain(f: FilterValues): (chain: seq<FilterFunction>)
    ensures |chain| == |ChainOrder| == 7
    ensures forall i :: 0 <= i < |chain| ==>
              chain[i] == FilterFunction(Name(ChainOrder[i]), Get(f, ChainOrder[i]), Unit(ChainOrder[i]))
  {
    [ FilterFunction("grayscale", f.grayscale, "%"),
      FilterFunction("sepia", f.sepia, "%"),
      FilterFunction("invert", f.invert, "%"),
      FilterFunction("blur", f.blur, "px"),
      FilterFunction("brightness", f.brightness, "%"),
      FilterFunction("contrast", f.contrast, "%"),
      FilterFunction("saturate", f.saturate, "%") ]
  }

  /** The chain lists every filter exactly once. */
  lemma ChainOrderIsComplete(which: Filter)
    ensures multiset(ChainOrder)[which] == 1
  {
  }

  /** Two records with the same chain are the same record: the chain loses nothing. */
  lemma ChainDeterminesValues(f: FilterValues, g: FilterValues)
    requires FilterChain(f) == FilterChain(g)
    ensures f == g
  {
    forall i | 0 <= i < 7
      ensures Get(f, ChainOrder[i]) == Get(g, ChainOrder[i])
    {
      assert FilterChain(f)[i].amount == FilterChain(g)[i].amount;
    }
  }

  /** The defaults are on every slider's range. */
  lemma DefaultsInRange()
    ensures InRange(Defaults)
  {
    forall which
      ensures 0 <= Get(Defaults, which) <= FilterMax(which)
    {
    }
  }

  /** Writing an amount within its slider's range keeps every amount in range. */
  lemma WithKeepsRange(f: FilterValues, which: Filter, v: int)
    requires InRange(f) && 0 <= v <= FilterMax(which)
    ensures InRange(With(f, which, v))
  {
    forall other
      ensures 0 <= Get(With(f, which, v), other) <= FilterMax(other)
    {
      assert other != which ==> Get(f, other) <= FilterMax(other);
    }
  }

  /** Writing back the current amount changes nothing, and a later write wins over an earlier one. */
  lemma WithLaws(f: FilterValues, which: Filter, a: int, b: int)
    ensures With(f, which, Get(f, which)) == f
    ensures With(With(f, which, a), which, b) == With(f, which, b)
  {
    match which
    case Grayscale =>
    case Sepia =>
    case Invert =>
    case Blur =>
    case Brightness =>
    case Contrast =>
    case Saturate =>
  }

  /** `handleToggleFilter` on the selection: the selected filter is deselected, any other becomes selected. */
  function Toggled(active: Option<Filter>, which: Filter): (r: Option<Filter>)
    ensures active == Some(which) ==> r.None?
    ensures active != Some(which) ==> r == Some(which)
  {
    if active == Some(which) then None else Some(which)
  }

  /**
   * Toggling the same filter twice restores the selection exactly when
   * nothing or that filter was selected; from another selection it ends with
   * nothing selected.
   */
  lemma ToggleTwice(active: Option<Filter>, which: Filter)
    ensures Toggled(Toggled(active, which), which) == active <==> active.None? || active == Some(which)
  {
    if active.Some? && active != Some(which) {
      assert Toggled(Toggled(active, which), which).None?;
    }
  }

  /** A rendering: the original image `original` drawn through the filter chain `chain`. */
  datatype Rendering = Rendering(original: nat, chain: seq<FilterFunction>)

  /**
   * The filter panel. `image` identifies the loaded original image, if any;
   * `rendered` is the last filtered rendering shown.
   */
  class FilterPanel {
    var filters: FilterValues
    var activeFilter: Option<Filter>
    var image: Option<nat>
    var rendered: Option<Rendering>

    ghost predicate Valid()
      reads this
    {
      InRange(filters)
    }

    /** A fresh panel: default amounts, nothing selected, no image, nothing rendered. */
    constructor ()
      ensures Valid()
      ensures filters == Defaults && activeFilter.None? && image.None? && rendered.None?
    {
      filters := Defaults;
      activeFilter := None;
      image := None;
      rendered := None;
      DefaultsInRange();
    }

    /**
     * `applyFilters`: without a loaded image nothing happens; otherwise the
     * original image is drawn again through the current chain, whatever was
     * rendered before.
     */
    method ApplyFilters()
      modifies this
      ensures image.None? ==> rendered == old(rendered)
      ensures image.Some? ==> rendered == Some(Rendering(image.value, FilterChain(filters)))
      ensures filters == old(filters) && activeFilter == old(activeFilter) && image == old(image)
    {
      if image.None? {
        return;
      }
      rendered := Some(Rendering(image.value, FilterChain(filters)));
    }

    /** The image finished loading: it is remembered and rendered with the current amounts. */
    method ImageLoaded(original: nat)
      modifies this
      ensures image == Some(original) && rendered == Some(Rendering(original, FilterChain(filters)))
      ensures filters == old(filters) && activeFilter == old(activeFilter)
    {
      image := Some(original);
      ApplyFilters();
    }

    /** `resetFilters`: default amounts, nothing selected, and the image rendered again. */
    method ResetFilters()
      modifies this
      ensures Valid()
      ensures filters == Defaults && activeFilter.None? && image == old(image)
      ensures image.Some? ==> rendered == Some(Rendering(image.value, FilterChain(Defaults)))
      ensures image.None? ==> rendered == old(rendered)
    {
      filters := Defaults;
      activeFilter := None;
      DefaultsInRange();
      ApplyFilters();
    }

    /**
     * `handleFilterChange`: the slider reports its values, the first of which
     * becomes the amount of the selected filter, and the image is rendered
     * again; with no filter selected nothing happens. The slider only reports
     * values on the selected filter's range.
     */
    method HandleFilterChange(value: seq<int>)
      requires Valid()
      requires |value| > 0
      requires activeFilter.Some? ==> 0 <= value[0] <= FilterMax(activeFilter.value)
      modifies this
      ensures Valid()
      ensures old(activeFilter).None? ==> filters == old(filters) && rendered == old(rendered)
      ensures old(activeFilter).Some? ==> filters == With(old(filters), old(activeFilter).value, value[0])
      ensures old(activeFilter).Some? && image.Some? ==> rendered == Some(Rendering(image.value, FilterChain(filters)))
      ensures image.None? ==> rendered == old(rendered)
      ensures activeFilter == old(activeFilter) && image == old(image)
    {
      if activeFilter.None? {
        return;
      }
      WithKeepsRange(filters, activeFilter.value, value[0]);
      filters := With(filters, activeFilter.value, value[0]);
      ApplyFilters();
    }

    /** `handleToggleFilter`: select `which`, or deselect it when it is already selected. */
    method HandleToggleFilter(which: Filter)
      modifies this
      ensures activeFilter == Toggled(old(activeFilter), which)
      ensures filters == old(filters) && image == old(image) && rendered == old(rendered)
    {
      activeFilter := if activeFilter == Some(which) then None else Some(which);
    }
  }
}
