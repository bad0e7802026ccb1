/**
 * What the host hands the visual on each update (the parts the core reads), the
 * readiness test `isDataReady`, and the data-point half of `visualTransform`.
 */
module DataViews {
  import opened Wrappers
  import opened Settings

  /** A category value as the host delivers it; `values[i] + ''` turns it into text. */
  datatype Primitive = PStr(s: string) | PInt(i: int) | PBool(b: bool) | PNull

  function DigitChar(d: nat): char
    requires d < 10
  {
    "0123456789"[d]
  }

  function NatToDecimal(n: nat): string
    decreases n
  {
    if n < 10 then [DigitChar(n)] else NatToDecimal(n / 10) + [DigitChar(n % 10)]
  }

  /** JavaScript string coercion `v + ''` for the primitive kinds modelled. */
  function JsString(v: Primitive): string {
    match v
    case PStr(s) => s
    case PInt(i) => if i < 0 then "-" + NatToDecimal(-i) else NatToDecimal(i)
    case PBool(b) => if b then "true" else "false"
    case PNull => "null"
  }

  /** `categories[0].source`: the bound field's qualified name and display name. */
  datatype ColumnSource = ColumnSource(queryName: string, displayName: string)
  datatype CategoryColumn = CategoryColumn(source: Option<ColumnSource>, values: seq<Primitive>)
  datatype Categorical = Categorical(categories: Option<seq<CategoryColumn>>)
  datatype DataView = DataView(categorical: Option<Categorical>, objects: Objects)

  /** The part of one host-supplied json filter the visual reads: its `values` array, if any. */
  datatype HostFilter = HostFilter(values: Option<seq<int>>)

  /**
   * The update options: `dataViews` and `jsonFilters` (each `None` when absent), the
   * filters' entries possibly falsy (`None`).
   */
  datatype UpdateOptions = UpdateOptions(dataViews: Option<seq<DataView>>, jsonFilters: Option<seq<Option<HostFilter>>>)

  /** `isDataReady` answers true or false, or throws when `categories` is an empty array. */
  datatype Readiness = Ready | NotReady | ThrowsTypeError

  function IsDataReady(options: UpdateOptions): Readiness {
    if options.dataViews.None? || |options.dataViews.value| == 0 then NotReady
    else
      var view := options.dataViews.value[0];
      if view.categorical.None? || view.categorical.value.categories.None? then NotReady
      else
        var categories := view.categorical.value.categories.value;
        if |categories| == 0 then ThrowsTypeError   // `categories[0].source` on `undefined`
        else if categories[0].source.None? then NotReady
        else Ready
  }

  function FirstView(options: UpdateOptions): DataView
    requires IsDataReady(options) == Ready
  {
    options.dataViews.value[0]
  }

  function FirstCategory(options: UpdateOptions): CategoryColumn
    requires IsDataReady(options) == Ready
  {
    FirstView(options).categorical.value.categories.value[0]
  }

  /** Readiness is exactly what `visualTransform` and `applyFilter` need to dereference. */
  lemma ReadyBindsCategory(options: UpdateOptions)
    ensures IsDataReady(options) == Ready <==>
              && options.dataViews.Some? && |options.dataViews.value| > 0
              && options.dataViews.value[0].categorical.Some?
              && options.dataViews.value[0].categorical.value.categories.Some?
              && |options.dataViews.value[0].categorical.value.categories.value| > 0
              && options.dataViews.value[0].categorical.value.categories.value[0].source.Some?
    ensures IsDataReady(options) == Ready ==> FirstCategory(options).source.Some?
  {
  }

  /** Opaque host selection identity; the host builds it from the category column and position. */
  datatype SelectionId = SelectionId(index: nat)
  datatype DataPoint = DataPoint(category: string, selectionId: SelectionId, selected: bool)
  datatype ViewModel = ViewModel(dataPoints: seq<DataPoint>, settings: VisualSettings)

  /** One data point per category value, in the host's order. */
  function DataPointsOf(values: seq<Primitive>): seq<DataPoint> {
    seq(|values|, i requires 0 <= i < |values| => DataPoint(JsString(values[i]), SelectionId(i), false))
  }

  /** The loop of `visualTransform` that pushes one data point per category value. */
  method BuildDataPoints(values: seq<Primitive>) returns (points: seq<DataPoint>)
    ensures points == DataPointsOf(values)
    ensures |points| == |values|
    ensures forall i :: 0 <= i < |values| ==>
              points[i].category == JsString(values[i]) && points[i].selectionId == SelectionId(i) && !points[i].selected
  {
    points := [];
    var i := 0;
    while i < |values|
      invariant 0 <= i <= |values|
      invariant points == DataPointsOf(values)[..i]
    {
      points := points + [DataPoint(JsString(values[i]), SelectionId(i), false)];
      i := i + 1;
    }
  }

  /** The view model `visualTransform` builds from ready options. */
  function ViewModelOf(options: UpdateOptions): ViewModel
    requires IsDataReady(options) == Ready
  {
    ViewModel(DataPointsOf(FirstCategory(options).values), ResolveSettings(FirstView(options).objects))
  }

  method VisualTransform(options: UpdateOptions) returns (vm: ViewModel)
    requires IsDataReady(options) == Ready
    ensures vm == ViewModelOf(options)
    ensures |vm.dataPoints| == |FirstCategory(options).values|
    ensures vm.settings == ResolveSettings(FirstView(options).objects)
  {
    var category := FirstCategory(options);
    var points := BuildDataPoints(category.values);
    vm := ViewModel(points, ResolveSettings(FirstView(options).objects));
  }
}
