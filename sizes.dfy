/**
  The overlay's size classes and the navigation between them that the
  zoom controls use (Sources/SizeClass.swift).
 */
module Sizes {
  import opened Wrappers

  datatype ToolbarSizeClass = Compact | Regular | Expanded

  /** The hand-written `ToolbarSizeClass.allCases`: `expanded` is deliberately left out. */
  const ToolbarAllCases: seq<ToolbarSizeClass> := [ToolbarSizeClass.Compact, ToolbarSizeClass.Regular]

  datatype SizeClass = Toolbar(toolbar: ToolbarSizeClass) | Regular | Compact

  /** `map { .toolbar($0) }` */
  function AsToolbars(ts: seq<ToolbarSizeClass>): (r: seq<SizeClass>)
    ensures |r| == |ts|
    ensures forall i :: 0 <= i < |ts| ==> r[i] == Toolbar(ts[i])
  {
    if ts == [] then [] else [Toolbar(ts[0])] + AsToolbars(ts[1..])
  }

  /** `SizeClass.allCases`: the toolbar cases, then `compact`, then `regular`. */
  function AllCases(): (r: seq<SizeClass>)
    ensures forall t :: t in ToolbarAllCases ==> Toolbar(t) in r
    ensures SizeClass.Compact in r && SizeClass.Regular in r
  {
    AsToolbars(ToolbarAllCases) + [SizeClass.Compact, SizeClass.Regular]
  }

  /** `firstIndex(of:)`: the position of the first occurrence of `x`, if any. */
  function FirstIndex<T(==)>(xs: seq<T>, x: T): (r: Option<nat>)
    ensures r.None? <==> x !in xs
    ensures r.Some? ==> r.value < |xs| && xs[r.value] == x && x !in xs[..r.value]
  {
    if xs == [] then None
    else if xs[0] == x then Some(0)
    else
      match FirstIndex(xs[1..], x)
      case None => None
      case Some(i) =>
        assert xs[..i + 1] == [xs[0]] + xs[1..][..i];
        Some(i + 1)
  }

  /** `next()`: the case after this one in `allCases`, if it is listed and not last. */
  function Next(s: SizeClass): (r: Option<SizeClass>)
    ensures r.Some? ==> s in AllCases() && r.value in AllCases()
    ensures s !in AllCases() ==> r.None?
  {
    match FirstIndex(AllCases(), s)
    case None => None
    case Some(index) => if index + 1 < |AllCases()| then Some(AllCases()[index + 1]) else None
  }

  /** `previous()`: the case before this one in `allCases`, if it is listed and not first. */
  function Previous(s: SizeClass): (r: Option<SizeClass>)
    ensures r.Some? ==> s in AllCases() && r.value in AllCases()
    ensures s !in AllCases() ==> r.None?
  {
    match FirstIndex(AllCases(), s)
    case None => None
    case Some(index) => if index - 1 >= 0 then Some(AllCases()[index - 1]) else None
  }

  /** `allCases` lists four distinct cases in this order, and `toolbar(expanded)` is not among them. */
  lemma AllCasesListed()
    ensures AllCases() == [Toolbar(ToolbarSizeClass.Compact), Toolbar(ToolbarSizeClass.Regular),
                           SizeClass.Compact, SizeClass.Regular]
    ensures Toolbar(Expanded) !in AllCases()
  {
  }

  /** The neighbours in `allCases`, case by case: an independent table of `next()`. */
  function NextByCase(s: SizeClass): Option<SizeClass> {
    match s
    case Toolbar(tb) => (
      match tb
      case Compact => Some(Toolbar(ToolbarSizeClass.Regular))
      case Regular => Some(SizeClass.Compact)
      case Expanded => None)
    case Compact => Some(SizeClass.Regular)
    case Regular => None
  }

  /** The table of `previous()`. */
  function PreviousByCase(s: SizeClass): Option<SizeClass> {
    match s
    case Toolbar(tb) => (
      match tb
      case Compact => None
      case Regular => Some(Toolbar(ToolbarSizeClass.Compact))
      case Expanded => None)
    case Compact => Some(Toolbar(ToolbarSizeClass.Regular))
    case Regular => Some(SizeClass.Compact)
  }

  /** The index arithmetic of `next()` and `previous()` over `allCases` agrees with the tables. */
  lemma NavigationByCase(s: SizeClass)
    ensures Next(s) == NextByCase(s) && Previous(s) == PreviousByCase(s)
  {
    AllCasesListed();
    match s
    case Toolbar(tb) => {
      match tb
      case Compact => {}
      case Regular => {}
      case Expanded => {}
    }
    case Compact => {}
    case Regular => {}
  }

  /** Navigation ends: nothing after `regular`, nothing before `toolbar(compact)`, nothing around `toolbar(expanded)`. */
  lemma NavigationEnds()
    ensures Next(SizeClass.Regular) == None
    ensures Previous(Toolbar(ToolbarSizeClass.Compact)) == None
    ensures Next(Toolbar(Expanded)) == None && Previous(Toolbar(Expanded)) == None
  {
    NavigationByCase(SizeClass.Regular);
    NavigationByCase(Toolbar(ToolbarSizeClass.Compact));
    NavigationByCase(Toolbar(Expanded));
  }

  /** `next` walks the whole list from `toolbar(compact)` in order and then stops. */
  lemma NextWalksAllCases()
    ensures Next(Toolbar(ToolbarSizeClass.Compact)) == Some(Toolbar(ToolbarSizeClass.Regular))
    ensures Next(Toolbar(ToolbarSizeClass.Regular)) == Some(SizeClass.Compact)
    ensures Next(SizeClass.Compact) == Some(SizeClass.Regular)
    ensures Next(SizeClass.Regular) == None
  {
    NavigationByCase(Toolbar(ToolbarSizeClass.Compact));
    NavigationByCase(Toolbar(ToolbarSizeClass.Regular));
    NavigationByCase(SizeClass.Compact);
    NavigationByCase(SizeClass.Regular);
  }

  /** `previous` walks the whole list backwards from `regular` and then stops. */
  lemma PreviousWalksAllCases()
    ensures Previous(SizeClass.Regular) == Some(SizeClass.Compact)
    ensures Previous(SizeClass.Compact) == Some(Toolbar(ToolbarSizeClass.Regular))
    ensures Previous(Toolbar(ToolbarSizeClass.Regular)) == Some(Toolbar(ToolbarSizeClass.Compact))
    ensures Previous(Toolbar(ToolbarSizeClass.Compact)) == None
  {
    NavigationByCase(SizeClass.Regular);
    NavigationByCase(SizeClass.Compact);
    NavigationByCase(Toolbar(ToolbarSizeClass.Regular));
    NavigationByCase(Toolbar(ToolbarSizeClass.Compact));
  }

  /**
    `next` and `previous` only ever yield listed cases, and they undo each
    other: `next(x) = y` exactly when `previous(y) = x`.
   */
  lemma NextPreviousInverse(x: SizeClass, y: SizeClass)
    ensures Next(x).Some? ==> Next(x).value in AllCases()
    ensures Previous(x).Some? ==> Previous(x).value in AllCases()
    ensures Next(x) == Some(y) <==> Previous(y) == Some(x)
  {
    NavigationByCase(x);
    NavigationByCase(y);
    TablesInverse(x, y);
  }

  /** The two tables undo each other and only name listed cases. */
  lemma TablesInverse(x: SizeClass, y: SizeClass)
    ensures NextByCase(x).Some? ==> NextByCase(x).value in AllCases()
    ensures PreviousByCase(x).Some? ==> PreviousByCase(x).value in AllCases()
    ensures NextByCase(x) == Some(y) <==> PreviousByCase(y) == Some(x)
  {
    AllCasesListed();
  }

  /** `CGSize` */
  datatype Size = Size(width: real, height: real)

  /** `scale`: how much the gauges are shrunk for each size class. */
  function Scale(s: SizeClass): (r: Size)
    ensures r.width == r.height
    ensures 0.0 < r.width <= 1.0
  {
    match s
    case Compact => Size(1.0, 1.0)
    case Regular => Size(1.0, 1.0)
    case Toolbar(toolbar) =>
      match toolbar
      case Compact => Size(0.5, 0.5)
      case Regular => Size(0.75, 0.75)
      case Expanded => Size(1.0, 1.0)
  }

  /** Scaling is uniform and never enlarges; only the two listed toolbar cases shrink. */
  lemma ScaleShrinksOnlyToolbars(s: SizeClass)
    ensures Scale(s).width == Scale(s).height
    ensures 0.0 < Scale(s).width <= 1.0
    ensures Scale(s).width < 1.0 <==> s in AsToolbars(ToolbarAllCases)
    ensures s == Toolbar(ToolbarSizeClass.Compact) ==> Scale(s).width == 0.5
    ensures s == Toolbar(ToolbarSizeClass.Regular) ==> Scale(s).width == 0.75
  {
  }
}
