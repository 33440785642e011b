/** The scroll reveal grid: ROWS x COLUMNS entries, each with a one-way "show"
    flag. A pass visits every entry in row-major order and shows each present entry
    whose vertical extent meets the viewport [0, innerHeight]; a pass runs once at
    mount and then on every scroll event until unmount.

    Geometry is an input of each pass: for every cell, None when its ref is not
    attached, or its bounding rectangle's top and bottom edges. */
module ScrollAnimation {
  import opened Wrappers

  const Rows: nat := 12
  const Columns: nat := 4

  /** The vertical edges of an entry's bounding rectangle, in viewport pixels. */
  datatype Rect = Rect(top: int, bottom: int)

  /** One pass's geometry: Layout[i][j] is the entry in row i, column j. */
  type Layout = seq<seq<Option<Rect>>>

  /** The show flags: Grid[i][j] for the entry in row i, column j. */
  type Grid = seq<seq<bool>>

  predicate Shaped<T>(m: seq<seq<T>>) {
    |m| == Rows && forall i :: 0 <= i < Rows ==> |m[i]| == Columns
  }

  predicate InGrid(i: int, j: int) {
    0 <= i < Rows && 0 <= j < Columns
  }

  /** Both edges inclusive: bottom on the viewport's top edge or top on its bottom
      edge still counts. */
  predicate MeetsViewport(r: Rect, innerHeight: int) {
    r.bottom >= 0 && r.top <= innerHeight
  }

  /** A present entry whose rectangle meets the viewport. */
  predicate Triggers(entry: Option<Rect>, innerHeight: int) {
    entry.Some? && MeetsViewport(entry.value, innerHeight)
  }

  /** As rendered: no entry is shown. */
  function Hidden(): (g: Grid)
    ensures Shaped(g)
    ensures forall i, j :: InGrid(i, j) ==> !g[i][j]
  {
    seq(Rows, _ => seq(Columns, _ => false))
  }

  /** The flags after one pass, cell by cell. */
  function Reveal(g: Grid, layout: Layout, innerHeight: int): (r: Grid)
    requires Shaped(g) && Shaped(layout)
    ensures Shaped(r)
  {
    seq(Rows, i requires 0 <= i < Rows =>
      seq(Columns, j requires 0 <= j < Columns => g[i][j] || Triggers(layout[i][j], innerHeight)))
  }

  // ---------------------------------------------------------------------------
  // The pass as the loop performs it: one cell at a time, in row-major order

  /** Cell p comes strictly before cell q in row-major order. */
  predicate Before(p: (int, int), q: (int, int)) {
    p.0 < q.0 || (p.0 == q.0 && p.1 < q.1)
  }

  /** The order the nested loop visits the cells in. */
  function RowMajor(): (order: seq<(int, int)>)
    ensures |order| == Rows * Columns
    ensures forall k :: 0 <= k < |order| ==> InGrid(order[k].0, order[k].1)
    ensures forall a, b :: 0 <= a < b < |order| ==> Before(order[a], order[b])
    ensures forall i, j :: InGrid(i, j) ==> (i, j) in order
  {
    var order := seq(Rows * Columns, k => (k / Columns, k % Columns));
    forall i, j | InGrid(i, j) ensures (i, j) in order {
      assert order[i * Columns + j] == (i, j);
    }
    order
  }

  /** Visiting one cell: it is shown when it is present and meets the viewport;
      nothing else is touched. */
  function Update(g: Grid, layout: Layout, innerHeight: int, p: (int, int)): (r: Grid)
    requires Shaped(g) && Shaped(layout) && InGrid(p.0, p.1)
    ensures Shaped(r)
    ensures r[p.0][p.1] == (g[p.0][p.1] || Triggers(layout[p.0][p.1], innerHeight))
    ensures forall i, j :: InGrid(i, j) && (i, j) != p ==> r[i][j] == g[i][j]
  {
    if Triggers(layout[p.0][p.1], innerHeight) then g[p.0 := g[p.0][p.1 := true]] else g
  }

  /** Visiting the cells of `order` one after another. */
  function Visit(g: Grid, layout: Layout, innerHeight: int, order: seq<(int, int)>): (r: Grid)
    requires Shaped(g) && Shaped(layout)
    requires forall k :: 0 <= k < |order| ==> InGrid(order[k].0, order[k].1)
    ensures Shaped(r)
    decreases |order|
  {
    if order == [] then g
    else Visit(Update(g, layout, innerHeight, order[0]), layout, innerHeight, order[1..])
  }

  /** After visiting `order`, a cell is shown iff it was shown before, or it was
      visited and triggers. Each update reads only its own cell's rectangle. */
  lemma {:induction false} VisitAt(g: Grid, layout: Layout, innerHeight: int, order: seq<(int, int)>, i: int, j: int)
    requires Shaped(g) && Shaped(layout)
    requires forall k :: 0 <= k < |order| ==> InGrid(order[k].0, order[k].1)
    requires InGrid(i, j)
    ensures Visit(g, layout, innerHeight, order)[i][j]
        == (g[i][j] || ((i, j) in order && Triggers(layout[i][j], innerHeight)))
    decreases |order|
  {
    if order != [] {
      var next := Update(g, layout, innerHeight, order[0]);
      VisitAt(next, layout, innerHeight, order[1..], i, j);
      assert next[i][j] == (g[i][j] || (order[0] == (i, j) && Triggers(layout[i][j], innerHeight)));
      assert (i, j) in order <==> order[0] == (i, j) || (i, j) in order[1..] by {
        assert order == [order[0]] + order[1..];
      }
    }
  }

  /** The visit order does not matter: any two orders that visit the same cells
      give the same flags. */
  lemma VisitOrderIrrelevant(g: Grid, layout: Layout, innerHeight: int, order1: seq<(int, int)>, order2: seq<(int, int)>)
    requires Shaped(g) && Shaped(layout)
    requires forall k :: 0 <= k < |order1| ==> InGrid(order1[k].0, order1[k].1)
    requires forall k :: 0 <= k < |order2| ==> InGrid(order2[k].0, order2[k].1)
    requires forall p :: p in order1 <==> p in order2
    ensures Visit(g, layout, innerHeight, order1) == Visit(g, layout, innerHeight, order2)
  {
    var r1 := Visit(g, layout, innerHeight, order1);
    var r2 := Visit(g, layout, innerHeight, order2);
    forall i | 0 <= i < Rows ensures r1[i] == r2[i] {
      forall j | 0 <= j < Columns ensures r1[i][j] == r2[i][j] {
        VisitAt(g, layout, innerHeight, order1, i, j);
        VisitAt(g, layout, innerHeight, order2, i, j);
      }
    }
  }

  /** One cell of the row-major pass: every cell is visited, so its flag is the
      one Reveal gives it. */
  lemma RowMajorPassAt(g: Grid, layout: Layout, innerHeight: int, i: int, j: int)
    requires Shaped(g) && Shaped(layout) && InGrid(i, j)
    ensures Visit(g, layout, innerHeight, RowMajor())[i][j] == Reveal(g, layout, innerHeight)[i][j]
  {
    var order := RowMajor();
    assert (i, j) in order;
    VisitAt(g, layout, innerHeight, order, i, j);
  }

  /** The row-major pass computes Reveal. */
  lemma RowMajorPassIsReveal(g: Grid, layout: Layout, innerHeight: int)
    requires Shaped(g) && Shaped(layout)
    ensures Visit(g, layout, innerHeight, RowMajor()) == Reveal(g, layout, innerHeight)
  {
    var r1 := Visit(g, layout, innerHeight, RowMajor());
    var r2 := Reveal(g, layout, innerHeight);
    forall i | 0 <= i < Rows ensures r1[i] == r2[i] {
      forall j | 0 <= j < Columns ensures r1[i][j] == r2[i][j] {
        RowMajorPassAt(g, layout, innerHeight, i, j);
      }
    }
  }

  // ---------------------------------------------------------------------------
  // Properties of a pass

  /** A present cell is shown after a pass iff it was shown or it meets the
      viewport; an absent cell keeps its flag. */
  lemma RevealAt(g: Grid, layout: Layout, innerHeight: int, i: int, j: int)
    requires Shaped(g) && Shaped(layout) && InGrid(i, j)
    ensures layout[i][j].Some? ==> (Reveal(g, layout, innerHeight)[i][j] <==>
      g[i][j] || (layout[i][j].value.bottom >= 0 && layout[i][j].value.top <= innerHeight))
    ensures layout[i][j].None? ==> Reveal(g, layout, innerHeight)[i][j] == g[i][j]
  {
  }

  /** A pass never hides a shown entry. */
  lemma RevealMonotone(g: Grid, layout: Layout, innerHeight: int)
    requires Shaped(g) && Shaped(layout)
    ensures forall i, j :: InGrid(i, j) && g[i][j] ==> Reveal(g, layout, innerHeight)[i][j]
  {
  }

  /** Monotone over any sequence of passes, whatever the geometry of each. */
  lemma {:induction false} RevealsMonotone(g: Grid, layouts: seq<Layout>, heights: seq<int>, i: int, j: int)
    requires Shaped(g) && |layouts| == |heights| && forall k :: 0 <= k < |layouts| ==> Shaped(layouts[k])
    requires InGrid(i, j) && g[i][j]
    ensures Passes(g, layouts, heights)[i][j]
    decreases |layouts|
  {
    if layouts != [] {
      RevealsMonotone(Reveal(g, layouts[0], heights[0]), layouts[1..], heights[1..], i, j);
    }
  }

  /** Successive passes, one per scroll event. */
  function Passes(g: Grid, layouts: seq<Layout>, heights: seq<int>): (r: Grid)
    requires Shaped(g) && |layouts| == |heights| && forall k :: 0 <= k < |layouts| ==> Shaped(layouts[k])
    ensures Shaped(r)
    decreases |layouts|
  {
    if layouts == [] then g else Passes(Reveal(g, layouts[0], heights[0]), layouts[1..], heights[1..])
  }

  /** Entries outside the viewport, and absent entries, keep their flag. */
  lemma RevealKeepsOthers(g: Grid, layout: Layout, innerHeight: int)
    requires Shaped(g) && Shaped(layout)
    ensures forall i, j :: InGrid(i, j) && !Triggers(layout[i][j], innerHeight) ==>
      Reveal(g, layout, innerHeight)[i][j] == g[i][j]
  {
  }

  /** A second pass over unchanged geometry changes nothing. */
  lemma RevealIdempotent(g: Grid, layout: Layout, innerHeight: int)
    requires Shaped(g) && Shaped(layout)
    ensures Reveal(Reveal(g, layout, innerHeight), layout, innerHeight) == Reveal(g, layout, innerHeight)
  {
    var once := Reveal(g, layout, innerHeight);
    var twice := Reveal(once, layout, innerHeight);
    forall i | 0 <= i < Rows ensures twice[i] == once[i] {
    }
  }

  /** Right after mount the shown entries are exactly those meeting the initial
      viewport. */
  lemma MountShowsVisible(layout: Layout, innerHeight: int)
    requires Shaped(layout)
    ensures forall i, j :: InGrid(i, j) ==>
      (Reveal(Hidden(), layout, innerHeight)[i][j] <==> Triggers(layout[i][j], innerHeight))
  {
  }

  /** Mounted with a 600px viewport, an entry spanning 500..800 is shown and one
      spanning 700..1000 is not. */
  lemma MountViewportExample(layout: Layout)
    requires Shaped(layout)
    requires layout[0][0] == Some(Rect(500, 800)) && layout[0][1] == Some(Rect(700, 1000))
    ensures Reveal(Hidden(), layout, 600)[0][0]
    ensures !Reveal(Hidden(), layout, 600)[0][1]
  {
  }

  // ---------------------------------------------------------------------------
  // The component's mutable state

  class RevealGrid {
    /** shown[i, j]: whether entry (i, j) carries the `show` class */
    const shown: array2<bool>
    /** Whether handleScroll is registered as the window's scroll listener */
    var scrollListening: bool

    ghost predicate Valid()
      reads this
    {
      shown.Length0 == Rows && shown.Length1 == Columns
    }

    ghost function Shown(): (g: Grid)
      reads this, shown
      requires Valid()
      ensures Shaped(g)
      ensures forall i, j :: InGrid(i, j) ==> g[i][j] == shown[i, j]
    {
      seq(Rows, i requires 0 <= i < Rows reads shown =>
        seq(Columns, j requires 0 <= j < Columns reads shown => shown[i, j]))
    }

    /** Render, then mount: one pass runs before the scroll listener is added. */
    constructor Mount(layout: Layout, innerHeight: int)
      requires Shaped(layout)
      ensures Valid() && fresh(shown)
      ensures Shown() == Reveal(Hidden(), layout, innerHeight)
      ensures scrollListening
    {
      shown := new bool[Rows, Columns]((_, _) => false);
      scrollListening := false;
      new;
      assert Shown() == Hidden() by {
        forall i | 0 <= i < Rows ensures Shown()[i] == Hidden()[i] { }
      }
      HandleScroll(layout, innerHeight);
      scrollListening := true;
    }

    /** handleScroll: one pass over the grid. */
    method HandleScroll(layout: Layout, innerHeight: int)
      requires Valid() && Shaped(layout)
      modifies shown
      ensures Valid()
      ensures Shown() == Reveal(old(Shown()), layout, innerHeight)
    {
      var i := 0;
      while i < Rows
        invariant 0 <= i <= Rows
        invariant forall r, c :: InGrid(r, c) ==>
          shown[r, c] == (old(shown[r, c]) || (r < i && Triggers(layout[r][c], innerHeight)))
      {
        var j := 0;
        while j < Columns
          invariant 0 <= j <= Columns
          invariant forall r, c :: InGrid(r, c) ==>
            shown[r, c] == (old(shown[r, c]) || ((r < i || (r == i && c < j)) && Triggers(layout[r][c], innerHeight)))
        {
          var entry := layout[i][j];
          if entry.Some? {
            var position := entry.value;
            if position.bottom >= 0 && position.top <= innerHeight {
              shown[i, j] := true;
            }
          }
          j := j + 1;
        }
        i := i + 1;
      }
      ghost var before := old(Shown());
      ghost var after := Reveal(before, layout, innerHeight);
      forall r | 0 <= r < Rows ensures Shown()[r] == after[r] { }
    }

    /** A scroll event: a pass while the listener is registered, nothing after
        unmount. */
    method Scroll(layout: Layout, innerHeight: int)
      requires Valid() && Shaped(layout)
      modifies shown
      ensures Valid()
      ensures scrollListening ==> Shown() == Reveal(old(Shown()), layout, innerHeight)
      ensures !scrollListening ==> Shown() == old(Shown())
    {
      if scrollListening {
        HandleScroll(layout, innerHeight);
      }
    }

    /** The effect's cleanup: the scroll listener is removed. */
    method Unmount()
      modifies this
      ensures !scrollListening
    {
      scrollListening := false;
    }
  }
}
