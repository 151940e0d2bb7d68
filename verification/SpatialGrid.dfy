/** The spatial hash grid: core/src/spatial_grid.cpp. */
module SpatialGrid {
  import opened Common
  import opened Ints
  import opened Reals
  import opened Registry
  import opened Proximity

  datatype Key = Key(interior: u16, vworld: u16, cx: int, cy: int)

  type Cells = map<Key, seq<u16>>
  type Where = map<u16, Key>

  function CellOf(x: real, cell: real): int
    requires cell > 0.0
  {
    (x / cell).Floor
  }

  function Ceil(x: real): int {
    -((-x).Floor)
  }

  function KeyFor(p: Player, cell: real): Key
    requires cell > 0.0
  {
    Key(p.interior, p.vworld, CellOf(p.pos.x, cell), CellOf(p.pos.y, cell))
  }

  /** How many cells a radius spans in each direction. */
  function Span(radius: real, cell: real): int
    requires cell > 0.0
  {
    Ceil(radius / cell)
  }

  ghost predicate Unique<T(!new)>(s: seq<T>) {
    forall i, j :: 0 <= i < j < |s| ==> s[i] != s[j]
  }

  /** The two tables are exact inverses, and no cell is empty. */
  ghost predicate Inverse(cells: Cells, where: Where) {
    && (forall id :: id in where ==> where[id] in cells && id in cells[where[id]])
    && (forall k :: k in cells ==> cells[k] != [] && Unique(cells[k]))
    && (forall k, id :: k in cells && id in cells[k] ==> id in where && where[id] == k)
  }

  // ---- distance and cells ----

  /** Two positions closer than `radius` in space lie within the searched square of cells. */
  ghost predicate Covers(radius: real, cell: real)
    requires cell > 0.0
  {
    forall a: Vec3, b: Vec3 :: Dist2(a, b) < Square(radius) ==> InSpan(a, b, radius, cell)
  }

  predicate InSpan(a: Vec3, b: Vec3, radius: real, cell: real)
    requires cell > 0.0
  {
    var span := Span(radius, cell);
    && -span <= CellOf(b.x, cell) - CellOf(a.x, cell) <= span
    && -span <= CellOf(b.y, cell) - CellOf(a.y, cell) <= span
  }

  lemma SquareMonotone(d: real, r: real)
    requires Square(d) < Square(r) && r >= 0.0
    ensures -r < d < r
  {
    SquareGrows(r, d);
    SquareGrows(r, -d);
    SquareOfNegation(d);
  }

  /** Coordinates closer than the radius differ by at most `Span` cells. */
  lemma CoordinateInSpan(x: real, y: real, radius: real, cell: real)
    requires cell > 0.0 && -radius < y - x < radius
    ensures -Span(radius, cell) <= CellOf(y, cell) - CellOf(x, cell) <= Span(radius, cell)
  {
    QuotientMonotone(y - x, radius, cell);
    QuotientMonotone(x - y, radius, cell);
    QuotientApart(y, x, cell);
    QuotientApart(x, y, cell);
  }

  lemma NearIsInSpan(a: Vec3, b: Vec3, radius: real, cell: real)
    requires cell > 0.0 && radius >= 0.0 && Dist2(a, b) < Square(radius)
    ensures InSpan(a, b, radius, cell)
  {
    hide Square;
    SquareSign(a.x - b.x);
    SquareSign(a.y - b.y);
    SquareSign(a.z - b.z);
    SquareMonotone(a.x - b.x, radius);
    SquareMonotone(a.y - b.y, radius);
    CoordinateInSpan(a.x, b.x, radius, cell);
    CoordinateInSpan(a.y, b.y, radius, cell);
  }

  /** The searched square is large enough exactly for radii that are not negative. */
  lemma CoversIff(radius: real, cell: real)
    requires cell > 0.0
    ensures Covers(radius, cell) <==> radius >= 0.0
  {
    if radius >= 0.0 {
      forall a: Vec3, b: Vec3 | Dist2(a, b) < Square(radius) ensures InSpan(a, b, radius, cell) {
        NearIsInSpan(a, b, radius, cell);
      }
    } else {
      NegativeMisses(radius, cell);
    }
  }

  lemma HalfIsNearer(r: real)
    requires r < 0.0
    ensures Square(0.0 - r / 2.0) < Square(r)
  {
    MulPositive(-r / 2.0, -r / 2.0);
    SquareOfNegation(r);
    assert Mul(-r, -r) == 4.0 * Mul(-r / 2.0, -r / 2.0);
  }

  lemma NegativeMisses(radius: real, cell: real)
    requires cell > 0.0 && radius < 0.0
    ensures !Covers(radius, cell)
  {
    var a, b := Vec3(0.0, 0.0, 0.0), Vec3(radius / 2.0, 0.0, 0.0);
    HalfIsNearer(radius);
    SquareSign(0.0);
    QuotientMonotone(radius, 0.0, cell);
    QuotientMonotone(b.x, 0.0, cell);
    assert Span(radius, cell) <= 0 && CellOf(a.x, cell) == 0 && CellOf(b.x, cell) < 0;
    assert !InSpan(a, b, radius, cell);
  }

  // ---- the tables ----

  lemma {:induction false} UniqueMultiset(s: seq<u16>, id: u16)
    requires Unique(s)
    ensures multiset(s)[id] == if id in s then 1 else 0
  {
    if s != [] {
      var n := |s| - 1;
      UniqueMultiset(s[..n], id);
      assert s == s[..n] + [s[n]];
    }
  }

  /** The placement table settles the cells up to order: a maintained grid equals a rebuilt one. */
  lemma InverseSettles(cells: Cells, rebuilt: Cells, where: Where)
    requires Inverse(cells, where) && Inverse(rebuilt, where)
    ensures cells.Keys == rebuilt.Keys
    ensures forall k :: k in cells ==> multiset(cells[k]) == multiset(rebuilt[k])
  {
    forall k ensures k in cells <==> k in rebuilt {
      if k in cells {
        assert cells[k][0] in where;
      }
      if k in rebuilt {
        assert rebuilt[k][0] in where;
      }
    }
    forall k | k in cells ensures multiset(cells[k]) == multiset(rebuilt[k]) {
      forall id: u16 ensures multiset(cells[k])[id] == multiset(rebuilt[k])[id] {
        UniqueMultiset(cells[k], id);
        UniqueMultiset(rebuilt[k], id);
        assert id in cells[k] <==> id in where && where[id] == k;
        assert id in rebuilt[k] <==> id in where && where[id] == k;
      }
    }
  }

  lemma SwapEraseUnique(s: seq<u16>, e: nat)
    requires Unique(s) && e < |s|
    ensures Unique(SwapErase(s, e))
    ensures forall x :: x in SwapErase(s, e) <==> x in s && x != s[e]
  {
    var r := SwapErase(s, e);
    forall x | x in s && x != s[e] ensures x in r {
      var i :| 0 <= i < |s| && s[i] == x;
      assert r[if i == |s| - 1 then e else i] == x;
    }
  }

  class SpatialGrid {
    const cell: real
    var cells: Cells
    var where: Where

    ghost predicate Valid()
      reads this
    {
      cell > 0.0 && Inverse(cells, where)
    }

    constructor (cell: real)
      requires cell > 0.0
      ensures Valid() && this.cell == cell && where == map[]
    {
      this.cell := cell;
      cells, where := map[], map[];
    }

    /** Takes the id out of the cell it is filed in; an emptied cell disappears. */
    method EraseFromCell(k: Key, id: u16)
      requires Valid() && id in where && where[id] == k
      modifies this`cells
      ensures Inverse(cells, where - {id})
    {
      if k !in cells { return; }
      var vec := cells[k];
      var e := 0;
      while e < |vec| && vec[e] != id
        invariant 0 <= e <= |vec| && id !in vec[..e]
      {
        e := e + 1;
      }
      if e < |vec| {
        SwapEraseUnique(vec, e);
        vec := SwapErase(vec, e);
      }
      cells := if vec == [] then cells - {k} else cells[k := vec];
    }

    /** Files an id that is in no cell. */
    method FileUnder(id: u16, k: Key)
      requires id !in where && Inverse(cells, where)
      modifies this
      ensures Inverse(cells, where) && where == old(where)[id := k]
    {
      var vec := if k in cells then cells[k] else [];
      assert id !in vec;
      where := where[id := k];
      cells := cells[k := vec + [id]];
      assert (vec + [id])[|vec|] == id;
    }

    method Update(p: Player)
      requires Valid()
      modifies this
      ensures Valid() && where == old(where)[p.id := KeyFor(p, cell)]
    {
      var k := KeyFor(p, cell);
      if p.id in where {
        if where[p.id] == k { return; }
        EraseFromCell(where[p.id], p.id);
        where := where - {p.id};
      }
      FileUnder(p.id, k);
    }

    method Remove(id: u16)
      requires Valid()
      modifies this
      ensures Valid() && where == old(where) - {id}
    {
      if id !in where {
        assert where - {id} == where;
        return;
      }
      EraseFromCell(where[id], id);
      where := where - {id};
    }

    method Rebuild(players: Players)
      requires cell > 0.0
      modifies this
      ensures Valid()
      ensures where == map id | id in players :: KeyFor(players[id], cell)
    {
      cells, where := map[], map[];
      var todo := players.Keys;
      while todo != {}
        invariant todo <= players.Keys && Inverse(cells, where)
        invariant where == map id | id in players && id !in todo :: KeyFor(players[id], cell)
        decreases todo
      {
        var id :| id in todo;
        FileUnder(id, KeyFor(players[id], cell));
        todo := todo - {id};
      }
    }

    /** The placed ids of one cell, except the asker's own. */
    method QueryCell(k: Key, self: u16) returns (out: seq<u16>)
      requires Valid()
      ensures Unique(out)
      ensures forall id :: id in out <==> id in where && id != self && where[id] == k
    {
      out := [];
      if k !in cells { return; }
      var vec := cells[k];
      for i := 0 to |vec|
        invariant Unique(out)
        invariant forall id :: id in out <==> id in vec[..i] && id != self
      {
        assert vec[i] !in vec[..i];
        if vec[i] != self {
          out := out + [vec[i]];
        }
      }
      assert vec[..|vec|] == vec;
    }

    /** A column of cells. */
    method QueryColumn(interior: u16, vworld: u16, cx: int, cy: int, span: int, self: u16)
      returns (out: seq<u16>)
      requires Valid()
      ensures Unique(out)
      ensures forall id :: id in out <==>
                             id in where && id != self && InColumn(where[id], interior, vworld, cx, cy, -span, span)
    {
      out := [];
      var dy := -span;
      while dy <= span
        invariant if span >= 0 then dy <= span + 1 else dy == -span
        invariant Unique(out)
        invariant forall id ::
          id in out <==>
          id in where && id != self && InColumn(where[id], interior, vworld, cx, cy, -span, dy - 1)
        decreases span - dy
      {
        var more := QueryCell(Key(interior, vworld, cx, cy + dy), self);
        UniqueAppend(out, more);
        out := out + more;
        dy := dy + 1;
      }
    }

    /** Everyone placed within `radius`, rounded up to whole cells, in the asker's dimension. */
    method QueryNeighbours(who: Player, radius: real) returns (out: seq<u16>)
      requires Valid()
      ensures Unique(out)
      ensures forall id :: id in out <==>
                             id in where && id != who.id && InSquare(where[id], KeyFor(who, cell), Span(radius, cell))
    {
      var span := Span(radius, cell);
      var here := KeyFor(who, cell);
      out := [];
      var dx := -span;
      while dx <= span
        invariant span >= 0 ==> dx <= span + 1
        invariant Unique(out)
        invariant forall id ::
          id in out <==>
          id in where && id != who.id && InSquare(where[id], here, span) && where[id].cx < here.cx + dx
        decreases span - dx
      {
        var more := QueryColumn(here.interior, here.vworld, here.cx + dx, here.cy, span, who.id);
        UniqueAppend(out, more);
        out := out + more;
        dx := dx + 1;
      }
    }
  }

  predicate InColumn(k: Key, interior: u16, vworld: u16, cx: int, cy: int, lo: int, hi: int) {
    k.interior == interior && k.vworld == vworld && k.cx == cx && lo <= k.cy - cy <= hi
  }

  predicate InSquare(k: Key, here: Key, span: int) {
    && k.interior == here.interior && k.vworld == here.vworld
    && -span <= k.cx - here.cx <= span && -span <= k.cy - here.cy <= span
  }

  lemma UniqueAppend(a: seq<u16>, b: seq<u16>)
    requires Unique(a) && Unique(b)
    requires forall x :: x in a ==> x !in b
    ensures Unique(a + b)
  {
    forall i, j | 0 <= i < j < |a + b| ensures (a + b)[i] != (a + b)[j] {
      if i < |a| <= j {
        assert a[i] in a && b[j - |a|] in b;
      }
    }
  }
}
