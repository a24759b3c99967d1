/**
 * What callers of `nr::Vector` can rely on, stated over several
 * operations: copies and assignments never share storage with their
 * source, and the printed form of a small vector.
 */
module VectorLaws {
  import opened Wrappers
  import opened Vectors
  import Render

  /** Distinct vectors own distinct buffers. */
  ghost predicate Disjoint<T(0)>(a: Vector<T>, b: Vector<T>)
    reads a, b
  {
    a != b && (a.data == null || a.data != b.data)
  }

  /**
   * Copy-construct `c` from `v`, then write `x` at `i` of the copy: the
   * copy sees the write, and the original (which this method may not
   * modify) keeps its elements.
   */
  method CopyThenWrite<T(0)>(v: Vector<T>, i: int, x: T) returns (c: Vector<T>, r: Outcome<Error>)
    requires v.Valid()
    ensures c.Valid() && v.Valid() && c != v
    ensures r.Pass? <==> 0 <= i < v.size
    ensures c.Elements() == if r.Pass? then v.Elements()[i := x] else v.Elements()
  {
    c := new Vector.Copy(v);
    r := c.Put(i, x, true);
  }

  /**
   * Assign `b` to `a`, then write `x` at `i` of `a`: `b` keeps its size and
   * elements, because the buffer `a` writes to is either the one it already
   * owned or a fresh one.
   */
  method AssignThenWrite<T(0)>(a: Vector<T>, b: Vector<T>, i: int, x: T) returns (r: Outcome<Error>)
    requires a.Valid() && b.Valid() && Disjoint(a, b)
    modifies a, a.data
    ensures a.Valid() && b.Valid() && Disjoint(a, b)
    ensures b.size == old(b.size) && b.Elements() == old(b.Elements())
    ensures r.Pass? <==> 0 <= i < b.size
    ensures a.Elements() == if r.Pass? then b.Elements()[i := x] else b.Elements()
  {
    a.Assign(b);
    r := a.Put(i, x, true);
  }

  /** `Vector<int>(3, {1, 2, 3})` prints `[1 2 3]` and a newline. */
  method PrintExample() returns (out: string)
    ensures out == "[1 2 3]\n"
  {
    var src := new int[3];
    src[0], src[1], src[2] := 1, 2, 3;
    var v := new Vector.FromArray(3, src);
    out := v.Print(Render.Decimal);
    assert v.Elements() == [1, 2, 3];
    assert Render.Shown(v.Elements(), Render.Decimal) == ["1", "2", "3"];
    assert Render.Join(["1", "2", "3"]) == Render.Join(["1", "2"]) + " " + "3";
    assert Render.Join(["1", "2"]) == Render.Join(["1"]) + " " + "2";
  }

  /**
   * The printed text of any non-empty `Vector<int>` reads back, field by
   * field, as the decimal forms of its elements.
   */
  lemma IntRoundTrip(elems: seq<int>)
    requires elems != []
    ensures var text := Render.Rendered(elems, Render.Decimal);
      |text| >= 3 && text[0] == '[' && text[|text| - 2..] == "]\n" &&
      Render.Split(text[1..|text| - 2]) == Render.Shown(elems, Render.Decimal)
  {
    Render.RenderedRoundTrip(elems, Render.Decimal);
  }
}
