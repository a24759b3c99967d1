/**
 * `nr::Vector<T>`: an owning one-dimensional container. `size` is the
 * element count exactly as constructed (a negative count is kept, as the
 * sized constructors store it, with no buffer); `data` is the owned buffer,
 * `null` whenever `size <= 0`.
 */
module Vectors {
  import opened Wrappers
  import Render

  /** The fault raised by a bounds-checked subscript. */
  datatype Error = IndexOutOfRange(message: string)

  const SubscriptMessage: string := "Vector subscript out of bounds"

  class Vector<T(0)> {
    var size: int
    var data: array?<T>

    /** The buffer exists exactly for a positive size and holds `size` elements. */
    ghost predicate Valid()
      reads this
    {
      (size > 0 ==> data != null && data.Length == size) &&
      (size <= 0 ==> data == null)
    }

    /** The elements, in order; empty when there is no buffer. */
    ghost function Elements(): seq<T>
      reads this, data
      requires Valid()
    {
      if data == null then [] else data[..]
    }

    /** `Vector()`: no elements and no buffer. */
    constructor ()
      ensures Valid() && size == 0 && data == null && Elements() == []
    {
      size := 0;
      data := null;
    }

    /** `Vector(n)`: a buffer of `n` elements of unspecified value when `n > 0`. */
    constructor Sized(n: int)
      ensures Valid() && size == n
      ensures |Elements()| == if n > 0 then n else 0
      ensures data == null || fresh(data)
    {
      size := n;
      if n > 0 {
        data := new T[n];
      } else {
        data := null;
      }
    }

    /** `Vector(n, a)`: `n` copies of `a`; no buffer when `n <= 0`. */
    constructor Filled(n: int, a: T)
      ensures Valid() && size == n
      ensures Elements() == if n > 0 then seq(n, _ => a) else []
      ensures data == null || fresh(data)
    {
      size := n;
      var d: array?<T> := null;
      if n > 0 {
        d := new T[n];
        for i := 0 to n
          invariant forall k :: 0 <= k < i ==> d[k] == a
        {
          d[i] := a;
        }
      }
      data := d;
    }

    /**
     * `Vector(n, a)` from a raw array: the first `n` elements of `src`,
     * positionally. The caller must supply at least `n` of them.
     */
    constructor FromArray(n: int, src: array?<T>)
      requires n > 0 ==> src != null && n <= src.Length
      ensures Valid() && size == n
      ensures Elements() == if n > 0 then src[..n] else []
      ensures data == null || fresh(data)
    {
      size := n;
      var d: array?<T> := null;
      if n > 0 {
        d := new T[n];
        for i := 0 to n
          invariant d[..i] == src[..i]
        {
          d[i] := src[i];
        }
      }
      data := d;
    }

    /** The copy constructor: same size, equal elements, storage of its own. */
    constructor Copy(rhs: Vector<T>)
      requires rhs.Valid()
      ensures Valid() && size == rhs.size && Elements() == rhs.Elements()
      ensures data == null || fresh(data)
    {
      size := rhs.size;
      var d: array?<T> := null;
      if rhs.size > 0 {
        d := new T[rhs.size];
        for i := 0 to rhs.size
          invariant d[..i] == rhs.data[..i]
        {
          d[i] := rhs.data[i];
        }
      }
      data := d;
    }

    /**
     * `operator=`: afterwards this vector has the size and elements `rhs`
     * had, and `rhs` is unchanged. The buffer is kept when the sizes already
     * agree and replaced by a fresh one (or none) otherwise; assigning a
     * vector to itself changes nothing.
     */
    method Assign(rhs: Vector<T>)
      requires Valid() && rhs.Valid()
      modifies this, data
      ensures Valid() && rhs.Valid()
      ensures size == old(rhs.size) && Elements() == old(rhs.Elements())
      ensures rhs.size == old(rhs.size) && rhs.Elements() == old(rhs.Elements())
      ensures old(size) == old(rhs.size) ==> data == old(data)
      ensures old(size) != old(rhs.size) ==> data == null || fresh(data)
    {
      if this != rhs {
        if size != rhs.size {
          size := rhs.size;
          if size > 0 {
            data := new T[size];
          } else {
            data := null;
          }
        }
        if size > 0 {
          ghost var src := rhs.Elements();
          var d := data;
          for i := 0 to size
            modifies d
            invariant rhs.data[..] == src
            invariant d[..i] == src[..i]
          {
            d[i] := rhs.data[i];
          }
        }
      }
    }

    /**
     * `operator[]` read through. With bounds checking on, the access fails
     * exactly when `i` lies outside `[0, size)`; with it off, an index out of
     * range is undefined behaviour, so the caller must keep `i` in range.
     */
    method At(i: int, checkBounds: bool) returns (r: Result<T, Error>)
      requires Valid()
      requires !checkBounds ==> 0 <= i < size
      ensures r.Failure? <==> i < 0 || i >= size
      ensures r.Success? ==> r.value == Elements()[i]
      ensures r.Failure? ==> r.error == IndexOutOfRange(SubscriptMessage)
    {
      if checkBounds && (i < 0 || i >= size) {
        return Failure(IndexOutOfRange(SubscriptMessage));
      }
      r := Success(data[i]);
    }

    /**
     * `operator[]` written through: on success only element `i` changes;
     * on failure nothing does.
     */
    method Put(i: int, x: T, checkBounds: bool) returns (r: Outcome<Error>)
      requires Valid()
      requires !checkBounds ==> 0 <= i < size
      modifies data
      ensures Valid()
      ensures r.Fail? <==> i < 0 || i >= size
      ensures r.Fail? ==> r.error == IndexOutOfRange(SubscriptMessage)
      ensures Elements() == if r.Pass? then old(Elements())[i := x] else old(Elements())
    {
      if checkBounds && (i < 0 || i >= size) {
        return Fail(IndexOutOfRange(SubscriptMessage));
      }
      data[i] := x;
      r := Pass;
    }

    /** `size()`: the stored count; it is the number of elements whenever positive. */
    function Size(): (n: int)
      reads this, data
      requires Valid()
      ensures |Elements()| == if n > 0 then n else 0
    {
      size
    }

    /**
     * `print()`: the text written for this vector, with `show` giving each
     * element's stream form.
     */
    method Print(show: T -> string) returns (out: string)
      requires Valid()
      ensures out == Render.Rendered(Elements(), show)
    {
      out := "";
      var n := size;
      if n > 0 && data != null {
        ghost var elems := Elements();
        out := "[" + show(data[0]);
        assert Render.Shown(elems[..1], show) == [show(data[0])];
        for i := 1 to n
          invariant out == "[" + Render.Join(Render.Shown(elems[..i], show))
        {
          ghost var before := Render.Shown(elems[..i], show);
          ghost var after := Render.Shown(elems[..i + 1], show);
          assert after[..i] == before;
          assert after[i] == show(data[i]);
          out := out + " " + show(data[i]);
        }
        assert elems[..n] == elems;
        out := out + "]\n";
      }
    }
  }
}
