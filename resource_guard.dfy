/**
 * The null-checking, auto-freeing guards around pointers the X client
 * library hands out.  `XLibPtr` owns one non-null pointer and calls `XFree`
 * on it when dropped.  `XLibMut` is a cloneable handle: every clone shares
 * one reference-counted cell holding the `XLibPtr`, so the pointer is freed
 * when the last clone is dropped, and only then.
 */
module ResourceGuard {
  import opened Wrappers

  /** A raw pointer returned by the client library: null, or the address of a `T`. */
  datatype Ptr<T> = Null | NonNull(target: T)

  class XLibPtr<T> {
    /** The owned pointer. */
    const ptr: T
    /** How many times `XFree` has been called on `ptr`. */
    var frees: nat

    constructor Wrap(p: T)
      ensures ptr == p && frees == 0
    {
      ptr := p;
      frees := 0;
    }

    /** `Drop`: free the pointer. */
    method Drop()
      modifies this
      ensures frees == old(frees) + 1
    {
      frees := frees + 1;
    }
  }

  /** `XLibPtr::new`: no guard for a null pointer, otherwise a guard over that same pointer. */
  method NewXLibPtr<T>(p: Ptr<T>) returns (r: Option<XLibPtr<T>>)
    ensures r.None? <==> p.Null?
    ensures r.Some? ==> fresh(r.value) && r.value.ptr == p.target && r.value.frees == 0
  {
    if p.Null? {
      r := None;
    } else {
      var g := new XLibPtr.Wrap(p.target);
      r := Some(g);
    }
  }

  /** The shared allocation behind `Rc<RefCell<XLibPtr<T>>>`: the guard and the strong count. */
  class RcCell<T> {
    const guard: XLibPtr<T>
    /** The number of live `XLibMut` handles sharing this cell. */
    var strong: nat

    /** The pointer is freed exactly when no handle is left, and never twice. */
    ghost predicate Valid()
      reads this, guard
    {
      guard.frees == if strong == 0 then 1 else 0
    }

    constructor (g: XLibPtr<T>)
      requires g.frees == 0
      ensures guard == g && strong == 1 && Valid()
    {
      guard := g;
      strong := 1;
    }
  }

  /** `XLibMut<T>`: one handle on a shared cell. */
  datatype XLibMut<T> = XLibMut(cell: RcCell<T>)
  {
    /** `as_ref`, `as_mut_ref`, `as_ptr`, `as_mut_ptr`: the wrapped pointer. */
    function Get(): T {
      cell.guard.ptr
    }

    /** `Clone`: a second handle on the same cell. */
    method Clone() returns (c: XLibMut<T>)
      requires cell.Valid() && cell.strong > 0
      modifies cell
      ensures c == this && c.Get() == Get()
      ensures cell.strong == old(cell.strong) + 1
      ensures cell.Valid() && cell.guard.frees == 0
    {
      cell.strong := cell.strong + 1;
      c := this;
    }

    /**
     * `Drop` of one handle: the count goes down, and the pointer is freed
     * if and only if this was the last handle.
     */
    method Drop()
      requires cell.Valid() && cell.strong > 0
      modifies cell, cell.guard
      ensures cell.strong == old(cell.strong) - 1
      ensures cell.guard.frees == old(cell.guard.frees) + (if old(cell.strong) == 1 then 1 else 0)
      ensures cell.Valid()
    {
      cell.strong := cell.strong - 1;
      if cell.strong == 0 {
        cell.guard.Drop();
      }
    }
  }

  /** `XLibMut::new`: no handle for a null pointer, otherwise one handle over that same pointer. */
  method NewXLibMut<T>(p: Ptr<T>) returns (r: Option<XLibMut<T>>)
    ensures r.None? <==> p.Null?
    ensures r.Some? ==> fresh(r.value.cell) && fresh(r.value.cell.guard)
    ensures r.Some? ==> r.value.Get() == p.target && r.value.cell.strong == 1 && r.value.cell.Valid()
  {
    var g := NewXLibPtr(p);
    if g.None? {
      r := None;
    } else {
      var cell := new RcCell(g.value);
      r := Some(XLibMut(cell));
    }
  }

  /**
   * Clones share one pointer: after a clone, dropping one handle frees
   * nothing and dropping the other frees the pointer once.
   */
  method CloneThenDropBoth<T>(h: XLibMut<T>)
    requires h.cell.Valid() && h.cell.strong == 1
    modifies h.cell, h.cell.guard
    ensures h.cell.strong == 0 && h.cell.guard.frees == 1
  {
    var c := h.Clone();
    c.Drop();
    assert h.cell.guard.frees == 0;
    h.Drop();
  }
}
