/** The host's ring context (shared/ring.c). */
module Ring {
  import opened Words
  import opened Indices

  class RingContext {
    var front: Word
    var back: Word
    const size: Word

    ghost predicate Valid()
      reads this
    {
      front < size && back < size
    }

    constructor (size: Word)
      requires size > 0
      ensures Valid() && front == 0 && back == 0 && this.size == size
    {
      this.back := 0;
      this.front := 0;
      this.size := size;
    }

    /** ringInitContext: `size` is an `int` that is stored unsigned; no ring has size 0. */
    static method InitContext(size: int) returns (ctx: RingContext?)
      requires -0x8000_0000 <= size < 0x8000_0000
      ensures ctx == null <==> size == 0
      ensures ctx != null ==> fresh(ctx) && ctx.Valid() && ctx.front == 0 && ctx.back == 0
      ensures ctx != null ==> ctx.size == if size < 0 then size + 0x1_0000_0000 else size
    {
      if size == 0 {
        return null;
      }
      ctx := new RingContext(Wrap(size));
    }

    method HasFree() returns (r: bool)
      requires Valid()
      ensures r <==> Increment(front, size) != back
    {
      var fplus := Wrap(front + 1);
      if fplus >= size {
        fplus := 0;
      }
      r := fplus != back;
    }

    method HasRemaining() returns (r: bool)
      ensures r <==> front != back
    {
      r := front != back;
    }

    method IncFront()
      requires Valid()
      modifies this`front
      ensures Valid() && front == Increment(old(front), size)
    {
      front := Wrap(front + 1);
      if front >= size {
        front := 0;
      }
    }

    method IncBack()
      requires Valid()
      modifies this`back
      ensures Valid() && back == Increment(old(back), size)
    {
      back := Wrap(back + 1);
      if back >= size {
        back := 0;
      }
    }

    method Reset()
      requires Valid()
      modifies this
      ensures Valid() && front == 0 && back == 0
    {
      front := 0;
      back := 0;
    }
  }
}
