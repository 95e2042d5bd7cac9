/** The queue of pending errors of eabase/fiber/session.cc: a ring of N entries that spills into
    a deque, so that memory is allocated only for the entries past N. */
module SmallQueue {

  /** The `size` entries of the ring `c` from `begin` on. */
  function Ring<T>(c: seq<T>, begin: nat, size: nat): (r: seq<T>)
    requires begin < |c| && size <= |c|
    ensures |r| == size
  {
    seq(size, i requires 0 <= i < size => c[if begin + i < |c| then begin + i else begin + i - |c|])
  }

  lemma RingPush<T>(c: seq<T>, begin: nat, size: nat, val: T)
    requires begin < |c| && size < |c|
    ensures var tail := if begin + size >= |c| then begin + size - |c| else begin + size;
            Ring(c[tail := val], begin, size + 1) == Ring(c, begin, size) + [val]
  {}

  lemma RingPop<T>(c: seq<T>, begin: nat, size: nat)
    requires begin < |c| && 0 < size <= |c|
    ensures Ring(c, begin, size) == [c[begin]] + Ring(c, if begin + 1 >= |c| then begin + 1 - |c| else begin + 1, size - 1)
  {}

  class SmallQueue<T(0)> {
    const c: array<T>
    var begin: nat
    var size: nat
    var full: seq<T>

    ghost predicate Valid()
      reads this, c
    {
      begin < c.Length && size <= c.Length
    }

    /** First in, first out: the ring, then the deque. */
    ghost function Contents(): seq<T>
      requires Valid()
      reads this, c
    {
      Ring(c[..], begin, size) + full
    }

    constructor (n: nat)
      requires n > 0
      ensures Valid() && Contents() == [] && fresh(c)
    {
      c := new T[n];
      begin, size, full := 0, 0, [];
    }

    method Push(val: T)
      requires Valid()
      modifies this, c
      ensures Valid() && Contents() == old(Contents()) + [val]
    {
      if full != [] {
        full := full + [val];
      } else if size < c.Length {
        var tail := begin + size;
        if tail >= c.Length {
          tail := tail - c.Length;
        }
        RingPush(c[..], begin, size, val);
        ghost var c0 := c[..];
        c[tail] := val;
        assert c[..] == c0[tail := val];
        size := size + 1;
      } else {
        full := full + [val];
      }
    }

    method Pop() returns (ok: bool, val: T)
      requires Valid()
      modifies this
      ensures Valid() && (ok <==> old(Contents()) != [])
      ensures ok ==> [val] + Contents() == old(Contents())
      ensures !ok ==> Contents() == []
    {
      ok, val := false, c[0];
      if size > 0 {
        RingPop(c[..], begin, size);
        val := c[begin];
        begin := begin + 1;
        if begin >= c.Length {
          begin := begin - c.Length;
        }
        size := size - 1;
        ok := true;
      } else if full != [] {
        val := full[0];
        full := full[1..];
        ok := true;
      }
    }

    method Empty() returns (empty: bool)
      requires Valid()
      ensures empty <==> Contents() == []
    {
      empty := size == 0 && full == [];
    }

    method Size() returns (n: nat)
      requires Valid()
      ensures n == |Contents()|
    {
      n := size + |full|;
    }

    method Clear()
      requires Valid()
      modifies this
      ensures Valid() && Contents() == []
    {
      size, begin, full := 0, 0, [];
    }
  }

  lemma RotateOne<T>(all: seq<T>, i: nat, front: T, rest: seq<T>)
    requires i < |all| && [front] + rest == all[i..] + all[..i]
    ensures front == all[i] && rest + [front] == all[i + 1..] + all[..i + 1] && all[..i] + [front] == all[..i + 1]
  {
    assert front == ([front] + rest)[0] == all[i];
    assert rest == ([front] + rest)[1..] == all[i + 1..] + all[..i];
  }

  /** The loop of id_status: popping each entry and pushing it back copies the queue and leaves
      it as it was. */
  method CopyByRotation<T(0)>(q: SmallQueue<T>, copy: SmallQueue<T>)
    requires q.Valid() && copy.Valid() && q != copy && q.c != copy.c
    modifies q, q.c, copy, copy.c
    ensures q.Valid() && copy.Valid()
    ensures q.Contents() == old(q.Contents()) && copy.Contents() == old(copy.Contents() + q.Contents())
  {
    ghost var all := q.Contents();
    var size := q.Size();
    for i := 0 to size
      invariant q.Valid() && copy.Valid() && size == |all|
      invariant q.Contents() == all[i..] + all[..i]
      invariant copy.Contents() == old(copy.Contents()) + all[..i]
    {
      Rotate(q, copy, all, i);
    }
    assert all[size..] == [] && all[..size] == all;
  }

  method Rotate<T(0)>(q: SmallQueue<T>, copy: SmallQueue<T>, ghost all: seq<T>, ghost i: nat)
    requires q.Valid() && copy.Valid() && q != copy && q.c != copy.c && i < |all| && q.Contents() == all[i..] + all[..i]
    modifies q, q.c, copy, copy.c
    ensures q.Valid() && copy.Valid()
    ensures q.Contents() == all[i + 1..] + all[..i + 1] && copy.Contents() == old(copy.Contents()) + [all[i]]
    ensures all[..i + 1] == all[..i] + [all[i]]
  {
    var ok, front := q.Pop();
    RotateOne(all, i, front, q.Contents());
    q.Push(front);
    copy.Push(front);
  }
}
