/** Facts about finite sets that the pigeonhole arguments of the suffix searches rest on. */
module Finite {

  lemma SubsetSize<T>(a: set<T>, b: set<T>)
    requires a <= b
    ensures |a| <= |b|
    decreases b
  {
    if a != {} {
      var x :| x in a;
      SubsetSize(a - {x}, b - {x});
    }
  }

  /** A set of distinct members of `room` that misses some member leaves space for one more. */
  lemma RoomForOneMore<T>(seen: set<T>, x: T, room: set<T>)
    requires seen <= room && x in room && x !in seen
    ensures |seen + {x}| == |seen| + 1 <= |room|
  {
    SubsetSize(seen + {x}, room);
  }

  lemma ImageSize<S, T>(s: set<S>, f: S -> T, image: set<T>)
    requires image == set x | x in s :: f(x)
    requires forall x, y :: x in s && y in s && f(x) == f(y) ==> x == y
    ensures |image| == |s|
    decreases s
  {
    if s != {} {
      var x :| x in s;
      var rest := set y | y in s - {x} :: f(y);
      assert image == rest + {f(x)};
      ImageSize(s - {x}, f, rest);
    }
  }

  lemma DisjointUnionSize<T>(a: set<T>, b: set<T>)
    requires a !! b
    ensures |a + b| == |a| + |b|
  {
  }

  /** A worklist step: one element goes from what is left to what is done. */
  lemma MoveOne<T>(done: set<T>, todo: set<T>, i: T)
    requires i in todo && done !! todo
    ensures (done + {i}) + (todo - {i}) == done + todo && (done + {i}) !! (todo - {i})
    ensures |todo - {i}| == |todo| - 1 && todo - {i} < todo
    ensures i !in done
  {
  }
}
