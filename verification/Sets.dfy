// Finite sets: stretches of the integers, and sizes of parts.
module Sets {

  function Range(low: int, high: int): (s: set<int>)
    ensures forall t :: t in s <==> low <= t < high
    ensures |s| == if low < high then high - low else 0
    decreases high - low
  {
    if low >= high then {} else Range(low, high - 1) + {high - 1}
  }

  // A part of a finite set is no larger.
  lemma {:induction false} SubsetSize<T>(a: set<T>, b: set<T>)
    requires a <= b
    ensures |a| <= |b|
  {
    if a != {} {
      var x :| x in a;
      SubsetSize(a - {x}, b - {x});
    }
  }
}
