/** Byte-wise string order, the order of job identifiers in both stores. */
module Ordering {
  predicate Less(a: string, b: string) {
    if b == [] then false
    else if a == [] then true
    else a[0] < b[0] || (a[0] == b[0] && Less(a[1..], b[1..]))
  }

  lemma {:induction false} LessTransitive(a: string, b: string, c: string)
    requires Less(a, b) && Less(b, c)
    ensures Less(a, c)
  {
    if a != [] && a[0] == b[0] == c[0] {
      LessTransitive(a[1..], b[1..], c[1..]);
    }
  }

  lemma {:induction false} LessTotal(a: string, b: string)
    ensures Less(a, b) || a == b || Less(b, a)
    ensures !(Less(a, b) && Less(b, a))
    ensures !Less(a, a)
  {
    if a != [] && b != [] && a[0] == b[0] {
      LessTotal(a[1..], b[1..]);
      assert a == [a[0]] + a[1..] && b == [b[0]] + b[1..];
    }
    LessIrreflexive(a);
  }

  lemma {:induction false} LessIrreflexive(a: string)
    ensures !Less(a, a)
  {
    if a != [] {
      LessIrreflexive(a[1..]);
    }
  }
}

/** The claim queue: the earliest creation time first, ties broken by identifier. */
module ClaimQueue {
  import opened Domain
  import opened Ordering

  type Queue = map<string, nat>

  predicate Before(t: nat, a: string, u: nat, b: string) {
    t < u || (t == u && Less(a, b))
  }

  ghost predicate IsFirst(q: Queue, id: string) {
    id in q && forall other <- q :: other != id ==> Before(q[id], id, q[other], other)
  }

  ghost function First(q: Queue): (first: Option<string>)
    ensures first.None? <==> q == map[]
    ensures first.Some? ==> IsFirst(q, first.value)
  {
    if q == map[] then None
    else
      FirstExists(q);
      var id :| IsFirst(q, id);
      Some(id)
  }

  lemma {:induction false} FirstExists(q: Queue)
    requires q != map[]
    ensures exists id :: IsFirst(q, id)
    decreases |q|
  {
    var any :| any in q;
    var rest := q - {any};
    assert forall other <- q :: other == any || other in rest;
    if rest == map[] {
      assert IsFirst(q, any);
    } else {
      FirstExists(rest);
      var id :| IsFirst(rest, id);
      LessTotal(id, any);
      if Before(q[id], id, q[any], any) {
        assert IsFirst(q, id);
      } else {
        forall other <- q | other != any
          ensures Before(q[any], any, q[other], other)
        {
          if other != id && q[any] == q[id] == q[other] {
            LessTransitive(any, id, other);
          }
        }
        assert IsFirst(q, any);
      }
    }
  }

  // The first candidate is the one created first, of several the least.
  lemma FirstIsOldest(q: Queue, id: string, other: string)
    requires IsFirst(q, id) && other in q && other != id
    ensures q[id] < q[other] || (q[id] == q[other] && Less(id, other))
  {
  }

  lemma FirstUnique(q: Queue, a: string, b: string)
    requires IsFirst(q, a) && IsFirst(q, b)
    ensures a == b
  {
    LessTotal(a, b);
  }

  // ORDER BY created_at, id LIMIT 1.
  method SelectFirst(q: Queue) returns (first: Option<string>)
    ensures first == First(q)
  {
    var todo := q.Keys;
    first := None;
    while todo != {}
      invariant todo <= q.Keys
      invariant first.None? <==> todo == q.Keys
      invariant first.Some? ==> first.value in q.Keys - todo
      invariant first.Some? ==> forall o <- q.Keys - todo :: o != first.value ==> Before(q[first.value], first.value, q[o], o)
      decreases todo
    {
      var id :| id in todo;
      if first.None? {
        first := Some(id);
      } else {
        var best := first.value;
        LessTotal(id, best);
        if Before(q[id], id, q[best], best) {
          forall o <- q.Keys - todo | o != best
            ensures Before(q[id], id, q[o], o)
          {
            if q[id] == q[best] == q[o] { LessTransitive(id, best, o); }
          }
          first := Some(id);
        }
      }
      todo := todo - {id};
    }
    if first.Some? {
      assert IsFirst(q, first.value);
      FirstUnique(q, first.value, First(q).value);
    }
  }
}
