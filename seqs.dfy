/** Sequence facts: order-preserving subsequences and `Array.from(new Set(xs))`. */
module Seqs {

  predicate NoDuplicates<T(==)>(s: seq<T>) {
    forall i, j :: 0 <= i < j < |s| ==> s[i] != s[j]
  }

  /** `a` is `b` with some elements dropped and the rest kept in order. */
  predicate IsSubsequence<T(==)>(a: seq<T>, b: seq<T>)
    decreases |b|
  {
    if a == [] then true
    else if b == [] then false
    else if a[0] == b[0] then IsSubsequence(a[1..], b[1..])
    else IsSubsequence(a, b[1..])
  }

  /** Index of the first occurrence of `x` in `s`. */
  function FirstIndex<T(==)>(s: seq<T>, x: T): (k: nat)
    requires x in s
    ensures k < |s| && s[k] == x && x !in s[..k]
  {
    if s[0] == x then 0 else 1 + FirstIndex(s[1..], x)
  }

  /**
   * Walks `s` left to right keeping each element the first time it is met, with
   * `seen` the elements already kept: the insertion order of a JavaScript `Set`.
   */
  function DedupFrom<T(==)>(s: seq<T>, seen: set<T>): seq<T> {
    if s == [] then []
    else if s[0] in seen then DedupFrom(s[1..], seen)
    else [s[0]] + DedupFrom(s[1..], seen + {s[0]})
  }

  /** `Array.from(new Set(s))`. */
  function Dedup<T(==)>(s: seq<T>): seq<T> {
    DedupFrom(s, {})
  }

  lemma {:induction false} DedupFromMembers<T>(s: seq<T>, seen: set<T>)
    ensures forall x :: x in DedupFrom(s, seen) <==> x in s && x !in seen
  {
    if s != [] {
      if s[0] in seen {
        DedupFromMembers(s[1..], seen);
      } else {
        DedupFromMembers(s[1..], seen + {s[0]});
      }
    }
  }

  lemma {:induction false} DedupFromDistinct<T>(s: seq<T>, seen: set<T>)
    ensures NoDuplicates(DedupFrom(s, seen))
  {
    if s != [] {
      if s[0] in seen {
        DedupFromDistinct(s[1..], seen);
      } else {
        var rest := DedupFrom(s[1..], seen + {s[0]});
        DedupFromDistinct(s[1..], seen + {s[0]});
        DedupFromMembers(s[1..], seen + {s[0]});
        var r := [s[0]] + rest;
        forall i, j | 0 <= i < j < |r| ensures r[i] != r[j] {
          if i > 0 { assert r[i] == rest[i - 1] && r[j] == rest[j - 1]; }
          else { assert r[j] == rest[j - 1] && r[j] in rest; }
        }
      }
    }
  }

  lemma {:induction false} DedupFromSubsequence<T>(s: seq<T>, seen: set<T>)
    ensures IsSubsequence(DedupFrom(s, seen), s)
  {
    if s != [] {
      if s[0] in seen {
        DedupFromSubsequence(s[1..], seen);
        DropHead(DedupFrom(s[1..], seen), s);
      } else {
        DedupFromSubsequence(s[1..], seen + {s[0]});
        var r := [s[0]] + DedupFrom(s[1..], seen + {s[0]});
        assert r[1..] == DedupFrom(s[1..], seen + {s[0]});
      }
    }
  }

  /** A subsequence of the tail is a subsequence of the whole. */
  lemma {:induction false} DropHead<T>(a: seq<T>, b: seq<T>)
    requires b != [] && IsSubsequence(a, b[1..])
    ensures IsSubsequence(a, b)
    decreases |b|, 0
  {
    if a != [] && a[0] == b[0] {
      SubsequenceTail(a, b[1..]);
    }
  }

  /** Dropping the head of a subsequence keeps it a subsequence. */
  lemma {:induction false} SubsequenceTail<T>(a: seq<T>, b: seq<T>)
    requires a != [] && IsSubsequence(a, b)
    ensures IsSubsequence(a[1..], b)
    decreases |b|, 1
  {
    if a[0] != b[0] {
      SubsequenceTail(a, b[1..]);
    }
    if a[1..] != [] {
      DropHead(a[1..], b);
    }
  }

  /** The elements of `r` lie in `s` and appear in the order of their first occurrence there. */
  predicate InFirstOccurrenceOrder<T(==)>(r: seq<T>, s: seq<T>) {
    && (forall k :: 0 <= k < |r| ==> r[k] in s)
    && (forall i, j :: 0 <= i < j < |r| ==> FirstIndex(s, r[i]) < FirstIndex(s, r[j]))
  }

  /** Past a different head, the first occurrence moves one place. */
  lemma FirstIndexTail<T>(s: seq<T>, y: T)
    requires s != [] && y in s[1..] && s[0] != y
    ensures y in s && FirstIndex(s, y) == 1 + FirstIndex(s[1..], y)
  {
    assert s == [s[0]] + s[1..];
  }

  /** An order by first occurrence in the tail is one in the whole, for elements other than the head. */
  lemma OrderShift<T>(r: seq<T>, s: seq<T>)
    requires s != [] && InFirstOccurrenceOrder(r, s[1..])
    requires forall k :: 0 <= k < |r| ==> r[k] != s[0]
    ensures InFirstOccurrenceOrder(r, s)
  {
    forall k | 0 <= k < |r| ensures r[k] in s && FirstIndex(s, r[k]) == 1 + FirstIndex(s[1..], r[k]) {
      FirstIndexTail(s, r[k]);
    }
  }

  /** The head of `s` may be put in front of such an order. */
  lemma OrderCons<T>(r: seq<T>, s: seq<T>)
    requires s != [] && InFirstOccurrenceOrder(r, s)
    requires forall k :: 0 <= k < |r| ==> r[k] != s[0]
    ensures InFirstOccurrenceOrder([s[0]] + r, s)
  {
    var r' := [s[0]] + r;
    forall k | 0 <= k < |r| ensures FirstIndex(s, r[k]) > 0 {
    }
    forall i, j | 0 <= i < j < |r'| ensures FirstIndex(s, r'[i]) < FirstIndex(s, r'[j]) {
      assert r'[j] == r[j - 1];
      if i > 0 {
        assert r'[i] == r[i - 1];
      }
    }
  }

  /** Kept elements appear in the order of their first occurrence in the input. */
  lemma {:induction false} DedupFromFirstOccurrenceOrder<T>(s: seq<T>, seen: set<T>)
    ensures InFirstOccurrenceOrder(DedupFrom(s, seen), s)
  {
    if s != [] {
      var seen' := if s[0] in seen then seen else seen + {s[0]};
      var rest := DedupFrom(s[1..], seen');
      DedupFromFirstOccurrenceOrder(s[1..], seen');
      DedupFromMembers(s[1..], seen');
      assert forall k :: 0 <= k < |rest| ==> rest[k] in rest;
      OrderShift(rest, s);
      if s[0] !in seen {
        OrderCons(rest, s);
      }
    }
  }

  /** The de-duplication of a list without repeats is that list. */
  lemma {:induction false} DedupFromDistinctInput<T>(s: seq<T>, seen: set<T>)
    requires NoDuplicates(s)
    requires forall i :: 0 <= i < |s| ==> s[i] !in seen
    ensures DedupFrom(s, seen) == s
  {
    if s != [] {
      assert s == [s[0]] + s[1..];
      forall i | 0 <= i < |s[1..]| ensures s[1..][i] !in seen + {s[0]} {
        assert s[1..][i] == s[i + 1];
      }
      DedupFromDistinctInput(s[1..], seen + {s[0]});
    }
  }

  /** The whole contract of `Array.from(new Set(s))`. */
  lemma DedupSpec<T>(s: seq<T>)
    ensures forall x :: x in Dedup(s) <==> x in s
    ensures NoDuplicates(Dedup(s))
    ensures IsSubsequence(Dedup(s), s)
    ensures forall i, j :: 0 <= i < j < |Dedup(s)| ==> FirstIndex(s, Dedup(s)[i]) < FirstIndex(s, Dedup(s)[j])
    ensures NoDuplicates(s) ==> Dedup(s) == s
  {
    DedupFromMembers(s, {});
    DedupFromDistinct(s, {});
    DedupFromSubsequence(s, {});
    DedupFromFirstOccurrenceOrder(s, {});
    if NoDuplicates(s) {
      DedupFromDistinctInput(s, {});
    }
  }

  /** De-duplicating twice is de-duplicating once. */
  lemma DedupIdempotent<T>(s: seq<T>)
    ensures Dedup(Dedup(s)) == Dedup(s)
  {
    DedupSpec(s);
    DedupSpec(Dedup(s));
  }
}
