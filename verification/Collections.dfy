/** Small collection vocabulary shared by the models: options, the recursive list that carries
    call arguments, and insertion-ordered sequences without duplicates. */
module Collections {

  datatype Option<+T> = None | Some(value: T)

  datatype List<+T> = Nil | Cons(head: T, tail: List<T>)

  function Elements<T(==)>(s: seq<T>): set<T> {
    set x | x in s
  }

  /** `s` without the elements of `b`, order kept. */
  function Minus<T(==)>(s: seq<T>, b: set<T>): seq<T> {
    if s == [] then []
    else if s[0] in b then Minus(s[1..], b)
    else [s[0]] + Minus(s[1..], b)
  }

  /** Appends to `order` the elements of `s` it does not hold yet, in order of first occurrence. */
  function InsertAll<T(==)>(order: seq<T>, s: seq<T>): seq<T>
    decreases s
  {
    if s == [] then order
    else InsertAll(if s[0] in order then order else order + [s[0]], s[1..])
  }

  function Dedup<T(==)>(s: seq<T>): seq<T> {
    InsertAll([], s)
  }

  ghost predicate NoDup<T>(s: seq<T>) {
    forall i, j :: 0 <= i < j < |s| ==> s[i] != s[j]
  }

  function IndexOf<T(==)>(s: seq<T>, x: T): (i: nat)
    requires x in s
    ensures i < |s| && s[i] == x
    ensures forall j :: 0 <= j < i ==> s[j] != x
  {
    if s[0] == x then 0 else 1 + IndexOf(s[1..], x)
  }

  lemma {:induction false} InMinus<T(!new)>(s: seq<T>, b: set<T>)
    ensures forall x :: x in Minus(s, b) <==> x in s && x !in b
  {
    if s != [] {
      InMinus(s[1..], b);
      assert s == [s[0]] + s[1..];
    }
  }

  lemma {:induction false} InInsertAll<T(!new)>(order: seq<T>, s: seq<T>)
    ensures forall x :: x in InsertAll(order, s) <==> x in order || x in s
    decreases s
  {
    if s != [] {
      InInsertAll(if s[0] in order then order else order + [s[0]], s[1..]);
      assert s == [s[0]] + s[1..];
    }
  }

  lemma {:induction false} InsertAllNoDup<T>(order: seq<T>, s: seq<T>)
    requires NoDup(order)
    ensures NoDup(InsertAll(order, s))
    decreases s
  {
    if s != [] {
      InsertAllNoDup(if s[0] in order then order else order + [s[0]], s[1..]);
    }
  }

  lemma {:induction false} InsertAllConcat<T>(order: seq<T>, s: seq<T>, t: seq<T>)
    ensures InsertAll(order, s + t) == InsertAll(InsertAll(order, s), t)
    decreases s
  {
    if s == [] {
      assert s + t == t;
    } else {
      assert (s + t)[1..] == s[1..] + t;
      InsertAllConcat(if s[0] in order then order else order + [s[0]], s[1..], t);
    }
  }

  /** Inserting anything keeps what was there as a prefix. */
  lemma {:induction false} InsertAllPrefix<T>(order: seq<T>, s: seq<T>)
    ensures order <= InsertAll(order, s)
    decreases s
  {
    if s != [] {
      InsertAllPrefix(if s[0] in order then order else order + [s[0]], s[1..]);
    }
  }

  /** A sequence and its deduplication are inserted alike. */
  lemma {:induction false} InsertAllDedup<T(!new)>(order: seq<T>, s: seq<T>)
    ensures InsertAll(order, Dedup(s)) == InsertAll(order, s)
    decreases |s|
  {
    if s != [] {
      var p, x := s[..|s| - 1], s[|s| - 1];
      assert s == p + [x];
      InsertAllConcat([], p, [x]);
      InsertAllConcat(order, p, [x]);
      InsertAllDedup(order, p);
      var d := Dedup(p);
      InInsertAll([], p);
      InInsertAll(order, d);
      InsertAllOne(d, x);
      InsertAllOne(InsertAll(order, p), x);
      if x !in d {
        assert Dedup(s) == d + [x];
        InsertAllConcat(order, d, [x]);
      } else {
        assert Dedup(s) == d;
      }
    }
  }

  lemma {:induction false} MinusConcat<T>(s: seq<T>, t: seq<T>, b: set<T>)
    ensures Minus(s + t, b) == Minus(s, b) + Minus(t, b)
    decreases s
  {
    if s == [] {
      assert s + t == t;
    } else {
      assert (s + t)[1..] == s[1..] + t;
      MinusConcat(s[1..], t, b);
    }
  }

  lemma {:induction false} MinusMinus<T>(s: seq<T>, a: set<T>, b: set<T>)
    ensures Minus(Minus(s, a), b) == Minus(s, a + b)
    decreases s
  {
    if s != [] {
      MinusMinus(s[1..], a, b);
      var m := Minus(s[1..], a);
      assert ([s[0]] + m)[1..] == m;
    }
  }

  lemma {:induction false} MinusNothing<T>(s: seq<T>, b: set<T>)
    requires forall x :: x in s ==> x !in b
    ensures Minus(s, b) == s
    decreases s
  {
    if s != [] {
      MinusNothing(s[1..], b);
    }
  }

  /** Deduplication commutes with removal. */
  lemma {:induction false} DedupMinus<T(!new)>(order: seq<T>, s: seq<T>, b: set<T>)
    ensures InsertAll(Minus(order, b), Minus(s, b)) == Minus(InsertAll(order, s), b)
    decreases s
  {
    if s != [] {
      var order' := if s[0] in order then order else order + [s[0]];
      DedupMinus(order', s[1..], b);
      DedupMinusStep(order, s, b);
    }
  }

  lemma MinusSnoc<T>(s: seq<T>, x: T, b: set<T>)
    ensures Minus(s + [x], b) == if x in b then Minus(s, b) else Minus(s, b) + [x]
  {
    MinusConcat(s, [x], b);
    assert [x][1..] == [];
  }

  lemma DedupMinusStep<T(!new)>(order: seq<T>, s: seq<T>, b: set<T>)
    requires s != []
    ensures var order' := if s[0] in order then order else order + [s[0]];
            InsertAll(Minus(order, b), Minus(s, b)) == InsertAll(Minus(order', b), Minus(s[1..], b))
  {
    var x, kept, m := s[0], Minus(order, b), Minus(s[1..], b);
    MinusSnoc(order, x, b);
    InMinus(order, b);
    if x !in b {
      assert Minus(s, b) == [x] + m;
      InsertAllConcat(kept, [x], m);
      InsertAllOne(kept, x);
    }
  }

  lemma InsertAllOne<T>(order: seq<T>, x: T)
    ensures InsertAll(order, [x]) == if x in order then order else order + [x]
  {
    var order' := if x in order then order else order + [x];
    assert InsertAll(order, [x]) == InsertAll(order', [x][1..]);
  }

  /** Same elements in the same order of first occurrence. */
  ghost predicate SameFirsts<T>(s: seq<T>, t: seq<T>) {
    Dedup(s) == Dedup(t)
  }

  lemma SameFirstsConcat<T(!new)>(s: seq<T>, s': seq<T>, t: seq<T>, t': seq<T>)
    requires SameFirsts(s, s') && SameFirsts(t, t')
    ensures SameFirsts(s + t, s' + t')
  {
    InsertAllConcat([], s, t);
    InsertAllConcat([], s', t');
    InsertAllDedup(Dedup(s), t);
    InsertAllDedup(Dedup(s), t');
  }

  lemma SameFirstsMinus<T(!new)>(s: seq<T>, t: seq<T>, b: set<T>)
    requires SameFirsts(s, t)
    ensures SameFirsts(Minus(s, b), Minus(t, b))
  {
    DedupMinus([], s, b);
    DedupMinus([], t, b);
  }

  lemma SameFirstsElements<T(!new)>(s: seq<T>, t: seq<T>)
    requires SameFirsts(s, t)
    ensures forall x :: x in s <==> x in t
  {
    InInsertAll([], s);
    InInsertAll([], t);
  }
}
