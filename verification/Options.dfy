// Small shared vocabulary: optional values and facts about sequences that hold
// each element at most once.
module Options {
  datatype Option<+T> = None | Some(value: T)

  predicate NoDup<T(==)>(s: seq<T>) {
    s == [] || (s[0] !in s[1..] && NoDup(s[1..]))
  }

  lemma {:induction false} NoDupSnoc<T>(s: seq<T>, x: T)
    requires NoDup(s) && x !in s
    ensures NoDup(s + [x])
  {
    if s != [] {
      NoDupSnoc(s[1..], x);
      assert (s + [x])[1..] == s[1..] + [x];
    }
  }

  lemma {:induction false} NoDupDistinct<T>(s: seq<T>, i: nat, j: nat)
    requires NoDup(s) && i < j < |s|
    ensures s[i] != s[j]
  {
    if i == 0 {
      assert s[j] == s[1..][j - 1];
    } else {
      NoDupDistinct(s[1..], i - 1, j - 1);
    }
  }

  // In a sequence without duplicates a member occurs exactly once.
  lemma {:induction false} CountOfMember<T>(s: seq<T>, x: T)
    requires NoDup(s)
    ensures multiset(s)[x] == if x in s then 1 else 0
  {
    if s != [] {
      CountOfMember(s[1..], x);
      assert s == [s[0]] + s[1..];
    }
  }

  // Order-preserving selection, the meaning of Rust's `retain` on a vector.
  function Filter<T(!new)>(keep: T -> bool, s: seq<T>): (r: seq<T>)
    ensures forall x :: x in r <==> x in s && keep(x)
  {
    if s == [] then []
    else if keep(s[0]) then [s[0]] + Filter(keep, s[1..])
    else Filter(keep, s[1..])
  }

  lemma {:induction false} FilterNoDup<T(!new)>(keep: T -> bool, s: seq<T>)
    requires NoDup(s)
    ensures NoDup(Filter(keep, s))
    ensures |Filter(keep, s)| <= |s|
  {
    if s != [] {
      FilterNoDup(keep, s[1..]);
      var rest := Filter(keep, s[1..]);
      assert Filter(keep, s) == rest || (Filter(keep, s) == [s[0]] + rest && ([s[0]] + rest)[1..] == rest);
    }
  }

  lemma {:induction false} FilterConcat<T(!new)>(keep: T -> bool, s: seq<T>, t: seq<T>)
    ensures Filter(keep, s + t) == Filter(keep, s) + Filter(keep, t)
  {
    if s == [] {
      assert s + t == t;
    } else {
      assert (s + t)[1..] == s[1..] + t;
      FilterConcat(keep, s[1..], t);
    }
  }

  lemma {:induction false} FilterAll<T(!new)>(keep: T -> bool, s: seq<T>)
    requires forall x :: x in s ==> keep(x)
    ensures Filter(keep, s) == s
  {
    if s != [] {
      FilterAll(keep, s[1..]);
      assert s == [s[0]] + s[1..];
    }
  }

  // x comes somewhere before y.
  ghost predicate Precedes<T>(s: seq<T>, x: T, y: T) {
    exists i, j :: 0 <= i < j < |s| && s[i] == x && s[j] == y
  }

  lemma PrecedesCons<T>(s: seq<T>, x: T, y: T)
    requires s != []
    ensures Precedes(s, x, y) <==> (s[0] == x && y in s[1..]) || Precedes(s[1..], x, y)
  {
    if s[0] == x && y in s[1..] {
      var j :| 0 <= j < |s[1..]| && s[1..][j] == y;
      assert s[j + 1] == y;
    }
    if Precedes(s[1..], x, y) {
      var i, j :| 0 <= i < j < |s[1..]| && s[1..][i] == x && s[1..][j] == y;
      assert s[i + 1] == x && s[j + 1] == y;
    }
    if i, j :| 0 <= i < j < |s| && s[i] == x && s[j] == y {
      assert s[j] == s[1..][j - 1] && (i > 0 ==> s[i] == s[1..][i - 1]);
    }
  }

  // Filtering keeps the order of what it keeps, and orders nothing else.
  lemma {:induction false} FilterKeepsOrder<T(!new)>(keep: T -> bool, s: seq<T>, x: T, y: T)
    ensures Precedes(Filter(keep, s), x, y) <==> Precedes(s, x, y) && keep(x) && keep(y)
  {
    if s != [] {
      FilterKeepsOrder(keep, s[1..], x, y);
      PrecedesCons(s, x, y);
      if keep(s[0]) {
        var r := [s[0]] + Filter(keep, s[1..]);
        PrecedesCons(r, x, y);
        assert r[1..] == Filter(keep, s[1..]);
      }
    }
  }

  lemma SomeMember<T>(s: seq<T>)
    requires s != []
    ensures exists x :: x in s
  {
    assert s[0] in s;
  }

  lemma SomeOf<T>(s: set<T>) returns (x: T)
    requires s != {}
    ensures x in s
  {
    x :| x in s;
  }

  method AnyOf<T>(s: set<T>) returns (x: T)
    requires s != {}
    ensures x in s
  {
    x :| x in s;
  }

  // --- the first numbers of a set ---

  lemma {:induction false} SubsetSize<T>(a: set<T>, b: set<T>)
    requires a <= b
    ensures |a| <= |b|
    decreases a
  {
    if a != {} {
      var x :| x in a;
      SubsetSize(a - {x}, b - {x});
    }
  }

  function Below(all: set<int>, s: int): set<int> {
    set t | t in all && t < s
  }

  // At most `limit` of them, none left out before one taken, and all if they fit.
  predicate IsFirst(all: set<int>, page: set<int>, limit: nat) {
    && page <= all && |page| <= limit
    && (forall s, p :: s in all && p in page && s <= p ==> s in page)
    && (|page| < limit ==> page == all)
  }

  lemma {:induction false} LeastOf(todo: set<int>) returns (least: int)
    requires todo != {}
    ensures least in todo && forall s :: s in todo ==> least <= s
    decreases |todo|
  {
    var s := SomeOf(todo);
    var rest := todo - {s};
    if rest == {} {
      assert todo == {s};
      least := s;
    } else {
      var r := LeastOf(rest);
      least := if s < r then s else r;
      assert forall t :: t in todo ==> t == s || t in rest;
    }
  }

  lemma {:induction false} GreatestOf(todo: set<int>) returns (greatest: int)
    requires todo != {}
    ensures greatest in todo && forall s :: s in todo ==> s <= greatest
    decreases |todo|
  {
    var s := SomeOf(todo);
    var rest := todo - {s};
    if rest == {} {
      assert todo == {s};
      greatest := s;
    } else {
      var r := GreatestOf(rest);
      greatest := if s > r then s else r;
      assert forall t :: t in todo ==> t == s || t in rest;
    }
  }

  // Those are exactly the ones with fewer than `limit` others before them.
  lemma FirstExactly(all: set<int>, page: set<int>, limit: nat)
    ensures IsFirst(all, page, limit) <==> page == set s | s in all && |Below(all, s)| < limit
  {
    if IsFirst(all, page, limit) {
      forall s | s in all
        ensures s in page <==> |Below(all, s)| < limit
      {
        if s in page { SubsetSize(Below(all, s) + {s}, page); } else { SubsetSize(page, Below(all, s)); }
      }
    } else if page == set s | s in all && |Below(all, s)| < limit {
      CountedIsFirst(all, page, limit);
    }
  }

  lemma CountedIsFirst(all: set<int>, page: set<int>, limit: nat)
    requires page == set s | s in all && |Below(all, s)| < limit
    ensures IsFirst(all, page, limit)
  {
    if page != {} {
      var g := GreatestOf(page);
      SubsetSize(page, Below(all, g) + {g});
    }
    forall s, p | s in all && p in page && s <= p
      ensures s in page
    {
      SubsetSize(Below(all, s), Below(all, p));
    }
    if page != all {
      var s := LeastOf(all - page);
      forall t | t in Below(all, s)
        ensures t in page
      {
        assert t !in all - page;
      }
      SubsetSize(Below(all, s), page);
    }
  }
}
