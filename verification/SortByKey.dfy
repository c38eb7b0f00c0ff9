/** Object fields and their order by key. */
module SortByKey {

  datatype Entry<+T> = Entry(key: string, value: T)

  /** Strict lexicographic order on keys. */
  predicate Before(a: string, b: string)
  {
    b != [] && (a == [] || a[0] < b[0] || (a[0] == b[0] && Before(a[1..], b[1..])))
  }

  lemma {:induction false} BeforeTotal(a: string, b: string)
    ensures Before(a, b) || a == b || Before(b, a)
  {
    if a != [] && b != [] && a[0] == b[0] {
      BeforeTotal(a[1..], b[1..]);
      assert a == [a[0]] + a[1..] && b == [b[0]] + b[1..];
    }
  }

  lemma {:induction false} BeforeTransitive(a: string, b: string, c: string)
    requires Before(a, b) && Before(b, c)
    ensures Before(a, c)
  {
    if a != [] && a[0] == b[0] == c[0] {
      BeforeTransitive(a[1..], b[1..], c[1..]);
    }
  }

  lemma {:induction false} BeforeIrreflexive(a: string)
    ensures !Before(a, a)
  {
    if a != [] {
      BeforeIrreflexive(a[1..]);
    }
  }

  function Insert<T>(e: Entry<T>, s: seq<Entry<T>>): seq<Entry<T>>
  {
    if s == [] || Before(e.key, s[0].key) then [e] + s else [s[0]] + Insert(e, s[1..])
  }

  function Sort<T>(s: seq<Entry<T>>): seq<Entry<T>>
  {
    if s == [] then [] else Insert(s[0], Sort(s[1..]))
  }

  ghost predicate Sorted<T>(s: seq<Entry<T>>)
  {
    forall i, j :: 0 <= i < j < |s| ==> Before(s[i].key, s[j].key)
  }

  ghost predicate DistinctKeys<T>(s: seq<Entry<T>>)
  {
    forall i, j :: 0 <= i < j < |s| ==> s[i].key != s[j].key
  }

  lemma {:induction false} InsertElements<T>(e: Entry<T>, s: seq<Entry<T>>)
    ensures multiset(Insert(e, s)) == multiset(s) + multiset{e}
  {
    if s != [] && !Before(e.key, s[0].key) {
      InsertElements(e, s[1..]);
      assert s == [s[0]] + s[1..];
    }
  }

  lemma {:induction false} SortElements<T>(s: seq<Entry<T>>)
    ensures multiset(Sort(s)) == multiset(s)
  {
    if s != [] {
      SortElements(s[1..]);
      InsertElements(s[0], Sort(s[1..]));
      assert s == [s[0]] + s[1..];
    }
  }

  lemma SortMembers<T>(s: seq<Entry<T>>, e: Entry<T>)
    ensures e in Sort(s) <==> e in s
  {
    SortElements(s);
    assert e in multiset(Sort(s)) <==> e in multiset(s);
  }

  lemma {:induction false} InsertSorted<T>(e: Entry<T>, s: seq<Entry<T>>)
    requires Sorted(s)
    requires forall i :: 0 <= i < |s| ==> s[i].key != e.key
    ensures Sorted(Insert(e, s))
  {
    if s == [] {
    } else if Before(e.key, s[0].key) {
      forall i | 0 < i < |s|
        ensures Before(e.key, s[i].key)
      {
        BeforeTransitive(e.key, s[0].key, s[i].key);
      }
    } else {
      BeforeTotal(e.key, s[0].key);
      InsertSorted(e, s[1..]);
      var rest := Insert(e, s[1..]);
      forall i | 0 <= i < |rest|
        ensures Before(s[0].key, rest[i].key)
      {
        InsertElements(e, s[1..]);
        assert rest[i] in multiset(rest);
        assert rest[i] == e || rest[i] in s[1..];
      }
    }
  }

  lemma {:induction false} SortSorted<T>(s: seq<Entry<T>>)
    requires DistinctKeys(s)
    ensures Sorted(Sort(s))
  {
    if s != [] {
      SortSorted(s[1..]);
      forall i | 0 <= i < |Sort(s[1..])|
        ensures Sort(s[1..])[i].key != s[0].key
      {
        SortMembers(s[1..], Sort(s[1..])[i]);
      }
      InsertSorted(s[0], Sort(s[1..]));
    }
  }

  lemma HasMember<T>(s: seq<T>)
    ensures s == [] || s[0] in s
  {
  }

  /** Sorted listings of the same entries are identical. */
  lemma {:induction false} SortedUnique<T>(s: seq<Entry<T>>, t: seq<Entry<T>>)
    requires Sorted(s) && Sorted(t)
    requires forall e :: e in s <==> e in t
    ensures s == t
  {
    if s == [] {
      HasMember(t);
    } else {
      assert s[0] in t;
      assert t[0] in s;
      SameFirst(s, t);
      assert s == [s[0]] + s[1..] && t == [t[0]] + t[1..];
      forall e
        ensures e in s[1..] <==> e in t[1..]
      {
        TailMembers(s, e);
        TailMembers(t, e);
      }
      SortedUnique(s[1..], t[1..]);
    }
  }

  lemma SameFirst<T>(s: seq<Entry<T>>, t: seq<Entry<T>>)
    requires Sorted(s) && Sorted(t) && s != [] && t != []
    requires s[0] in t && t[0] in s
    ensures s[0] == t[0]
  {
    if s[0] != t[0] {
      BeforeTransitive(s[0].key, t[0].key, s[0].key);
      BeforeIrreflexive(s[0].key);
    }
  }

  lemma TailMembers<T>(s: seq<Entry<T>>, e: Entry<T>)
    requires Sorted(s) && s != []
    ensures e in s[1..] <==> e in s && e != s[0]
  {
    BeforeIrreflexive(s[0].key);
    assert s == [s[0]] + s[1..];
  }

  lemma SortedDistinct<T>(s: seq<Entry<T>>)
    requires Sorted(s)
    ensures DistinctKeys(s)
  {
    forall i, j | 0 <= i < j < |s|
      ensures s[i].key != s[j].key
    {
      BeforeIrreflexive(s[i].key);
    }
  }

  // ---------------------------------------------------------------- sorting and renaming values

  /** `t` holds the same keys as `s`, with each value replaced by its image under `g`. */
  ghost predicate Renamed<T, U>(s: seq<Entry<T>>, t: seq<Entry<U>>, g: T -> U)
  {
    |s| == |t| && forall i :: 0 <= i < |s| ==> t[i] == Entry(s[i].key, g(s[i].value))
  }

  lemma {:induction false} InsertRenamed<T, U>(e: Entry<T>, s: seq<Entry<T>>, t: seq<Entry<U>>, g: T -> U)
    requires Renamed(s, t, g)
    ensures Renamed(Insert(e, s), Insert(Entry(e.key, g(e.value)), t), g)
  {
    if s != [] && !Before(e.key, s[0].key) {
      InsertRenamed(e, s[1..], t[1..], g);
    }
  }

  /** Sorting looks at keys only. */
  lemma {:induction false} SortRenamed<T, U>(s: seq<Entry<T>>, t: seq<Entry<U>>, g: T -> U)
    requires Renamed(s, t, g)
    ensures Renamed(Sort(s), Sort(t), g)
  {
    if s != [] {
      SortRenamed(s[1..], t[1..], g);
      InsertRenamed(s[0], Sort(s[1..]), Sort(t[1..]), g);
    }
  }
}
