/** Order-preserving sequence operations: the LINQ operators the package builds its lists with. */
module Seqs {
  import opened Wrappers

  predicate NoDuplicates<T(==)>(s: seq<T>) {
    forall i, j :: 0 <= i < j < |s| ==> s[i] != s[j]
  }

  /** LINQ `Where`: the elements of `s` that satisfy `f`, in their order in `s`. */
  function Filter<T(!new)>(f: T -> bool, s: seq<T>): (r: seq<T>)
    ensures |r| <= |s|
    ensures forall x :: x in r <==> x in s && f(x)
  {
    if s == [] then []
    else
      var rest := Filter(f, s[1..]);
      assert forall x :: x in s <==> x == s[0] || x in s[1..];
      if f(s[0]) then [s[0]] + rest else rest
  }

  /** Filtering a concatenation filters each part: the order of the input is kept. */
  lemma {:induction false} FilterAppend<T(!new)>(f: T -> bool, s: seq<T>, t: seq<T>)
    ensures Filter(f, s + t) == Filter(f, s) + Filter(f, t)
  {
    if s == [] {
      assert s + t == t;
    } else {
      assert (s + t)[1..] == s[1..] + t;
      FilterAppend(f, s[1..], t);
    }
  }

  /**
   * LINQ `Distinct` (and `Union`, which is `Distinct` of a concatenation): every element once,
   * at the place of its first occurrence.
   */
  function Distinct<T(==,!new)>(s: seq<T>): (r: seq<T>)
    ensures forall x :: x in r <==> x in s
    ensures NoDuplicates(r)
    ensures |r| <= |s|
  {
    if s == [] then []
    else
      var init := Distinct(s[..|s| - 1]);
      var last := s[|s| - 1];
      assert forall x :: x in s <==> x in s[..|s| - 1] || x == last by {
        assert s == s[..|s| - 1] + [last];
      }
      if last in init then init else init + [last]
  }

  /** Whatever follows cannot disturb the order of the first occurrences already seen. */
  lemma {:induction false} DistinctPrefix<T(!new)>(s: seq<T>, t: seq<T>)
    ensures Distinct(s) <= Distinct(s + t)
    decreases |t|
  {
    if t == [] {
      assert s + t == s;
    } else {
      var u := s + t[..|t| - 1];
      DistinctPrefix(s, t[..|t| - 1]);
      assert (s + t)[..|s + t| - 1] == u;
    }
  }

  /** The position of the first occurrence of `x` in `s`. */
  function IndexOf<T(==)>(s: seq<T>, x: T): (i: nat)
    requires x in s
    ensures i < |s| && s[i] == x && x !in s[..i]
  {
    if s[0] == x then 0
    else
      var i := IndexOf(s[1..], x);
      assert s[..i + 1] == [s[0]] + s[1..][..i];
      i + 1
  }

  /** Only one position holds the first occurrence. */
  lemma IndexOfUnique<T>(s: seq<T>, x: T, i: nat)
    requires i < |s| && s[i] == x && x !in s[..i]
    ensures IndexOf(s, x) == i
  {
    var j := IndexOf(s, x);
  }

  /** A first occurrence inside a prefix stays where it is when more follows. */
  lemma IndexOfInPrefix<T>(s: seq<T>, t: seq<T>, x: T)
    requires x in s
    ensures IndexOf(s + t, x) == IndexOf(s, x)
  {
    var i := IndexOf(s, x);
    assert (s + t)[..i] == s[..i];
    IndexOfUnique(s + t, x, i);
  }

  /** `Distinct` lists the elements in the order in which they first occur in its input. */
  lemma {:induction false} DistinctInFirstOccurrenceOrder<T(!new)>(s: seq<T>)
    ensures forall i, j :: 0 <= i < j < |Distinct(s)| ==> IndexOf(s, Distinct(s)[i]) < IndexOf(s, Distinct(s)[j])
  {
    if s != [] {
      var init := s[..|s| - 1];
      var last := s[|s| - 1];
      assert s == init + [last];
      DistinctInFirstOccurrenceOrder(init);
      var d := Distinct(init);
      var r := Distinct(s);
      forall k | 0 <= k < |d| ensures IndexOf(s, d[k]) == IndexOf(init, d[k]) {
        IndexOfInPrefix(init, [last], d[k]);
      }
      if last !in d {
        assert r == d + [last];
        assert last !in s[..|s| - 1];
        IndexOfUnique(s, last, |s| - 1);
        forall k | 0 <= k < |d| ensures IndexOf(s, d[k]) < |s| - 1 {
          assert IndexOf(init, d[k]) < |init|;
        }
      }
    }
  }

  /** A sequence without repetitions is its own `Distinct`. */
  lemma {:induction false} DistinctOfDistinct<T(!new)>(s: seq<T>)
    requires NoDuplicates(s)
    ensures Distinct(s) == s
  {
    if s != [] {
      var init := s[..|s| - 1];
      assert NoDuplicates(init);
      DistinctOfDistinct(init);
      assert s[|s| - 1] !in init;
      assert init + [s[|s| - 1]] == s;
    }
  }

  /** `Union` repeated: taking the distinct elements of a prefix first changes nothing. */
  lemma {:induction false} DistinctOfUnion<T(!new)>(s: seq<T>, t: seq<T>)
    ensures Distinct(Distinct(s) + t) == Distinct(s + t)
    decreases |t|
  {
    if t == [] {
      assert Distinct(s) + t == Distinct(s) && s + t == s;
      DistinctOfDistinct(Distinct(s));
    } else {
      var init := t[..|t| - 1];
      DistinctOfUnion(s, init);
      assert (Distinct(s) + t)[..|Distinct(s) + t| - 1] == Distinct(s) + init;
      assert (s + t)[..|s + t| - 1] == s + init;
    }
  }

  /** A filter every element passes keeps the sequence as it is. */
  lemma {:induction false} FilterKeepsAll<T(!new)>(f: T -> bool, s: seq<T>)
    requires forall x :: x in s ==> f(x)
    ensures Filter(f, s) == s
  {
    if s != [] {
      FilterKeepsAll(f, s[1..]);
      assert [s[0]] + s[1..] == s;
    }
  }

  /** LINQ `Select`. */
  function Map<T, U>(f: T -> U, s: seq<T>): (r: seq<U>)
    ensures |r| == |s|
    ensures forall i :: 0 <= i < |s| ==> r[i] == f(s[i])
  {
    seq(|s|, i requires 0 <= i < |s| => f(s[i]))
  }

  /** `Select` with a function defined only on some inputs, over a sequence where it is defined throughout. */
  function MapPartial<T, U>(f: T --> U, s: seq<T>): (r: seq<U>)
    requires forall x :: x in s ==> f.requires(x)
    ensures |r| == |s|
    ensures forall i :: 0 <= i < |s| ==> r[i] == f(s[i])
  {
    seq(|s|, i requires 0 <= i < |s| => f(s[i]))
  }

  lemma MapPartialAppend<T, U>(f: T --> U, s: seq<T>, t: seq<T>)
    requires forall x :: x in s + t ==> f.requires(x)
    ensures forall x :: x in s ==> f.requires(x)
    ensures forall x :: x in t ==> f.requires(x)
    ensures MapPartial(f, s + t) == MapPartial(f, s) + MapPartial(f, t)
  {
    assert forall x :: x in s ==> x in s + t;
    assert forall x :: x in t ==> x in s + t;
    var l, r := MapPartial(f, s + t), MapPartial(f, s) + MapPartial(f, t);
    forall i | 0 <= i < |l| ensures l[i] == r[i] {
      if i < |s| {
        assert (s + t)[i] == s[i];
      } else {
        assert (s + t)[i] == t[i - |s|];
      }
    }
  }

  /** LINQ `SelectMany` over already selected parts: the parts one after another. */
  function Flatten<T(!new)>(ss: seq<seq<T>>): (r: seq<T>)
    ensures forall x :: x in r <==> exists i :: 0 <= i < |ss| && x in ss[i]
  {
    if ss == [] then []
    else
      var rest := Flatten(ss[1..]);
      assert forall i :: 1 <= i < |ss| ==> ss[i] == ss[1..][i - 1];
      ss[0] + rest
  }

  /** A first element that passes the filter stays first. */
  lemma FilterKeepsHead<T(!new)>(f: T -> bool, s: seq<T>)
    requires s != [] && f(s[0])
    ensures Filter(f, s) != [] && Filter(f, s)[0] == s[0]
  {
  }

  /** Every image of an element is in the selected sequence. */
  lemma MapContains<T, U>(f: T -> U, s: seq<T>, x: T)
    requires x in s
    ensures f(x) in Map(f, s)
  {
    var i :| 0 <= i < |s| && s[i] == x;
    assert Map(f, s)[i] == f(x);
  }

  /** Selecting over a concatenation selects over each part. */
  lemma MapAppend<T, U>(f: T -> U, s: seq<T>, t: seq<T>)
    ensures Map(f, s + t) == Map(f, s) + Map(f, t)
  {
  }

  /**
   * LINQ `Where` with a predicate that can throw: the elements it keeps, in
   * order, or the first exception it raises.
   */
  function FilterOrFail<T, E>(keep: T -> Result<bool, E>, s: seq<T>): Result<seq<T>, E> {
    if s == [] then Ok([])
    else
      match keep(s[0])
      case Err(e) => Err(e)
      case Ok(k) =>
        match FilterOrFail(keep, s[1..])
        case Err(e) => Err(e)
        case Ok(rest) => Ok(if k then [s[0]] + rest else rest)
  }

  /** The filter fails exactly when the predicate fails somewhere, and otherwise keeps exactly the accepted elements. */
  lemma {:induction false} FilterOrFailContents<T, E>(keep: T -> Result<bool, E>, s: seq<T>)
    ensures FilterOrFail(keep, s).Ok? <==> forall x :: x in s ==> keep(x).Ok?
    ensures FilterOrFail(keep, s).Ok? ==> forall x :: x in FilterOrFail(keep, s).value ==> x in s && keep(x) == Ok(true)
    ensures FilterOrFail(keep, s).Ok? ==> forall x :: x in s && keep(x) == Ok(true) ==> x in FilterOrFail(keep, s).value
    ensures FilterOrFail(keep, s).Ok? ==> |FilterOrFail(keep, s).value| <= |s|
  {
    if s != [] {
      FilterOrFailContents(keep, s[1..]);
      assert forall x :: x in s <==> x == s[0] || x in s[1..];
    }
  }

  /** Filtering again what the filter kept keeps all of it. */
  lemma {:induction false} FilterOrFailIdempotent<T, E>(keep: T -> Result<bool, E>, s: seq<T>)
    requires FilterOrFail(keep, s).Ok?
    ensures FilterOrFail(keep, FilterOrFail(keep, s).value) == FilterOrFail(keep, s)
  {
    if s != [] {
      FilterOrFailIdempotent(keep, s[1..]);
      var rest := FilterOrFail(keep, s[1..]).value;
      if keep(s[0]) == Ok(true) {
        assert ([s[0]] + rest)[1..] == rest;
      }
    }
  }

  /** The filter works part by part: it keeps the order of its input. */
  lemma {:induction false} FilterOrFailAppend<T, E>(keep: T -> Result<bool, E>, s: seq<T>, t: seq<T>)
    requires FilterOrFail(keep, s).Ok? && FilterOrFail(keep, t).Ok?
    ensures FilterOrFail(keep, s + t) == Ok(FilterOrFail(keep, s).value + FilterOrFail(keep, t).value)
  {
    if s == [] {
      assert s + t == t;
      assert FilterOrFail(keep, s).value == [];
      assert FilterOrFail(keep, t) == Ok(FilterOrFail(keep, t).value);
      assert [] + FilterOrFail(keep, t).value == FilterOrFail(keep, t).value;
    } else {
      assert (s + t)[0] == s[0] && (s + t)[1..] == s[1..] + t;
      FilterOrFailAppend(keep, s[1..], t);
      var rs, rt := FilterOrFail(keep, s[1..]).value, FilterOrFail(keep, t).value;
      if keep(s[0]) == Ok(true) {
        assert [s[0]] + (rs + rt) == ([s[0]] + rs) + rt;
      }
    }
  }

  /**
   * A dictionary of lists filled in one pass: each element that `group`
   * assigns to a key appends its `item` to that key's list.
   */
  function GroupInto<T, K(==), V>(group: T -> Option<K>, item: T -> V, groups: map<K, seq<V>>, x: T): map<K, seq<V>> {
    match group(x)
    case None => groups
    case Some(k) => groups[k := (if k in groups then groups[k] else []) + [item(x)]]
  }

  function GroupAll<T, K(==), V>(group: T -> Option<K>, item: T -> V, s: seq<T>): map<K, seq<V>> {
    if s == [] then map[]
    else GroupInto(group, item, GroupAll(group, item, s[..|s| - 1]), s[|s| - 1])
  }

  /** The items of the elements assigned to `k`, in order. */
  function GroupItems<T, K(==), V>(group: T -> Option<K>, item: T -> V, s: seq<T>, k: K): (r: seq<V>)
    ensures |r| <= |s|
  {
    if s == [] then []
    else
      var head := GroupItems(group, item, s[..|s| - 1], k);
      if group(s[|s| - 1]) == Some(k) then head + [item(s[|s| - 1])] else head
  }

  /** `v` is the item of some element of `s` assigned to `k`. */
  ghost predicate ItemOfGroup<T, K, V>(group: T -> Option<K>, item: T -> V, s: seq<T>, k: K, v: V) {
    exists x :: x in s && group(x) == Some(k) && v == item(x)
  }

  /** Each item in the list of `k` is the item of an element assigned to `k`. */
  lemma {:induction false} GroupItemsFrom<T, K, V>(group: T -> Option<K>, item: T -> V, s: seq<T>, k: K)
    ensures forall j :: 0 <= j < |GroupItems(group, item, s, k)| ==>
              ItemOfGroup(group, item, s, k, GroupItems(group, item, s, k)[j])
  {
    if s != [] {
      var init := s[..|s| - 1];
      var last := s[|s| - 1];
      GroupItemsFrom(group, item, init, k);
      var head := GroupItems(group, item, init, k);
      var r := GroupItems(group, item, s, k);
      forall j | 0 <= j < |r|
        ensures ItemOfGroup(group, item, s, k, r[j])
      {
        if j < |head| {
          assert ItemOfGroup(group, item, init, k, head[j]);
          var x :| x in init && group(x) == Some(k) && head[j] == item(x);
          assert r[j] == head[j];
          assert x in s;
        } else {
          assert last in s && r[j] == item(last) && group(last) == Some(k);
        }
      }
    }
  }

  lemma {:induction false} GroupItemsEmpty<T, K, V>(group: T -> Option<K>, item: T -> V, s: seq<T>, k: K)
    requires forall x :: x in s ==> group(x) != Some(k)
    ensures GroupItems(group, item, s, k) == []
  {
    if s != [] {
      assert forall x :: x in s[..|s| - 1] ==> x in s;
      assert s[|s| - 1] in s;
      GroupItemsEmpty(group, item, s[..|s| - 1], k);
    }
  }

  /** A key has a list exactly when some element is assigned to it, and the list holds those elements' items in order. */
  lemma {:induction false} GroupAllContents<T, K, V>(group: T -> Option<K>, item: T -> V, s: seq<T>, k: K)
    ensures k in GroupAll(group, item, s) <==> exists x :: x in s && group(x) == Some(k)
    ensures k in GroupAll(group, item, s) ==> GroupAll(group, item, s)[k] == GroupItems(group, item, s, k)
  {
    if s != [] {
      var init := s[..|s| - 1];
      var last := s[|s| - 1];
      GroupAllContents(group, item, init, k);
      assert forall x :: x in s <==> x in init || x == last by {
        assert s == init + [last];
      }
      if group(last) == Some(k) && k !in GroupAll(group, item, init) {
        GroupItemsEmpty(group, item, init, k);
      }
    }
  }

  /** Elements are told apart by `key`: no two positions share one. */
  predicate KeysDistinct<T, K(==)>(key: T -> K, s: seq<T>) {
    forall i, j :: 0 <= i < j < |s| ==> key(s[i]) != key(s[j])
  }

  /** The results gathered before an exception, and the exception, if one was raised. */
  datatype Partial<U, E> = Partial(items: seq<U>, error: Option<E>)

  /**
   * A `foreach` that may skip an element (`None`), produce one result or
   * throw: the results in order, up to the first exception.
   */
  function Collect<T, U, E>(step: T -> Option<Result<U, E>>, s: seq<T>): (r: Partial<U, E>)
    ensures |r.items| <= |s|
  {
    if s == [] then Partial([], None)
    else
      match step(s[0])
      case None => Collect(step, s[1..])
      case Some(Err(e)) => Partial([], Some(e))
      case Some(Ok(u)) =>
        var rest := Collect(step, s[1..]);
        Partial([u] + rest.items, rest.error)
  }

  /**
   * Collecting over two runs: an exception in the first stops everything;
   * otherwise the results of the second follow those of the first.
   */
  lemma {:induction false} CollectAppend<T, U, E>(step: T -> Option<Result<U, E>>, s: seq<T>, t: seq<T>)
    ensures Collect(step, s).error.Some? ==> Collect(step, s + t) == Collect(step, s)
    ensures Collect(step, s).error.None? ==>
              Collect(step, s + t) == Partial(Collect(step, s).items + Collect(step, t).items, Collect(step, t).error)
  {
    if s == [] {
      assert s + t == t;
      assert Collect(step, s).items == [];
    } else {
      assert (s + t)[0] == s[0] && (s + t)[1..] == s[1..] + t;
      CollectAppend(step, s[1..], t);
      match step(s[0])
      case None =>
      case Some(Err(e)) =>
      case Some(Ok(u)) =>
        var rs, rt := Collect(step, s[1..]).items, Collect(step, t).items;
        assert [u] + (rs + rt) == ([u] + rs) + rt;
    }
  }

  /** One more element, as the loop over `s` takes it. */
  lemma CollectStep<T, U, E>(step: T -> Option<Result<U, E>>, s: seq<T>, i: nat)
    requires i < |s| && Collect(step, s[..i]).error.None?
    ensures step(s[i]).None? ==> Collect(step, s[..i + 1]) == Collect(step, s[..i])
    ensures step(s[i]).Some? && step(s[i]).value.Err? ==>
              Collect(step, s[..i + 1]) == Partial(Collect(step, s[..i]).items, Some(step(s[i]).value.error))
    ensures step(s[i]).Some? && step(s[i]).value.Ok? ==>
              Collect(step, s[..i + 1]) == Partial(Collect(step, s[..i]).items + [step(s[i]).value.value], None)
  {
    assert s[..i + 1] == s[..i] + [s[i]];
    CollectAppend(step, s[..i], [s[i]]);
    assert [s[i]][1..] == [];
  }

  /** Once the loop has thrown, the rest of the input is never looked at. */
  lemma CollectStops<T, U, E>(step: T -> Option<Result<U, E>>, s: seq<T>, i: nat)
    requires i <= |s| && Collect(step, s[..i]).error.Some?
    ensures Collect(step, s) == Collect(step, s[..i])
  {
    assert s == s[..i] + s[i..];
    CollectAppend(step, s[..i], s[i..]);
  }

  /**
   * The loop completes exactly when no element throws; every result comes
   * from an element, and when it completes every element's result is there.
   */
  lemma {:induction false} CollectContents<T, U, E>(step: T -> Option<Result<U, E>>, s: seq<T>)
    ensures Collect(step, s).error.None? <==> forall x :: x in s ==> step(x).None? || step(x).value.Ok?
    ensures forall u :: u in Collect(step, s).items ==> exists x :: x in s && step(x) == Some(Ok(u))
    ensures Collect(step, s).error.None? ==>
              forall x :: x in s && step(x).Some? ==> step(x).value.Ok? && step(x).value.value in Collect(step, s).items
  {
    if s != [] {
      CollectContents(step, s[1..]);
      assert forall x :: x in s <==> x == s[0] || x in s[1..];
    }
  }

  /** A loop that throws has produced fewer results than it had elements. */
  lemma {:induction false} CollectErrorShorter<T, U, E>(step: T -> Option<Result<U, E>>, s: seq<T>)
    requires Collect(step, s).error.Some?
    ensures |Collect(step, s).items| < |s|
  {
    match step(s[0])
    case None => CollectErrorShorter(step, s[1..]);
    case Some(Err(e)) =>
    case Some(Ok(u)) => CollectErrorShorter(step, s[1..]);
  }

  /** A step that never skips an element. */
  function Always<T, U, E>(f: T -> Result<U, E>): T -> Option<Result<U, E>> {
    (x: T) => Some(f(x))
  }

  /** A step that skips the elements `select` rejects (a `continue` at the top of the loop body). */
  function When<T, U, E>(select: T -> bool, f: T -> Result<U, E>): T -> Option<Result<U, E>> {
    (x: T) => if select(x) then Some(f(x)) else None
  }

  /** A loop that never skips and does not throw has one result per element, in order. */
  lemma {:induction false} CollectAlways<T, U, E>(f: T -> Result<U, E>, s: seq<T>)
    ensures Collect(Always(f), s).error.None? <==> forall x :: x in s ==> f(x).Ok?
    ensures Collect(Always(f), s).error.None? ==>
              |Collect(Always(f), s).items| == |s|
              && forall k :: 0 <= k < |s| ==> f(s[k]) == Ok(Collect(Always(f), s).items[k])
  {
    CollectContents(Always(f), s);
    if s != [] {
      CollectAlways(f, s[1..]);
      assert Always(f)(s[0]) == Some(f(s[0]));
      if Collect(Always(f), s).error.None? {
        var rest := Collect(Always(f), s[1..]).items;
        assert Collect(Always(f), s).items == [f(s[0]).value] + rest;
        forall k | 1 <= k < |s| ensures f(s[k]) == Ok(Collect(Always(f), s).items[k]) {
          assert s[k] == s[1..][k - 1];
        }
      }
    }
  }

  /**
   * A loop that skips the rejected elements: it throws exactly when a
   * selected element does; every result is that of a selected element; and,
   * when it completes, every selected element's result is there.
   */
  lemma CollectWhen<T, U, E>(select: T -> bool, f: T -> Result<U, E>, s: seq<T>)
    ensures Collect(When(select, f), s).error.None? <==> forall x :: x in s && select(x) ==> f(x).Ok?
    ensures forall u :: u in Collect(When(select, f), s).items ==> exists x :: x in s && select(x) && f(x) == Ok(u)
    ensures Collect(When(select, f), s).error.None? ==>
              forall x :: x in s && select(x) ==> f(x).value in Collect(When(select, f), s).items
  {
    var step := When(select, f);
    CollectContents(step, s);
    assert forall x :: step(x) == if select(x) then Some(f(x)) else None;
  }
}
