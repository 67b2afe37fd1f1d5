/** The recent-searches list of the Digest page (app/page.tsx): at most five
    query strings, most recent first, without repeats. This module holds the
    list operations as values; the page object that owns the list is in
    module Session. */
module History {
  import opened JsText

  /** Longest list the page keeps. */
  const MaxHistory: nat := 5
  /** Name of the browser-storage entry holding the list as JSON. */
  const HistoryKey: string := "digest-search-history"
  /** Entries longer than this are shortened on screen. */
  const DisplayWidth: nat := 35
  const Ellipsis: string := "..."

  /** No string occurs twice. */
  predicate NoDuplicates(h: seq<string>) {
    forall x | x in multiset(h) :: multiset(h)[x] <= 1
  }

  /** `a` is `b` with some entries dropped and the rest in their order. */
  predicate IsSubsequence(a: seq<string>, b: seq<string>) {
    if b == [] then a == []
    else (a != [] && a[0] == b[0] && IsSubsequence(a[1..], b[1..])) || IsSubsequence(a, b[1..])
  }

  /** `s.slice(0, n)`. */
  function Take(s: seq<string>, n: nat): (r: seq<string>)
    ensures |r| == if |s| <= n then |s| else n
    ensures r == s[..|r|]
  {
    if |s| <= n then s else s[..n]
  }

  /** `removeFromHistory`: `h.filter(x => x !== q)`, the list with every
      copy of `q` taken out. */
  function Remove(h: seq<string>, q: string): (r: seq<string>)
    ensures |r| <= |h|
    ensures forall x :: x in r <==> x in h && x != q
  {
    if |h| == 0 then [] else (if h[0] == q then [] else [h[0]]) + Remove(h[1..], q)
  }

  /** `t` in front of `h` without its other copies, cut to `MaxHistory`
      entries. */
  function Push(h: seq<string>, t: string): (r: seq<string>)
    ensures 1 <= |r| <= MaxHistory
    ensures r[0] == t
    ensures forall i :: 1 <= i < |r| ==> r[i] != t
  {
    var w := Remove(h, t);
    var r := Take([t] + w, MaxHistory);
    assert forall i :: 1 <= i < |r| ==> r[i] == w[i - 1] && w[i - 1] in w;
    r
  }

  /** `addToHistory`: the trimmed query in front, followed by the old list
      without it, cut to `MaxHistory` entries. */
  function Add(h: seq<string>, q: string): (r: seq<string>)
    ensures 1 <= |r| <= MaxHistory
    ensures r[0] == Trim(q)
    ensures forall i :: 1 <= i < |r| ==> r[i] != r[0]
  {
    Push(h, Trim(q))
  }

  /** How a stored entry is shown on its button: entries over
      `DisplayWidth` characters keep their first `DisplayWidth` characters
      and get an ellipsis; shorter ones are shown whole. */
  function DisplayLabel(item: string): (shown: string)
    ensures |item| <= DisplayWidth ==> shown == item
    ensures |shown| == if |item| <= DisplayWidth then |item| else DisplayWidth + |Ellipsis|
    ensures |item| > DisplayWidth ==> shown[..DisplayWidth] == item[..DisplayWidth] && shown[DisplayWidth..] == Ellipsis
  {
    if |item| > DisplayWidth then item[..DisplayWidth] + Ellipsis else item
  }

  // ---------------------------------------------------------------------
  // Remove

  /** Removing keeps every other entry, with as many copies as before, in
      the original order, and leaves no copy of `q`. */
  lemma RemoveSpec(h: seq<string>, q: string)
    ensures IsSubsequence(Remove(h, q), h)
    ensures multiset(Remove(h, q)) == multiset(h)[q := 0]
  {
    RemoveKeepsOrder(h, q);
    RemoveCounts(h, q);
  }

  /** What `Remove` keeps stays in its original order. */
  lemma {:induction false} RemoveKeepsOrder(h: seq<string>, q: string)
    ensures IsSubsequence(Remove(h, q), h)
  {
    if |h| > 0 {
      RemoveKeepsOrder(h[1..], q);
      if h[0] != q {
        assert Remove(h, q)[1..] == Remove(h[1..], q);
      } else {
        assert Remove(h, q) == Remove(h[1..], q);
      }
    }
  }

  /** `Remove` drops every copy of `q` and keeps every other entry as often
      as it occurs. */
  lemma {:induction false} RemoveCounts(h: seq<string>, q: string)
    ensures multiset(Remove(h, q)) == multiset(h)[q := 0]
  {
    if |h| > 0 {
      RemoveCounts(h[1..], q);
      assert h == [h[0]] + h[1..];
      assert multiset(h) == multiset{h[0]} + multiset(h[1..]);
      var m := multiset(h[1..]);
      if h[0] != q {
        assert Remove(h, q) == [h[0]] + Remove(h[1..], q);
        assert multiset{h[0]} + m[q := 0] == (multiset{h[0]} + m)[q := 0];
      } else {
        assert Remove(h, q) == Remove(h[1..], q);
        assert m[q := 0] == (multiset{q} + m)[q := 0];
      }
    }
  }

  /** Removing a query that is not in the list returns the list unchanged. */
  lemma {:induction false} RemoveAbsent(h: seq<string>, q: string)
    requires q !in h
    ensures Remove(h, q) == h
  {
    if |h| > 0 {
      assert h[0] in h;
      assert forall x :: x in h[1..] ==> x in h;
      RemoveAbsent(h[1..], q);
      assert h == [h[0]] + h[1..];
    }
  }

  /** A list without repeats stays without repeats, and a bounded one stays
      bounded, when an entry is removed. */
  lemma RemovePreservesWellFormed(h: seq<string>, q: string)
    requires NoDuplicates(h) && |h| <= MaxHistory
    ensures NoDuplicates(Remove(h, q)) && |Remove(h, q)| <= MaxHistory
  {
    RemoveSpec(h, q);
  }

  // ---------------------------------------------------------------------
  // Subsequences

  lemma {:induction false} SubsequencePrefix(a: seq<string>, b: seq<string>, k: nat)
    requires IsSubsequence(a, b) && k <= |a|
    ensures IsSubsequence(a[..k], b)
  {
    if b == [] {
    } else if a != [] && a[0] == b[0] && IsSubsequence(a[1..], b[1..]) {
      if k > 0 {
        SubsequencePrefix(a[1..], b[1..], k - 1);
        assert a[..k][1..] == a[1..][..k - 1];
      } else {
        SubsequenceOfEmpty(b);
      }
    } else {
      SubsequencePrefix(a, b[1..], k);
    }
  }

  lemma {:induction false} SubsequenceOfEmpty(b: seq<string>)
    ensures IsSubsequence([], b)
  {
    if b != [] {
      SubsequenceOfEmpty(b[1..]);
    }
  }

  lemma MultisetOfPrefix(s: seq<string>, k: nat)
    requires k <= |s|
    ensures multiset(s[..k]) <= multiset(s)
  {
    assert s == s[..k] + s[k..];
  }

  // ---------------------------------------------------------------------
  // Add

  /** The entries after the new front one are the old ones, in their old
      order, with the query dropped. */
  lemma AddKeepsOrder(h: seq<string>, q: string)
    ensures IsSubsequence(Add(h, q)[1..], h)
  {
    var t := Trim(q);
    var r := Add(h, q);
    RemoveSpec(h, t);
    assert r[1..] == Remove(h, t)[..|r| - 1];
    SubsequencePrefix(Remove(h, t), h, |r| - 1);
  }

  /** For any loaded list, long or with repeats: after the new front entry
      come the first entries of the old list without the query, as many as
      fit in `MaxHistory`. */
  lemma AddShape(h: seq<string>, q: string)
    ensures var w := Remove(h, Trim(q));
      && |Add(h, q)| == (if 1 + |w| <= MaxHistory then 1 + |w| else MaxHistory)
      && Add(h, q)[1..] == w[..|Add(h, q)| - 1]
  {
    var w := Remove(h, Trim(q));
    var r := Add(h, q);
    assert r == Take([Trim(q)] + w, MaxHistory);
    assert r[1..] == ([Trim(q)] + w)[1..|r|];
  }

  /** Adding a query not yet in the list pushes it in front of the whole
      list; when the list had `MaxHistory` entries or more, every entry
      from the fifth on falls off. */
  lemma AddNew(h: seq<string>, q: string)
    requires Trim(q) !in h
    ensures |h| < MaxHistory ==> Add(h, q) == [Trim(q)] + h
    ensures |h| >= MaxHistory ==> Add(h, q) == [Trim(q)] + h[..MaxHistory - 1]
  {
    RemoveAbsent(h, Trim(q));
  }

  /** Adding a query already in a well-formed list only moves it to the
      front: the entries are the same, none added, none lost. */
  lemma AddExisting(h: seq<string>, q: string)
    requires NoDuplicates(h) && |h| <= MaxHistory
    requires Trim(q) in h
    ensures multiset(Add(h, q)) == multiset(h)
  {
    var t := Trim(q);
    var w := Remove(h, t);
    RemoveSpec(h, t);
    assert multiset(h)[t] == 1;
    assert |multiset(w)| == |multiset(h)| - 1;
    assert |[t] + w| <= MaxHistory;
    assert multiset([t] + w) == multiset(h);
  }

  /** Adding keeps a list free of repeats. */
  lemma AddPreservesNoDuplicates(h: seq<string>, q: string)
    requires NoDuplicates(h)
    ensures NoDuplicates(Add(h, q))
  {
    var t := Trim(q);
    var w := Remove(h, t);
    RemoveSpec(h, t);
    var r := Add(h, q);
    MultisetOfPrefix([t] + w, |r|);
    assert r == ([t] + w)[..|r|];
    forall x ensures multiset(r)[x] <= 1 {
      assert multiset([t] + w)[x] <= 1;
    }
  }

  /** Adding the same query twice is the same as adding it once. */
  lemma AddIdempotent(h: seq<string>, q: string)
    ensures Add(Add(h, q), q) == Add(h, q)
  {
    PushIdempotent(h, Trim(q));
  }

  lemma PushIdempotent(h: seq<string>, t: string)
    ensures Push(Push(h, t), t) == Push(h, t)
  {
    var r := Push(h, t);
    RemoveFront(r, t);
    assert [t] + r[1..] == r;
  }

  /** Removing a query found only at the front leaves the rest. */
  lemma RemoveFront(r: seq<string>, t: string)
    requires |r| > 0 && r[0] == t
    requires forall i :: 1 <= i < |r| ==> r[i] != t
    ensures Remove(r, t) == r[1..]
  {
    RemoveAbsent(r[1..], t);
  }

  /** Trimming the query before adding it (as the form does) makes no
      difference. */
  lemma AddTrimmed(h: seq<string>, q: string)
    ensures Add(h, Trim(q)) == Add(h, q)
  {
  }
}
