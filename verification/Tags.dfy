/** Tag lists page by page, following the cursor while the tags change. */
module Tags {
  import opened Basics

  /** Lexicographic order. */
  predicate Less(a: string, b: string)
  {
    b != "" && (a == "" || a[0] < b[0] || (a[0] == b[0] && Less(a[1..], b[1..])))
  }

  /** The first `n` characters agree, and there `a` ends, and `b` does not, or is smaller. */
  predicate SmallerAt(a: string, b: string, n: nat)
  {
    n <= |a| && n < |b| && a[..n] == b[..n] && (n == |a| || a[n] < b[n])
  }

  lemma {:induction false} LessDiffers(a: string, b: string) returns (n: nat)
    requires Less(a, b)
    ensures SmallerAt(a, b, n)
  {
    if a == "" || a[0] < b[0] {
      return 0;
    }
    var rest := LessDiffers(a[1..], b[1..]);
    n := rest + 1;
    assert a[..n] == [a[0]] + a[1..][..rest] && b[..n] == [b[0]] + b[1..][..rest];
  }

  lemma {:induction false} DifferingIsLess(a: string, b: string, n: nat)
    requires SmallerAt(a, b, n)
    ensures Less(a, b)
  {
    if n > 0 {
      assert a[0] == a[..n][0] == b[..n][0] == b[0];
      assert a[1..][..n - 1] == a[..n][1..] && b[1..][..n - 1] == b[..n][1..];
      DifferingIsLess(a[1..], b[1..], n - 1);
    }
  }

  /** One tag is before another if it is a proper prefix, or smaller at the first character that differs. */
  lemma LessExactlyWhen(a: string, b: string)
    ensures Less(a, b) <==> exists n: nat :: SmallerAt(a, b, n)
  {
    if Less(a, b) {
      var n := LessDiffers(a, b);
    }
    if n: nat :| SmallerAt(a, b, n) {
      DifferingIsLess(a, b, n);
    }
  }

  lemma {:induction false} LessTransitive(a: string, b: string, c: string)
    requires Less(a, b) && Less(b, c)
    ensures Less(a, c)
  {
    if a != "" && a[0] == b[0] == c[0] {
      LessTransitive(a[1..], b[1..], c[1..]);
    }
  }

  lemma {:induction false} LessTotal(a: string, b: string)
    ensures (Less(a, b) || a == b || Less(b, a)) && !(Less(a, b) && a == b) && !(Less(a, b) && Less(b, a))
  {
    if a != "" && b != "" && a[0] == b[0] {
      LessTotal(a[1..], b[1..]);
      assert a == [a[0]] + a[1..] && b == [b[0]] + b[1..];
    }
  }

  /** Listings come sorted and without repetition: a tag is a file name. */
  predicate Sorted(tags: seq<string>)
  {
    forall i, j :: 0 <= i < j < |tags| ==> Less(tags[i], tags[j])
  }

  predicate After(last: Option<string>, tag: string)
  {
    last.Some? ==> Less(last.value, tag)
  }

  /** How many leading tags are not after the cursor. */
  function Start(tags: seq<string>, last: Option<string>): (n: nat)
    ensures n <= |tags|
    ensures forall i :: 0 <= i < n ==> !After(last, tags[i])
    ensures n < |tags| ==> After(last, tags[n])
  {
    if tags == [] || After(last, tags[0]) then 0 else Start(tags[1..], last) + 1
  }

  function Remaining(tags: seq<string>, last: Option<string>): seq<string>
  {
    tags[Start(tags, last)..]
  }

  /** One page, and whether there is more after it. */
  function Paginate(tags: seq<string>, last: Option<string>, n: Option<nat>): (seq<string>, bool)
  {
    var remaining := Remaining(tags, last);
    if n.Some? && n.value < |remaining| then (remaining[..n.value], true) else (remaining, false)
  }

  /** The cursor the server hands out: none after the last page, and none for an empty page either. */
  function Next(tags: seq<string>, last: Option<string>, n: Option<nat>): Option<string>
  {
    var (page, more) := Paginate(tags, last, n);
    if more && n.Some? && page != [] then Some(page[|page| - 1]) else None
  }

  lemma {:induction false} RemainingIsAfter(tags: seq<string>, last: Option<string>)
    requires Sorted(tags)
    ensures Sorted(Remaining(tags, last))
    ensures forall t :: t in Remaining(tags, last) <==> t in tags && After(last, t)
  {
    var n := Start(tags, last);
    forall i | n <= i < |tags|
      ensures After(last, tags[i])
    {
      if last.Some? && n < i {
        LessTransitive(last.value, tags[n], tags[i]);
      }
    }
    forall t | t in Remaining(tags, last)
      ensures t in tags && After(last, t)
    {
      var i :| 0 <= i < |Remaining(tags, last)| && Remaining(tags, last)[i] == t;
      assert tags[n + i] == t;
    }
    forall t | t in tags && After(last, t)
      ensures t in Remaining(tags, last)
    {
      var i :| 0 <= i < |tags| && tags[i] == t;
      assert n <= i && Remaining(tags, last)[i - n] == t;
    }
  }

  /** Whether the tag belongs on the page after `last` that hands out `next`. */
  predicate OnPage(last: Option<string>, next: Option<string>, tag: string)
  {
    After(last, tag) && (next.Some? ==> tag == next.value || !After(next, tag))
  }

  /** A page holds the tags after its cursor, up to its own last tag when there is more. */
  lemma PageHolds(tags: seq<string>, last: Option<string>, n: Option<nat>)
    requires Sorted(tags) && (n.Some? ==> n.value >= 1)
    ensures var page := Paginate(tags, last, n).0;
            var next := Next(tags, last, n);
            && Paginate(tags, last, n).1 == next.Some?
            && (forall t :: t in page <==> t in tags && OnPage(last, next, t))
            && Sorted(page)
            && (next.Some? ==> next.value in page && |page| == n.value)
  {
    hide Less;
    RemainingIsAfter(tags, last);
    var remaining := Remaining(tags, last);
    var (page, more) := Paginate(tags, last, n);
    if more {
      var k := n.value - 1;
      forall t | t in remaining
        ensures t in page <==> t == remaining[k] || !Less(remaining[k], t)
      {
        var i :| 0 <= i < |remaining| && remaining[i] == t;
        LessTotal(remaining[k], t);
        if i <= k {
          assert page[i] == t;
        } else {
          forall j | 0 <= j < |page|
            ensures page[j] != t
          {
            LessTotal(remaining[j], remaining[i]);
          }
        }
      }
    }
  }

  /** What a client lists by following cursors over `snapshots`, and whether it came to the end. */
  function Walk(snapshots: seq<seq<string>>, last: Option<string>, n: Option<nat>): (seq<string>, bool)
  {
    if snapshots == [] then ([], false)
    else
      var page := Paginate(snapshots[0], last, n).0;
      var next := Next(snapshots[0], last, n);
      if next.None? then (page, true)
      else
        var (rest, finished) := Walk(snapshots[1..], next, n);
        (page + rest, finished)
  }

  lemma SortedAppend(a: seq<string>, b: seq<string>, middle: string)
    requires Sorted(a) && Sorted(b) && (forall t :: t in a ==> t == middle || Less(t, middle))
    requires forall t :: t in b ==> Less(middle, t)
    ensures Sorted(a + b)
  {
    forall i, j | 0 <= i < |a| && |a| <= j < |a + b|
      ensures Less((a + b)[i], (a + b)[j])
    {
      assert a[i] in a && b[j - |a|] in b;
      if a[i] != middle {
        LessTransitive(a[i], middle, b[j - |a|]);
      }
    }
  }

  predicate InEvery(snapshots: seq<seq<string>>, tag: string)
  {
    forall i :: 0 <= i < |snapshots| ==> tag in snapshots[i]
  }

  predicate InSome(snapshots: seq<seq<string>>, tag: string)
  {
    exists i :: 0 <= i < |snapshots| && tag in snapshots[i]
  }

  /**
   However the tags change between requests, what a client lists is strictly increasing, so no tag is listed
   twice; each tag listed was there in some snapshot; and once the client reaches the end, it has listed
   every tag that was there all along.
   */
  lemma {:induction false} WalkListsEachTagOnce(snapshots: seq<seq<string>>, last: Option<string>, n: Option<nat>)
    requires (n.Some? ==> n.value >= 1) && forall i :: 0 <= i < |snapshots| ==> Sorted(snapshots[i])
    ensures var (listed, finished) := Walk(snapshots, last, n);
            && Sorted(listed)
            && (forall t :: t in listed ==> After(last, t) && InSome(snapshots, t))
            && (finished ==> forall t :: After(last, t) && InEvery(snapshots, t) ==> t in listed)
    decreases |snapshots|
  {
    assert Sorted([]);
    hide Less, Paginate, Sorted;
    if snapshots != [] {
      var tags, rest := snapshots[0], snapshots[1..];
      var page := Paginate(tags, last, n).0;
      var next := Next(tags, last, n);
      PageHolds(tags, last, n);
      forall t | After(last, t) && InEvery(snapshots, t)
        ensures InEvery(rest, t) && (t in page || (next.Some? && After(next, t)))
      {
        assert t in snapshots[0];
        assert forall i :: 0 <= i < |rest| ==> rest[i] == snapshots[i + 1];
      }
      if next.Some? {
        WalkListsEachTagOnce(rest, next, n);
        var listed := Walk(rest, next, n).0;
        forall t | t in page
          ensures t == next.value || Less(t, next.value)
        {
          LessTotal(t, next.value);
        }
        SortedAppend(page, listed, next.value);
        forall t | t in listed
          ensures After(last, t) && InSome(snapshots, t)
        {
          var i :| 0 <= i < |rest| && t in rest[i];
          assert snapshots[i + 1] == rest[i];
          if last.Some? {
            LessTransitive(last.value, next.value, t);
          }
        }
      }
    }
  }

  /** How many tags `k` full pages hold. */
  function Full(k: nat, n: nat): nat
  {
    if k == 0 then 0 else n + Full(k - 1, n)
  }

  lemma {:induction false} FullIsProduct(k: nat, n: nat)
    ensures Full(k, n) == k * n
  {
    if k > 0 {
      FullIsProduct(k - 1, n);
    }
  }

  function Repeated(tags: seq<string>, k: nat): seq<seq<string>>
  {
    if k == 0 then [] else [tags] + Repeated(tags, k - 1)
  }

  /** The page after a full page starts where that page ended. */
  lemma RemainingAfterPage(tags: seq<string>, last: Option<string>, n: nat)
    requires Sorted(tags) && 1 <= n < |Remaining(tags, last)|
    ensures var remaining := Remaining(tags, last); Remaining(tags, Some(remaining[n - 1])) == remaining[n..]
  {
    var start := Start(tags, last);
    var cursor := Some(tags[start + n - 1]);
    var next := Start(tags, cursor);
    assert tags[start + n - 1] == Remaining(tags, last)[n - 1];
    LessTotal(cursor.value, cursor.value);
    assert After(cursor, tags[start + n]);
    if next < start + n {
      LessTotal(tags[next], cursor.value);
    }
  }

  /** Everything, if `k` pages of `n` are enough for it, and otherwise the first `k` full pages. */
  predicate Listed(remaining: seq<string>, n: nat, k: nat, listed: seq<string>, finished: bool)
  {
    && (finished <==> k >= 1 && |remaining| <= Full(k, n))
    && (if finished then listed == remaining
        else Full(k, n) <= |remaining| && listed == remaining[..Full(k, n)])
  }

  lemma ListedOneMore(remaining: seq<string>, n: nat, k: nat, rest: seq<string>, finished: bool)
    requires n < |remaining| && Listed(remaining[n..], n, k, rest, finished)
    ensures Listed(remaining, n, k + 1, remaining[..n] + rest, finished)
  {}

  lemma ListedLast(remaining: seq<string>, n: nat, k: nat)
    requires |remaining| <= n && k >= 1
    ensures Listed(remaining, n, k, remaining, true)
  {}

  lemma NothingListed(tags: seq<string>, last: Option<string>, n: nat)
    ensures Walk(Repeated(tags, 0), last, Some(n)) == ([], false)
    ensures Listed(Remaining(tags, last), n, 0, [], false)
  {}

  lemma WalkStep(tags: seq<string>, last: Option<string>, n: nat, k: nat)
    requires k > 0 && n >= 1
    ensures var remaining := Remaining(tags, last);
            Walk(Repeated(tags, k), last, Some(n)) ==
            if n < |remaining| then
              var (rest, finished) := Walk(Repeated(tags, k - 1), Some(remaining[n - 1]), Some(n));
              (remaining[..n] + rest, finished)
            else (remaining, true)
  {
    hide Less, Remaining;
    assert Repeated(tags, k)[1..] == Repeated(tags, k - 1);
  }

  lemma {:induction false} FixedWalk(tags: seq<string>, last: Option<string>, n: nat, k: nat)
    requires Sorted(tags) && n >= 1
    ensures var (listed, finished) := Walk(Repeated(tags, k), last, Some(n));
            Listed(Remaining(tags, last), n, k, listed, finished)
    decreases k
  {
    hide Walk, Remaining, Sorted, Less, Listed, Repeated, Full;
    var remaining := Remaining(tags, last);
    if k == 0 {
      NothingListed(tags, last, n);
    } else {
      WalkStep(tags, last, n, k);
      if n < |remaining| {
        RemainingAfterPage(tags, last, n);
        FixedWalk(tags, Some(remaining[n - 1]), n, k - 1);
        var (rest, finished) := Walk(Repeated(tags, k - 1), Some(remaining[n - 1]), Some(n));
        ListedOneMore(remaining, n, k - 1, rest, finished);
      } else {
        ListedLast(remaining, n, k);
      }
    }
  }

  /** On a fixed list the walk ends with the page that `n` tags per page say, having listed the whole list. */
  lemma FixedWalkListsEverything(tags: seq<string>, last: Option<string>, n: nat, k: nat)
    requires Sorted(tags) && n >= 1
    ensures var (listed, finished) := Walk(Repeated(tags, k), last, Some(n));
            var remaining := Remaining(tags, last);
            && (finished <==> k >= 1 && |remaining| <= k * n)
            && (if finished then listed == remaining else k * n <= |remaining| && listed == remaining[..k * n])
  {
    hide Walk, Remaining, Repeated, Full, Sorted;
    FixedWalk(tags, last, n, k);
    FullIsProduct(k, n);
  }

  /** A page size of 0 ends every walk at once, with nothing listed. */
  lemma PageSizeZeroListsNothing(snapshots: seq<seq<string>>, last: Option<string>)
    requires snapshots != [] && Remaining(snapshots[0], last) != []
    ensures Paginate(snapshots[0], last, Some(0)) == ([], true)
    ensures Walk(snapshots, last, Some(0)) == ([], true)
  {}
}
