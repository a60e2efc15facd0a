/**
 * The story collection as values: hugging and reporting by id, the
 * soft-hide of reported stories, and the ordering of the wall.
 */
module Stories {
  import opened Types

  /** A story reported this many times is hidden from every view. */
  const ReportThreshold := 5

  /** `handleLeaveMark`: one more hug for every story with this id. */
  function React(stories: seq<Story>, id: string): (r: seq<Story>)
    ensures |r| == |stories|
    ensures forall i :: 0 <= i < |stories| && stories[i].id == id ==>
              r[i] == stories[i].(reactionCount := stories[i].reactionCount + 1)
    ensures forall i :: 0 <= i < |stories| && stories[i].id != id ==> r[i] == stories[i]
  {
    if stories == [] then []
    else
      var s := stories[0];
      [if s.id == id then s.(reactionCount := s.reactionCount + 1) else s] + React(stories[1..], id)
  }

  /** `handleReport`: one more report for every story with this id. */
  function Report(stories: seq<Story>, id: string): (r: seq<Story>)
    ensures |r| == |stories|
    ensures forall i :: 0 <= i < |stories| && stories[i].id == id ==>
              r[i] == stories[i].(reportCount := stories[i].reportCount + 1)
    ensures forall i :: 0 <= i < |stories| && stories[i].id != id ==> r[i] == stories[i]
  {
    if stories == [] then []
    else
      var s := stories[0];
      [if s.id == id then s.(reportCount := s.reportCount + 1) else s] + Report(stories[1..], id)
  }

  predicate HasId(stories: seq<Story>, id: string) {
    exists i :: 0 <= i < |stories| && stories[i].id == id
  }

  /** Hugging leaves the collection unchanged exactly when no story has the id. */
  lemma ReactNoOpIff(stories: seq<Story>, id: string)
    ensures React(stories, id) == stories <==> !HasId(stories, id)
  {
    if HasId(stories, id) {
      var i :| 0 <= i < |stories| && stories[i].id == id;
      assert React(stories, id)[i].reactionCount != stories[i].reactionCount;
    }
  }

  /** Reporting leaves the collection unchanged exactly when no story has the id. */
  lemma ReportNoOpIff(stories: seq<Story>, id: string)
    ensures Report(stories, id) == stories <==> !HasId(stories, id)
  {
    if HasId(stories, id) {
      var i :| 0 <= i < |stories| && stories[i].id == id;
      assert Report(stories, id)[i].reportCount != stories[i].reportCount;
    }
  }

  /** A story stays on show while it has fewer than five reports. */
  predicate IsVisible(s: Story) {
    s.reportCount < ReportThreshold
  }

  /** `visibleStories`: the stories not hidden by reports, in collection order. */
  function Visible(stories: seq<Story>): (r: seq<Story>)
    ensures |r| <= |stories|
  {
    if stories == [] then []
    else (if IsVisible(stories[0]) then [stories[0]] else []) + Visible(stories[1..])
  }

  /** Hiding keeps every visible story as often as it occurs, and drops every hidden one. */
  lemma {:induction false} VisibleMultiset(stories: seq<Story>, x: Story)
    ensures multiset(Visible(stories))[x] == if IsVisible(x) then multiset(stories)[x] else 0
  {
    if stories != [] {
      VisibleMultiset(stories[1..], x);
      assert stories == [stories[0]] + stories[1..];
    }
  }

  /** Hiding keeps relative order: it distributes over concatenation. */
  lemma {:induction false} VisibleAppend(a: seq<Story>, b: seq<Story>)
    ensures Visible(a + b) == Visible(a) + Visible(b)
  {
    if a == [] {
      assert a + b == b;
    } else {
      var head := if IsVisible(a[0]) then [a[0]] else [];
      calc {
        Visible(a + b);
        { assert (a + b)[0] == a[0]; assert (a + b)[1..] == a[1..] + b; }
        head + Visible(a[1..] + b);
        { VisibleAppend(a[1..], b); }
        head + (Visible(a[1..]) + Visible(b));
        (head + Visible(a[1..])) + Visible(b);
      }
    }
  }

  /** Hugs never hide or reveal a story: hugging commutes with hiding. */
  lemma {:induction false} ReactCommutesWithVisible(stories: seq<Story>, id: string)
    ensures Visible(React(stories, id)) == React(Visible(stories), id)
  {
    if stories == [] {
      assert React(stories, id) == [] && Visible(stories) == [];
    } else {
      var h := stories[0];
      var t := stories[1..];
      var h' := if h.id == id then h.(reactionCount := h.reactionCount + 1) else h;
      var head := if IsVisible(h) then [h'] else [];
      calc {
        Visible(React(stories, id));
        Visible([h'] + React(t, id));
        { VisibleAppend([h'], React(t, id)); assert [h'][1..] == []; }
        head + Visible(React(t, id));
        { ReactCommutesWithVisible(t, id); }
        head + React(Visible(t), id);
      }
      if IsVisible(h) {
        var v := [h] + Visible(t);
        assert v[0] == h && v[1..] == Visible(t);
        assert Visible(stories) == v;
        assert React(v, id) == [h'] + React(Visible(t), id);
      } else {
        assert Visible(stories) == [] + Visible(t) == Visible(t);
        assert head + React(Visible(t), id) == React(Visible(t), id);
      }
    }
  }

  /** The sort key: hugs for the trending wall, creation time otherwise. */
  function Key(filter: FilterType, s: Story): int {
    if filter == Trending then s.reactionCount else s.timestamp
  }

  /** Non-increasing in the key: largest (or newest) first. */
  predicate SortedBy(filter: FilterType, s: seq<Story>) {
    forall i, j :: 0 <= i < j < |s| ==> Key(filter, s[i]) >= Key(filter, s[j])
  }

  /** Where `x` goes: after every story whose key is larger than its own. */
  function InsertPos(filter: FilterType, x: Story, sorted: seq<Story>): (p: nat)
    ensures p <= |sorted|
    ensures forall j :: 0 <= j < p ==> Key(filter, sorted[j]) > Key(filter, x)
    ensures p < |sorted| ==> Key(filter, sorted[p]) <= Key(filter, x)
  {
    if sorted == [] || Key(filter, sorted[0]) <= Key(filter, x) then 0
    else 1 + InsertPos(filter, x, sorted[1..])
  }

  /** The elements of `s` with `x` spliced in at `p`, position by position. */
  lemma SpliceAt(s: seq<Story>, p: nat, x: Story)
    requires p <= |s|
    ensures var r := s[..p] + [x] + s[p..];
      |r| == |s| + 1 && r[p] == x
      && (forall i :: 0 <= i < p ==> r[i] == s[i])
      && (forall i :: p < i < |r| ==> r[i] == s[i - 1])
  {
  }

  lemma InsertKeepsSorted(filter: FilterType, x: Story, sorted: seq<Story>, p: nat)
    requires SortedBy(filter, sorted) && p == InsertPos(filter, x, sorted)
    ensures SortedBy(filter, sorted[..p] + [x] + sorted[p..])
  {
    var r := sorted[..p] + [x] + sorted[p..];
    SpliceAt(sorted, p, x);
    forall i, j | 0 <= i < j < |r| ensures Key(filter, r[i]) >= Key(filter, r[j]) {
      if i == p && p < j - 1 {
        assert Key(filter, sorted[p]) >= Key(filter, sorted[j - 1]);
      }
    }
  }

  /** Places `x` before the first story whose key is not larger than its own. */
  function Insert(filter: FilterType, x: Story, sorted: seq<Story>): (r: seq<Story>)
    ensures |r| == |sorted| + 1
    ensures multiset(r) == multiset(sorted) + multiset{x}
    ensures SortedBy(filter, sorted) ==> SortedBy(filter, r)
  {
    var p := InsertPos(filter, x, sorted);
    assert sorted == sorted[..p] + sorted[p..];
    if SortedBy(filter, sorted) then
      InsertKeepsSorted(filter, x, sorted, p);
      sorted[..p] + [x] + sorted[p..]
    else
      sorted[..p] + [x] + sorted[p..]
  }

  /**
   * The stable descending sort `[...s].sort((a, b) => key(b) - key(a))`:
   * a permutation of its input, largest key first.
   */
  function SortByKey(filter: FilterType, s: seq<Story>): (r: seq<Story>)
    ensures |r| == |s|
    ensures multiset(r) == multiset(s)
    ensures SortedBy(filter, r)
  {
    if s == [] then []
    else
      assert s == [s[0]] + s[1..];
      Insert(filter, s[0], SortByKey(filter, s[1..]))
  }

  /** The stories whose key equals `k`, in order. */
  function WithKey(filter: FilterType, s: seq<Story>, k: int): seq<Story> {
    if s == [] then []
    else (if Key(filter, s[0]) == k then [s[0]] else []) + WithKey(filter, s[1..], k)
  }

  lemma {:induction false} WithKeyAppend(filter: FilterType, a: seq<Story>, b: seq<Story>, k: int)
    ensures WithKey(filter, a + b, k) == WithKey(filter, a, k) + WithKey(filter, b, k)
  {
    if a == [] {
      assert a + b == b;
    } else {
      var head := if Key(filter, a[0]) == k then [a[0]] else [];
      calc {
        WithKey(filter, a + b, k);
        { assert (a + b)[0] == a[0]; assert (a + b)[1..] == a[1..] + b; }
        head + WithKey(filter, a[1..] + b, k);
        { WithKeyAppend(filter, a[1..], b, k); }
        head + (WithKey(filter, a[1..], k) + WithKey(filter, b, k));
        (head + WithKey(filter, a[1..], k)) + WithKey(filter, b, k);
      }
    }
  }

  /** No story ahead of the insertion point shares the inserted story's key. */
  lemma {:induction false} WithKeyBeforePos(filter: FilterType, x: Story, sorted: seq<Story>)
    ensures WithKey(filter, sorted[..InsertPos(filter, x, sorted)], Key(filter, x)) == []
  {
    if sorted == [] || Key(filter, sorted[0]) <= Key(filter, x) {
      assert sorted[..0] == [];
    } else {
      WithKeyBeforePos(filter, x, sorted[1..]);
      var p := InsertPos(filter, x, sorted);
      var a := sorted[..p];
      assert a[0] == sorted[0];
      assert a[1..] == sorted[1..][..p - 1];
    }
  }

  lemma InsertShape(filter: FilterType, x: Story, sorted: seq<Story>)
    ensures var p := InsertPos(filter, x, sorted);
            Insert(filter, x, sorted) == (sorted[..p] + [x]) + sorted[p..]
  {
  }

  lemma WithKeySplice(filter: FilterType, a: seq<Story>, x: Story, b: seq<Story>, k: int)
    ensures WithKey(filter, a + [x] + b, k)
         == WithKey(filter, a, k) + (if Key(filter, x) == k then [x] else []) + WithKey(filter, b, k)
  {
    assert WithKey(filter, [x], k) == if Key(filter, x) == k then [x] else [] by {
      assert [x][1..] == [];
    }
    WithKeyAppend(filter, a + [x], b, k);
    WithKeyAppend(filter, a, [x], k);
  }

  lemma {:induction false} InsertWithKey(filter: FilterType, x: Story, sorted: seq<Story>, k: int)
    ensures WithKey(filter, Insert(filter, x, sorted), k)
         == (if Key(filter, x) == k then [x] else []) + WithKey(filter, sorted, k)
  {
    var p := InsertPos(filter, x, sorted);
    var a, b := sorted[..p], sorted[p..];
    assert sorted == a + b;
    InsertShape(filter, x, sorted);
    WithKeySplice(filter, a, x, b, k);
    WithKeyAppend(filter, a, b, k);
    var wa, wb := WithKey(filter, a, k), WithKey(filter, b, k);
    if Key(filter, x) == k {
      WithKeyBeforePos(filter, x, sorted);
      assert wa == [];
      assert wa + wb == wb;
      assert wa + [x] == [x];
    } else {
      assert wa + [] == wa;
    }
  }

  /**
   * The sort is stable: the stories sharing any one key appear in the
   * same relative order before and after sorting.
   */
  lemma {:induction false} SortStable(filter: FilterType, s: seq<Story>, k: int)
    ensures WithKey(filter, SortByKey(filter, s), k) == WithKey(filter, s, k)
  {
    if s != [] {
      SortStable(filter, s[1..], k);
      InsertWithKey(filter, s[0], SortByKey(filter, s[1..]), k);
    }
  }

  /** `sortedStories`: the wall as shown under a filter. */
  function SortedView(stories: seq<Story>, filter: FilterType): (r: seq<Story>)
    ensures multiset(r) == multiset(Visible(stories))
    ensures SortedBy(filter, r)
  {
    SortByKey(filter, Visible(stories))
  }

  /** The wall shows exactly the stories with fewer than five reports. */
  lemma SortedViewMembers(stories: seq<Story>, filter: FilterType, x: Story)
    ensures x in SortedView(stories, filter) <==> x in stories && IsVisible(x)
  {
    VisibleMultiset(stories, x);
    assert x in SortedView(stories, filter) <==> x in multiset(SortedView(stories, filter));
  }

  /** The home page shows the first three stories of the sorted view. */
  function Featured(stories: seq<Story>, filter: FilterType): (r: seq<Story>)
    ensures |r| <= 3 && |r| <= |SortedView(stories, filter)|
    ensures |r| < 3 ==> |r| == |SortedView(stories, filter)|
    ensures forall i :: 0 <= i < |r| ==> r[i] == SortedView(stories, filter)[i]
    ensures forall i, j :: 0 <= i < |r| <= j < |SortedView(stories, filter)| ==>
              Key(filter, r[i]) >= Key(filter, SortedView(stories, filter)[j])
  {
    var view := SortedView(stories, filter);
    var n := if |view| < 3 then |view| else 3;
    view[..n]
  }

  /** `report` applied `n` times in a row. */
  function ReportTimes(stories: seq<Story>, id: string, n: nat): seq<Story> {
    if n == 0 then stories else Report(ReportTimes(stories, id, n - 1), id)
  }

  lemma {:induction false} ReportTimesCount(stories: seq<Story>, id: string, n: nat)
    ensures |ReportTimes(stories, id, n)| == |stories|
    ensures forall i :: 0 <= i < |stories| ==>
              ReportTimes(stories, id, n)[i]
              == if stories[i].id == id then stories[i].(reportCount := stories[i].reportCount + n) else stories[i]
  {
    if n > 0 {
      ReportTimesCount(stories, id, n - 1);
    }
  }

  /** Five reports hide every story with the id (none started below zero). */
  lemma FiveReportsHide(stories: seq<Story>, id: string, filter: FilterType)
    requires forall i :: 0 <= i < |stories| && stories[i].id == id ==> stories[i].reportCount >= 0
    ensures forall x :: x in SortedView(ReportTimes(stories, id, 5), filter) ==> x.id != id
  {
    ReportTimesCount(stories, id, 5);
    var reported := ReportTimes(stories, id, 5);
    forall x | x in SortedView(reported, filter) ensures x.id != id {
      SortedViewMembers(reported, filter, x);
    }
  }

  /** Four reports leave a fresh story on show. */
  lemma FourReportsKeepVisible(stories: seq<Story>, id: string, filter: FilterType, i: nat)
    requires i < |stories| && stories[i].id == id && stories[i].reportCount == 0
    ensures stories[i].(reportCount := 4) in SortedView(ReportTimes(stories, id, 4), filter)
  {
    ReportTimesCount(stories, id, 4);
    var reported := ReportTimes(stories, id, 4);
    assert reported[i] == stories[i].(reportCount := 4);
    SortedViewMembers(reported, filter, reported[i]);
  }
}
