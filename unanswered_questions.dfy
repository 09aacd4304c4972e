/**
 * The unanswered-questions panel: the questions sorted in place by count,
 * highest first (a stable sort, so equal counts keep their order), the
 * collapsed top-10 view or the whole list, the expand/collapse control and
 * the caption for the selected date range.
 */
module UnansweredQuestionsChart {
  import opened Seqs

  datatype Question = Question(question: string, count: int, lastAsked: string)

  /** Counts never increase along the list. */
  ghost predicate ByCountDescending(s: seq<Question>)
  {
    forall i, j :: 0 <= i < j < |s| ==> s[i].count >= s[j].count
  }

  /** The questions asked exactly c times, in list order. */
  function WithCount(s: seq<Question>, c: int): seq<Question>
  {
    Filter(s, (q: Question) => q.count == c)
  }

  lemma WithCountCons(q: Question, s: seq<Question>, c: int)
    ensures WithCount([q] + s, c) == (if q.count == c then [q] else []) + WithCount(s, c)
  {
    assert ([q] + s)[1..] == s;
  }

  /** Places q in front of the first entry whose count does not exceed q's. */
  function InsertByCount(q: Question, s: seq<Question>): (r: seq<Question>)
    ensures |r| == |s| + 1
  {
    if s == [] || s[0].count <= q.count then [q] + s else [s[0]] + InsertByCount(q, s[1..])
  }

  /**
   * The order `sort((a, b) => b.count - a.count)` produces: JavaScript's sort
   * is stable, so this is the stable sort by descending count.
   */
  function SortedByCount(s: seq<Question>): (r: seq<Question>)
    ensures |r| == |s|
  {
    if s == [] then [] else InsertByCount(s[0], SortedByCount(s[1..]))
  }

  lemma {:induction false} InsertByCountPermutes(q: Question, s: seq<Question>)
    ensures multiset(InsertByCount(q, s)) == multiset(s) + multiset{q}
  {
    if s != [] && s[0].count > q.count {
      InsertByCountPermutes(q, s[1..]);
      assert s == [s[0]] + s[1..];
    }
  }

  lemma {:induction false} InsertByCountDescending(q: Question, s: seq<Question>)
    requires ByCountDescending(s)
    ensures ByCountDescending(InsertByCount(q, s))
  {
    if s != [] && s[0].count > q.count {
      InsertByCountDescending(q, s[1..]);
      InsertByCountPermutes(q, s[1..]);
      var r := InsertByCount(q, s);
      assert r == [s[0]] + InsertByCount(q, s[1..]);
      forall j | 1 <= j < |r| ensures s[0].count >= r[j].count {
        var x := r[j];
        assert x in multiset(InsertByCount(q, s[1..]));
        assert x == q || x in s[1..];
      }
    }
  }

  lemma {:induction false} InsertByCountStable(q: Question, s: seq<Question>, c: int)
    ensures WithCount(InsertByCount(q, s), c) == (if q.count == c then [q] else []) + WithCount(s, c)
  {
    if s == [] || s[0].count <= q.count {
      WithCountCons(q, s, c);
    } else {
      InsertByCountStable(q, s[1..], c);
      WithCountCons(s[0], InsertByCount(q, s[1..]), c);
      WithCountCons(s[0], s[1..], c);
      assert s == [s[0]] + s[1..];
    }
  }

  /** The sorted list is a permutation of the questions. */
  lemma {:induction false} SortedIsPermutation(s: seq<Question>)
    ensures multiset(SortedByCount(s)) == multiset(s)
  {
    if s != [] {
      SortedIsPermutation(s[1..]);
      InsertByCountPermutes(s[0], SortedByCount(s[1..]));
      assert s == [s[0]] + s[1..];
    }
  }

  /** Counts are non-increasing along the sorted list. */
  lemma {:induction false} SortedIsDescending(s: seq<Question>)
    ensures ByCountDescending(SortedByCount(s))
  {
    if s != [] {
      SortedIsDescending(s[1..]);
      InsertByCountDescending(s[0], SortedByCount(s[1..]));
    }
  }

  /** Questions with the same count appear in the sorted list in their original order. */
  lemma {:induction false} SortedIsStable(s: seq<Question>, c: int)
    ensures WithCount(SortedByCount(s), c) == WithCount(s, c)
  {
    if s != [] {
      SortedIsStable(s[1..], c);
      InsertByCountStable(s[0], SortedByCount(s[1..]), c);
      WithCountCons(s[0], s[1..], c);
      assert s == [s[0]] + s[1..];
    }
  }

  /** Inserting q at the first position whose count does not exceed q's. */
  lemma {:induction false} InsertByCountAt(q: Question, s: seq<Question>, k: nat)
    requires k <= |s|
    requires forall m :: 0 <= m < k ==> s[m].count > q.count
    requires k == |s| || s[k].count <= q.count
    ensures InsertByCount(q, s) == s[..k] + [q] + s[k..]
  {
    if k > 0 {
      InsertByCountAt(q, s[1..], k - 1);
      assert s[..k] == [s[0]] + s[1..][..k - 1];
      assert s[k..] == s[1..][k - 1..];
    }
  }

  /**
   * `unansweredQuestions.sort((a, b) => b.count - a.count)`, in place: an
   * insertion sort that grows a sorted suffix, inserting each earlier
   * question in front of the first later one whose count does not exceed it.
   */
  method SortByCountDescending(a: array<Question>)
    modifies a
    ensures a[..] == SortedByCount(old(a[..]))
  {
    ghost var input := a[..];
    var i := a.Length;
    while i > 0
      invariant 0 <= i <= a.Length
      invariant a[..i] == input[..i]
      invariant a[i..] == SortedByCount(input[i..])
    {
      i := i - 1;
      assert input[i..] == [input[i]] + input[i + 1..];
      assert a[i] == input[i];
      InsertAt(a, i);
    }
    assert input[0..] == input;
  }

  /** One insertion step: a[i] moves right past the later entries with a higher count. */
  method InsertAt(a: array<Question>, i: nat)
    requires i < a.Length
    modifies a
    ensures a[..i] == old(a[..i])
    ensures a[i..] == InsertByCount(old(a[i]), old(a[i + 1..]))
  {
    var x := a[i];
    ghost var rest := a[i + 1..];
    var j := i;
    while j + 1 < a.Length && a[j + 1].count > x.count
      invariant i <= j < a.Length
      invariant a[..i] == old(a[..i])
      invariant forall k :: i <= k < j ==> a[k] == rest[k - i]
      invariant forall k :: j < k < a.Length ==> a[k] == rest[k - i - 1]
      invariant forall m :: 0 <= m < j - i ==> rest[m].count > x.count
    {
      a[j] := a[j + 1];
      j := j + 1;
    }
    a[j] := x;
    InsertByCountAt(x, rest, j - i);
    Spliced(a[..], i, j, rest, x);
  }

  /** The array after the insertion step, read as a sequence. */
  lemma Spliced(b: seq<Question>, i: nat, j: nat, rest: seq<Question>, x: Question)
    requires i <= j < |b| == i + 1 + |rest|
    requires forall k :: i <= k < j ==> b[k] == rest[k - i]
    requires b[j] == x
    requires forall k :: j < k < |b| ==> b[k] == rest[k - i - 1]
    ensures b[i..] == rest[..j - i] + [x] + rest[j - i..]
  {
  }

  /**
   * `displayedQuestions`: the whole sorted list when expanded, otherwise
   * `slice(0, 10)`, its first min(10, n) entries.
   */
  function Displayed(sorted: seq<Question>, showAll: bool): (r: seq<Question>)
    ensures showAll ==> r == sorted
    ensures !showAll ==> |r| == (if |sorted| < 10 then |sorted| else 10)
    ensures |r| <= |sorted| && r == sorted[..|r|]
  {
    if showAll || |sorted| <= 10 then sorted else sorted[..10]
  }

  /** The collapsed view shows the most-asked questions: none hidden has a higher count than one shown. */
  lemma CollapsedShowsTopCounts(questions: seq<Question>, i: nat, j: nat)
    requires var shown := Displayed(SortedByCount(questions), false);
      i < |shown| && |shown| <= j < |questions|
    ensures SortedByCount(questions)[i].count >= SortedByCount(questions)[j].count
  {
    SortedIsDescending(questions);
  }

  /** The expand/collapse control appears only when there are more than ten questions. */
  function ShowToggle(sorted: seq<Question>): (shown: bool)
    ensures shown <==> |sorted| > 10
    ensures shown <==> Displayed(sorted, false) != Displayed(sorted, true)
  {
    |sorted| > 10
  }

  /** Without the control, both views are the whole list: there is nothing to expand. */
  lemma NoToggleSameView(sorted: seq<Question>)
    requires !ShowToggle(sorted)
    ensures Displayed(sorted, false) == Displayed(sorted, true) == sorted
  {
  }

  /** `getDateRangeText`. */
  function DateRangeText(range: string): (text: string)
    ensures range == "1d" ==> text == "Today"
    ensures range == "7d" ==> text == "Last 7 days"
    ensures range == "30d" ==> text == "This month"
    ensures range == "90d" ==> text == "Last 90 days"
    ensures text == "Selected period" <==> range !in {"1d", "7d", "30d", "90d"}
  {
    match range
    case "1d" => "Today"
    case "7d" => "Last 7 days"
    case "30d" => "This month"
    case "90d" => "Last 90 days"
    case _ => "Selected period"
  }

  /** The panel's one piece of state: whether the full list is shown. */
  class Panel {
    var showAll: bool

    constructor ()
      ensures !showAll
    {
      showAll := false;
    }

    /** The expand/collapse button: `setShowAll(!showAll)`. */
    method Toggle()
      modifies this
      ensures showAll == !old(showAll)
    {
      showAll := !showAll;
    }

    /**
     * One render: the questions are copied into a fresh array, sorted in
     * place, and the shown rows and the visibility of the control are read
     * off the sorted array.
     */
    method Render(questions: seq<Question>) returns (displayed: seq<Question>, toggleShown: bool)
      ensures displayed == Displayed(SortedByCount(questions), showAll)
      ensures toggleShown <==> |questions| > 10
      ensures multiset(displayed) <= multiset(questions)
      ensures forall i, j :: 0 <= i < j < |displayed| ==> displayed[i].count >= displayed[j].count
    {
      var a := new Question[|questions|](i requires 0 <= i < |questions| => questions[i]);
      assert a[..] == questions;
      SortByCountDescending(a);
      var sorted := a[..];
      SortedIsPermutation(questions);
      SortedIsDescending(questions);
      displayed := if showAll || a.Length <= 10 then sorted else sorted[..10];
      assert displayed == Displayed(sorted, showAll);
      assert sorted == displayed + sorted[|displayed|..];
      assert multiset(sorted) == multiset(displayed) + multiset(sorted[|displayed|..]);
      toggleShown := ShowToggle(sorted);
    }
  }
}
