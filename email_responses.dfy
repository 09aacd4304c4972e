/**
 * The email review queue: the list of received emails narrowed by a status
 * filter and an intent filter (each "all" or a chosen value), and the badge
 * shown for an email's status.
 */
module EmailAIResponsesPage {
  import opened Wrappers
  import opened Seqs
  import opened Text

  datatype Email = Email(
    id: int, subject: string, from: string, intent: string, configuredEmail: string,
    status: string, receivedAt: string, aiDraft: string)

  /**
   * The status filter: "all", or the selected value occurs in the lower-cased
   * status (the selected value itself is not lower-cased).
   */
  function StatusMatches(selected: string, e: Email): (m: bool)
    ensures selected == "all" || selected == "" ==> m
    ensures m && selected != "all" ==> |selected| <= |e.status|
  {
    IncludesEmpty(Lower(e.status));
    selected == "all" || Includes(Lower(e.status), selected)
  }

  /** A window of the status, lower-cased, that reads exactly `sub`. */
  predicate LowerWindow(s: string, sub: string, i: int)
  {
    0 <= i <= |s| - |sub| && Lower(s[i..i + |sub|]) == sub
  }

  /**
   * Any selection other than "all" matches exactly the statuses that, read
   * in lower case, contain it somewhere.
   */
  lemma StatusMatchesMeaning(selected: string, e: Email)
    requires selected != "all"
    ensures StatusMatches(selected, e) <==> exists i :: LowerWindow(e.status, selected, i)
  {
    var s := e.status;
    if StatusMatches(selected, e) {
      var i :| 0 <= i <= |s| - |selected| && OccursAt(Lower(s), selected, i);
      LowerSlice(s, i, i + |selected|);
      assert LowerWindow(s, selected, i);
    }
    if i :| LowerWindow(s, selected, i) {
      LowerSlice(s, i, i + |selected|);
      assert OccursAt(Lower(s), selected, i);
    }
  }

  /** The intent filter: "all", or exact equality with the email's intent. */
  function IntentMatches(selected: string, e: Email): (m: bool)
    ensures selected == "all" ==> m
    ensures selected == e.intent ==> m
    ensures selected != "all" && selected != e.intent ==> !m
  {
    selected == "all" || e.intent == selected
  }

  /**
   * `filteredEmails`: an order-preserving subsequence of the emails keeping
   * exactly those that match both filters.
   */
  function FilterEmails(emails: seq<Email>, status: string, intent: string): (r: seq<Email>)
    ensures IsSubsequence(r, emails)
    ensures forall e :: (multiset(r)[e] ==
                         if StatusMatches(status, e) && IntentMatches(intent, e) then multiset(emails)[e] else 0)
  {
    var keep := (e: Email) => StatusMatches(status, e) && IntentMatches(intent, e);
    FilterIsSubsequence(emails, keep);
    FilterKeepsExactly(emails, keep);
    Filter(emails, keep)
  }

  /** An email is listed iff it is in the list and passes both filters. */
  lemma FilterEmailsMembership(emails: seq<Email>, status: string, intent: string, e: Email)
    ensures e in FilterEmails(emails, status, intent) <==>
      e in emails && StatusMatches(status, e) && IntentMatches(intent, e)
  {
    var r := FilterEmails(emails, status, intent);
    assert e in r <==> multiset(r)[e] > 0;
    assert e in emails <==> multiset(emails)[e] > 0;
  }

  /** With both filters on "all", every email is listed, in order. */
  lemma AllFiltersListEverything(emails: seq<Email>)
    ensures FilterEmails(emails, "all", "all") == emails
  {
    var r := FilterEmails(emails, "all", "all");
    assert multiset(r) == multiset(emails);
    SubsequenceFull(r, emails);
  }

  /**
   * The combined filter is the intersection of the two single filters: first
   * narrowing by status, then by intent, gives exactly the combined list.
   */
  lemma CombinedFilterIsIntersection(emails: seq<Email>, status: string, intent: string)
    ensures FilterEmails(emails, status, intent) ==
      FilterEmails(FilterEmails(emails, status, "all"), "all", intent)
  {
    var both := (e: Email) => StatusMatches(status, e) && IntentMatches(intent, e);
    var r := FilterEmails(emails, status, intent);
    var byStatus := FilterEmails(emails, status, "all");
    var chained := FilterEmails(byStatus, "all", intent);
    SubsequenceTransitive(chained, byStatus, emails);
    assert KeepsExactly(r, emails, both);
    assert KeepsExactly(chained, emails, both) by {
      forall e ensures multiset(chained)[e] == if both(e) then multiset(emails)[e] else 0 {
        assert multiset(chained)[e] == if IntentMatches(intent, e) then multiset(byStatus)[e] else 0;
        assert multiset(byStatus)[e] == if StatusMatches(status, e) then multiset(emails)[e] else 0;
      }
    }
    FilterUnique(r, emails, both);
    FilterUnique(chained, emails, both);
  }

  lemma PendingReviewIncludesPending(status: string)
    requires status == "Pending Review"
    ensures Includes(Lower(status), "pending")
  {
    var s := Lower(status);
    assert s[..7] == "pending";
    assert OccursAt(s, "pending", 0);
  }

  lemma PendingReviewExcludes(status: string)
    requires status == "Pending Review"
    ensures !Includes(Lower(status), "approved") && !Includes(Lower(status), "sent")
  {
    assert 'a' !in status && 'A' !in status;
    LowerExcludes(status, "approved");
    assert 's' !in status && 'S' !in status;
    LowerExcludes(status, "sent");
  }

  /** Status matching is substring containment: "pending" selects "Pending Review". */
  lemma PendingSelectsPendingReview(e: Email)
    requires e.status == "Pending Review"
    ensures StatusMatches("pending", e)
    ensures !StatusMatches("approved", e) && !StatusMatches("sent", e)
  {
    PendingReviewIncludesPending(e.status);
    PendingReviewExcludes(e.status);
  }

  /** Intent matching is exact: a different intent string never matches. */
  lemma IntentIsExact(e: Email, selected: string)
    requires selected != "all" && selected != e.intent
    ensures !IntentMatches(selected, e)
  {
  }

  datatype BadgeVariant = Default | Secondary | Outline

  datatype Badge = Badge(variant: BadgeVariant, color: string)

  /**
   * `getStatusBadge`: variant and colour for the four known statuses; any
   * other status finds neither in the lookup tables.
   */
  function StatusBadge(status: string): (b: Option<Badge>)
    ensures b.Some? <==> status in {"Pending Review", "Approved", "Sent", "Edited"}
    ensures b.Some? && b.value.variant == Secondary <==> status == "Pending Review"
    ensures b.Some? && b.value.variant == Outline <==> status == "Edited"
  {
    if status == "Pending Review" then Some(Badge(Secondary, "text-yellow-600"))
    else if status == "Approved" then Some(Badge(Default, "text-green-600"))
    else if status == "Sent" then Some(Badge(Default, "text-blue-600"))
    else if status == "Edited" then Some(Badge(Outline, "text-orange-600"))
    else None
  }

  /** The four known statuses are told apart by their colour. */
  lemma StatusBadgeColoursDistinct(s: string, t: string)
    requires StatusBadge(s).Some? && StatusBadge(t).Some? && s != t
    ensures StatusBadge(s).value.color != StatusBadge(t).value.color
  {
  }
}
