/** Unique event slugs: backend/app/services/event_service.py, _generate_unique_slug. */
module Slugs {
  import opened Counting
  import opened Decimal

  /** The slug tried with a given suffix; suffix 1 stands for no suffix at all. */
  function Candidate(stem: string, suffix: nat): string {
    if suffix <= 1 then stem else stem + "-" + ToString(suffix)
  }

  lemma CandidatesDiffer(stem: string, m: nat, n: nat)
    requires 1 <= m && 1 <= n && Candidate(stem, m) == Candidate(stem, n)
    ensures m == n
  {
    if 1 < m && 1 < n {
      var k := |stem| + 1;
      assert Candidate(stem, m)[k..] == ToString(m) && Candidate(stem, n)[k..] == ToString(n);
      ToStringIsInjective(m, n);
    }
    assert |Candidate(stem, m)| == |Candidate(stem, n)|;
  }

  /** The loop ends for every finite set of slugs, because each round uses one of them up.  It returns
      the plain slug if that is free, else the one with the least free suffix from 2 upward, and that
      suffix is at most one more than the number of slugs taken. */
  method GenerateUniqueSlug(taken: set<string>, base: string, code: string) returns (slug: string, suffix: nat)
    ensures slug == Candidate(base + "-" + code, suffix) && slug !in taken && 1 <= suffix
    ensures forall k :: 1 <= k < suffix ==> Candidate(base + "-" + code, k) in taken
    ensures suffix <= |taken| + 1
  {
    var stem := base + "-" + code;
    slug := stem;
    suffix := 1;
    ghost var tried: set<string> := {};
    while slug in taken
      invariant 1 <= suffix && slug == Candidate(stem, suffix)
      invariant forall k :: 1 <= k < suffix ==> Candidate(stem, k) in tried
      invariant forall s :: s in tried ==> exists k :: 1 <= k < suffix && s == Candidate(stem, k)
      invariant tried <= taken && |tried| == suffix - 1
      decreases taken - tried
    {
      if slug in tried {
        var k :| 1 <= k < suffix && slug == Candidate(stem, k);
        CandidatesDiffer(stem, k, suffix);
      }
      tried := tried + {slug};
      suffix := suffix + 1;
      slug := stem + "-" + ToString(suffix);
    }
    SubsetIsNoLarger(tried, taken);
  }
}
