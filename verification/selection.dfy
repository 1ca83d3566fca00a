/**
 * The "next non-empty date" pick shared by `src/ui/ui.rs` and
 * `src/ui/ui_config.rs`: keep the entries on or after the reference date,
 * sort them, and take the second when the first is the reference itself,
 * else the first; with fewer than two candidates show the reference.
 * Generic over the entry type and its `Ord`, since the two generations
 * compare dates differently.
 */
module Selection {
  import Sorting

  /** `entries.into_iter().filter(|e| *e >= reference).collect()`. */
  function Candidates<T(!new)>(entries: seq<T>, reference: T, le: (T, T) -> bool): (c: seq<T>)
    ensures forall x :: x in c <==> x in entries && le(reference, x)
    ensures |c| <= |entries|
  {
    if |entries| == 0 then []
    else
      var last := entries[|entries| - 1];
      Candidates(entries[..|entries| - 1], reference, le) + (if le(reference, last) then [last] else [])
  }

  /** Filtering never repeats an entry more often than the entries do. */
  lemma {:induction false} CandidatesMultiplicity<T(!new)>(entries: seq<T>, reference: T, le: (T, T) -> bool, x: T)
    ensures multiset(Candidates(entries, reference, le))[x] <= multiset(entries)[x]
  {
    if |entries| > 0 {
      var init := entries[..|entries| - 1];
      assert entries == init + [entries[|entries| - 1]];
      CandidatesMultiplicity(init, reference, le, x);
    }
  }

  /**
   * When the reference occurs at most once among the entries, the candidates
   * left after setting the reference aside do not contain it.
   */
  lemma LaterExcludesReference<T(!new)>(entries: seq<T>, reference: T, le: (T, T) -> bool)
    requires multiset(entries)[reference] <= 1
    ensures reference !in Later(Candidates(entries, reference, le), reference)
  {
    CandidatesMultiplicity(entries, reference, le, reference);
  }

  /** The candidates other than one occurrence of the reference itself. */
  function Later<T>(c: seq<T>, reference: T): multiset<T> {
    if reference in c then multiset(c) - multiset{reference} else multiset(c)
  }

  /** A least element of `m` under `le`. */
  ghost predicate LeastOf<T>(r: T, m: multiset<T>, le: (T, T) -> bool) {
    r in m && forall x :: x in m ==> le(r, x)
  }

  /** After sorting, the head is the reference exactly when the reference is a candidate. */
  lemma HeadIsReference<T(!new)>(s: seq<T>, c: seq<T>, reference: T, le: (T, T) -> bool)
    requires Sorting.TotalOrder(le) && Sorting.SortedBy(s, le)
    requires multiset(s) == multiset(c) && |s| >= 1
    requires forall x :: x in c ==> le(reference, x)
    ensures s[0] == reference <==> reference in c
    ensures s[0] == reference ==> Later(c, reference) == multiset(s[1..])
    ensures s[0] != reference ==> Later(c, reference) == multiset(s)
  {
    assert s == [s[0]] + s[1..];
    assert s[0] in multiset(c);
    if reference in c {
      assert reference in multiset(s);
      Sorting.SortedHeadIsLeast(s, le, reference);
    }
  }

  /** The head of a sorted sequence is a least element of it. */
  lemma SortedHeadLeast<T(!new)>(s: seq<T>, le: (T, T) -> bool)
    requires Sorting.Total(le) && Sorting.SortedBy(s, le) && |s| >= 1
    ensures LeastOf(s[0], multiset(s), le)
  {
    forall x | x in multiset(s)
      ensures le(s[0], x)
    {
      Sorting.SortedHeadIsLeast(s, le, x);
    }
  }

  /**
   * `next_nonempty` as written: with at least two candidates, the least
   * candidate other than the reference; otherwise the reference, even when
   * one later entry exists.
   */
  method NextNonempty<T(==, !new)>(entries: seq<T>, reference: T, le: (T, T) -> bool) returns (r: T)
    requires Sorting.TotalOrder(le)
    ensures |Candidates(entries, reference, le)| < 2 ==> r == reference
    ensures |Candidates(entries, reference, le)| >= 2 ==>
      LeastOf(r, Later(Candidates(entries, reference, le), reference), le)
    ensures r == reference || r in entries
    ensures le(reference, r)
  {
    var candidates := Candidates(entries, reference, le);
    var filtered := Sorting.Sort(candidates, le);
    assert |filtered| == |multiset(filtered)| == |multiset(candidates)| == |candidates|;
    assert le(reference, reference) by {
      assert le(reference, reference) || le(reference, reference);
    }
    if |filtered| >= 2 {
      HeadIsReference(filtered, candidates, reference, le);
      if filtered[0] == reference {
        SortedHeadLeast(filtered[1..], le) by {
          Sorting.SortedTail(filtered, le);
        }
        assert filtered[1] == filtered[1..][0];
        r := filtered[1];
      } else {
        SortedHeadLeast(filtered, le);
        r := filtered[0];
      }
      assert r in multiset(filtered);
      assert r in candidates;
    } else {
      r := reference;
    }
  }

  /**
   * The pick as the surrounding comments intend it: the least candidate other
   * than the reference whenever there is one, the reference otherwise.
   */
  method NextNonemptyFixed<T(==, !new)>(entries: seq<T>, reference: T, le: (T, T) -> bool) returns (r: T)
    requires Sorting.TotalOrder(le)
    ensures |Later(Candidates(entries, reference, le), reference)| == 0 ==> r == reference
    ensures |Later(Candidates(entries, reference, le), reference)| > 0 ==>
      LeastOf(r, Later(Candidates(entries, reference, le), reference), le)
    ensures r == reference || r in entries
    ensures le(reference, r)
  {
    var candidates := Candidates(entries, reference, le);
    var filtered := Sorting.Sort(candidates, le);
    assert |filtered| == |multiset(filtered)| == |multiset(candidates)| == |candidates|;
    assert le(reference, reference) by {
      assert le(reference, reference) || le(reference, reference);
    }
    if |filtered| >= 1 {
      HeadIsReference(filtered, candidates, reference, le);
    }
    if |filtered| >= 2 && filtered[0] == reference {
      SortedHeadLeast(filtered[1..], le) by {
        Sorting.SortedTail(filtered, le);
      }
      assert filtered[1] == filtered[1..][0];
      r := filtered[1];
      assert r in multiset(filtered);
    } else if |filtered| >= 1 && filtered[0] != reference {
      SortedHeadLeast(filtered, le);
      r := filtered[0];
      assert r in multiset(filtered);
    } else {
      r := reference;
      if |filtered| == 1 {
        assert filtered == [reference];
      }
    }
  }

  /**
   * One entry after the reference is a single candidate: `NextNonempty` must
   * then return the reference, while `NextNonemptyFixed` must return the entry.
   */
  lemma OneLaterEntryIgnored<T(!new)>(later: T, reference: T, le: (T, T) -> bool)
    requires le(reference, later) && later != reference
    ensures Candidates([later], reference, le) == [later]
    ensures Later(Candidates([later], reference, le), reference) == multiset{later}
  {
    assert [later][..0] == [];
  }
}
