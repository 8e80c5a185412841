/** Finding people: the search box of the user-search modal (name,
    username or email containing the term, case-insensitively, top 10) and
    the user filter on the admin dashboard (name or email). */
module UserSearch {
  import opened Base
  import opened Text
  import opened Seqs
  import opened Model

  /** The modal shows at most this many results. */
  const MaxResults: nat := 10

  /** `field?.toLowerCase().includes(lowerTerm)`: false for a missing field. */
  predicate FieldMatches(field: Option<string>, lowerTerm: string) {
    field.Some? && Includes(Lower(field.value), lowerTerm)
  }

  /** The modal's test on one profile. */
  predicate SearchMatches(p: Profile, lowerTerm: string) {
    FieldMatches(p.name, lowerTerm) || FieldMatches(p.username, lowerTerm) || FieldMatches(p.email, lowerTerm)
  }

  function SearchKeeps(lowerTerm: string): Profile -> bool {
    (p: Profile) => SearchMatches(p, lowerTerm)
  }

  /** The modal's results for `term`: nothing for a blank term; otherwise
      the first ten profiles, in fetch order, whose name, username or email
      contains the lower-cased term as typed (untrimmed). */
  function SearchUsers(all: seq<Profile>, term: string): (r: seq<Profile>)
    ensures IsBlank(term) ==> r == []
    ensures |r| <= MaxResults
    ensures Subseq(r, all)
    ensures forall p :: p in r ==> p in all && SearchMatches(p, Lower(term))
    ensures !IsBlank(term) ==>
              var matches := Filter(all, SearchKeeps(Lower(term)));
              && |r| == (if |matches| < MaxResults then |matches| else MaxResults)
              && r == matches[..|r|]
  {
    if IsBlank(term) then []
    else
      var matches := Filter(all, SearchKeeps(Lower(term)));
      var r := Take(matches, MaxResults);
      FilterIsSubseq(all, SearchKeeps(Lower(term)));
      PrefixIsSubseq(r, matches);
      SubseqTrans(r, matches, all);
      r
  }

  /** A field matches exactly when its lower-cased text contains the term
      somewhere. */
  lemma FieldMatchesMeaning(field: Option<string>, lowerTerm: string)
    ensures FieldMatches(field, lowerTerm) <==> field.Some? && Occurs(Lower(field.value), lowerTerm)
  {
  }

  /** When no more than ten profiles match, every one of them is shown, in
      order. */
  lemma FewMatchesAllShown(all: seq<Profile>, term: string)
    requires !IsBlank(term)
    requires |Filter(all, SearchKeeps(Lower(term)))| <= MaxResults
    ensures forall p :: p in all && SearchMatches(p, Lower(term)) ==> p in SearchUsers(all, term)
  {
  }

  /** Profiles fetched later never displace the ones shown: the results for
      a list are a prefix of the results for any longer list. */
  lemma LaterProfilesNeverDisplace(all: seq<Profile>, more: seq<Profile>, term: string)
    ensures var shown := SearchUsers(all, term);
            var longer := SearchUsers(all + more, term);
            |shown| <= |longer| && shown == longer[..|shown|]
  {
    if !IsBlank(term) {
      var keep := SearchKeeps(Lower(term));
      FilterAppend(all, more, keep);
      var m1, m2 := Filter(all, keep), Filter(all + more, keep);
      assert m2[..|m1|] == m1;
      TakeOfPrefix(m1, m2, MaxResults);
    }
  }

  /** Fewer than ten results means nothing was cut: every match is shown. */
  lemma CutOnlyWhenFull(all: seq<Profile>, term: string)
    requires !IsBlank(term)
    requires |SearchUsers(all, term)| < MaxResults
    ensures forall p :: p in all && SearchMatches(p, Lower(term)) ==> p in SearchUsers(all, term)
  {
    var matches := Filter(all, SearchKeeps(Lower(term)));
    assert SearchUsers(all, term) == matches;
  }

  /** Lower-casing keeps white space and non-space characters apart. */
  lemma LowerBlank(s: string)
    ensures IsBlank(Lower(s)) <==> IsBlank(s)
  {
    BlankIffAllSpace(s);
    BlankIffAllSpace(Lower(s));
    forall i | 0 <= i < |s|
      ensures IsSpace(Lower(s)[i]) <==> IsSpace(s[i])
    {
      LowerCharSpace(s[i]);
    }
  }

  /** The search ignores the case of the term. */
  lemma SearchIgnoresTermCase(all: seq<Profile>, term: string)
    ensures SearchUsers(all, Lower(term)) == SearchUsers(all, term)
  {
    LowerBlank(term);
    LowerIdempotent(term);
  }

  /** The term is not trimmed: a leading space keeps "bob" from matching. */
  lemma UntrimmedTermMisses()
    ensures !FieldMatches(Some("bob"), Lower(" bob"))
  {
    assert Lower(" bob") == " bob";
    assert !Includes("bob", " bob");
  }

  /** The admin dashboard's user filter: lower-cased name or email contains
      the lower-cased search text. */
  predicate AdminMatches(p: Profile, search: string) {
    FieldMatches(p.name, Lower(search)) || FieldMatches(p.email, Lower(search))
  }

  function AdminKeeps(search: string): Profile -> bool {
    (p: Profile) => AdminMatches(p, search)
  }

  /** `filteredUsers`. */
  function FilterUsers(users: seq<Profile>, search: string): (r: seq<Profile>)
    ensures forall p :: p in r <==> p in users && AdminMatches(p, search)
    ensures Subseq(r, users)
  {
    FilterIsSubseq(users, AdminKeeps(search));
    Filter(users, AdminKeeps(search))
  }

  /** With an empty search every user with a name or an email is listed,
      and a user with neither never is. */
  lemma EmptySearchNeedsNameOrEmail(users: seq<Profile>)
    ensures forall p :: p in FilterUsers(users, "") <==> p in users && (p.name.Some? || p.email.Some?)
  {
    forall p | p in users
      ensures AdminMatches(p, "") <==> p.name.Some? || p.email.Some?
    {
      if p.name.Some? {
        assert StartsWith(Lower(p.name.value), "");
      }
      if p.email.Some? {
        assert StartsWith(Lower(p.email.value), "");
      }
    }
  }
}
