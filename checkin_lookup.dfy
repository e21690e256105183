/** What the two check-in dashboards share: the registration record they
    list, the e-mail typeahead, the exact e-mail search, and the body of the
    offchain verification request. */
module CheckinLookup {
  import opened Js
  import Text
  import Seqs

  /** `id: number | string` */
  datatype RegistrationId = Index(n: nat) | Label(s: string)

  /** A dashboard registration; `None` is `null` or an absent key. */
  datatype Registration = Registration(
    id: RegistrationId, name: Option<string>, email: string, phone: Option<string>,
    country: Option<string>, location: Option<string>, gender: Option<string>,
    github: Option<string>, telegramusername: Option<string>, xhandle: Option<string>,
    role: Option<string>, timestamp: Option<string>)

  /** Shorter queries (after trimming) clear the suggestions. */
  const MinQueryLength: nat := 2
  const MaxSuggestions: nat := 10

  /** The typeahead test: the lower-cased e-mail contains the lower-cased,
      untrimmed query. */
  predicate Matches(r: Registration, query: string) {
    Text.Contains(Text.Lower(r.email), Text.Lower(query))
  }

  /** The suggestion list `handleInputChange` settles on for `query`. */
  function Suggestions(regs: seq<Registration>, query: string): (s: seq<Registration>)
    ensures Text.TrimmedLength(query) < MinQueryLength ==> s == []
    ensures |s| <= MaxSuggestions
    ensures forall r :: r in s ==> r in regs && Matches(r, query)
  {
    if Text.TrimmedLength(query) < MinQueryLength then []
    else Seqs.Take(Seqs.Filter(regs, r => Matches(r, query)), MaxSuggestions)
  }

  /** Suggestions keep the order of the registrations they come from. */
  lemma SuggestionsInOrder(regs: seq<Registration>, query: string)
    ensures Seqs.IsSubsequence(Suggestions(regs, query), regs)
  {
    if Text.TrimmedLength(query) >= MinQueryLength {
      var f := Seqs.Filter(regs, r => Matches(r, query));
      Seqs.FilterIsSubsequence(regs, r => Matches(r, query));
      Seqs.SubsequencePrefix(f, regs, Seqs.Min(|f|, MaxSuggestions));
    }
  }

  /** When the list is not full, no matching registration was left out;
      when it is full, it holds the first ten matches. */
  lemma SuggestionsComplete(regs: seq<Registration>, query: string)
    requires Text.TrimmedLength(query) >= MinQueryLength
    ensures |Suggestions(regs, query)| < MaxSuggestions ==>
      forall r :: r in regs && Matches(r, query) ==> r in Suggestions(regs, query)
    ensures |Suggestions(regs, query)| == MaxSuggestions ==>
      Suggestions(regs, query) == Seqs.Filter(regs, r => Matches(r, query))[..MaxSuggestions]
  {
    var f := Seqs.Filter(regs, r => Matches(r, query));
    if |f| < MaxSuggestions {
      assert Suggestions(regs, query) == f[..|f|] == f;
    }
  }

  /** The search test: e-mail and query are equal up to case. */
  predicate EmailIs(r: Registration, query: string) {
    Text.SameIgnoringCase(r.email, query)
  }

  predicate FirstMatchAt(regs: seq<Registration>, query: string, i: int) {
    0 <= i < |regs| && EmailIs(regs[i], query)
    && forall j :: 0 <= j < i ==> !EmailIs(regs[j], query)
  }

  /** `registrations.find(...)` of the Search button. */
  function FindByEmail(regs: seq<Registration>, query: string): (r: Option<Registration>)
    ensures r.None? <==> forall i :: 0 <= i < |regs| ==> !EmailIs(regs[i], query)
    ensures r.Some? ==> r.value in regs && EmailIs(r.value, query)
  {
    if regs == [] then None
    else if EmailIs(regs[0], query) then Some(regs[0])
    else FindByEmail(regs[1..], query)
  }

  /** The search hit is the first registration with that e-mail. */
  lemma {:induction false} FindByEmailFirst(regs: seq<Registration>, query: string)
    requires FindByEmail(regs, query).Some?
    ensures exists i :: FirstMatchAt(regs, query, i) && regs[i] == FindByEmail(regs, query).value
  {
    if EmailIs(regs[0], query) {
      assert FirstMatchAt(regs, query, 0);
    } else {
      FindByEmailFirst(regs[1..], query);
      var i :| FirstMatchAt(regs[1..], query, i) && regs[1..][i] == FindByEmail(regs[1..], query).value;
      assert FirstMatchAt(regs, query, i + 1);
    }
  }

  /** The search ignores case in both the stored e-mail and the query. */
  lemma SearchIgnoresCase(regs: seq<Registration>, a: string, b: string)
    requires Text.SameIgnoringCase(a, b)
    ensures FindByEmail(regs, a) == FindByEmail(regs, b)
  {
    assert forall r :: EmailIs(r, a) <==> EmailIs(r, b);
    FindSameTest(regs, a, b);
  }

  lemma {:induction false} FindSameTest(regs: seq<Registration>, a: string, b: string)
    requires forall r :: EmailIs(r, a) <==> EmailIs(r, b)
    ensures FindByEmail(regs, a) == FindByEmail(regs, b)
  {
    if regs != [] {
      FindSameTest(regs[1..], a, b);
    }
  }

  /** The JSON body the dashboards post to the offchain verification endpoint. */
  datatype VerifyRequest = VerifyRequest(email: string, event: string, day: nat)

  /** Recording a verified e-mail adds it once: the count grows by one for a
      new e-mail and stays put for one already verified. */
  lemma VerifiedSetGrowth(verified: set<string>, email: string)
    ensures email in verified + {email}
    ensures |verified + {email}| == if email in verified then |verified| else |verified| + 1
  {
    if email in verified {
      assert verified + {email} == verified;
    } else {
      assert verified * {email} == {};
      assert |verified + {email}| == |verified| + |{email}|;
    }
  }
}
