/**
 * The local search of src/stores/customers.store.ts: when the search
 * query is not blank, only the customers whose first name, last name or
 * e-mail address contains the lower-cased query, or whose phone number
 * contains it as typed, are kept, in their original order; a blank query
 * keeps the whole list.
 */
module CustomersStore {
  import opened Wrappers
  import opened JsBuiltins
  import opened Sequences

  datatype Customer = Customer(
    id: string,
    firstName: string,
    lastName: string,
    email: string,
    phone: string,
    city: Option<string>,
    province: Option<string>,
    createdAt: string)

  /** The filter's test. `query` is already lower-cased; the three name
      fields are lower-cased, the phone number is not. Every text contains
      the empty text, so the empty query would keep everyone; a query of
      spaces would not, which is why the blank test comes first. */
  predicate MatchesQuery(c: Customer, query: string)
    ensures query == [] ==> MatchesQuery(c, query)
  {
    assert query == [] ==> OccursAt(c.phone, query, 0);
    || Contains(ToLower(c.firstName), query)
    || Contains(ToLower(c.lastName), query)
    || Contains(ToLower(c.email), query)
    || Contains(c.phone, query)
  }

  /** Array.prototype.filter with MatchesQuery. */
  function FilterByQuery(cs: seq<Customer>, query: string): (r: seq<Customer>)
    ensures forall c :: c in r <==> c in cs && MatchesQuery(c, query)
    ensures IsSubsequence(r, cs)
    ensures |r| <= |cs|
  {
    if cs == [] then []
    else
      var rest := FilterByQuery(cs[1..], query);
      assert cs == [cs[0]] + cs[1..];
      if MatchesQuery(cs[0], query) then
        assert ([cs[0]] + rest)[1..] == rest;
        [cs[0]] + rest
      else rest
  }

  /** Lines 18-29 of fetchCustomers: the list the store keeps from the
      customers the service returned. The query is trimmed only to decide
      whether it is blank; the filter lower-cases it but does not trim it. */
  function SearchCustomers(all: seq<Customer>, searchQuery: string): (r: seq<Customer>)
    ensures AllWhitespace(searchQuery) ==> r == all
    ensures !AllWhitespace(searchQuery) ==>
              forall c :: c in r <==> c in all && MatchesQuery(c, ToLower(searchQuery))
    ensures IsSubsequence(r, all)
  {
    if Trim(searchQuery) != [] then FilterByQuery(all, ToLower(searchQuery))
    else
      SubsequenceReflexive(all);
      all
  }

  /** When every customer matches, the filter keeps the list as it is. */
  lemma {:induction false} FilterKeepsAllMatches(cs: seq<Customer>, query: string)
    requires forall c :: c in cs ==> MatchesQuery(c, query)
    ensures FilterByQuery(cs, query) == cs
  {
    if cs != [] {
      assert cs == [cs[0]] + cs[1..];
      FilterKeepsAllMatches(cs[1..], query);
    }
  }

  /** Filtering twice with the same query is filtering once. */
  lemma FilterIdempotent(cs: seq<Customer>, query: string)
    ensures FilterByQuery(FilterByQuery(cs, query), query) == FilterByQuery(cs, query)
  {
    FilterKeepsAllMatches(FilterByQuery(cs, query), query);
  }

  /** A customer kept once is kept as often as it occurs, and the filter
      commutes with concatenation: the lists of two pages filter apart. */
  lemma {:induction false} FilterConcat(a: seq<Customer>, b: seq<Customer>, query: string)
    ensures FilterByQuery(a + b, query) == FilterByQuery(a, query) + FilterByQuery(b, query)
  {
    if a == [] {
      assert a + b == b;
    } else {
      assert (a + b)[1..] == a[1..] + b;
      FilterConcat(a[1..], b, query);
    }
  }

  lemma NoLowerExtInPhone(phone: string)
    requires phone == "Ext"
    ensures !Contains(phone, "ext")
  {
    forall i | 0 <= i <= |phone|
      ensures !OccursAt(phone, "ext", i)
    {
      if i == 0 {
        assert phone[0..3][0] == 'E';
      }
    }
  }

  /** The phone number is compared as typed while the query is
      lower-cased: the query "Ext" finds a customer whose first name is
      "Ext" but not one whose phone number reads "Ext". */
  lemma PhoneComparedAsTyped(c: Customer)
    requires c.firstName == "" && c.lastName == "" && c.email == "" && c.phone == "Ext"
    ensures SearchCustomers([c], "Ext") == []
    ensures var d := c.(firstName := "Ext", phone := "");
            SearchCustomers([d], "Ext") == [d]
  {
    var d := c.(firstName := "Ext", phone := "");
    assert !IsWhitespace("Ext"[0]);
    assert ToLower("Ext") == "ext";
    NoLowerExtInPhone(c.phone);
    assert !MatchesQuery(c, "ext");
    assert OccursAt(ToLower(d.firstName), "ext", 0);
    assert MatchesQuery(d, "ext");
  }

  /** The query is trimmed only for the blank test: "ab" finds a customer
      named "ab" and " ab" does not. */
  lemma QueryNotTrimmed(c: Customer)
    requires c.firstName == "ab" && c.lastName == "" && c.email == "" && c.phone == ""
    ensures SearchCustomers([c], "ab") == [c]
    ensures SearchCustomers([c], " ab") == []
  {
    assert !IsWhitespace("ab"[0]) && !IsWhitespace(" ab"[1]);
    assert ToLower("ab") == "ab" && ToLower(" ab") == " ab";
    assert OccursAt(ToLower(c.firstName), "ab", 0);
    assert MatchesQuery(c, "ab");
    assert !MatchesQuery(c, " ab");
  }

  /** Upper case in the query does not matter: the store lower-cases the
      query before matching. */
  lemma QueryCaseIgnored(all: seq<Customer>, q: string)
    ensures SearchCustomers(all, ToLower(q)) == SearchCustomers(all, q)
  {
    LowerIdempotent(q);
    TrimLowerCommute(q);
  }

  /** The store's customer list and search query. */
  class CustomersList {
    var customers: seq<Customer>
    var searchQuery: string

    constructor ()
      ensures customers == [] && searchQuery == ""
    {
      customers := [];
      searchQuery := "";
    }

    /** The assignment at lines 18-29, once the service has answered with
        `all`. */
    method ApplySearch(all: seq<Customer>)
      modifies this`customers
      ensures customers == SearchCustomers(all, searchQuery)
    {
      if Trim(searchQuery) != [] {
        var query := ToLower(searchQuery);
        customers := FilterByQuery(all, query);
      } else {
        customers := all;
      }
    }
  }
}
