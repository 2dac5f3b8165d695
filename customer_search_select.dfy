/**
 * The customer picker: a case-insensitive substring filter over the customer
 * list driven by the debounced query, the message shown instead of the list,
 * the text shown in the input, and the query the component keeps.
 */
module CustomerSearchSelect {
  import opened Js
  import opened Types

  /** `customer.full_name.toLowerCase().includes(query.toLowerCase())`. */
  predicate NameMatches(query: string, c: Customer) {
    Includes(ToLower(c.fullName), ToLower(query))
  }

  /** The test handed to `customers.filter`. */
  function Matcher(query: string): Customer -> bool {
    c => NameMatches(query, c)
  }

  /** `filteredCustomers`: all customers for an empty debounced query, otherwise the matching ones. */
  function FilteredCustomers(customers: seq<Customer>, debouncedQuery: string): (r: seq<Customer>)
    ensures debouncedQuery == "" ==> r == customers
    ensures |r| <= |customers|
    ensures forall c :: c in r <==> c in customers && (debouncedQuery == "" || NameMatches(debouncedQuery, c))
  {
    if debouncedQuery == "" then customers
    else
      FilterMembers(customers, Matcher(debouncedQuery));
      Filter(customers, Matcher(debouncedQuery))
  }

  /** The result keeps the customers' order: it is a subsequence of the list. */
  lemma FilteredInOrder(customers: seq<Customer>, debouncedQuery: string)
    ensures IsSubsequence(FilteredCustomers(customers, debouncedQuery), customers)
  {
    if debouncedQuery != "" {
      FilterSubsequence(customers, Matcher(debouncedQuery));
    } else {
      SubsequenceOfItself(customers);
    }
  }

  lemma {:induction false} SubsequenceOfItself(s: seq<Customer>)
    ensures IsSubsequence(s, s)
    decreases |s|
  {
    if s != [] {
      SubsequenceOfItself(s[1..]);
    }
  }

  /** Filtering the filtered list again with the same query changes nothing. */
  lemma FilterTwice(customers: seq<Customer>, debouncedQuery: string)
    ensures FilteredCustomers(FilteredCustomers(customers, debouncedQuery), debouncedQuery)
      == FilteredCustomers(customers, debouncedQuery)
  {
    if debouncedQuery != "" {
      FilterIdempotent(customers, Matcher(debouncedQuery));
    }
  }

  /** The filter ignores letter case in the query. */
  lemma QueryCaseIgnored(customers: seq<Customer>, debouncedQuery: string)
    ensures FilteredCustomers(customers, ToLower(debouncedQuery)) == FilteredCustomers(customers, debouncedQuery)
  {
    ToLowerIdempotent(debouncedQuery);
    FilterSameTest(customers, Matcher(ToLower(debouncedQuery)), Matcher(debouncedQuery));
  }

  /** What the options panel shows. */
  datatype Listing = LoadingCustomers | Searching | NoneFound | NoneAvailable | Options(customers: seq<Customer>)

  /** The text of a message line; the list itself has none. */
  function ListingText(l: Listing): (t: string)
    ensures t == "" <==> l.Options?
  {
    match l
    case LoadingCustomers => "Loading customers..."
    case Searching => "Searching..."
    case NoneFound => "No customers found."
    case NoneAvailable => "No customers available."
    case Options(_) => ""
  }

  /** The panel: loading, then a pending search, then an empty result for a query, then an empty list, then the list. */
  function Panel(isLoading: bool, query: string, debouncedQuery: string, customers: seq<Customer>): (l: Listing)
    ensures l.Options? ==> l.customers == FilteredCustomers(customers, debouncedQuery) && l.customers != []
    ensures !isLoading && !(query != "" && debouncedQuery == "") && FilteredCustomers(customers, debouncedQuery) != []
      ==> l == Options(FilteredCustomers(customers, debouncedQuery))
  {
    var filtered := FilteredCustomers(customers, debouncedQuery);
    if isLoading then LoadingCustomers
    else if query != "" && debouncedQuery == "" then Searching
    else if |filtered| == 0 && debouncedQuery != "" then NoneFound
    else if |filtered| == 0 then NoneAvailable
    else Options(filtered)
  }

  /** Loading wins over everything else. */
  lemma LoadingFirst(query: string, debouncedQuery: string, customers: seq<Customer>)
    ensures Panel(true, query, debouncedQuery, customers) == LoadingCustomers
  {
  }

  /**
   * Without a query, the panel is the whole list, or "No customers available."
   * exactly when there are no customers at all.
   */
  lemma NoQueryShowsEverything(customers: seq<Customer>)
    ensures customers == [] <==> Panel(false, "", "", customers) == NoneAvailable
    ensures customers != [] ==> Panel(false, "", "", customers) == Options(customers)
  {
  }

  /** "No customers found." appears exactly when a settled query matches nobody. */
  lemma NoneFoundExactly(query: string, debouncedQuery: string, customers: seq<Customer>)
    ensures Panel(false, query, debouncedQuery, customers) == NoneFound
      <==> debouncedQuery != "" && forall c :: c in customers ==> !NameMatches(debouncedQuery, c)
  {
    var filtered := FilteredCustomers(customers, debouncedQuery);
    if debouncedQuery != "" && filtered != [] {
      assert filtered[0] in filtered;
    }
  }

  /** "No customers available." appears exactly when nothing is typed and there are no customers at all. */
  lemma NoneAvailableExactly(query: string, debouncedQuery: string, customers: seq<Customer>)
    ensures Panel(false, query, debouncedQuery, customers) == NoneAvailable
      <==> query == "" && debouncedQuery == "" && customers == []
  {
    if debouncedQuery == "" {
      assert FilteredCustomers(customers, debouncedQuery) == customers;
    }
  }

  /** "Searching..." appears exactly while a typed query has not settled yet. */
  lemma SearchingExactly(query: string, debouncedQuery: string, customers: seq<Customer>)
    ensures Panel(false, query, debouncedQuery, customers) == Searching <==> query != "" && debouncedQuery == ""
  {
  }

  /** `displayValue`: `customer?.full_name || ""`. */
  function DisplayValue(c: Option<Customer>): (r: string)
    ensures c.None? ==> r == ""
    ensures c.Some? ==> r == c.value.fullName
  {
    if c.Some? && c.value.fullName != "" then c.value.fullName else ""
  }

  /** The typed query and its debounced copy. */
  datatype Search = Search(query: string, debouncedQuery: string)

  const Start := Search("", "")

  /** `onChange`: `setQuery(event.target.value)`. */
  function Type(s: Search, text: string): (r: Search)
    ensures r.query == text && r.debouncedQuery == s.debouncedQuery
  {
    s.(query := text)
  }

  /** The debounce timer fires: the debounced copy catches up with the query. */
  function Settle(s: Search): (r: Search)
    ensures r.query == s.query && r.debouncedQuery == s.query
  {
    s.(debouncedQuery := s.query)
  }

  /** The effect on `selectedCustomer`: a chosen customer clears the query. */
  function SelectionChanged(s: Search, selected: Option<Customer>): (r: Search)
    ensures selected.Some? ==> r.query == ""
    ensures selected.None? ==> r == s
    ensures r.debouncedQuery == s.debouncedQuery
  {
    if selected.Some? then s.(query := "") else s
  }

  /** `afterLeave`: closing the panel clears the query. */
  function AfterLeave(s: Search): (r: Search)
    ensures r.query == "" && r.debouncedQuery == s.debouncedQuery
  {
    s.(query := "")
  }

  /** After a selection the panel never says "Searching...", and once settled it lists every customer again. */
  lemma SelectionEndsSearch(s: Search, c: Customer, customers: seq<Customer>)
    ensures Panel(false, SelectionChanged(s, Some(c)).query, s.debouncedQuery, customers) != Searching
    ensures Settle(SelectionChanged(s, Some(c))).debouncedQuery == ""
    ensures FilteredCustomers(customers, Settle(SelectionChanged(s, Some(c))).debouncedQuery) == customers
  {
  }

  /** Typing and letting the timer fire filters by what was typed. */
  lemma TypedQueryFilters(s: Search, text: string, customers: seq<Customer>, c: Customer)
    requires text != "" && c in customers
    ensures c in FilteredCustomers(customers, Settle(Type(s, text)).debouncedQuery) <==> NameMatches(text, c)
  {
  }

  /** One mounted picker's query state. */
  class Picker {
    var query: string
    var debouncedQuery: string

    function Snapshot(): Search
      reads this
    {
      Search(query, debouncedQuery)
    }

    constructor ()
      ensures Snapshot() == Start
    {
      query := "";
      debouncedQuery := "";
    }

    method OnInput(text: string)
      modifies this
      ensures Snapshot() == Type(old(Snapshot()), text)
    {
      query := text;
    }

    method DebounceElapsed()
      modifies this
      ensures Snapshot() == Settle(old(Snapshot()))
    {
      debouncedQuery := query;
    }

    method OnSelectedCustomer(selected: Option<Customer>)
      modifies this
      ensures Snapshot() == SelectionChanged(old(Snapshot()), selected)
    {
      if selected.Some? {
        query := "";
      }
    }

    method OnAfterLeave()
      modifies this
      ensures Snapshot() == AfterLeave(old(Snapshot()))
    {
      query := "";
    }
  }
}
