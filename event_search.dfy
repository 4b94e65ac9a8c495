/**
 * The events page's records and its search filter: the query is trimmed and
 * lower-cased, and an event is kept when the lower-cased text
 * "<id> <sessionId> <type label>" includes it.
 */
module EventSearch {
  import opened Options
  import opened JsBuiltins

  datatype EventType = Payment

  datatype PaymentStatus = Pending | Confirmed | Failed | TimedOut

  datatype Currency = Usdc | Usdt

  /** The optional payment sub-record; `amount` is an integer count of 10^-6 units. */
  datatype PaymentInfo = PaymentInfo(status: PaymentStatus, amount: int, currency: Option<Currency>)

  datatype Event = Event(
    id: string,
    sessionId: string,
    createdAt: string,
    kind: EventType,
    payment: Option<PaymentInfo>)

  /** The human-readable label of an event type; PAYMENT is the only type and reads "payment". */
  function TypeLabel(t: EventType): string {
    match t
    case Payment => "payment"
  }

  /** The text an event is searched by: id, session id and type label, separated by single spaces. */
  function SearchText(e: Event): string {
    e.id + (" " + (e.sessionId + (" " + TypeLabel(e.kind))))
  }

  /** `query.trim().toLowerCase()`. */
  function NormalizeQuery(query: string): (r: string)
    ensures exists i :: BlankOutside(query, i, |r|) && LowerCasedAt(r, query, i)
    ensures r == [] || (!IsTrimmable(r[0]) && !IsTrimmable(r[|r| - 1]))
    ensures forall i :: 0 <= i < |r| ==> !IsAsciiUpper(r[i])
    ensures r == [] <==> forall k :: 0 <= k < |query| ==> IsTrimmable(query[k])
  {
    LowerCaseKeepsEnds(Trim(query));
    LowerCasedWindow(query);
    ToLowerCase(Trim(query))
  }

  /** `r` is the lower-cased copy of the characters of `query` from position `i` on. */
  predicate LowerCasedAt(r: string, query: string, i: int) {
    0 <= i && i + |r| <= |query| && forall k :: 0 <= k < |r| ==> r[k] == ToLowerChar(query[i + k])
  }

  /** The lower-cased trim of `query` is the lower-cased window of `query` with only white space around it. */
  lemma LowerCasedWindow(query: string)
    ensures exists i :: BlankOutside(query, i, |ToLowerCase(Trim(query))|) && LowerCasedAt(ToLowerCase(Trim(query)), query, i)
  {
    var t := Trim(query);
    var i :| OccursAt(t, query, i) && BlankOutside(query, i, |t|);
    LowerCaseOfWindow(query, t, i);
    assert BlankOutside(query, i, |ToLowerCase(t)|);
  }

  /** Lower-casing the window of `query` at `i` lower-cases the characters found there. */
  lemma LowerCaseOfWindow(query: string, t: string, i: int)
    requires OccursAt(t, query, i)
    ensures LowerCasedAt(ToLowerCase(t), query, i)
  {
    forall k | 0 <= k < |t| ensures ToLowerCase(t)[k] == ToLowerChar(query[i + k]) {
      assert t[k] == query[i..i + |t|][k];
    }
  }

  /** Lower-casing a trimmed string leaves it trimmed. */
  lemma LowerCaseKeepsEnds(t: string)
    requires t == [] || (!IsTrimmable(t[0]) && !IsTrimmable(t[|t| - 1]))
    ensures var r := ToLowerCase(t);
      r == [] || (!IsTrimmable(r[0]) && !IsTrimmable(r[|r| - 1]))
  {
    if t != [] {
      LowerCaseKeepsTrimmable(t[0]);
      LowerCaseKeepsTrimmable(t[|t| - 1]);
    }
  }

  lemma LowerCaseKeepsTrimmable(c: char)
    ensures IsTrimmable(ToLowerChar(c)) == IsTrimmable(c)
  {
    if IsAsciiUpper(c) {
      assert !IsTrimmable(c);
      assert 'a' <= ToLowerChar(c) <= 'z';
    }
  }

  /** Whether an event passes the filter for an already normalized query. */
  predicate Matches(e: Event, normalizedQuery: string) {
    Includes(ToLowerCase(SearchText(e)), normalizedQuery)
  }

  /** `events ?? []`: the fetched list, or nothing while there is no data. */
  function BaseEvents(data: Option<seq<Event>>): (r: seq<Event>)
    ensures data.None? ==> r == []
    ensures data.Some? ==> r == data.value
  {
    data.GetOr([])
  }

  /** `events.filter(e => Matches(e, q))`: the matching events, in their original order. */
  function KeepMatching(events: seq<Event>, normalizedQuery: string): (r: seq<Event>)
    ensures |r| <= |events|
    ensures forall e :: e in r <==> e in events && Matches(e, normalizedQuery)
  {
    if events == [] then []
    else if Matches(events[0], normalizedQuery) then [events[0]] + KeepMatching(events[1..], normalizedQuery)
    else KeepMatching(events[1..], normalizedQuery)
  }

  /** The filter keeps every copy of a matching event and no copy of any other. */
  lemma {:induction false} KeepMatchingCounts(events: seq<Event>, normalizedQuery: string)
    ensures forall e :: multiset(KeepMatching(events, normalizedQuery))[e]
                     == if Matches(e, normalizedQuery) then multiset(events)[e] else 0
    decreases |events|
  {
    if events != [] {
      var rest := KeepMatching(events[1..], normalizedQuery);
      KeepMatchingCounts(events[1..], normalizedQuery);
      assert events == [events[0]] + events[1..];
      assert multiset(events) == multiset{events[0]} + multiset(events[1..]);
      if Matches(events[0], normalizedQuery) {
        assert multiset(KeepMatching(events, normalizedQuery)) == multiset{events[0]} + multiset(rest);
      }
    }
  }

  /** The filtered list of the page: everything when the normalized query is empty, else the matching events. */
  function Filtered(base: seq<Event>, query: string): seq<Event> {
    var q := NormalizeQuery(query);
    if q == [] then base else KeepMatching(base, q)
  }

  /**
   * An empty (or all-blank) query leaves the fetched list exactly as it is,
   * and in every case an event is kept iff it is fetched and its lower-cased
   * "id sessionId label" text includes the normalized query.
   */
  lemma FilteredKeepsExactlyTheMatches(base: seq<Event>, query: string)
    ensures NormalizeQuery(query) == [] ==> Filtered(base, query) == base
    ensures forall e :: e in Filtered(base, query) <==> e in base && Matches(e, NormalizeQuery(query))
    ensures forall e :: multiset(Filtered(base, query))[e]
                     == if Matches(e, NormalizeQuery(query)) then multiset(base)[e] else 0
  {
    var q := NormalizeQuery(query);
    if q == [] {
      forall e ensures Matches(e, q) {
        IncludesEmpty(ToLowerCase(SearchText(e)));
      }
    } else {
      KeepMatchingCounts(base, q);
    }
  }

  /** `sub` is `s` with some elements left out and the rest kept in their order. */
  predicate IsSubsequence<T(==)>(sub: seq<T>, s: seq<T>)
    decreases |s|
  {
    if sub == [] then true
    else if s == [] then false
    else if sub[0] == s[0] then IsSubsequence(sub[1..], s[1..])
    else IsSubsequence(sub, s[1..])
  }

  lemma {:induction false} KeepMatchingIsSubsequence(events: seq<Event>, normalizedQuery: string)
    ensures IsSubsequence(KeepMatching(events, normalizedQuery), events)
    decreases |events|
  {
    if events != [] {
      var r := KeepMatching(events, normalizedQuery);
      KeepMatchingIsSubsequence(events[1..], normalizedQuery);
      if Matches(events[0], normalizedQuery) {
        assert r[0] == events[0] && r[1..] == KeepMatching(events[1..], normalizedQuery);
      }
    }
  }

  lemma {:induction false} SubsequenceOfItself<T>(s: seq<T>)
    ensures IsSubsequence(s, s)
    decreases |s|
  {
    if s != [] {
      SubsequenceOfItself(s[1..]);
    }
  }

  /** Filtering never reorders or invents events: the result is a subsequence of the fetched list. */
  lemma FilteredIsSubsequence(base: seq<Event>, query: string)
    ensures IsSubsequence(Filtered(base, query), base)
  {
    if NormalizeQuery(query) == [] {
      SubsequenceOfItself(base);
    } else {
      KeepMatchingIsSubsequence(base, NormalizeQuery(query));
    }
  }

  lemma {:induction false} TrimStartLowerCase(s: string)
    ensures TrimStart(ToLowerCase(s)) == ToLowerCase(TrimStart(s))
    decreases |s|
  {
    if s != [] {
      LowerCaseKeepsTrimmable(s[0]);
      assert ToLowerCase(s)[1..] == ToLowerCase(s[1..]);
      TrimStartLowerCase(s[1..]);
    }
  }

  lemma {:induction false} TrimEndLowerCase(s: string)
    ensures TrimEnd(ToLowerCase(s)) == ToLowerCase(TrimEnd(s))
    decreases |s|
  {
    if s != [] {
      LowerCaseKeepsTrimmable(s[|s| - 1]);
      assert ToLowerCase(s)[..|s| - 1] == ToLowerCase(s[..|s| - 1]);
      TrimEndLowerCase(s[..|s| - 1]);
    }
  }

  /** Normalizing trims then lower-cases; lower-casing first and trimming after gives the same. */
  lemma NormalizeViaLowerCase(query: string)
    ensures NormalizeQuery(query) == Trim(ToLowerCase(query))
  {
    var t := TrimStart(query);
    calc {
      NormalizeQuery(query);
      ToLowerCase(TrimEnd(t));
      { TrimEndLowerCase(t); }
      TrimEnd(ToLowerCase(t));
      { TrimStartLowerCase(query); }
      TrimEnd(TrimStart(ToLowerCase(query)));
    }
  }

  /** The letter case of the query does not matter: queries equal up to case filter alike. */
  lemma QueryCaseIrrelevant(base: seq<Event>, query1: string, query2: string)
    requires ToLowerCase(query1) == ToLowerCase(query2)
    ensures Filtered(base, query1) == Filtered(base, query2)
  {
    NormalizeViaLowerCase(query1);
    NormalizeViaLowerCase(query2);
  }

  /** A query found, ignoring case, inside an event's id matches the event (the id "ABC123xyz" matches "abc123"). */
  lemma MatchInIdIgnoringCase(e: Event, normalizedQuery: string)
    requires Includes(ToLowerCase(e.id), normalizedQuery)
    ensures Matches(e, normalizedQuery)
  {
    var rest := " " + (e.sessionId + (" " + TypeLabel(e.kind)));
    ToLowerCaseConcat(e.id, rest);
    IncludesInPrefix(ToLowerCase(e.id), ToLowerCase(rest), normalizedQuery);
  }

  /** Likewise for a query found, ignoring case, inside the session id. */
  lemma MatchInSessionIdIgnoringCase(e: Event, normalizedQuery: string)
    requires Includes(ToLowerCase(e.sessionId), normalizedQuery)
    ensures Matches(e, normalizedQuery)
  {
    var tail := " " + TypeLabel(e.kind);
    var fromSession := e.sessionId + tail;
    var rest := " " + fromSession;
    ToLowerCaseConcat(e.sessionId, tail);
    IncludesInPrefix(ToLowerCase(e.sessionId), ToLowerCase(tail), normalizedQuery);
    ToLowerCaseConcat(" ", fromSession);
    IncludesInSuffix(ToLowerCase(" "), ToLowerCase(fromSession), normalizedQuery);
    ToLowerCaseConcat(e.id, rest);
    IncludesInSuffix(ToLowerCase(e.id), ToLowerCase(rest), normalizedQuery);
  }

  /** So the page keeps every fetched event whose id contains the query, whatever the case of either. */
  lemma KeptWhenIdContainsQuery(base: seq<Event>, query: string, e: Event)
    requires e in base
    requires Includes(ToLowerCase(e.id), NormalizeQuery(query))
    ensures e in Filtered(base, query)
  {
    MatchInIdIgnoringCase(e, NormalizeQuery(query));
    FilteredKeepsExactlyTheMatches(base, query);
  }
}
