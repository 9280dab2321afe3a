/**
 * The filter stage of a read request: an exact location match, then a start
 * bound, then an end bound, each skipped when its parameter is empty and each
 * a list comprehension over the result of the previous one.
 */
module Filtering {
  import opened Wrappers
  import opened Sequences
  import opened Timestamps
  import opened Reviews

  /** The review's timestamp is at or after `start`; a timestamp that does
      not parse is never kept (the stage raises before it gets here). */
  predicate OnOrAfter(r: Review, start: DateTime)
    ensures OnOrAfter(r, start) ==> ParseDateTime(r.timestamp).Some?
  {
    match ParseDateTime(r.timestamp)
    case Some(t) => LessEq(start, t)
    case None => false
  }

  predicate OnOrBefore(r: Review, end: DateTime)
    ensures OnOrBefore(r, end) ==> ParseDateTime(r.timestamp).Some?
  {
    match ParseDateTime(r.timestamp)
    case Some(t) => LessEq(t, end)
    case None => false
  }

  /** `[review for review in s if review["Location"] == location]` */
  function ByLocation(s: seq<Review>, location: string): (f: seq<Review>)
    ensures |f| <= |s|
    ensures forall i :: 0 <= i < |f| ==> f[i] in s && f[i].location == location
    ensures forall i :: 0 <= i < |s| && s[i].location == location ==> s[i] in f
  {
    Select(s, (r: Review) => r.location == location)
  }

  /** The comprehension keeping reviews at or after `start`. */
  function ByStart(s: seq<Review>, start: DateTime): (f: seq<Review>)
    ensures |f| <= |s|
    ensures forall i :: 0 <= i < |f| ==>
              f[i] in s && ParseDateTime(f[i].timestamp).Some? && LessEq(start, ParseDateTime(f[i].timestamp).value)
    ensures forall i :: 0 <= i < |s| && OnOrAfter(s[i], start) ==> s[i] in f
  {
    Select(s, (r: Review) => OnOrAfter(r, start))
  }

  /** The comprehension keeping reviews at or before `end`. */
  function ByEnd(s: seq<Review>, end: DateTime): (f: seq<Review>)
    ensures |f| <= |s|
    ensures forall i :: 0 <= i < |f| ==>
              f[i] in s && ParseDateTime(f[i].timestamp).Some? && LessEq(ParseDateTime(f[i].timestamp).value, end)
    ensures forall i :: 0 <= i < |s| && OnOrBefore(s[i], end) ==> s[i] in f
  {
    Select(s, (r: Review) => OnOrBefore(r, end))
  }

  /** Every timestamp in `s` can be read by `strptime`. */
  predicate Timestamped(s: seq<Review>)
  {
    forall i :: 0 <= i < |s| ==> ParseDateTime(s[i].timestamp).Some?
  }

  /** The start-date step: `None` where parsing the parameter, or the
      timestamp of any review still in the list, raises `ValueError`. */
  function StartStep(s: seq<Review>, startDate: string): (r: Option<seq<Review>>)
    ensures r.None? <==> startDate != "" && (ParseDate(startDate).None? || !Timestamped(s))
    ensures startDate == "" ==> r == Some(s)
    ensures r.Some? && startDate != "" ==>
              forall i :: 0 <= i < |r.value| ==> r.value[i] in s && OnOrAfter(r.value[i], ParseDate(startDate).value)
  {
    if startDate == "" then Some(s)
    else match ParseDate(startDate)
      case None => None
      case Some(d) => if Timestamped(s) then Some(ByStart(s, d)) else None
  }

  /** The end-date step, raising under the same conditions. */
  function EndStep(s: seq<Review>, endDate: string): (r: Option<seq<Review>>)
    ensures r.None? <==> endDate != "" && (ParseDate(endDate).None? || !Timestamped(s))
    ensures endDate == "" ==> r == Some(s)
    ensures r.Some? && endDate != "" ==>
              forall i :: 0 <= i < |r.value| ==> r.value[i] in s && OnOrBefore(r.value[i], ParseDate(endDate).value)
  {
    if endDate == "" then Some(s)
    else match ParseDate(endDate)
      case None => None
      case Some(d) => if Timestamped(s) then Some(ByEnd(s, d)) else None
  }

  /** The whole filter stage, in the order the server runs it: what it
      returns is drawn from the store, and with no parameter it is the store. */
  function FilterStage(s: seq<Review>, location: string, startDate: string, endDate: string): (r: Option<seq<Review>>)
    ensures r.Some? ==> |r.value| <= |s| && forall i :: 0 <= i < |r.value| ==> r.value[i] in s
    ensures location == "" && startDate == "" && endDate == "" ==> r == Some(s)
    ensures (startDate != "" && ParseDate(startDate).None?) || (endDate != "" && ParseDate(endDate).None?) ==> r.None?
  {
    var afterLocation := if location == "" then s else ByLocation(s, location);
    match StartStep(afterLocation, startDate)
    case None => None
    case Some(afterStart) => EndStep(afterStart, endDate)
  }

  /** The bounds a request asks for; an empty parameter asks for none. */
  datatype Criteria = Criteria(location: string, start: Option<DateTime>, end: Option<DateTime>)

  function CriteriaOf(location: string, startDate: string, endDate: string): Criteria
  {
    Criteria(location,
             if startDate == "" then None else ParseDate(startDate),
             if endDate == "" then None else ParseDate(endDate))
  }

  predicate MeetsLocation(r: Review, c: Criteria)
  {
    c.location == "" || r.location == c.location
  }

  predicate MeetsStart(r: Review, c: Criteria)
  {
    c.start.Some? ==> OnOrAfter(r, c.start.value)
  }

  predicate MeetsEnd(r: Review, c: Criteria)
  {
    c.end.Some? ==> OnOrBefore(r, c.end.value)
  }

  /** One review meets all the bounds at once. */
  predicate Matches(r: Review, c: Criteria)
  {
    MeetsLocation(r, c) && MeetsStart(r, c) && MeetsEnd(r, c)
  }

  // ---------------------------------------------------------------- lemmas

  lemma SelectKeepsTimestamped(s: seq<Review>, p: Review -> bool)
    requires Timestamped(s)
    ensures Timestamped(Select(s, p))
  {
  }

  /** The stage raises only for a malformed parameter or a malformed stored
      timestamp: with every stored timestamp well formed, it succeeds exactly
      when each non-empty date parameter parses. */
  lemma FilterStageDefined(s: seq<Review>, location: string, startDate: string, endDate: string)
    requires Timestamped(s)
    ensures FilterStage(s, location, startDate, endDate).Some? <==>
              (startDate == "" || ParseDate(startDate).Some?) && (endDate == "" || ParseDate(endDate).Some?)
  {
    var afterLocation := if location == "" then s else ByLocation(s, location);
    SelectKeepsTimestamped(s, (r: Review) => r.location == location);
    if startDate != "" && ParseDate(startDate).Some? {
      SelectKeepsTimestamped(afterLocation, (r: Review) => OnOrAfter(r, ParseDate(startDate).value));
    }
  }

  lemma LocationStepSelects(s: seq<Review>, c: Criteria)
    ensures (if c.location == "" then s else ByLocation(s, c.location))
              == Select(s, (r: Review) => MeetsLocation(r, c))
  {
    if c.location == "" {
      SelectAll(s, (r: Review) => MeetsLocation(r, c));
    } else {
      SelectCongruent(s, (r: Review) => MeetsLocation(r, c), (r: Review) => r.location == c.location);
    }
  }

  lemma StartStepSelects(s: seq<Review>, startDate: string, c: Criteria)
    requires StartStep(s, startDate).Some?
    requires c.start == if startDate == "" then None else ParseDate(startDate)
    ensures StartStep(s, startDate).value == Select(s, (r: Review) => MeetsStart(r, c))
  {
    if startDate == "" {
      SelectAll(s, (r: Review) => MeetsStart(r, c));
    } else {
      SelectCongruent(s, (r: Review) => MeetsStart(r, c), (r: Review) => OnOrAfter(r, c.start.value));
    }
  }

  lemma EndStepSelects(s: seq<Review>, endDate: string, c: Criteria)
    requires EndStep(s, endDate).Some?
    requires c.end == if endDate == "" then None else ParseDate(endDate)
    ensures EndStep(s, endDate).value == Select(s, (r: Review) => MeetsEnd(r, c))
  {
    if endDate == "" {
      SelectAll(s, (r: Review) => MeetsEnd(r, c));
    } else {
      SelectCongruent(s, (r: Review) => MeetsEnd(r, c), (r: Review) => OnOrBefore(r, c.end.value));
    }
  }

  /** Whatever the stage returns is the reviews of the store meeting all the
      bounds together, in store order: the three filters are one conjunction. */
  lemma FilterStageIsConjunction(s: seq<Review>, location: string, startDate: string, endDate: string)
    requires FilterStage(s, location, startDate, endDate).Some?
    ensures FilterStage(s, location, startDate, endDate).value
              == Select(s, (r: Review) => Matches(r, CriteriaOf(location, startDate, endDate)))
  {
    var c := CriteriaOf(location, startDate, endDate);
    var pl := (r: Review) => MeetsLocation(r, c);
    var ps := (r: Review) => MeetsStart(r, c);
    var pe := (r: Review) => MeetsEnd(r, c);
    var pls := (r: Review) => MeetsLocation(r, c) && MeetsStart(r, c);
    var s1 := if location == "" then s else ByLocation(s, location);
    LocationStepSelects(s, c);
    var s2 := StartStep(s1, startDate).value;
    StartStepSelects(s1, startDate, c);
    SelectConjunction(s, pl, ps, pls);
    EndStepSelects(s2, endDate, c);
    SelectConjunction(s, pls, pe, (r: Review) => Matches(r, c));
  }

  /** A review is in the result exactly when it is in the store and meets
      every bound. */
  lemma FilterMembership(s: seq<Review>, location: string, startDate: string, endDate: string, r: Review)
    requires FilterStage(s, location, startDate, endDate).Some?
    ensures r in FilterStage(s, location, startDate, endDate).value <==>
              r in s && Matches(r, CriteriaOf(location, startDate, endDate))
  {
    FilterStageIsConjunction(s, location, startDate, endDate);
  }

  /** Every review the stage returns is a review of the store. */
  lemma FilterWithinStore(s: seq<Review>, location: string, startDate: string, endDate: string)
    requires FilterStage(s, location, startDate, endDate).Some?
    ensures forall i :: 0 <= i < |FilterStage(s, location, startDate, endDate).value| ==>
              FilterStage(s, location, startDate, endDate).value[i] in s
  {
    FilterStageIsConjunction(s, location, startDate, endDate);
  }

  /** The result is the store with some reviews deleted and the rest in
      store order. */
  lemma FilterIsSubsequence(s: seq<Review>, location: string, startDate: string, endDate: string)
    requires FilterStage(s, location, startDate, endDate).Some?
    ensures IsSubsequence(FilterStage(s, location, startDate, endDate).value, s)
  {
    FilterStageIsConjunction(s, location, startDate, endDate);
    SelectIsSubsequence(s, (r: Review) => Matches(r, CriteriaOf(location, startDate, endDate)));
  }

  /** With no date parameter, a location keeps exactly the reviews at that
      location in store order, and no location keeps the store as it is. */
  lemma LocationFilterExact(s: seq<Review>, location: string)
    ensures FilterStage(s, location, "", "")
              == Some(if location == "" then s else Select(s, (r: Review) => r.location == location))
  {
  }

  /** Every kept review is at or after midnight of the start date and at or
      before midnight of the end date. */
  lemma FilterDateBounds(s: seq<Review>, location: string, startDate: string, endDate: string, r: Review)
    requires FilterStage(s, location, startDate, endDate).Some?
    requires r in FilterStage(s, location, startDate, endDate).value
    ensures startDate != "" ==> ParseDate(startDate).Some? && ParseDateTime(r.timestamp).Some?
                                && LessEq(ParseDate(startDate).value, ParseDateTime(r.timestamp).value)
    ensures endDate != "" ==> ParseDate(endDate).Some? && ParseDateTime(r.timestamp).Some?
                              && LessEq(ParseDateTime(r.timestamp).value, ParseDate(endDate).value)
  {
    FilterMembership(s, location, startDate, endDate, r);
  }

  /** The end bound is midnight at the start of the end day, so a review
      written later on that day is not kept. */
  lemma EndDayExcluded(s: seq<Review>, location: string, startDate: string, endDate: string, r: Review)
    requires FilterStage(s, location, startDate, endDate).Some?
    requires endDate != "" && ParseDate(endDate).Some?
    requires ParseDateTime(r.timestamp).Some?
    requires var t, e := ParseDateTime(r.timestamp).value, ParseDate(endDate).value;
      t.year == e.year && t.month == e.month && t.day == e.day && !IsMidnight(t)
    ensures r !in FilterStage(s, location, startDate, endDate).value
  {
    FilterMembership(s, location, startDate, endDate, r);
  }

  /** With well-formed stored timestamps, a start date after the end date
      yields the empty list and does not raise. */
  lemma StartAfterEndIsEmpty(s: seq<Review>, location: string, startDate: string, endDate: string)
    requires Timestamped(s)
    requires startDate != "" && endDate != ""
    requires ParseDate(startDate).Some? && ParseDate(endDate).Some?
    requires !LessEq(ParseDate(startDate).value, ParseDate(endDate).value)
    ensures FilterStage(s, location, startDate, endDate) == Some([])
  {
    FilterStageDefined(s, location, startDate, endDate);
    var f := FilterStage(s, location, startDate, endDate).value;
    if f != [] {
      FilterDateBounds(s, location, startDate, endDate, f[0]);
      var t := ParseDateTime(f[0].timestamp).value;
      LessEqTransitive(ParseDate(startDate).value, t, ParseDate(endDate).value);
      assert false;
    }
  }

  /** The three filters commute pairwise, so they may run in any order. */
  lemma FiltersCommute(s: seq<Review>, location: string, start: DateTime, end: DateTime)
    ensures ByStart(ByLocation(s, location), start) == ByLocation(ByStart(s, start), location)
    ensures ByEnd(ByLocation(s, location), end) == ByLocation(ByEnd(s, end), location)
    ensures ByEnd(ByStart(s, start), end) == ByStart(ByEnd(s, end), start)
  {
    var pl := (r: Review) => r.location == location;
    var ps := (r: Review) => OnOrAfter(r, start);
    var pe := (r: Review) => OnOrBefore(r, end);
    SelectCommutes(s, pl, ps);
    SelectCommutes(s, pl, pe);
    SelectCommutes(s, ps, pe);
  }
}
