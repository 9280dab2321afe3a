/**
 * The request handler: a GET filters and ranks the stored reviews, a POST
 * validates a new review and appends it to the store. The review list the
 * handler reads and extends is owned by the server object; the sentiment
 * scorer is a pure function it is given.
 */
module Server {
  import opened Wrappers
  import opened Timestamps
  import opened Reviews
  import opened Filtering
  import opened Ranking

  /** The only locations a new review may name. */
  const AllowedLocations: set<string> := {
    "Albuquerque, New Mexico",
    "Carlsbad, California",
    "Chula Vista, California",
    "Colorado Springs, Colorado",
    "Denver, Colorado",
    "El Cajon, California",
    "El Paso, Texas",
    "Escondido, California",
    "Fresno, California",
    "La Mesa, California",
    "Las Vegas, Nevada",
    "Los Angeles, California",
    "Oceanside, California",
    "Phoenix, Arizona",
    "Sacramento, California",
    "Salt Lake City, Utah",
    "San Diego, California",
    "Tucson, Arizona"
  }

  const LocationNotAllowedError := "Location not allowed"
  const FieldsRequiredError := "ReviewBody and Location are required"

  // ------------------------------------------------------------ validation

  datatype Verdict = Accepted | LocationNotAllowed | MissingFields

  /** The checks of a write request, in the order the server makes them:
      a named location outside the allow-list is reported even when the body
      is missing too. */
  function Validate(body: string, location: string): (v: Verdict)
    ensures v == LocationNotAllowed <==> location != "" && location !in AllowedLocations
    ensures v == MissingFields <==> (location == "" || location in AllowedLocations) && (body == "" || location == "")
    ensures v == Accepted <==> body != "" && location in AllowedLocations
  {
    if location != "" && location !in AllowedLocations then LocationNotAllowed
    else if body != "" && location != "" then Accepted
    else MissingFields
  }

  // ------------------------------------------------------------ parameters

  /** Decoded query or form fields: each name with its values in order. */
  type Params = map<string, seq<string>>

  /** What `parse_qs` produces: no name is mapped to an empty list. */
  predicate FromParseQs(p: Params)
  {
    forall k :: k in p ==> |p[k]| > 0
  }

  /** `p.get(key, [""])[0]`: the first value given for `key`, or the empty
      string when the request does not mention it. */
  function FirstValue(p: Params, key: string): (v: string)
    requires FromParseQs(p)
    ensures key in p ==> v == p[key][0]
    ensures key !in p ==> v == ""
  {
    (if key in p then p[key] else [""])[0]
  }

  /** A read request naming none of the three parameters filters nothing. */
  lemma NoParametersKeepsAll(s: seq<Review>, query: Params)
    requires FromParseQs(query)
    requires "location" !in query && "start_date" !in query && "end_date" !in query
    ensures FilterStage(s, FirstValue(query, "location"), FirstValue(query, "start_date"),
                        FirstValue(query, "end_date")) == Some(s)
  {
  }

  // ------------------------------------------------------------- responses

  datatype Request = Request(requestMethod: string, queryParams: Params, formParams: Params)

  /** The JSON body of a response. */
  datatype Payload =
    | ReviewList(items: seq<Review>)
    | CreatedReview(review: Review)
    | ErrorMessage(error: string)

  datatype Reply =
    | Respond(status: string, payload: Payload)  // start_response(status, JSON headers), then the body
    | Raised                                     // strptime raised ValueError; nothing was answered
    | Unanswered                                 // neither GET nor POST: the call returns None

  class ReviewAnalyzerServer {
    var reviews: seq<Review>
    /** `analyze_sentiment`, i.e. `sia.polarity_scores`: a pure scorer of a review's text. */
    const analyzer: string -> Sentiment

    /** Review ids are unique across the store. */
    ghost predicate Valid()
      reads this
    {
      forall i, j :: 0 <= i < j < |reviews| ==> reviews[i].id != reviews[j].id
    }

    ghost function Ids(): set<string>
      reads this
    {
      set i | 0 <= i < |reviews| :: reviews[i].id
    }

    constructor (initial: seq<Review>, analyzer: string -> Sentiment)
      requires forall i, j :: 0 <= i < j < |initial| ==> initial[i].id != initial[j].id
      ensures Valid() && reviews == initial && this.analyzer == analyzer
    {
      reviews := initial;
      this.analyzer := analyzer;
    }

    /** The ranking key: the compound score of a review's body. */
    function CompoundKey(): Review -> real
    {
      (r: Review) => analyzer(r.body).compound
    }

    /** What a read request does: the stored list keeps its length and order;
        if the filter stage raises, nothing changes; otherwise every filtered
        review has its sentiment written into it and the answer is the
        filtered reviews ranked by descending compound score. */
    twostate predicate GetEffect(query: Params, new reply: Reply)
      requires FromParseQs(query)
      reads this, reviews
    {
      && reviews == old(reviews)
      && match FilterStage(old(reviews), FirstValue(query, "location"), FirstValue(query, "start_date"),
                           FirstValue(query, "end_date"))
         case None =>
           && reply == Raised
           && forall r :: r in reviews ==> r.sentiment == old(r.sentiment)
         case Some(filtered) =>
           && (forall r :: r in reviews ==>
                 r.sentiment == if r in filtered then Some(analyzer(r.body)) else old(r.sentiment))
           && reply == Respond("200 OK", ReviewList(SortDescending(filtered, CompoundKey())))
    }

    /** What a write request does: the validation verdict decides the answer;
        only an accepted review changes the store, by appending one fresh
        record with the given fields, the new id and the formatted time. */
    twostate predicate PostEffect(form: Params, newId: string, now: DateTime, new reply: Reply)
      requires FromParseQs(form) && ValidDateTime(now)
      reads this, if reply.Respond? && reply.payload.CreatedReview? then {reply.payload.review} else {}
    {
      var body, location := FirstValue(form, "ReviewBody"), FirstValue(form, "Location");
      match Validate(body, location)
      case LocationNotAllowed =>
        reply == Respond("400 Bad Request", ErrorMessage(LocationNotAllowedError)) && reviews == old(reviews)
      case MissingFields =>
        reply == Respond("400 Bad Request", ErrorMessage(FieldsRequiredError)) && reviews == old(reviews)
      case Accepted =>
        && reply.Respond? && reply.status == "201 Created" && reply.payload.CreatedReview?
        && var r := reply.payload.review;
           && fresh(r)
           && reviews == old(reviews) + [r]
           && r.id == newId && r.body == body && r.location == location
           && r.timestamp == FormatDateTime(now) && r.sentiment == None
    }

    /** Dispatch on the request method. */
    method Call(request: Request, newId: string, now: DateTime) returns (reply: Reply)
      requires Valid() && newId !in Ids() && ValidDateTime(now)
      requires FromParseQs(request.queryParams) && FromParseQs(request.formParams)
      modifies this, reviews
      ensures Valid()
      ensures request.requestMethod == "GET" ==> GetEffect(request.queryParams, reply)
      ensures request.requestMethod == "POST" ==>
                PostEffect(request.formParams, newId, now, reply) && unchanged(old(reviews))
      ensures request.requestMethod != "GET" && request.requestMethod != "POST" ==>
                reply == Unanswered && unchanged(this) && unchanged(reviews)
    {
      if request.requestMethod == "GET" {
        reply := Get(request.queryParams);
        return;
      }
      if request.requestMethod == "POST" {
        reply := Post(request.formParams, newId, now);
        return;
      }
      reply := Unanswered;
    }

    method Get(query: Params) returns (reply: Reply)
      requires FromParseQs(query)
      modifies reviews
      ensures GetEffect(query, reply)
      ensures reply.Respond? ==>
                && reply.payload.ReviewList?
                && var items := reply.payload.items;
                   && (forall r :: r in items ==> r in reviews && r.sentiment == Some(analyzer(r.body)))
                   && (forall i, j :: 0 <= i < j < |items| ==>
                         items[i].sentiment.value.compound >= items[j].sentiment.value.compound)
    {
      var location := FirstValue(query, "location");
      var startDate := FirstValue(query, "start_date");
      var endDate := FirstValue(query, "end_date");
      var filtered := FilterStage(reviews, location, startDate, endDate);
      if filtered.None? {
        return Raised;
      }
      var f := filtered.value;
      FilterWithinStore(reviews, location, startDate, endDate);

      var sentimented := AttachSentiments(f);
      assert forall r :: r in reviews ==>
               r.sentiment == if r in f then Some(analyzer(r.body)) else old(r.sentiment);

      var ranked := SortDescending(sentimented, CompoundKey());
      RankedBySentiment(sentimented, ranked);
      reply := Respond("200 OK", ReviewList(ranked));
    }

    /** Asking the same question twice of an unchanged store gives the same
        answer: the same records, in the same order, with the same scores. */
    method RepeatedGet(query: Params) returns (first: Reply, second: Reply)
      requires FromParseQs(query)
      modifies reviews
      ensures first == second
    {
      first := Get(query);
      second := Get(query);
    }

    /** Once every review carries its score, ranking by the scorer's key is
        ranking by the stored `compound`, and it keeps the same records. */
    lemma RankedBySentiment(s: seq<Review>, ranked: seq<Review>)
      requires forall r :: r in s ==> r.sentiment == Some(analyzer(r.body))
      requires ranked == SortDescending(s, CompoundKey())
      ensures forall r :: r in ranked ==> r in s && r.sentiment == Some(analyzer(r.body))
      ensures forall i, j :: 0 <= i < j < |ranked| ==>
                ranked[i].sentiment.value.compound >= ranked[j].sentiment.value.compound
    {
      SortIsDescending(s, CompoundKey());
      forall r | r in ranked
        ensures r in s
      {
        assert r in multiset(ranked);
      }
      forall i, j | 0 <= i < j < |ranked|
        ensures ranked[i].sentiment.value.compound >= ranked[j].sentiment.value.compound
      {
        assert CompoundKey()(ranked[i]) >= CompoundKey()(ranked[j]);
      }
    }

    /** The scoring loop: each review of `filtered` gets the scorer's value
        for its body written into it, and the list it returns is `filtered`
        itself, as the same records. */
    method AttachSentiments(filtered: seq<Review>) returns (sentimented: seq<Review>)
      modifies filtered
      ensures sentimented == filtered
      ensures forall r :: r in filtered ==> r.sentiment == Some(analyzer(r.body))
    {
      sentimented := [];
      var i := 0;
      while i < |filtered|
        invariant 0 <= i <= |filtered|
        invariant sentimented == filtered[..i]
        invariant forall r :: r in filtered[..i] ==> r.sentiment == Some(analyzer(r.body))
      {
        var review := filtered[i];
        review.sentiment := Some(analyzer(review.body));
        sentimented := sentimented + [review];
        i := i + 1;
      }
    }

    method Post(form: Params, newId: string, now: DateTime) returns (reply: Reply)
      requires Valid() && newId !in Ids() && ValidDateTime(now)
      requires FromParseQs(form)
      modifies this
      ensures Valid()
      ensures PostEffect(form, newId, now, reply)
      ensures old(Timestamped(reviews)) ==> Timestamped(reviews)
    {
      var body := FirstValue(form, "ReviewBody");
      var location := FirstValue(form, "Location");
      if location != "" && location !in AllowedLocations {
        return Respond("400 Bad Request", ErrorMessage(LocationNotAllowedError));
      }
      if body != "" && location != "" {
        var review := new Review(newId, body, location, FormatDateTime(now));
        ParseFormat(now);
        assert forall i :: 0 <= i < |reviews| ==> reviews[i].id in Ids();
        reviews := reviews + [review];
        return Respond("201 Created", CreatedReview(review));
      }
      reply := Respond("400 Bad Request", ErrorMessage(FieldsRequiredError));
    }
  }
}
