/**
 * A stored review. The server keeps each review as a mutable record that the
 * store and every response share: its four columns never change once it
 * exists, but a read request writes a `sentiment` entry into it.
 */
module Reviews {
  import opened Wrappers

  /** The scorer's polarity scores; only `compound` takes part in ranking. */
  datatype Sentiment = Sentiment(neg: real, neu: real, pos: real, compound: real)

  class Review {
    const id: string
    const body: string
    const location: string
    const timestamp: string
    var sentiment: Option<Sentiment>

    /** A record as the dataset loader or a write request creates it:
        the four columns and no sentiment yet. */
    constructor (id: string, body: string, location: string, timestamp: string)
      ensures this.id == id && this.body == body && this.location == location
      ensures this.timestamp == timestamp && sentiment == None
    {
      this.id := id;
      this.body := body;
      this.location := location;
      this.timestamp := timestamp;
      sentiment := None;
    }
  }
}
